/** Which migrated files are client configurations, which of them are unsafe, and how they are rewritten. */
module MigrationConfigs {
  import opened Basics
  import opened FileTree
  import opened Migration

  const ETC_SOURCE: Path := ["etc", "netbird"]
  const LIB_SOURCE: Path := ["var", "lib", "netbird"]
  const ETC_TARGET: Path := ["etc", "anonbird"]
  const LIB_TARGET: Path := ["var", "lib", "anonbird"]

  predicate Given(v: Json) {
    match v
    case Text(s) => exists i :: 0 <= i < |s| && !IsSpace(s[i])
    case Object(size) => size > 0
    case Null => false
    case _ => true
  }

  /** The first of the three spellings that is present decides. */
  predicate HasUrl(f: map<string, Json>) {
    if "ManagementURL" in f then Given(f["ManagementURL"])
    else if "management_url" in f then Given(f["management_url"])
    else "managementURL" in f && Given(f["managementURL"])
  }

  predicate Anonymous(f: map<string, Json>) {
    "anonymous_mode" in f && f["anonymous_mode"] == Bool(true)
  }

  /** A client configuration that would connect in the clear. */
  predicate Unsafe(c: Content) {
    c.Config? && HasUrl(c.fields) && !Anonymous(c.fields)
  }

  /** A parsed URL marshals to an object with the eleven fields of the library's URL type. */
  const URL_OBJECT := Object(11)

  const HARDENED := {"ManagementURL", "AdminURL", "anonymous_mode", "anonymous_transport", "DisableAutoConnect"}

  function Harden(c: Content, token: Token): (r: Content)
    ensures !Unsafe(r) && (r.Config? <==> c.Config?)
    ensures c.Config? ==> r.fields - HARDENED == c.fields - HARDENED
    ensures r != c ==> c.Config? && HasUrl(c.fields) && r.Config? && HasUrl(r.fields) && Anonymous(r.fields)
  {
    if c.Config? && HasUrl(c.fields) then
      Config(c.fields["ManagementURL" := URL_OBJECT]["AdminURL" := URL_OBJECT]["anonymous_mode" := Bool(true)]
             ["anonymous_transport" := token.transport]["DisableAutoConnect" := Bool(true)])
    else c
  }

  function Hardener(token: Token): Content -> Content {
    c => Harden(c, token)
  }

  /** Auto-connect is switched on in anonymous client configurations and nowhere else. */
  function AutoConnect(c: Content): (r: Content)
    ensures r != c <==> c.Config? && HasUrl(c.fields) && Anonymous(c.fields)
                        && ("DisableAutoConnect" in c.fields ==> c.fields["DisableAutoConnect"] != Bool(false))
    ensures r != c ==> r.Config? && r.fields == c.fields["DisableAutoConnect" := Bool(false)]
                       && HasUrl(r.fields) && Anonymous(r.fields)
  {
    if c.Config? && HasUrl(c.fields) && Anonymous(c.fields)
       && ("DisableAutoConnect" in c.fields ==> c.fields["DisableAutoConnect"] != Bool(false))
    then
      var f := c.fields["DisableAutoConnect" := Bool(false)];
      assert f["DisableAutoConnect"] == Bool(false);
      Config(f)
    else c
  }

  predicate EndsInJson(name: string) {
    |name| >= 5 && name[|name| - 5..] == ".json"
  }

  /** The walk looks at `p`: not a directory, and named like a JSON file. */
  predicate Visited(p: Path, e: Entry) {
    p != [] && EndsInJson(p[|p| - 1]) && e != Dir
  }

  /** Every visited entry below `root` can be read. */
  ghost predicate Readable(t: Tree, root: Path) {
    && Lstat(t, root) != NotDir
    && forall p :: p in t && Within(root, p) && Visited(p, t[p]) ==> t[p].File?
  }

  ghost predicate AllSafe(t: Tree, root: Path) {
    forall p :: p in t && Within(root, p) && Visited(p, t[p]) && t[p].File? ==> !Unsafe(t[p].content)
  }

  function WalkedAt(t: Tree, root: Path, f: Content -> Content, p: Path): Option<Entry> {
    if Within(root, p) && p in t && Visited(p, t[p]) && t[p].File? then Some(File(f(t[p].content))) else At(t, p)
  }

  /** The tree after a walk that rewrites every JSON file below `root` with `f`. */
  ghost function Walk(t: Tree, root: Path, f: Content -> Content): (u: Tree)
    ensures forall p :: At(u, p) == WalkedAt(t, root, f, p)
  {
    t + Tabulate(Subtree(t, root), p => if WalkedAt(t, root, f, p).Some? then WalkedAt(t, root, f, p).value else Dir)
  }

  // ----- Rejoining -----

  function HelperFiles(dir: Path): seq<Path> {
    [dir + ["management-url"], dir + ["setup-key"]]
  }

  predicate CanOverwrite(t: Tree, p: Path) {
    Lstat(t, p) != NotDir && (p in t ==> t[p].File?)
  }

  function Overwrite(t: Tree, p: Path, c: Content): Tree {
    if p in t then t[p := File(c)] else t
  }

  predicate CanHelp(t: Tree, dir: Path) {
    CanOverwrite(t, HelperFiles(dir)[0]) && CanOverwrite(t, HelperFiles(dir)[1])
  }

  function Help(t: Tree, dir: Path, token: Token): Tree {
    Overwrite(Overwrite(t, HelperFiles(dir)[0], Plain(token.url + "\n")), HelperFiles(dir)[1], Plain(token.key + "\n"))
  }

  predicate IsConfigCopy(a: Action) {
    a.Copy? && (a.target == ETC_TARGET || a.target == LIB_TARGET)
  }

  ghost predicate CanHardenStep(o: Options, t: Tree, a: Action, token: Token) {
    IsConfigCopy(a) ==>
      match Lstat(t, Mapped(o, a.target))
      case Missing => true
      case NotDir => false
      case Found =>
        && Readable(t, Mapped(o, a.target))
        && (a.target == ETC_TARGET ==>
              CanHelp(Walk(t, Mapped(o, a.target), Hardener(token)), Mapped(o, a.target)))
  }

  ghost function HardenStep(o: Options, t: Tree, a: Action, token: Token): Tree {
    if !IsConfigCopy(a) || Mapped(o, a.target) !in t then t else
      var u := Walk(t, Mapped(o, a.target), Hardener(token));
      if a.target == ETC_TARGET then Help(u, Mapped(o, a.target), token) else u
  }

  ghost predicate CanHarden(o: Options, t: Tree, actions: seq<Action>, token: Token) {
    actions == [] ||
    var n := |actions| - 1;
    && CanHarden(o, t, actions[..n], token)
    && CanHardenStep(o, HardenPlan(o, t, actions[..n], token), actions[n], token)
  }

  /** All copied configurations hardened, action by action. */
  ghost function HardenPlan(o: Options, t: Tree, actions: seq<Action>, token: Token): Tree {
    if actions == [] then t else
      var n := |actions| - 1;
      HardenStep(o, HardenPlan(o, t, actions[..n], token), actions[n], token)
  }

  lemma WalkFrame(t: Tree, root: Path, f: Content -> Content, x: Path)
    requires Apart(x, root)
    ensures Same(t, Walk(t, root, f), x)
  {
    forall p | Within(x, p) ensures At(t, p) == At(Walk(t, root, f), p) {
      ApartBelow(x, root, p);
    }
  }

  lemma HelperBelow(dir: Path)
    ensures Within(dir, HelperFiles(dir)[0]) && Within(dir, HelperFiles(dir)[1])
  {
    assert HelperFiles(dir)[0][..|dir|] == dir && HelperFiles(dir)[1][..|dir|] == dir;
  }

  lemma HelpFrame(t: Tree, dir: Path, token: Token, x: Path)
    requires Apart(x, dir)
    ensures Same(t, Help(t, dir, token), x)
  {
    HelperBelow(dir);
    forall p | Within(x, p) ensures At(t, p) == At(Help(t, dir, token), p) {
      ApartBelow(x, dir, p);
    }
  }

  lemma HardenStepFrame(o: Options, t: Tree, a: Action, token: Token, x: Path)
    requires Apart(x, Mapped(o, a.target))
    ensures Same(t, HardenStep(o, t, a, token), x)
  {
    var dir := Mapped(o, a.target);
    var u := Walk(t, dir, Hardener(token));
    WalkFrame(t, dir, Hardener(token), x);
    HelpFrame(u, dir, token, x);
    SameTrans(t, u, Help(u, dir, token), x);
  }

  lemma {:induction false} HardenFrame(o: Options, t: Tree, actions: seq<Action>, token: Token, x: Path)
    requires forall i :: 0 <= i < |actions| ==> Apart(x, Mapped(o, actions[i].target))
    ensures Same(t, HardenPlan(o, t, actions, token), x)
    decreases |actions|
  {
    if actions != [] {
      var n := |actions| - 1;
      var u := HardenPlan(o, t, actions[..n], token);
      HardenFrame(o, t, actions[..n], token, x);
      HardenStepFrame(o, u, actions[n], token, x);
      SameTrans(t, u, HardenStep(o, u, actions[n], token), x);
    }
  }

  /** Hardening leaves everything outside the targets as it is. */
  lemma {:induction false} HardenKeeps(o: Options, t: Tree, actions: seq<Action>, token: Token, p: Path)
    requires forall i :: 0 <= i < |actions| ==> !Within(Mapped(o, actions[i].target), p)
    ensures At(HardenPlan(o, t, actions, token), p) == At(t, p)
    decreases |actions|
  {
    if actions != [] {
      var n := |actions| - 1;
      HardenKeeps(o, t, actions[..n], token, p);
      HelperBelow(Mapped(o, actions[n].target));
    }
  }

  // ----- What hardening achieves -----

  lemma WalkSafe(t: Tree, root: Path, token: Token)
    ensures AllSafe(Walk(t, root, Hardener(token)), root)
  {
    var u := Walk(t, root, Hardener(token));
    forall p | p in u && Within(root, p) && Visited(p, u[p]) && u[p].File? ensures !Unsafe(u[p].content) {
      assert At(u, p) == WalkedAt(t, root, Hardener(token), p);
    }
  }

  lemma HelpSafe(t: Tree, dir: Path, token: Token, root: Path)
    requires AllSafe(t, root)
    ensures AllSafe(Help(t, dir, token), root)
  {
    var u := Help(t, dir, token);
    forall p | p in u && Within(root, p) && Visited(p, u[p]) && u[p].File? ensures !Unsafe(u[p].content) {
      if p != HelperFiles(dir)[0] && p != HelperFiles(dir)[1] {
        assert p in t && u[p] == t[p];
      }
    }
  }

  lemma SameSafe(t: Tree, u: Tree, root: Path)
    requires Same(t, u, root) && AllSafe(t, root)
    ensures AllSafe(u, root)
  {
    forall p | p in u && Within(root, p) && Visited(p, u[p]) && u[p].File? ensures !Unsafe(u[p].content) {
      assert At(t, p) == At(u, p);
    }
  }

  lemma HardenStepSafe(o: Options, t: Tree, a: Action, token: Token)
    requires Valid(t) && IsConfigCopy(a)
    ensures AllSafe(HardenStep(o, t, a, token), Mapped(o, a.target))
  {
    var dir := Mapped(o, a.target);
    if dir in t {
      WalkSafe(t, dir, token);
      HelpSafe(Walk(t, dir, Hardener(token)), dir, token, dir);
    } else {
      forall p | p in t ensures !Within(dir, p) {
        assert |dir| < |p| ==> At(t, p[..|dir|]) == Some(Dir);
        assert |dir| == |p| ==> p[..|dir|] == p;
      }
    }
  }

  // ----- Validity -----

  /** Neither what exists nor what is a directory differs. */
  ghost predicate SameShape(t: Tree, u: Tree) {
    forall p :: (p in t <==> p in u) && (At(t, p) == Some(Dir) <==> At(u, p) == Some(Dir))
  }

  lemma ShapeValid(t: Tree, u: Tree)
    requires Valid(t) && SameShape(t, u)
    ensures Valid(u)
  {
    forall p, k | p in u && 0 <= k < |p| ensures At(u, p[..k]) == Some(Dir) {
      assert At(t, p[..k]) == Some(Dir);
    }
  }

  lemma WalkShape(t: Tree, root: Path, f: Content -> Content)
    ensures SameShape(t, Walk(t, root, f))
  {
    var u := Walk(t, root, f);
    forall p ensures (p in t <==> p in u) && (At(t, p) == Some(Dir) <==> At(u, p) == Some(Dir)) {
      assert At(u, p) == WalkedAt(t, root, f, p);
    }
  }

  lemma OverwriteShape(t: Tree, p: Path, c: Content)
    requires CanOverwrite(t, p)
    ensures SameShape(t, Overwrite(t, p, c))
  {
  }

  lemma ShapeTrans(t: Tree, u: Tree, v: Tree)
    requires SameShape(t, u) && SameShape(u, v)
    ensures SameShape(t, v)
  {
  }

  lemma HelpShape(t: Tree, dir: Path, token: Token)
    requires CanHelp(t, dir)
    ensures SameShape(t, Help(t, dir, token))
  {
    var u := Overwrite(t, HelperFiles(dir)[0], Plain(token.url + "\n"));
    OverwriteShape(t, HelperFiles(dir)[0], Plain(token.url + "\n"));
    assert CanOverwrite(u, HelperFiles(dir)[1]);
    OverwriteShape(u, HelperFiles(dir)[1], Plain(token.key + "\n"));
    ShapeTrans(t, u, Help(t, dir, token));
  }

  lemma HardenStepShape(o: Options, t: Tree, a: Action, token: Token)
    requires CanHardenStep(o, t, a, token)
    ensures SameShape(t, HardenStep(o, t, a, token))
  {
    var dir := Mapped(o, a.target);
    var u := Walk(t, dir, Hardener(token));
    WalkShape(t, dir, Hardener(token));
    if IsConfigCopy(a) && dir in t && a.target == ETC_TARGET {
      HelpShape(u, dir, token);
      ShapeTrans(t, u, Help(u, dir, token));
    }
  }

  lemma {:induction false} HardenShape(o: Options, t: Tree, actions: seq<Action>, token: Token)
    requires CanHarden(o, t, actions, token)
    ensures SameShape(t, HardenPlan(o, t, actions, token))
    decreases |actions|
  {
    if actions != [] {
      var n := |actions| - 1;
      var u := HardenPlan(o, t, actions[..n], token);
      HardenShape(o, t, actions[..n], token);
      HardenStepShape(o, u, actions[n], token);
      ShapeTrans(t, u, HardenStep(o, u, actions[n], token));
    }
  }

  /** After hardening, no copied configuration is unsafe. */
  lemma {:induction false} HardenPlanSafe(o: Options, t: Tree, actions: seq<Action>, token: Token, i: nat)
    requires Valid(t) && CanHarden(o, t, actions, token) && i < |actions| && IsConfigCopy(actions[i])
    requires forall j :: i < j < |actions| ==> Apart(Mapped(o, actions[i].target), Mapped(o, actions[j].target))
    ensures AllSafe(HardenPlan(o, t, actions, token), Mapped(o, actions[i].target))
    decreases |actions|
  {
    var n := |actions| - 1;
    var u := HardenPlan(o, t, actions[..n], token);
    HardenShape(o, t, actions[..n], token);
    ShapeValid(t, u);
    if i == n {
      HardenStepSafe(o, u, actions[n], token);
    } else {
      HardenPlanSafe(o, t, actions[..n], token, i);
      HardenStepFrame(o, u, actions[n], token, Mapped(o, actions[i].target));
      SameSafe(u, HardenStep(o, u, actions[n], token), Mapped(o, actions[i].target));
    }
  }
}

/** What the client migration plans and what it leaves, with every path written out. */
module MigrationOutcome {
  import opened Basics
  import opened FileTree
  import opened Migration
  import opened MigrationConfigs
  import opened MigrationApply
  import opened MigrationTheorems
  import opened MigrationPlan

  // ----- The plan -----

  function If(b: bool, a: Action): seq<Action> {
    if b then [a] else []
  }

  /** The unit file that is migrated: the first of the three places where there is one. */
  function UnitFile(o: Options, t: Tree): Option<Path> {
    if o.root + ["etc", "systemd", "system", "netbird.service"] in t then Some(["etc", "systemd", "system", "netbird.service"])
    else if o.root + ["lib", "systemd", "system", "netbird.service"] in t then Some(["lib", "systemd", "system", "netbird.service"])
    else if o.root + ["usr", "lib", "systemd", "system", "netbird.service"] in t then
      Some(["usr", "lib", "systemd", "system", "netbird.service"])
    else None
  }

  function UnitActions(o: Options, t: Tree): seq<Action> {
    match UnitFile(o, t)
    case Some(source) => [Copy(source, ["etc", "systemd", "system", "anonbird.service"], true)]
    case None => []
  }

  lemma OneSource(o: Options, compat: bool, t: Tree, k: nat, source: Path)
    requires k < 6 && Sources(k) == [source]
    ensures Slot(o, compat, t, k) == If(o.root + source in t, Copy(source, Target(k), 3 <= k))
  {
    assert Sources(k)[1..] == [];
    assert FirstPresent(o, t, []) == None;
  }

  lemma UnitSlot(o: Options, compat: bool, t: Tree)
    ensures Slot(o, compat, t, 3) == UnitActions(o, t)
  {
    var a: Path := ["etc", "systemd", "system", "netbird.service"];
    var b: Path := ["lib", "systemd", "system", "netbird.service"];
    var c: Path := ["usr", "lib", "systemd", "system", "netbird.service"];
    assert Sources(3) == [a, b, c];
    assert [a, b, c][1..] == [b, c] && [b, c][1..] == [c] && [c][1..] == [];
    assert FirstPresent(o, t, []) == None;
    assert FirstPresent(o, t, [c]) == if o.root + c in t then Some(c) else None;
    assert FirstPresent(o, t, [b, c]) == if o.root + b in t then Some(b) else FirstPresent(o, t, [c]);
  }

  /** The plan for every disk: one copy for each legacy path that exists, in this order, then the link if asked for. */
  lemma PlanIs(o: Options, compat: bool, t: Tree)
    ensures Plan(o, compat, t) ==
            If(o.root + ["etc", "netbird"] in t, Copy(["etc", "netbird"], ["etc", "anonbird"], false)) +
            If(o.root + ["var", "lib", "netbird"] in t, Copy(["var", "lib", "netbird"], ["var", "lib", "anonbird"], false)) +
            If(o.root + ["var", "log", "netbird"] in t, Copy(["var", "log", "netbird"], ["var", "log", "anonbird"], false)) +
            UnitActions(o, t) +
            If(o.root + ["etc", "sysconfig", "netbird"] in t,
               Copy(["etc", "sysconfig", "netbird"], ["etc", "sysconfig", "anonbird"], true)) +
            If(o.root + ["etc", "default", "netbird"] in t,
               Copy(["etc", "default", "netbird"], ["etc", "default", "anonbird"], true)) +
            If(compat, Compat(["usr", "local", "bin", "netbird"], ["usr", "local", "bin", "anonbird"], true))
  {
    OneSource(o, compat, t, 0, ["etc", "netbird"]);
    OneSource(o, compat, t, 1, ["var", "lib", "netbird"]);
    OneSource(o, compat, t, 2, ["var", "log", "netbird"]);
    UnitSlot(o, compat, t);
    OneSource(o, compat, t, 4, ["etc", "sysconfig", "netbird"]);
    OneSource(o, compat, t, 5, ["etc", "default", "netbird"]);
    SlotsUnfold(o, compat, t);
  }

  lemma SlotsUnfold(o: Options, compat: bool, t: Tree)
    ensures Plan(o, compat, t) ==
            Slot(o, compat, t, 0) + Slot(o, compat, t, 1) + Slot(o, compat, t, 2) + Slot(o, compat, t, 3) +
            Slot(o, compat, t, 4) + Slot(o, compat, t, 5) + Slot(o, compat, t, 6)
  {
    assert Slots(o, compat, t, 0) == [];
    assert Slots(o, compat, t, 1) == Slot(o, compat, t, 0);
    assert Slots(o, compat, t, 2) == Slots(o, compat, t, 1) + Slot(o, compat, t, 1);
    assert Slots(o, compat, t, 3) == Slots(o, compat, t, 2) + Slot(o, compat, t, 2);
    assert Slots(o, compat, t, 4) == Slots(o, compat, t, 3) + Slot(o, compat, t, 3);
    assert Slots(o, compat, t, 5) == Slots(o, compat, t, 4) + Slot(o, compat, t, 4);
    assert Slots(o, compat, t, 6) == Slots(o, compat, t, 5) + Slot(o, compat, t, 5);
  }

  /** The action is one of the seven, and its reason is there. */
  ghost predicate Planned(o: Options, compat: bool, t: Tree, a: Action) {
    || (a == Copy(["etc", "netbird"], ["etc", "anonbird"], false) && o.root + ["etc", "netbird"] in t)
    || (a == Copy(["var", "lib", "netbird"], ["var", "lib", "anonbird"], false) && o.root + ["var", "lib", "netbird"] in t)
    || (a == Copy(["var", "log", "netbird"], ["var", "log", "anonbird"], false) && o.root + ["var", "log", "netbird"] in t)
    || (UnitFile(o, t).Some? && a == Copy(UnitFile(o, t).value, ["etc", "systemd", "system", "anonbird.service"], true))
    || (&& a == Copy(["etc", "sysconfig", "netbird"], ["etc", "sysconfig", "anonbird"], true)
        && o.root + ["etc", "sysconfig", "netbird"] in t)
    || (&& a == Copy(["etc", "default", "netbird"], ["etc", "default", "anonbird"], true)
        && o.root + ["etc", "default", "netbird"] in t)
    || (compat && a == Compat(["usr", "local", "bin", "netbird"], ["usr", "local", "bin", "anonbird"], true))
  }

  lemma InSeven(a: seq<Action>, b: seq<Action>, c: seq<Action>, d: seq<Action>, e: seq<Action>, f: seq<Action>,
                g: seq<Action>, x: Action)
    ensures x in a + b + c + d + e + f + g <==> x in a || x in b || x in c || x in d || x in e || x in f || x in g
  {
  }

  /** Everything that exists is planned, and nothing else is. */
  lemma PlannedIff(o: Options, compat: bool, t: Tree, a: Action)
    ensures a in Plan(o, compat, t) <==> Planned(o, compat, t, a)
  {
    PlanIs(o, compat, t);
    InSeven(If(o.root + ["etc", "netbird"] in t, Copy(["etc", "netbird"], ["etc", "anonbird"], false)),
            If(o.root + ["var", "lib", "netbird"] in t, Copy(["var", "lib", "netbird"], ["var", "lib", "anonbird"], false)),
            If(o.root + ["var", "log", "netbird"] in t, Copy(["var", "log", "netbird"], ["var", "log", "anonbird"], false)),
            UnitActions(o, t),
            If(o.root + ["etc", "sysconfig", "netbird"] in t,
               Copy(["etc", "sysconfig", "netbird"], ["etc", "sysconfig", "anonbird"], true)),
            If(o.root + ["etc", "default", "netbird"] in t,
               Copy(["etc", "default", "netbird"], ["etc", "default", "anonbird"], true)),
            If(compat, Compat(["usr", "local", "bin", "netbird"], ["usr", "local", "bin", "anonbird"], true)), a);
  }

  // ----- Without backups -----

  /** The same options with the default backup directory. */
  function Elsewhere(o: Options): Options {
    o.(backupDir := Mapped(o, ["var", "backups", "anonbird", "migration-" + ""]))
  }

  /** The backup directory lies outside everything a plan touches, or there are no backups. */
  ghost predicate BackupsAside(o: Options) {
    o.noBackup || BackupOutside(o)
  }

  lemma NoBackupsAnywhere(o: Options, compat: bool, t: Tree)
    requires o.noBackup && RealTargets(Plan(o, compat, t))
    ensures BackupOutside(Elsewhere(o)) && Plan(Elsewhere(o), compat, t) == Plan(o, compat, t)
    ensures Applied(Elsewhere(o), Plan(o, compat, t), t) == Applied(o, Plan(o, compat, t), t)
    ensures ApplyOk(Elsewhere(o), Plan(o, compat, t), t) <==> ApplyOk(o, Plan(o, compat, t), t)
  {
    var b, plan := Elsewhere(o).backupDir, Plan(o, compat, t);
    DefaultBackupOutside(Elsewhere(o), "");
    SlotsIgnoreBackupDir(o, b, compat, t, 7);
    StepsIgnoreBackupDir(o, b, t, plan);
    if o.rejoin.Join? { HardenIgnoresBackupDir(o, b, Steps(o, t, plan).tree, plan, o.rejoin.token); }
  }

  // ----- The copies -----

  lemma PlanIndex(o: Options, compat: bool, t: Tree, a: Action) returns (i: nat)
    requires a in Plan(o, compat, t)
    ensures i < |Plan(o, compat, t)| && Plan(o, compat, t)[i] == a
  {
    i :| 0 <= i < |Plan(o, compat, t)| && Plan(o, compat, t)[i] == a;
  }

  /** The manifest is the only thing written after the configurations were hardened. */
  lemma AppliedBelow(o: Options, actions: seq<Action>, t: Tree, y: Path)
    requires RealTargets(actions) && actions != [] && Apart(y, o.backupDir)
    ensures Same(Rejoined(o, Steps(o, Started(o, t), actions).tree, actions), Applied(o, actions, t), y)
  {
    var r := Steps(o, Started(o, t), actions);
    var u := Rejoined(o, r.tree, actions);
    assert Within(o.backupDir, ManifestPath(o)) by { assert ManifestPath(o)[..|o.backupDir|] == o.backupDir; }
    forall p | Within(y, p) ensures At(u, p) == At(Applied(o, actions, t), p) { ApartBelow(y, o.backupDir, p); }
  }

  /** After the actions and before hardening, a plain copy holds its source. */
  lemma CopiedBefore(o: Options, actions: seq<Action>, t: Tree, i: nat)
    requires RealTargets(actions) && Separated(o, actions) && i < |actions| && ApplyOk(o, actions, t)
    requires actions[i].Copy? && !actions[i].rewrite
    ensures Saved(t, Steps(o, Started(o, t), actions).tree, Mapped(o, actions[i].source), Mapped(o, actions[i].target))
  {
    var x, y := Mapped(o, actions[i].source), Mapped(o, actions[i].target);
    StartFrame(o, t, x);
    StepsCopy(o, Started(o, t), actions, i);
    SavedFrom(t, Started(o, t), Steps(o, Started(o, t), actions).tree, x, y);
  }

  /** What hardening makes of the entry at `q`, below the action's target, if the target is there. */
  function HardenedEntry(o: Options, a: Action, token: Token, q: Path, e: Option<Entry>): Option<Entry> {
    var y := Mapped(o, a.target);
    if e.None? then None
    else if a.target == ETC_TARGET && q == HelperFiles(y)[1] then Some(File(Plain(token.key + "\n")))
    else if a.target == ETC_TARGET && q == HelperFiles(y)[0] then Some(File(Plain(token.url + "\n")))
    else if Visited(q, e.value) && e.value.File? then Some(File(Harden(e.value.content, token)))
    else e
  }

  lemma HelpAt(t: Tree, y: Path, token: Token, q: Path)
    ensures At(Help(t, y, token), q) ==
            if q in t && q == HelperFiles(y)[1] then Some(File(Plain(token.key + "\n")))
            else if q in t && q == HelperFiles(y)[0] then Some(File(Plain(token.url + "\n")))
            else At(t, q)
  {
  }

  lemma HardenStepAt(o: Options, t: Tree, a: Action, token: Token, q: Path)
    requires IsConfigCopy(a) && Mapped(o, a.target) in t && Within(Mapped(o, a.target), q)
    ensures At(HardenStep(o, t, a, token), q) == HardenedEntry(o, a, token, q, At(t, q))
  {
    var y := Mapped(o, a.target);
    var v := Walk(t, y, Hardener(token));
    assert At(v, q) == WalkedAt(t, y, Hardener(token), q);
    HelpAt(v, y, token, q);
  }

  /** Once its own action was hardened, nothing below a target changes any more. */
  lemma {:induction false} HardenAfter(o: Options, t: Tree, actions: seq<Action>, token: Token, i: nat)
    requires Separated(o, actions) && i < |actions|
    ensures Same(HardenPlan(o, t, actions[..i + 1], token), HardenPlan(o, t, actions, token), Mapped(o, actions[i].target))
    decreases |actions|
  {
    var n := |actions| - 1;
    var y := Mapped(o, actions[i].target);
    if i < n {
      var u := HardenPlan(o, t, actions[..n], token);
      SeparatedFront(o, actions, n);
      assert actions[..n][..i + 1] == actions[..i + 1];
      HardenAfter(o, t, actions[..n], token, i);
      TargetsApart(o, actions, i, n);
      HardenStepFrame(o, u, actions[n], token, y);
      SameTrans(HardenPlan(o, t, actions[..i + 1], token), u, HardenStep(o, u, actions[n], token), y);
    } else {
      assert actions[..i + 1] == actions;
    }
  }

  /** Before its own action was hardened, nothing below it changed. */
  lemma HardenBefore(o: Options, t: Tree, actions: seq<Action>, token: Token, i: nat)
    requires Separated(o, actions) && i < |actions|
    ensures Same(t, HardenPlan(o, t, actions[..i], token), Mapped(o, actions[i].target))
    ensures HardenPlan(o, t, actions[..i + 1], token) == HardenStep(o, HardenPlan(o, t, actions[..i], token), actions[i], token)
  {
    var y := Mapped(o, actions[i].target);
    forall j | 0 <= j < i ensures Apart(y, Mapped(o, actions[..i][j].target)) { TargetsApart(o, actions, i, j); }
    HardenFrame(o, t, actions[..i], token, y);
    assert actions[..i + 1][..i] == actions[..i];
  }

  lemma HardenPlanAt(o: Options, t: Tree, actions: seq<Action>, token: Token, i: nat, q: Path)
    requires Separated(o, actions) && i < |actions| && IsConfigCopy(actions[i])
    requires Mapped(o, actions[i].target) in t && Within(Mapped(o, actions[i].target), q)
    ensures At(HardenPlan(o, t, actions, token), q) == HardenedEntry(o, actions[i], token, q, At(t, q))
  {
    var y := Mapped(o, actions[i].target);
    var v := HardenPlan(o, t, actions[..i], token);
    HardenBefore(o, t, actions, token, i);
    HardenAfter(o, t, actions, token, i);
    assert Within(y, y) && At(v, y) == At(t, y) && At(v, q) == At(t, q);
    HardenStepAt(o, v, actions[i], token, q);
  }

  lemma NotHardened(o: Options, t: Tree, actions: seq<Action>, token: Token, i: nat, q: Path)
    requires Separated(o, actions) && i < |actions| && !IsConfigCopy(actions[i])
    requires Within(Mapped(o, actions[i].target), q)
    ensures At(HardenPlan(o, t, actions, token), q) == At(t, q)
  {
    HardenBefore(o, t, actions, token, i);
    HardenAfter(o, t, actions, token, i);
    assert At(HardenPlan(o, t, actions[..i], token), q) == At(t, q);
  }

  /** A client configuration after the switch to anonymous mode. */
  function Joined(fields: map<string, Json>, token: Token): map<string, Json> {
    fields["ManagementURL" := Object(11)]["AdminURL" := Object(11)]["anonymous_mode" := Bool(true)]
          ["anonymous_transport" := token.transport]["DisableAutoConnect" := Bool(true)]
  }

  /** What `e`, found at `p` below a configuration source, becomes: every client configuration among the JSON files is
      switched to anonymous mode; in /etc, the two helper files get the token's URL and key. */
  function Migrated(o: Options, etc: bool, p: Path, e: Option<Entry>): Option<Entry> {
    if !o.rejoin.Join? || e.None? then e
    else if etc && p == ["management-url"] then Some(File(Plain(o.rejoin.token.url + "\n")))
    else if etc && p == ["setup-key"] then Some(File(Plain(o.rejoin.token.key + "\n")))
    else if p != [] && EndsInJson(p[|p| - 1]) && e.value.File? && e.value.content.Config? && HasUrl(e.value.content.fields)
    then Some(File(Config(Joined(e.value.content.fields, o.rejoin.token))))
    else e
  }

  lemma HardenedIsMigrated(o: Options, a: Action, p: Path, e: Option<Entry>)
    requires IsConfigCopy(a) && o.rejoin.Join?
    ensures HardenedEntry(o, a, o.rejoin.token, Mapped(o, a.target) + p, e) == Migrated(o, a.target == ETC_TARGET, p, e)
  {
    var y := Mapped(o, a.target);
    var q := y + p;
    NotJson(o, a);
    HelperNames();
    assert q[|y|..] == p;
    assert HelperFiles(y)[0] == q <==> p == ["management-url"] by { assert HelperFiles(y)[0][|y|..] == ["management-url"]; }
    assert HelperFiles(y)[1] == q <==> p == ["setup-key"] by { assert HelperFiles(y)[1][|y|..] == ["setup-key"]; }
    if p == [] { assert q == y; } else { assert q[|q| - 1] == p[|p| - 1]; }
  }

  lemma HelperNames()
    ensures !EndsInJson("management-url") && !EndsInJson("setup-key") && "management-url" != "setup-key"
  {
    assert "management-url"[9..][0] != '.' && ".json"[0] == '.';
    assert "setup-key"[4..][0] != '.';
    assert |"management-url"| != |"setup-key"|;
  }

  lemma SavedAt(t: Tree, u: Tree, x: Path, y: Path, p: Path)
    requires Saved(t, u, x, y)
    ensures At(u, y + p) == At(t, x + p)
  {
    assert (x + p)[..|x|] == x && (x + p)[|x|..] == p;
    assert Rebase(x + p, x, y) == y + p;
  }

  /** A migration that succeeds leaves below every plain target what was below its source, with the configurations
      among it switched to anonymous mode if the client rejoins. */
  lemma CopiesHold(o: Options, compat: bool, t: Tree, a: Action, p: Path)
    requires Valid(t) && BackupsAside(o) && RealTargets(Plan(o, compat, t)) && ApplyOk(o, Plan(o, compat, t), t)
    requires a in Plan(o, compat, t) && a.Copy? && !a.rewrite
    ensures At(Applied(o, Plan(o, compat, t), t), o.root + a.target + p) ==
            if a.target == ["var", "log", "anonbird"] then At(t, o.root + a.source + p)
            else Migrated(o, a.target == ["etc", "anonbird"], p, At(t, o.root + a.source + p))
  {
    if o.noBackup {
      NoBackupsAnywhere(o, compat, t);
      CopyHolds(Elsewhere(o), compat, t, a, p);
    } else {
      CopyHolds(o, compat, t, a, p);
    }
  }

  lemma CopyHolds(o: Options, compat: bool, t: Tree, a: Action, p: Path)
    requires Valid(t) && BackupOutside(o) && RealTargets(Plan(o, compat, t)) && ApplyOk(o, Plan(o, compat, t), t)
    requires a in Plan(o, compat, t) && a.Copy? && !a.rewrite
    ensures At(Applied(o, Plan(o, compat, t), t), o.root + a.target + p) ==
            if a.target == ["var", "log", "anonbird"] then At(t, o.root + a.source + p)
            else Migrated(o, a.target == ["etc", "anonbird"], p, At(t, o.root + a.source + p))
  {
    var plan := Plan(o, compat, t);
    PlanSeparated(o, compat, t);
    var i := PlanIndex(o, compat, t, a);
    var x, y := Mapped(o, a.source), Mapped(o, a.target);
    var r := Steps(o, Started(o, t), plan);
    CopiedBefore(o, plan, t, i);
    SavedAt(t, r.tree, x, y, p);
    AppliedBelow(o, plan, t, y);
    assert (y + p)[..|y|] == y;
    PlannedIff(o, compat, t, a);
    if o.rejoin.Join? {
      if IsConfigCopy(a) {
        SavedAt(t, r.tree, x, y, []);
        assert y + [] == y && x + [] == x;
        HardenPlanAt(o, r.tree, plan, o.rejoin.token, i, y + p);
        HardenedIsMigrated(o, a, p, At(t, x + p));
      } else {
        NotHardened(o, r.tree, plan, o.rejoin.token, i, y + p);
      }
    }
  }

  // ----- Units and environment files -----

  lemma RewriteStep(o: Options, s: Tree, r: Run, a: Action)
    requires r.ok && a.Copy? && a.rewrite && ActionApart(o, a) && Step(o, r, a).ok
    requires Same(s, r.tree, Mapped(o, a.source))
    ensures var x := Mapped(o, a.source);
            && x in s && s[x].File?
            && At(Step(o, r, a).tree, Mapped(o, a.target)) == Some(File(o.rewriteUnit(s[x].content)))
  {
    var x := Mapped(o, a.source);
    var r1 := BackupSource(o, r, a.source);
    BelowBackup(o, "source", a.source);
    BelowBackup(o, "target", a.target);
    ApartExtends(o.backupDir, x, SavedSource(o, a.source), x);
    ApartExtends(o.backupDir, x, SavedTarget(o, a.target), x);
    BackupSourceFrame(o, r, a.source, x);
    BackupTargetFrame(o, r1, a.target, x);
    assert Within(x, x) && At(s, x) == At(r.tree, x) && At(r.tree, x) == At(r1.tree, x);
    assert At(r1.tree, x) == At(BackupTarget(o, r1, a.target).tree, x);
  }

  lemma {:induction false} StepsRewrite(o: Options, t: Tree, actions: seq<Action>, i: nat)
    requires RealTargets(actions) && Separated(o, actions) && Steps(o, t, actions).ok
    requires i < |actions| && actions[i].Copy? && actions[i].rewrite
    ensures var x := Mapped(o, actions[i].source);
            && x in t && t[x].File?
            && At(Steps(o, t, actions).tree, Mapped(o, actions[i].target)) == Some(File(o.rewriteUnit(t[x].content)))
    decreases |actions|
  {
    var n := |actions| - 1;
    var r := Steps(o, t, actions[..n]);
    var y := Mapped(o, actions[i].target);
    SeparatedFront(o, actions, n);
    if i < n {
      StepsRewrite(o, t, actions[..n], i);
      TargetsApart(o, actions, i, n);
      OutsideBackup(o, actions[n], y);
      StepFrame(o, r, actions[n], y);
      assert Within(y, y) && At(r.tree, y) == At(Step(o, r, actions[n]).tree, y);
    } else {
      ActionsApart(o, actions, n);
      SourceStays(o, t, actions);
      RewriteStep(o, t, r, actions[n]);
    }
  }

  /** The last source is as it was when its turn comes. */
  lemma SourceStays(o: Options, t: Tree, actions: seq<Action>)
    requires RealTargets(actions) && Separated(o, actions) && actions != [] && actions[|actions| - 1].Copy?
    ensures var n := |actions| - 1;
            Same(t, Steps(o, t, actions[..n]).tree, Mapped(o, actions[n].source))
  {
    var n := |actions| - 1;
    var x := Mapped(o, actions[n].source);
    forall j | 0 <= j < n ensures Clear(o, actions[..n][j], x) {
      assert Apart(actions[n].source, actions[j].target);
      MappedApart(o.root, actions[n].source, actions[j].target);
      OutsideBackup(o, actions[j], x);
    }
    StepsFrame(o, t, actions[..n], x);
  }

  lemma AppliedAt(o: Options, actions: seq<Action>, t: Tree, i: nat)
    requires RealTargets(actions) && Separated(o, actions) && i < |actions| && !IsConfigCopy(actions[i])
    ensures At(Applied(o, actions, t), Mapped(o, actions[i].target)) ==
            At(Steps(o, Started(o, t), actions).tree, Mapped(o, actions[i].target))
  {
    var y := Mapped(o, actions[i].target);
    assert Within(y, y);
    AppliedBelow(o, actions, t, y);
    if o.rejoin.Join? { NotHardened(o, Steps(o, Started(o, t), actions).tree, actions, o.rejoin.token, i, y); }
  }

  /** The unit file and the two environment files are regular files, and their targets hold the rewritten text. */
  lemma RewritesHold(o: Options, compat: bool, t: Tree, a: Action)
    requires Valid(t) && BackupsAside(o) && RealTargets(Plan(o, compat, t)) && ApplyOk(o, Plan(o, compat, t), t)
    requires a in Plan(o, compat, t) && a.Copy? && a.rewrite
    ensures o.root + a.source in t && t[o.root + a.source].File?
    ensures At(Applied(o, Plan(o, compat, t), t), o.root + a.target) ==
            Some(File(o.rewriteUnit(t[o.root + a.source].content)))
  {
    if o.noBackup {
      NoBackupsAnywhere(o, compat, t);
      RewriteHolds(Elsewhere(o), compat, t, a);
    } else {
      RewriteHolds(o, compat, t, a);
    }
  }

  lemma RewriteHolds(o: Options, compat: bool, t: Tree, a: Action)
    requires Valid(t) && BackupOutside(o) && RealTargets(Plan(o, compat, t)) && ApplyOk(o, Plan(o, compat, t), t)
    requires a in Plan(o, compat, t) && a.Copy? && a.rewrite
    ensures o.root + a.source in t && t[o.root + a.source].File?
    ensures At(Applied(o, Plan(o, compat, t), t), o.root + a.target) ==
            Some(File(o.rewriteUnit(t[o.root + a.source].content)))
  {
    var plan, s := Plan(o, compat, t), Started(o, t);
    PlanSeparated(o, compat, t);
    var i := PlanIndex(o, compat, t, a);
    var x := Mapped(o, a.source);
    StepsRewrite(o, s, plan, i);
    StartFrame(o, t, x);
    assert Within(x, x) && At(t, x) == At(s, x);
    AppliedAt(o, plan, t, i);
  }

  // ----- The link -----

  const LINKED: Path := ["usr", "local", "bin", "anonbird"]

  /** The link can be made: what it points at is there, or becomes a directory on the way to the backups; its place is
      free or may be cleared; and directories lead there. */
  ghost predicate Linkable(o: Options, t: Tree) {
    && (|| o.root + ["usr", "local", "bin", "anonbird"] in t
        || (!o.noBackup && Within(o.root + ["usr", "local", "bin", "anonbird"], o.backupDir)))
    && (o.root + ["usr", "local", "bin", "netbird"] in t ==> o.force)
    && !ThroughFile(t, o.root + ["usr", "local", "bin", "netbird"])
    && AllDirs(t, o.root + ["usr", "local", "bin"])
  }

  /** Backups do not reach `z`, or it is there already. */
  ghost predicate Settled(o: Options, t: Tree, z: Path) {
    Apart(o.backupDir, z) || (z in t && Within(z, o.backupDir))
  }

  lemma LinkTargetStays(o: Options, r: Run, target: Path, z: Path)
    requires Settled(o, r.tree, z)
    ensures z in BackupTarget(o, r, target).tree <==> z in r.tree
  {
    if Apart(o.backupDir, z) {
      BelowBackup(o, "target", target);
      ApartExtends(z, o.backupDir, z, SavedTarget(o, target));
      BackupTargetFrame(o, r, target, z);
      assert Within(z, z) && At(r.tree, z) == At(BackupTarget(o, r, target).tree, z);
    } else {
      assert !Within(SavedTarget(o, target), z);
    }
  }

  lemma LinkStepAt(o: Options, r: Run, a: Action)
    requires r.ok && Valid(r.tree) && a.Compat? && a.optional && ActionApart(o, a) && Step(o, r, a).ok
    requires Settled(o, r.tree, Mapped(o, a.linkTarget))
    ensures var y := Mapped(o, a.target);
            At(Step(o, r, a).tree, y) ==
            if Mapped(o, a.linkTarget) in r.tree && CanReplace(o, r.tree, a.target) && AllDirs(r.tree, Parent(y))
            then Some(Link(Mapped(o, a.linkTarget))) else At(r.tree, y)
  {
    var y := Mapped(o, a.target);
    var r1 := BackupTarget(o, r, a.target);
    FromBackup(o, "target", a.target);
    BackupTargetFrame(o, r, a.target, y);
    assert Within(y, y) && At(r.tree, y) == At(r1.tree, y);
    LinkTargetStays(o, r, a.target, Mapped(o, a.linkTarget));
    BackupKeepsWay(o, r, a);
  }

  lemma BackupKeepsWay(o: Options, r: Run, a: Action)
    requires a.Compat? && ActionApart(o, a)
    ensures var u, y := BackupTarget(o, r, a.target).tree, Mapped(o, a.target);
            (ThroughFile(u, y) <==> ThroughFile(r.tree, y)) && (AllDirs(u, Parent(y)) <==> AllDirs(r.tree, Parent(y)))
  {
    var u, y := BackupTarget(o, r, a.target).tree, Mapped(o, a.target);
    forall k | 0 <= k < |y| ensures KeptAt(r.tree, u, y[..k]) {
      AboveSpared(o, a, y, k);
      BackupsKeep(o, r, a, y[..k]);
    }
    SameFiles(r.tree, u, y);
    SameFiles(u, r.tree, y);
    forall k | 0 <= k <= |y| - 1 ensures KeptAt(r.tree, u, Parent(y)[..k]) { assert Parent(y)[..k] == y[..k]; }
  }

  lemma LinkedApart(k: nat)
    requires k < 7
    ensures Apart(LINKED, Target(k))
  {
    Words();
    assert |"local"| != |"lib"|;
    DifferAt(LINKED, Target(k), if k == 6 then 3 else 0);
  }

  lemma CopyTargetApart(o: Options, t: Tree, j: nat)
    requires j < |Plan(o, false, t)|
    ensures Apart(Mapped(o, LINKED), Mapped(o, Plan(o, false, t)[j].target))
    ensures Apart(Mapped(o, COMPAT_TARGET), Mapped(o, Plan(o, false, t)[j].target))
  {
    var a := Plan(o, false, t)[j];
    SlotsShape(o, false, t, 7);
    OnlyCopies(o, t);
    assert Listed(a, 7);
    var k: nat :| k < 7 && FromTable(a, k);
    LinkedApart(k);
    MappedApart(o.root, LINKED, a.target);
    TargetsDiffer(k, 6);
    MappedApart(o.root, COMPAT_TARGET, a.target);
  }

  lemma PlaceUndisturbed(o: Options, t: Tree, x: Path)
    requires RealTargets(Plan(o, false, t)) && Apart(x, o.backupDir)
    requires forall j :: 0 <= j < |Plan(o, false, t)| ==> Apart(x, Mapped(o, Plan(o, false, t)[j].target))
    ensures At(Steps(o, Started(o, t), Plan(o, false, t)).tree, x) == At(t, x)
  {
    forall j | 0 <= j < |Plan(o, false, t)| ensures Clear(o, Plan(o, false, t)[j], x) {
      OutsideBackup(o, Plan(o, false, t)[j], x);
    }
    StepsFrame(o, Started(o, t), Plan(o, false, t), x);
    StartFrame(o, t, x);
    assert Within(x, x) && At(t, x) == At(Started(o, t), x);
  }

  /** A place on the way to the backups becomes a directory and stays one. */
  lemma PlaceMade(o: Options, t: Tree, x: Path)
    requires RealTargets(Plan(o, false, t)) && !o.noBackup && Within(x, o.backupDir)
    requires forall j :: 0 <= j < |Plan(o, false, t)| ==> Apart(x, Mapped(o, Plan(o, false, t)[j].target))
    ensures x in Steps(o, Started(o, t), Plan(o, false, t)).tree
  {
    forall j | 0 <= j < |Plan(o, false, t)| ensures Spares(o, Plan(o, false, t)[j], x) {
    }
    assert x in Started(o, t) by { assert At(Started(o, t), x).Some?; }
    StepsKeep(o, Started(o, t), Plan(o, false, t), x);
  }

  /** The backup directory is not above what the link points at, for then it would be above the link. */
  lemma NotAboveLinked(o: Options)
    requires BackupOutside(o) && !Apart(o.backupDir, Mapped(o, LINKED))
    ensures Within(Mapped(o, LINKED), o.backupDir)
  {
    var b, x, y := o.backupDir, Mapped(o, LINKED), Mapped(o, Target(6));
    assert Apart(b, y) && Parent(x) == Parent(y);
    WithinParent(b, x);
    WithinParent(b, y);
    assert Within(x, x);
  }

  /** What matters for the link is the same before and after the copies. */
  lemma LinkUndisturbed(o: Options, t: Tree)
    requires Valid(t) && BackupOutside(o) && RealTargets(Plan(o, false, t))
    requires o.noBackup ==> Apart(o.backupDir, Mapped(o, LINKED))
    ensures var u, x, y := Steps(o, Started(o, t), Plan(o, false, t)).tree, Mapped(o, LINKED), Mapped(o, COMPAT_TARGET);
            && (x in u <==> x in t || (!o.noBackup && Within(x, o.backupDir))) && At(u, y) == At(t, y)
            && Settled(o, u, x)
  {
    var x, y := Mapped(o, LINKED), Mapped(o, COMPAT_TARGET);
    forall j | 0 <= j < |Plan(o, false, t)|
      ensures Apart(x, Mapped(o, Plan(o, false, t)[j].target)) && Apart(y, Mapped(o, Plan(o, false, t)[j].target))
    {
      CopyTargetApart(o, t, j);
    }
    assert Apart(o.backupDir, Mapped(o, Target(6)));
    PlaceUndisturbed(o, t, y);
    if Apart(o.backupDir, x) {
      PlaceUndisturbed(o, t, x);
    } else {
      NotAboveLinked(o);
      PlaceMade(o, t, x);
    }
  }

  lemma WayToLinkKept(o: Options, t: Tree)
    requires Valid(t) && BackupOutside(o) && RealTargets(Plan(o, false, t))
    ensures var u, y := Steps(o, Started(o, t), Plan(o, false, t)).tree, Mapped(o, COMPAT_TARGET);
            (ThroughFile(u, y) <==> ThroughFile(t, y)) && (AllDirs(u, Parent(y)) <==> AllDirs(t, Parent(y)))
  {
    var plan, front := Plan(o, true, t), Plan(o, false, t);
    var s, y := Started(o, t), Mapped(o, COMPAT_TARGET);
    var u := Steps(o, s, front).tree;
    PlanWithLink(o, t);
    PlanSeparated(o, true, t);
    forall k | 0 <= k < |y| ensures KeptAt(t, u, y[..k]) {
      forall j | 0 <= j < |front| ensures Spares(o, front[j], y[..k]) {
        assert front[j] == plan[j];
        TargetsApart(o, plan, |front|, j);
        AboveSpared(o, front[j], y, k);
      }
      StepsKeep(o, s, front, y[..k]);
    }
    SameFiles(t, u, y);
    SameFiles(u, t, y);
    forall k | 0 <= k <= |y| - 1 ensures KeptAt(t, u, Parent(y)[..k]) { assert Parent(y)[..k] == y[..k]; }
  }

  /** The link is made exactly where it can be, and otherwise its place is left alone. */
  lemma LinkHolds(o: Options, t: Tree)
    requires Valid(t) && BackupsAside(o) && RealTargets(Plan(o, true, t)) && ApplyOk(o, Plan(o, true, t), t)
    ensures At(Applied(o, Plan(o, true, t), t), o.root + ["usr", "local", "bin", "netbird"]) ==
            if Linkable(o, t) then Some(Link(o.root + ["usr", "local", "bin", "anonbird"]))
            else At(t, o.root + ["usr", "local", "bin", "netbird"])
  {
    if o.noBackup {
      NoBackupsAnywhere(o, true, t);
      ElsewhereApart(o);
      OneLinkHolds(Elsewhere(o), t);
    } else {
      OneLinkHolds(o, t);
    }
  }

  lemma ElsewhereApart(o: Options)
    ensures Apart(Elsewhere(o).backupDir, Mapped(o, LINKED))
  {
    Words();
    var b: Path := ["var", "backups", "anonbird", "migration-" + ""];
    DifferAt(b, LINKED, 0);
    MappedApart(o.root, b, LINKED);
  }

  lemma OneLinkHolds(o: Options, t: Tree)
    requires Valid(t) && BackupOutside(o) && RealTargets(Plan(o, true, t)) && ApplyOk(o, Plan(o, true, t), t)
    requires o.noBackup ==> Apart(o.backupDir, Mapped(o, LINKED))
    ensures At(Applied(o, Plan(o, true, t), t), Mapped(o, COMPAT_TARGET)) ==
            if Linkable(o, t) then Some(Link(Mapped(o, LINKED))) else At(t, Mapped(o, COMPAT_TARGET))
  {
    PlanWithLink(o, t);
    PlanSeparated(o, true, t);
    var front := Plan(o, false, t);
    assert RealTargets(front) by { PlanSeparated(o, false, t); }
    LinkUndisturbed(o, t);
    LastLink(o, front, Compat(COMPAT_TARGET, LINKED, true), t);
    WayToLinkKept(o, t);
    LinkableIff(o, t, Steps(o, Started(o, t), front).tree);
  }

  lemma LinkableIff(o: Options, t: Tree, u: Tree)
    requires var x, y := Mapped(o, LINKED), Mapped(o, COMPAT_TARGET);
             && (x in u <==> x in t || (!o.noBackup && Within(x, o.backupDir))) && At(u, y) == At(t, y)
             && (ThroughFile(u, y) <==> ThroughFile(t, y)) && (AllDirs(u, Parent(y)) <==> AllDirs(t, Parent(y)))
             && Valid(t)
    ensures Linkable(o, t) <==>
            Mapped(o, LINKED) in u && CanReplace(o, u, COMPAT_TARGET) && AllDirs(u, Parent(Mapped(o, COMPAT_TARGET)))
  {
    assert Parent(Mapped(o, COMPAT_TARGET)) == o.root + ["usr", "local", "bin"];
    if Mapped(o, COMPAT_TARGET) in t && ThroughFile(t, Mapped(o, COMPAT_TARGET)) { BehindFile(t, Mapped(o, COMPAT_TARGET)); }
  }

  lemma LastLink(o: Options, front: seq<Action>, a: Action, t: Tree)
    requires Valid(t) && RealTargets(front) && a.Compat? && a.optional && a.target != [] && Separated(o, front + [a])
    requires ApplyOk(o, front + [a], t) && Settled(o, Steps(o, Started(o, t), front).tree, Mapped(o, a.linkTarget))
    ensures var u, y := Steps(o, Started(o, t), front).tree, Mapped(o, a.target);
            At(Applied(o, front + [a], t), y) ==
            if Mapped(o, a.linkTarget) in u && CanReplace(o, u, a.target) && AllDirs(u, Parent(y))
            then Some(Link(Mapped(o, a.linkTarget))) else At(u, y)
  {
    var plan, n, s := front + [a], |front|, Started(o, t);
    assert plan[..n] == front && plan[n] == a;
    AppliedAt(o, plan, t, n);
    var r := Steps(o, s, front);
    assert Steps(o, s, plan) == Step(o, r, a);
    if !o.noBackup { ValidMake(t, o.backupDir); }
    SeparatedFront(o, plan, n);
    StepsValid(o, s, front);
    ActionsApart(o, plan, n);
    LinkStepAt(o, r, a);
  }
}

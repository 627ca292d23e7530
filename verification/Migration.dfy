/**
 * The client migration as a transaction on a file tree: apply with backups, and rollback.
 *
 * `Run` carries what the apply loop carries: the tree so far and the two backup lists of the manifest.
 */
module Migration {
  import opened Basics
  import opened FileTree

  datatype Action =
    | Copy(source: Path, target: Path, rewrite: bool)
    | Compat(target: Path, linkTarget: Path, optional: bool)

  datatype Token = Token(url: string, key: string, transport: Json)
  datatype Rejoin = NoRejoin | BadToken | Join(token: Token)

  /** `rewriteUnit` is the text replacement done on unit and environment files. */
  datatype Options = Options(root: Path, backupDir: Path, force: bool, noBackup: bool, rejoin: Rejoin,
                             allowUnsafe: bool, ack: bool, rewriteUnit: Content -> Content)

  datatype Run = Run(ok: bool, tree: Tree, targets: seq<BackupEntry>, sources: seq<SourceBackup>)

  function Mapped(o: Options, p: Path): Path {
    o.root + p
  }

  function SavedSource(o: Options, p: Path): Path {
    o.backupDir + ["source"] + p
  }

  function SavedTarget(o: Options, p: Path): Path {
    o.backupDir + ["target"] + p
  }

  function ManifestPath(o: Options): Path {
    o.backupDir + ["manifest.json"]
  }

  // ----- One action -----

  ghost function BackupSource(o: Options, r: Run, source: Path): Run {
    if o.noBackup || Mapped(o, source) !in r.tree then r
    else if !CanCopy(r.tree, Mapped(o, source), SavedSource(o, source)) then r.(ok := false)
    else r.(tree := CopyTree(r.tree, Mapped(o, source), SavedSource(o, source)),
            sources := r.sources + [SourceBackup(source, SavedSource(o, source))])
  }

  ghost function BackupTarget(o: Options, r: Run, target: Path): Run {
    if Mapped(o, target) !in r.tree then r.(targets := r.targets + [BackupEntry(target, false, None)])
    else if o.noBackup then r.(targets := r.targets + [BackupEntry(target, true, None)])
    else if !CanCopy(r.tree, Mapped(o, target), SavedTarget(o, target)) then r.(ok := false)
    else r.(tree := CopyTree(r.tree, Mapped(o, target), SavedTarget(o, target)),
            targets := r.targets + [BackupEntry(target, true, Some(SavedTarget(o, target)))])
  }

  /** The target may be replaced: it is absent, or `force` is given. */
  predicate CanReplace(o: Options, t: Tree, target: Path) {
    match Lstat(t, Mapped(o, target))
    case Found => o.force
    case NotDir => false
    case Missing => true
  }

  predicate CanCopyAction(o: Options, t: Tree, a: Action)
    requires a.Copy?
  {
    && CanReplace(o, t, a.target)
    && CanCopy(t, Mapped(o, a.source), Mapped(o, a.target))
    && (a.rewrite ==> t[Mapped(o, a.source)].File?)
  }

  ghost function CopyAction(o: Options, t: Tree, a: Action): Tree
    requires a.Copy? && CanCopyAction(o, t, a)
  {
    var u := CopyTree(t, Mapped(o, a.source), Mapped(o, a.target));
    if a.rewrite then u[Mapped(o, a.target) := File(o.rewriteUnit(t[Mapped(o, a.source)].content))] else u
  }

  predicate CanLink(o: Options, t: Tree, a: Action)
    requires a.Compat? && Mapped(o, a.target) != []
  {
    && Mapped(o, a.linkTarget) in t
    && CanReplace(o, t, a.target)
    && AllDirs(t, Parent(Mapped(o, a.target)))
  }

  function LinkAction(o: Options, t: Tree, a: Action): Tree
    requires a.Compat? && Mapped(o, a.target) != []
  {
    MakeDirs(RemoveTree(t, Mapped(o, a.target)), Parent(Mapped(o, a.target)))
      [Mapped(o, a.target) := Link(Mapped(o, a.linkTarget))]
  }

  ghost function CopyStep(o: Options, r: Run, a: Action): Run
    requires a.Copy?
  {
    var r1 := BackupSource(o, r, a.source);
    if !r1.ok then r1 else
    var r2 := BackupTarget(o, r1, a.target);
    if !r2.ok then r2 else
    if CanCopyAction(o, r2.tree, a) then r2.(tree := CopyAction(o, r2.tree, a)) else r2.(ok := false)
  }

  ghost function LinkStep(o: Options, r: Run, a: Action): Run
    requires a.Compat? && a.target != []
  {
    var r1 := BackupTarget(o, r, a.target);
    if !r1.ok then r1
    else if CanLink(o, r1.tree, a) then r1.(tree := LinkAction(o, r1.tree, a))
    else r1.(ok := a.optional)
  }

  ghost function Step(o: Options, r: Run, a: Action): Run
    requires a.target != []
  {
    match a
    case Copy(_, _, _) => CopyStep(o, r, a)
    case Compat(_, _, _) => LinkStep(o, r, a)
  }

  ghost predicate RealTargets(actions: seq<Action>) {
    forall i :: 0 <= i < |actions| ==> actions[i].target != []
  }

  ghost function Steps(o: Options, t: Tree, actions: seq<Action>): Run
    requires RealTargets(actions)
  {
    if actions == [] then Run(true, t, [], []) else
      var n := |actions| - 1;
      var r := Steps(o, t, actions[..n]);
      if r.ok then Step(o, r, actions[n]) else r
  }

  // ----- What the plan must keep apart -----

  /** Targets lie apart from each other, from every source and from the backup directory. */
  ghost predicate Separated(o: Options, actions: seq<Action>) {
    && (forall i :: 0 <= i < |actions| ==> Apart(o.backupDir, Mapped(o, actions[i].target)))
    && (forall i :: 0 <= i < |actions| && actions[i].Copy? ==> Apart(o.backupDir, Mapped(o, actions[i].source)))
    && (forall i, j :: 0 <= i < j < |actions| ==> Apart(actions[i].target, actions[j].target))
    && (forall i, j :: 0 <= i < |actions| && 0 <= j < |actions| && actions[i].Copy? ==>
          Apart(actions[i].source, actions[j].target))
  }

  lemma MappedWithin(root: Path, x: Path, y: Path)
    ensures Within(root + x, root + y) <==> Within(x, y)
  {
    if Within(x, y) {
      assert (root + y)[..|root| + |x|] == root + y[..|x|];
    } else if |x| <= |y| {
      assert (root + y)[..|root| + |x|][|root|..] == y[..|x|];
      assert (root + x)[|root|..] == x;
    }
  }

  lemma MappedApart(root: Path, x: Path, y: Path)
    ensures Apart(root + x, root + y) <==> Apart(x, y)
  {
    MappedWithin(root, x, y);
    MappedWithin(root, y, x);
  }

  /** The three places where a step on `target` and `source` writes are apart from `x`. */
  ghost predicate Clear(o: Options, a: Action, x: Path) {
    && Apart(x, Mapped(o, a.target))
    && Apart(x, SavedTarget(o, a.target))
    && (a.Copy? ==> Apart(x, SavedSource(o, a.source)))
  }

  lemma OutsideBackup(o: Options, a: Action, x: Path)
    requires Apart(x, o.backupDir) && Apart(x, Mapped(o, a.target))
    ensures Clear(o, a, x)
  {
    BelowBackup(o, "target", a.target);
    ApartExtends(x, o.backupDir, x, SavedTarget(o, a.target));
    if a.Copy? {
      BelowBackup(o, "source", a.source);
      ApartExtends(x, o.backupDir, x, SavedSource(o, a.source));
    }
  }

  lemma BelowBackup(o: Options, name: string, p: Path)
    ensures Within(o.backupDir, o.backupDir + [name] + p)
  {
    assert (o.backupDir + [name] + p)[..|o.backupDir|] == o.backupDir;
  }

  lemma FirstDiffers(m: string, x: Path, n: string, y: Path)
    requires m != n
    ensures !Within([m] + x, [n] + y)
  {
    var u, v := [m] + x, [n] + y;
    if |u| <= |v| { assert v[..|u|][0] == n && u[0] == m; }
  }

  lemma SavedApart(o: Options, m: string, x: Path, n: string, y: Path)
    requires m != n || Apart(x, y)
    ensures Apart(o.backupDir + [m] + x, o.backupDir + [n] + y)
  {
    assert o.backupDir + [m] + x == o.backupDir + ([m] + x);
    assert o.backupDir + [n] + y == o.backupDir + ([n] + y);
    MappedApart(o.backupDir, [m] + x, [n] + y);
    if m == n {
      MappedApart([m], x, y);
    } else {
      FirstDiffers(m, x, n, y);
      FirstDiffers(n, y, m, x);
    }
  }

  /** The backup of an earlier target is clear of a later action. */
  lemma SavedClear(o: Options, a: Action, target: Path)
    requires Apart(target, a.target) && Apart(o.backupDir, Mapped(o, a.target))
    ensures Clear(o, a, SavedTarget(o, target))
  {
    BelowBackup(o, "target", target);
    ApartExtends(o.backupDir, Mapped(o, a.target), SavedTarget(o, target), Mapped(o, a.target));
    SavedApart(o, "target", target, "target", a.target);
    if a.Copy? { SavedApart(o, "target", target, "source", a.source); }
  }

  // ----- What a step leaves alone -----

  lemma SameTrans(t: Tree, u: Tree, v: Tree, x: Path)
    requires Same(t, u, x) && Same(u, v, x)
    ensures Same(t, v, x)
  {
    forall p | Within(x, p) ensures At(t, p) == At(v, p) {
      assert At(t, p) == At(u, p);
    }
  }

  lemma CopyActionFrame(o: Options, t: Tree, a: Action, x: Path)
    requires a.Copy? && CanCopyAction(o, t, a) && Apart(x, Mapped(o, a.target))
    ensures Same(t, CopyAction(o, t, a), x)
  {
    var u := CopyTree(t, Mapped(o, a.source), Mapped(o, a.target));
    CopyFrame(t, Mapped(o, a.source), Mapped(o, a.target), x);
    forall p | Within(x, p) ensures At(t, p) == At(CopyAction(o, t, a), p) {
      assert At(t, p) == At(u, p);
    }
  }

  lemma LinkActionFrame(o: Options, t: Tree, a: Action, x: Path)
    requires a.Compat? && Mapped(o, a.target) != [] && Apart(x, Mapped(o, a.target))
    ensures Same(t, LinkAction(o, t, a), x)
  {
    var y := Mapped(o, a.target);
    var u := MakeDirs(RemoveTree(t, y), Parent(y));
    forall p | Within(x, p) ensures At(t, p) == At(LinkAction(o, t, a), p) {
      ApartBelow(x, y, p);
      WithinParent(p, y);
      assert At(RemoveTree(t, y), p) == At(t, p);
      assert At(u, p) == At(t, p);
    }
  }

  lemma BackupTargetFrame(o: Options, r: Run, target: Path, x: Path)
    requires Apart(x, SavedTarget(o, target))
    ensures Same(r.tree, BackupTarget(o, r, target).tree, x)
  {
    CopyFrame(r.tree, Mapped(o, target), SavedTarget(o, target), x);
  }

  lemma BackupSourceFrame(o: Options, r: Run, source: Path, x: Path)
    requires Apart(x, SavedSource(o, source))
    ensures Same(r.tree, BackupSource(o, r, source).tree, x)
  {
    CopyFrame(r.tree, Mapped(o, source), SavedSource(o, source), x);
  }

  lemma StepFrame(o: Options, r: Run, a: Action, x: Path)
    requires a.target != [] && Clear(o, a, x)
    ensures Same(r.tree, Step(o, r, a).tree, x)
  {
    match a {
      case Copy(_, _, _) =>
        var r1 := BackupSource(o, r, a.source);
        var r2 := BackupTarget(o, r1, a.target);
        BackupSourceFrame(o, r, a.source, x);
        BackupTargetFrame(o, r1, a.target, x);
        SameTrans(r.tree, r1.tree, r2.tree, x);
        if CanCopyAction(o, r2.tree, a) {
          CopyActionFrame(o, r2.tree, a, x);
          SameTrans(r.tree, r2.tree, CopyAction(o, r2.tree, a), x);
        }
      case Compat(_, _, _) =>
        var r1 := BackupTarget(o, r, a.target);
        BackupTargetFrame(o, r, a.target, x);
        LinkActionFrame(o, r1.tree, a, x);
        SameTrans(r.tree, r1.tree, LinkAction(o, r1.tree, a), x);
    }
  }

  lemma {:induction false} StepsFrame(o: Options, t: Tree, actions: seq<Action>, x: Path)
    requires RealTargets(actions)
    requires forall i :: 0 <= i < |actions| ==> Clear(o, actions[i], x)
    ensures Same(t, Steps(o, t, actions).tree, x)
    decreases |actions|
  {
    if actions != [] {
      var n := |actions| - 1;
      StepsFrame(o, t, actions[..n], x);
      var r := Steps(o, t, actions[..n]);
      StepFrame(o, r, actions[n], x);
      SameTrans(t, r.tree, Step(o, r, actions[n]).tree, x);
    }
  }

  // ----- What a step records -----

  /** `y` in `u` is a copy of `x` in `t`. */
  ghost predicate Saved(t: Tree, u: Tree, x: Path, y: Path) {
    forall p :: Within(x, p) ==> At(t, p) == At(u, Rebase(p, x, y))
  }

  lemma SavedKept(t: Tree, u: Tree, v: Tree, x: Path, y: Path)
    requires Saved(t, u, x, y) && Same(u, v, y)
    ensures Saved(t, v, x, y)
  {
    forall p | Within(x, p) ensures At(t, p) == At(v, Rebase(p, x, y)) {
      Rebased(p, x, y);
      assert At(u, Rebase(p, x, y)) == At(v, Rebase(p, x, y));
    }
  }

  lemma SavedFrom(s: Tree, t: Tree, u: Tree, x: Path, y: Path)
    requires Same(s, t, x) && Saved(t, u, x, y)
    ensures Saved(s, u, x, y)
  {
    forall p | Within(x, p) ensures At(s, p) == At(u, Rebase(p, x, y)) {
      assert At(s, p) == At(t, p);
    }
  }

  lemma CopySaves(t: Tree, x: Path, y: Path)
    ensures Saved(t, CopyTree(t, x, y), x, y)
  {
    forall p | Within(x, p) ensures At(t, p) == At(CopyTree(t, x, y), Rebase(p, x, y)) {
      Rebased(p, x, y);
    }
  }

  /** The entry tells whether the target existed in `s`, and its backup in `t` is what was there. */
  ghost predicate Faithful(o: Options, s: Tree, t: Tree, e: BackupEntry) {
    && (e.existed <==> Mapped(o, e.target) in s)
    && e.backup == (if e.existed then Some(SavedTarget(o, e.target)) else None)
    && (e.existed ==> Saved(s, t, Mapped(o, e.target), SavedTarget(o, e.target)))
  }

  lemma StepRecords(o: Options, s: Tree, r: Run, a: Action)
    requires a.target != [] && r.ok && Step(o, r, a).ok && !o.noBackup
    requires Same(s, r.tree, Mapped(o, a.target)) && Apart(o.backupDir, Mapped(o, a.target))
    ensures |Step(o, r, a).targets| == |r.targets| + 1 && Step(o, r, a).targets[..|r.targets|] == r.targets
    ensures Step(o, r, a).targets[|r.targets|].target == a.target
    ensures Faithful(o, s, Step(o, r, a).tree, Step(o, r, a).targets[|r.targets|])
  {
    var x, y := Mapped(o, a.target), SavedTarget(o, a.target);
    var r1 := if a.Copy? then BackupSource(o, r, a.source) else r;
    var r2 := BackupTarget(o, r1, a.target);
    assert r2.targets[..|r.targets|] == r.targets;
    BelowBackup(o, "target", a.target);
    ApartExtends(o.backupDir, x, y, x);
    assert Same(r.tree, r1.tree, x) by {
      if a.Copy? {
        BelowBackup(o, "source", a.source);
        ApartExtends(o.backupDir, x, SavedSource(o, a.source), x);
        CopyFrame(r.tree, Mapped(o, a.source), SavedSource(o, a.source), x);
      }
    }
    SameTrans(s, r.tree, r1.tree, x);
    assert At(s, x) == At(r1.tree, x);
    if x in r1.tree {
      CopySaves(r1.tree, x, y);
      SavedFrom(s, r1.tree, r2.tree, x, y);
      LastWriteFrame(o, r2.tree, a, y);
      SavedKept(s, r2.tree, Step(o, r, a).tree, x, y);
    }
  }

  /** The write that follows the backups leaves the backups alone. */
  lemma LastWriteFrame(o: Options, t: Tree, a: Action, x: Path)
    requires a.target != [] && Apart(x, Mapped(o, a.target))
    ensures a.Copy? && CanCopyAction(o, t, a) ==> Same(t, CopyAction(o, t, a), x)
    ensures a.Compat? ==> Same(t, LinkAction(o, t, a), x)
  {
    if a.Copy? && CanCopyAction(o, t, a) {
      CopyActionFrame(o, t, a, x);
    } else if a.Compat? {
      LinkActionFrame(o, t, a, x);
    }
  }

  /** The manifest's list, after the actions, matches them one by one and every entry is faithful. */
  ghost predicate Recorded(o: Options, s: Tree, t: Tree, actions: seq<Action>, es: seq<BackupEntry>) {
    && |es| == |actions|
    && forall i :: 0 <= i < |es| ==> es[i].target == actions[i].target && Faithful(o, s, t, es[i])
  }

  lemma FaithfulKept(o: Options, s: Tree, t: Tree, u: Tree, e: BackupEntry)
    requires Faithful(o, s, t, e) && Same(t, u, SavedTarget(o, e.target))
    ensures Faithful(o, s, u, e)
  {
    if e.existed { SavedKept(s, t, u, Mapped(o, e.target), SavedTarget(o, e.target)); }
  }

  /** The last target is as it was when its turn comes. */
  lemma TargetStays(o: Options, t: Tree, actions: seq<Action>)
    requires RealTargets(actions) && Separated(o, actions) && actions != []
    ensures var n := |actions| - 1;
            Same(t, Steps(o, t, actions[..n]).tree, Mapped(o, actions[n].target))
  {
    var n := |actions| - 1;
    var x := Mapped(o, actions[n].target);
    forall i | 0 <= i < n ensures Clear(o, actions[..n][i], x) {
      assert Apart(actions[i].target, actions[n].target);
      MappedApart(o.root, actions[i].target, actions[n].target);
      OutsideBackup(o, actions[i], x);
    }
    StepsFrame(o, t, actions[..n], x);
  }

  /** A record of an earlier target outlives a later action. */
  lemma RecordStays(o: Options, t: Tree, r: Run, a: Action, e: BackupEntry)
    requires a.target != [] && Apart(e.target, a.target) && Apart(o.backupDir, Mapped(o, a.target))
    requires Faithful(o, t, r.tree, e)
    ensures Faithful(o, t, Step(o, r, a).tree, e)
  {
    SavedClear(o, a, e.target);
    StepFrame(o, r, a, SavedTarget(o, e.target));
    FaithfulKept(o, t, r.tree, Step(o, r, a).tree, e);
  }

  lemma RecordedAppend(o: Options, s: Tree, u: Tree, actions: seq<Action>, front: seq<BackupEntry>, es: seq<BackupEntry>)
    requires actions != [] && |es| == |front| + 1 && es[..|front|] == front
    requires Recorded(o, s, u, actions[..|actions| - 1], front)
    requires es[|front|].target == actions[|actions| - 1].target && Faithful(o, s, u, es[|front|])
    ensures Recorded(o, s, u, actions, es)
  {
    forall i | 0 <= i < |es| ensures es[i].target == actions[i].target && Faithful(o, s, u, es[i]) {
      if i < |front| { assert es[i] == es[..|front|][i] == front[i]; }
    }
  }

  /** The records of earlier targets outlive a later action. */
  lemma RecordsStay(o: Options, t: Tree, r: Run, actions: seq<Action>)
    requires RealTargets(actions) && Separated(o, actions) && actions != []
    requires Recorded(o, t, r.tree, actions[..|actions| - 1], r.targets)
    ensures Recorded(o, t, Step(o, r, actions[|actions| - 1]).tree, actions[..|actions| - 1], r.targets)
  {
    var n := |actions| - 1;
    forall i | 0 <= i < n ensures Faithful(o, t, Step(o, r, actions[n]).tree, r.targets[i]) {
      assert Apart(actions[i].target, actions[n].target);
      RecordStays(o, t, r, actions[n], r.targets[i]);
    }
  }

  lemma {:induction false} StepsRecord(o: Options, t: Tree, actions: seq<Action>)
    requires RealTargets(actions) && Separated(o, actions) && !o.noBackup && Steps(o, t, actions).ok
    ensures Recorded(o, t, Steps(o, t, actions).tree, actions, Steps(o, t, actions).targets)
    decreases |actions|
  {
    if actions != [] {
      var n := |actions| - 1;
      StepsRecord(o, t, actions[..n]);
      var r := Steps(o, t, actions[..n]);
      TargetStays(o, t, actions);
      StepRecords(o, t, r, actions[n]);
      RecordsStay(o, t, r, actions);
      var s := Step(o, r, actions[n]);
      RecordedAppend(o, t, s.tree, actions, r.targets, s.targets);
    }
  }

  // ----- Validity -----

  ghost predicate ActionApart(o: Options, a: Action) {
    && a.target != [] && Apart(o.backupDir, Mapped(o, a.target))
    && (a.Copy? ==> Apart(o.backupDir, Mapped(o, a.source)) && Apart(Mapped(o, a.source), Mapped(o, a.target)))
  }

  lemma ActionsApart(o: Options, actions: seq<Action>, i: nat)
    requires RealTargets(actions) && Separated(o, actions) && i < |actions|
    ensures ActionApart(o, actions[i])
  {
    if actions[i].Copy? { MappedApart(o.root, actions[i].source, actions[i].target); }
  }

  lemma FromBackup(o: Options, name: string, p: Path)
    requires Apart(o.backupDir, Mapped(o, p))
    ensures Apart(Mapped(o, p), o.backupDir + [name] + p)
  {
    BelowBackup(o, name, p);
    ApartExtends(o.backupDir, Mapped(o, p), o.backupDir + [name] + p, Mapped(o, p));
  }

  lemma BackupsValid(o: Options, r: Run, p: Path)
    requires Valid(r.tree) && Apart(o.backupDir, Mapped(o, p))
    ensures Valid(BackupSource(o, r, p).tree) && Valid(BackupTarget(o, r, p).tree)
  {
    FromBackup(o, "source", p);
    FromBackup(o, "target", p);
    var x := Mapped(o, p);
    if CanCopy(r.tree, x, SavedSource(o, p)) { ValidCopy(r.tree, x, SavedSource(o, p)); }
    if CanCopy(r.tree, x, SavedTarget(o, p)) { ValidCopy(r.tree, x, SavedTarget(o, p)); }
  }

  lemma CopyActionValid(o: Options, t: Tree, a: Action)
    requires Valid(t) && a.Copy? && ActionApart(o, a) && CanCopyAction(o, t, a)
    ensures Valid(CopyAction(o, t, a))
  {
    var x, y := Mapped(o, a.source), Mapped(o, a.target);
    var u := CopyTree(t, x, y);
    ValidCopy(t, x, y);
    if a.rewrite {
      assert Rebase(y, y, x) == x;
      assert At(u, y) == At(t, x);
      assert At(u, y[..|y| - 1]) == Some(Dir);
      ValidWrite(u, y, File(o.rewriteUnit(t[x].content)));
    }
  }

  lemma LinkActionValid(o: Options, t: Tree, a: Action)
    requires Valid(t) && a.Compat? && a.target != [] && CanLink(o, t, a)
    ensures Valid(LinkAction(o, t, a))
  {
    var y := Mapped(o, a.target);
    var u := RemoveTree(t, y);
    ValidRemove(t, y);
    forall k | 0 <= k <= |y| - 1 && Parent(y)[..k] in u ensures u[Parent(y)[..k]] == Dir {
      assert At(u, Parent(y)[..k]).Some?;
    }
    ValidMake(u, Parent(y));
    var v := MakeDirs(u, Parent(y));
    assert Within(Parent(y), Parent(y)) && At(v, Parent(y)) == Some(Dir) by {
      assert Parent(y)[..|y| - 1] == Parent(y);
      assert AllDirs(t, Parent(y));
    }
    assert Within(y, y) && At(u, y) == None;
    assert At(v, y) == None;
    ValidWrite(v, y, Link(Mapped(o, a.linkTarget)));
  }

  lemma StepValid(o: Options, r: Run, a: Action)
    requires Valid(r.tree) && ActionApart(o, a)
    ensures Valid(Step(o, r, a).tree)
  {
    var r1 := if a.Copy? then BackupSource(o, r, a.source) else r;
    var r2 := BackupTarget(o, r1, a.target);
    if a.Copy? { BackupsValid(o, r, a.source); }
    BackupsValid(o, r1, a.target);
    if a.Copy? && CanCopyAction(o, r2.tree, a) {
      CopyActionValid(o, r2.tree, a);
    } else if a.Compat? && CanLink(o, r2.tree, a) {
      LinkActionValid(o, r2.tree, a);
    }
  }

  lemma {:induction false} StepsValid(o: Options, t: Tree, actions: seq<Action>)
    requires RealTargets(actions) && Separated(o, actions) && Valid(t)
    ensures Valid(Steps(o, t, actions).tree)
    decreases |actions|
  {
    if actions != [] {
      var n := |actions| - 1;
      StepsValid(o, t, actions[..n]);
      ActionsApart(o, actions, n);
      StepValid(o, Steps(o, t, actions[..n]), actions[n]);
    }
  }

  // ----- What the copies are copies of -----

  lemma StepCopies(o: Options, s: Tree, r: Run, a: Action)
    requires r.ok && a.Copy? && !a.rewrite && ActionApart(o, a) && Step(o, r, a).ok
    requires Same(s, r.tree, Mapped(o, a.source))
    ensures Saved(s, Step(o, r, a).tree, Mapped(o, a.source), Mapped(o, a.target))
  {
    var x, y := Mapped(o, a.source), Mapped(o, a.target);
    var r1 := BackupSource(o, r, a.source);
    var r2 := BackupTarget(o, r1, a.target);
    BelowBackup(o, "source", a.source);
    BelowBackup(o, "target", a.target);
    ApartExtends(o.backupDir, x, SavedSource(o, a.source), x);
    ApartExtends(o.backupDir, x, SavedTarget(o, a.target), x);
    BackupSourceFrame(o, r, a.source, x);
    BackupTargetFrame(o, r1, a.target, x);
    SameTrans(r.tree, r1.tree, r2.tree, x);
    SameTrans(s, r.tree, r2.tree, x);
    CopySaves(r2.tree, x, y);
    SavedFrom(s, r2.tree, CopyTree(r2.tree, x, y), x, y);
  }

  lemma {:induction false} StepsCopy(o: Options, t: Tree, actions: seq<Action>, i: nat)
    requires RealTargets(actions) && Separated(o, actions) && Steps(o, t, actions).ok
    requires i < |actions| && actions[i].Copy? && !actions[i].rewrite
    ensures Saved(t, Steps(o, t, actions).tree, Mapped(o, actions[i].source), Mapped(o, actions[i].target))
    decreases |actions|
  {
    var n := |actions| - 1;
    var init, a := actions[..n], actions[n];
    var r := Steps(o, t, init);
    if i < n {
      StepsCopy(o, t, init, i);
      var y := Mapped(o, init[i].target);
      assert Apart(actions[i].target, actions[n].target);
      MappedApart(o.root, actions[i].target, a.target);
      OutsideBackup(o, a, y);
      StepFrame(o, r, a, y);
      SavedKept(t, r.tree, Step(o, r, a).tree, Mapped(o, init[i].source), y);
    } else {
      ActionsApart(o, actions, n);
      forall j | 0 <= j < n ensures Clear(o, init[j], Mapped(o, a.source)) {
        assert Apart(actions[n].source, actions[j].target);
        MappedApart(o.root, a.source, init[j].target);
        OutsideBackup(o, init[j], Mapped(o, a.source));
      }
      StepsFrame(o, t, init, Mapped(o, a.source));
      StepCopies(o, t, r, a);
    }
  }
}

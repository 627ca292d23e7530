/** When rollback succeeds, what apply never lets through, and that the built plan meets the conditions. */
module MigrationTheorems {
  import opened Basics
  import opened FileTree
  import opened Migration
  import opened MigrationConfigs
  import opened MigrationApply

  // ----- What stays -----

  /** `p` lies in none of the places where the action writes. */
  ghost predicate Spares(o: Options, a: Action, p: Path) {
    && !Within(Mapped(o, a.target), p)
    && !Within(SavedTarget(o, a.target), p)
    && (a.Copy? ==> !Within(SavedSource(o, a.source), p))
  }

  ghost predicate IsDir(t: Tree, p: Path) {
    At(t, p) == Some(Dir)
  }

  /** What is at `p` is still there, and a place that was empty holds at most a directory. */
  ghost predicate KeptAt(t: Tree, u: Tree, p: Path) {
    At(u, p) == At(t, p) || (p !in t && IsDir(u, p))
  }

  lemma BackupsKeep(o: Options, r: Run, a: Action, p: Path)
    requires Spares(o, a, p)
    ensures KeptAt(r.tree, BackupTarget(o, r, a.target).tree, p)
    ensures a.Copy? ==> KeptAt(r.tree, BackupSource(o, r, a.source).tree, p)
  {
  }

  lemma CopyKeeps(o: Options, t: Tree, a: Action, p: Path)
    requires a.Copy? && Spares(o, a, p)
    ensures CanCopyAction(o, t, a) ==> KeptAt(t, CopyAction(o, t, a), p)
  {
    var y := Mapped(o, a.target);
    assert KeptAt(t, CopyTree(t, Mapped(o, a.source), y), p);
    assert Within(y, y);
  }

  lemma LinkKeeps(o: Options, t: Tree, a: Action, p: Path)
    requires a.Compat? && a.target != [] && Spares(o, a, p)
    ensures KeptAt(t, LinkAction(o, t, a), p)
  {
    var y := Mapped(o, a.target);
    assert At(RemoveTree(t, y), p) == At(t, p);
    assert Within(y, y);
  }

  lemma StepKeeps(o: Options, r: Run, a: Action, p: Path)
    requires a.target != [] && Spares(o, a, p)
    ensures KeptAt(r.tree, Step(o, r, a).tree, p)
  {
    var r1 := if a.Copy? then BackupSource(o, r, a.source) else r;
    var r2 := BackupTarget(o, r1, a.target);
    BackupsKeep(o, r, a, p);
    BackupsKeep(o, r1, a, p);
    if a.Copy? {
      CopyKeeps(o, r2.tree, a, p);
    } else {
      LinkKeeps(o, r2.tree, a, p);
    }
  }

  lemma {:induction false} StepsKeep(o: Options, t: Tree, actions: seq<Action>, p: Path)
    requires RealTargets(actions)
    requires forall i :: 0 <= i < |actions| ==> Spares(o, actions[i], p)
    ensures KeptAt(t, Steps(o, t, actions).tree, p)
    decreases |actions|
  {
    if actions != [] {
      var n := |actions| - 1;
      StepsKeep(o, t, actions[..n], p);
      var r := Steps(o, t, actions[..n]);
      if r.ok { StepKeeps(o, r, actions[n], p); }
    }
  }

  lemma AboveSpared(o: Options, a: Action, x: Path, k: nat)
    requires k < |x| && Apart(x, o.backupDir) && (x == Mapped(o, a.target) || Apart(x, Mapped(o, a.target)))
    ensures Spares(o, a, x[..k]) && x[..k] != ManifestPath(o) && !Within(Mapped(o, a.target), x[..k])
  {
    var p := x[..k];
    assert Within(p, x);
    BelowBackup(o, "target", a.target);
    if Within(o.backupDir, p) {
      WithinTrans(o.backupDir, p, x);
      assert false;
    }
    if Within(Mapped(o, a.target), p) {
      WithinTrans(Mapped(o, a.target), p, x);
      assert false;
    }
    if Within(SavedTarget(o, a.target), p) {
      WithinTrans(o.backupDir, SavedTarget(o, a.target), p);
      assert false;
    }
    if a.Copy? {
      BelowBackup(o, "source", a.source);
      if Within(SavedSource(o, a.source), p) {
        WithinTrans(o.backupDir, SavedSource(o, a.source), p);
        assert false;
      }
    }
    assert Within(o.backupDir, ManifestPath(o)) by { assert ManifestPath(o)[..|o.backupDir|] == o.backupDir; }
  }

  /** Whatever stands on the way to a target still stands there after the migration. */
  lemma AppliedKeeps(o: Options, actions: seq<Action>, t: Tree, i: nat, k: nat)
    requires RealTargets(actions) && Separated(o, actions) && i < |actions|
    requires k < |Mapped(o, actions[i].target)|
    ensures KeptAt(t, Applied(o, actions, t), Mapped(o, actions[i].target)[..k])
    ensures OutsideTargets(o, actions, Mapped(o, actions[i].target)[..k])
  {
    var x := Mapped(o, actions[i].target);
    forall j | 0 <= j < |actions|
      ensures Spares(o, actions[j], x[..k]) && !Within(Mapped(o, actions[j].target), x[..k])
    {
      TargetsApart(o, actions, i, j);
      AboveSpared(o, actions[j], x, k);
    }
    AboveSpared(o, actions[i], x, k);
    StepsKeep(o, Started(o, t), actions, x[..k]);
    if o.rejoin.Join? { HardenKeeps(o, Steps(o, Started(o, t), actions).tree, actions, o.rejoin.token, x[..k]); }
  }

  lemma TargetsApart(o: Options, actions: seq<Action>, i: nat, j: nat)
    requires Separated(o, actions) && i < |actions| && j < |actions|
    ensures i == j || Apart(Mapped(o, actions[i].target), Mapped(o, actions[j].target))
  {
    MappedApart(o.root, actions[i].target, actions[j].target);
    if i < j {
      assert Apart(actions[i].target, actions[j].target);
    } else if j < i {
      assert Apart(actions[j].target, actions[i].target);
    }
  }

  // ----- When rollback succeeds -----

  ghost predicate DirsAbove(t: Tree, x: Path) {
    forall k :: 0 <= k < |x| ==> IsDir(t, x[..k])
  }

  lemma RestoreStepAbove(o: Options, t: Tree, e: BackupEntry, x: Path)
    requires Apart(x, Mapped(o, e.target))
    ensures DirsAbove(t, x) ==> DirsAbove(RestoreStep(o, t, e).tree, x)
    ensures ThroughFile(t, x) <==> ThroughFile(RestoreStep(o, t, e).tree, x)
  {
    var y := Mapped(o, e.target);
    var u := RestoreStep(o, t, e).tree;
    forall k | 0 <= k < |x|
      ensures At(u, x[..k]) == At(t, x[..k]) || (At(t, x[..k]) == None && IsDir(u, x[..k]))
    {
      var p := x[..k];
      if Within(y, p) {
        WithinTrans(y, p, x);
        assert false;
      }
      assert At(RemoveTree(t, y), p) == At(t, p);
    }
    assert DirsAbove(t, x) ==> forall k :: 0 <= k < |x| ==> IsDir(t, x[..k]) && IsDir(u, x[..k]);
    SameFiles(t, u, x);
    SameFiles(u, t, x);
  }

  lemma SameFiles(t: Tree, u: Tree, x: Path)
    requires forall k :: 0 <= k < |x| && At(t, x[..k]).Some? && At(t, x[..k]).value.File? ==> At(u, x[..k]) == At(t, x[..k])
    ensures ThroughFile(t, x) ==> ThroughFile(u, x)
  {
    if ThroughFile(t, x) {
      var k :| 0 <= k < |x| && x[..k] in t && t[x[..k]].File?;
      assert At(u, x[..k]) == At(t, x[..k]);
    }
  }

  lemma RestoreStepOk(o: Options, s: Tree, t: Tree, e: BackupEntry)
    requires Valid(t) && Faithful(o, s, t, e) && Apart(SavedTarget(o, e.target), Mapped(o, e.target))
    requires e.existed ==> DirsAbove(t, Mapped(o, e.target))
    ensures RestoreStep(o, t, e).ok <==> !ThroughFile(t, Mapped(o, e.target))
    ensures RestoreStep(o, t, e).ok ==> Valid(RestoreStep(o, t, e).tree)
  {
    var x, y := Mapped(o, e.target), SavedTarget(o, e.target);
    var u := RemoveTree(t, x);
    assert x in t ==> forall k :: 0 <= k < |x| ==> At(t, x[..k]) == Some(Dir);
    assert x != [] by { assert |x| == 0 ==> Within(x, y); }
    ValidRemove(t, x);
    if e.existed {
      assert forall k :: 0 <= k < |x| ==> IsDir(t, x[..k]);
      assert At(s, x) == At(t, Rebase(x, x, y)) && Rebase(x, x, y) == y;
      RemoveFrame(t, x, y);
      assert Within(y, y) && At(u, y) == At(t, y);
      forall k | 0 <= k < |x| ensures At(u, Parent(x)[..k]) == Some(Dir) {
        assert Parent(x)[..k] == x[..k];
      }
      ValidCopy(u, y, x);
    }
  }

  /** No entry's target runs through a regular file. */
  ghost predicate Passable(o: Options, t: Tree, es: seq<BackupEntry>) {
    forall i :: 0 <= i < |es| ==> !ThroughFile(t, Mapped(o, es[i].target))
  }

  /** What rollback needs of the tree to put the entries back. */
  ghost predicate Ready(o: Options, s: Tree, t: Tree, actions: seq<Action>, es: seq<BackupEntry>) {
    && Valid(t) && Recorded(o, s, t, actions, es)
    && forall i :: 0 <= i < |es| && es[i].existed ==> DirsAbove(t, Mapped(o, es[i].target))
  }

  lemma RestoreStepReady(o: Options, s: Tree, t: Tree, actions: seq<Action>, es: seq<BackupEntry>)
    requires Separated(o, actions) && Ready(o, s, t, actions, es) && es != []
    requires RestoreStep(o, t, es[|es| - 1]).ok
    ensures Ready(o, s, RestoreStep(o, t, es[|es| - 1]).tree, actions[..|es| - 1], es[..|es| - 1])
    ensures Passable(o, t, es[..|es| - 1]) <==> Passable(o, RestoreStep(o, t, es[|es| - 1]).tree, es[..|es| - 1])
  {
    var n := |es| - 1;
    var e := es[n];
    var u := RestoreStep(o, t, e).tree;
    SavedOutside(o, actions, e.target);
    RestoreStepOk(o, s, t, e);
    UndoKeepsRecords(o, s, t, actions, es);
    forall j | 0 <= j < n
      ensures ThroughFile(t, Mapped(o, es[j].target)) <==> ThroughFile(u, Mapped(o, es[j].target))
      ensures es[j].existed ==> DirsAbove(u, Mapped(o, es[j].target))
    {
      TargetsApart(o, actions, j, n);
      RestoreStepAbove(o, t, e, Mapped(o, es[j].target));
    }
  }

  lemma PassableLast(o: Options, t: Tree, es: seq<BackupEntry>)
    requires es != []
    ensures Passable(o, t, es) <==>
            Passable(o, t, es[..|es| - 1]) && !ThroughFile(t, Mapped(o, es[|es| - 1].target))
  {
    var n := |es| - 1;
    if Passable(o, t, es[..n]) && !ThroughFile(t, Mapped(o, es[n].target)) {
      forall i | 0 <= i < |es| ensures !ThroughFile(t, Mapped(o, es[i].target)) {
        if i < n { assert es[..n][i] == es[i]; }
      }
    }
    if Passable(o, t, es) {
      forall i | 0 <= i < n ensures !ThroughFile(t, Mapped(o, es[..n][i].target)) {
        assert es[..n][i] == es[i];
      }
    }
  }

  lemma LastStepOk(o: Options, s: Tree, t: Tree, actions: seq<Action>, es: seq<BackupEntry>)
    requires Separated(o, actions) && Ready(o, s, t, actions, es) && es != []
    ensures RestoreStep(o, t, es[|es| - 1]).ok <==> !ThroughFile(t, Mapped(o, es[|es| - 1].target))
  {
    SavedOutside(o, actions, es[|es| - 1].target);
    RestoreStepOk(o, s, t, es[|es| - 1]);
  }

  lemma SeparatedFront(o: Options, actions: seq<Action>, n: nat)
    requires Separated(o, actions) && n <= |actions|
    ensures Separated(o, actions[..n])
  {
  }

  lemma {:induction false} RestoreOk(o: Options, s: Tree, t: Tree, actions: seq<Action>, es: seq<BackupEntry>)
    requires Separated(o, actions) && Ready(o, s, t, actions, es)
    ensures Restore(o, t, es).ok <==> Passable(o, t, es)
    decreases |es|
  {
    if es != [] {
      var n := |es| - 1;
      var u := RestoreStep(o, t, es[n]);
      assert Restore(o, t, es) == if u.ok then Restore(o, u.tree, es[..n]) else u;
      PassableLast(o, t, es);
      LastStepOk(o, s, t, actions, es);
      if u.ok {
        RestoreStepReady(o, s, t, actions, es);
        SeparatedFront(o, actions, n);
        RestoreOk(o, s, u.tree, actions[..n], es[..n]);
      }
    }
  }

  /** `p` lies outside every target. */
  ghost predicate OutsideTargets(o: Options, actions: seq<Action>, p: Path) {
    forall i :: 0 <= i < |actions| ==> !Within(Mapped(o, actions[i].target), p)
  }

  lemma BackupsUnchanged(o: Options, actions: seq<Action>, after: Tree, later: Tree)
    requires Separated(o, actions) && forall p :: OutsideTargets(o, actions, p) ==> At(after, p) == At(later, p)
    ensures Same(after, later, o.backupDir)
  {
    forall p | Within(o.backupDir, p) ensures At(after, p) == At(later, p) {
      forall i | 0 <= i < |actions| ensures !Within(Mapped(o, actions[i].target), p) {
        ApartBelow(o.backupDir, Mapped(o, actions[i].target), p);
      }
      assert OutsideTargets(o, actions, p);
    }
  }

  /** The way to a target runs through a regular file exactly if it did before the migration. */
  lemma FilesLater(o: Options, actions: seq<Action>, before: Tree, later: Tree, i: nat)
    requires RealTargets(actions) && Separated(o, actions) && i < |actions|
    requires forall p :: OutsideTargets(o, actions, p) ==> At(Applied(o, actions, before), p) == At(later, p)
    ensures ThroughFile(later, Mapped(o, actions[i].target)) <==> ThroughFile(before, Mapped(o, actions[i].target))
  {
    var x := Mapped(o, actions[i].target);
    forall k | 0 <= k < |x| ensures KeptAt(before, later, x[..k]) { AppliedKeeps(o, actions, before, i, k); }
    SameFiles(before, later, x);
    SameFiles(later, before, x);
  }

  /**
   * If only targets changed since the migration, rollback succeeds exactly when, before the migration, no regular
   * file stood on the way to a target.
   */
  lemma RollbackSucceedsIff(o: Options, actions: seq<Action>, before: Tree, later: Tree)
    requires Valid(before) && RealTargets(actions) && Separated(o, actions) && !o.noBackup && actions != []
    requires ApplyOk(o, actions, before) && Valid(later)
    requires forall p :: OutsideTargets(o, actions, p) ==> At(Applied(o, actions, before), p) == At(later, p)
    ensures Rollback(o, later).ok <==>
            forall i :: 0 <= i < |actions| ==> !ThroughFile(before, Mapped(o, actions[i].target))
  {
    BackupsUnchanged(o, actions, Applied(o, actions, before), later);
    var es := RecordedOnDisk(o, actions, before, later);
    forall i | 0 <= i < |es| && es[i].existed ensures DirsAbove(later, Mapped(o, es[i].target)) {
      var x := Mapped(o, actions[i].target);
      forall k | 0 <= k < |x| ensures IsDir(later, x[..k]) {
        assert IsDir(before, x[..k]);
        AppliedKeeps(o, actions, before, i, k);
      }
    }
    RestoreOk(o, before, later, actions, es);
    forall i | 0 <= i < |es|
      ensures ThroughFile(later, Mapped(o, es[i].target)) <==> ThroughFile(before, Mapped(o, actions[i].target))
    {
      FilesLater(o, actions, before, later, i);
    }
  }

  lemma CopyStepMakesDirs(o: Options, r: Run, a: Action, k: nat)
    requires a.Copy? && ActionApart(o, a) && Valid(r.tree) && Step(o, r, a).ok && k < |Mapped(o, a.target)|
    ensures IsDir(Step(o, r, a).tree, Mapped(o, a.target)[..k])
  {
    StepValid(o, r, a);
    var x, y := Mapped(o, a.source), Mapped(o, a.target);
    var r2 := BackupTarget(o, BackupSource(o, r, a.source), a.target);
    assert Rebase(y, y, x) == x;
    assert At(CopyTree(r2.tree, x, y), y).Some?;
    assert y in Step(o, r, a).tree;
  }

  lemma {:induction false} CopiesMakeDirs(o: Options, t: Tree, actions: seq<Action>, i: nat, k: nat)
    requires RealTargets(actions) && Separated(o, actions) && Valid(t) && Steps(o, t, actions).ok
    requires i < |actions| && actions[i].Copy? && k < |Mapped(o, actions[i].target)|
    ensures IsDir(Steps(o, t, actions).tree, Mapped(o, actions[i].target)[..k])
    decreases |actions|
  {
    var n := |actions| - 1;
    var r := Steps(o, t, actions[..n]);
    if i < n {
      CopiesMakeDirs(o, t, actions[..n], i, k);
      TargetsApart(o, actions, i, n);
      AboveSpared(o, actions[n], Mapped(o, actions[i].target), k);
      StepKeeps(o, r, actions[n], Mapped(o, actions[i].target)[..k]);
    } else {
      StepsValid(o, t, actions[..n]);
      ActionsApart(o, actions, n);
      CopyStepMakesDirs(o, r, actions[n], k);
    }
  }

  /** A plan of copies can always be rolled back, as long as only its targets changed. */
  lemma RollbackOfCopiesSucceeds(o: Options, actions: seq<Action>, before: Tree, later: Tree)
    requires Valid(before) && RealTargets(actions) && Separated(o, actions) && !o.noBackup && actions != []
    requires ApplyOk(o, actions, before) && Valid(later)
    requires forall p :: OutsideTargets(o, actions, p) ==> At(Applied(o, actions, before), p) == At(later, p)
    requires forall i :: 0 <= i < |actions| ==> actions[i].Copy?
    ensures Rollback(o, later).ok
  {
    RollbackSucceedsIff(o, actions, before, later);
    forall i | 0 <= i < |actions| ensures !ThroughFile(before, Mapped(o, actions[i].target)) {
      CopyReached(o, actions, before, later, i);
    }
  }

  /** A copy that was made has no regular file on its way. */
  lemma CopyReached(o: Options, actions: seq<Action>, before: Tree, later: Tree, i: nat)
    requires Valid(before) && RealTargets(actions) && Separated(o, actions) && i < |actions| && actions[i].Copy?
    requires ApplyOk(o, actions, before)
    requires forall p :: OutsideTargets(o, actions, p) ==> At(Applied(o, actions, before), p) == At(later, p)
    ensures !ThroughFile(before, Mapped(o, actions[i].target))
  {
    FilesLater(o, actions, before, later, i);
    var x := Mapped(o, actions[i].target);
    forall k | 0 <= k < |x| ensures IsDir(later, x[..k]) { CopyParentsLater(o, actions, before, later, i, k); }
  }

  lemma CopyParentsLater(o: Options, actions: seq<Action>, before: Tree, later: Tree, i: nat, k: nat)
    requires Valid(before) && RealTargets(actions) && Separated(o, actions) && i < |actions| && actions[i].Copy?
    requires ApplyOk(o, actions, before) && k < |Mapped(o, actions[i].target)|
    requires forall p :: OutsideTargets(o, actions, p) ==> At(Applied(o, actions, before), p) == At(later, p)
    ensures IsDir(later, Mapped(o, actions[i].target)[..k])
  {
    var x := Mapped(o, actions[i].target);
    var s := Started(o, before);
    if !o.noBackup { ValidMake(before, o.backupDir); }
    CopiesMakeDirs(o, s, actions, i, k);
    if o.rejoin.Join? { HardenShape(o, Steps(o, s, actions).tree, actions, o.rejoin.token); }
    AboveSpared(o, actions[i], x, k);
    forall j | 0 <= j < |actions| ensures !Within(Mapped(o, actions[j].target), x[..k]) {
      TargetsApart(o, actions, i, j);
      AboveSpared(o, actions[j], x, k);
    }
    assert OutsideTargets(o, actions, x[..k]);
  }

  lemma BackupDirStays(o: Options, t: Tree, actions: seq<Action>)
    requires RealTargets(actions) && Separated(o, actions) && AllDirs(t, o.backupDir) && !o.noBackup
    ensures At(Steps(o, Started(o, t), actions).tree, o.backupDir) == Some(Dir)
  {
    assert o.backupDir[..|o.backupDir|] == o.backupDir;
    assert Within(o.backupDir, o.backupDir);
    StepsKeep(o, Started(o, t), actions, o.backupDir);
  }

  /** The tree after a migration is a tree again. */
  lemma AppliedValid(o: Options, actions: seq<Action>, t: Tree)
    requires Valid(t) && RealTargets(actions) && Separated(o, actions) && ApplyOk(o, actions, t)
    ensures Valid(Applied(o, actions, t))
  {
    if actions != [] {
      var s := Started(o, t);
      if !o.noBackup { ValidMake(t, o.backupDir); }
      StepsValid(o, s, actions);
      var r := Steps(o, s, actions);
      var u := Rejoined(o, r.tree, actions);
      if o.rejoin.Join? {
        HardenShape(o, r.tree, actions, o.rejoin.token);
        ShapeValid(r.tree, u);
      }
      if !o.noBackup {
        BackupDirStays(o, t, actions);
        assert Parent(ManifestPath(o)) == o.backupDir;
        assert IsDir(u, o.backupDir);
        ValidWrite(u, ManifestPath(o), File(Record(Manifest("client", r.targets, r.sources))));
      }
    }
  }

  // ----- A target that cannot be reached -----

  lemma BehindFile(t: Tree, x: Path)
    requires Valid(t) && ThroughFile(t, x)
    ensures x !in t && Lstat(t, x) == NotDir
  {
  }

  /**
   * If the last target lay behind a regular file, rollback, which undoes this target first, fails there and
   * restores nothing.
   */
  lemma BlockedRollback(o: Options, actions: seq<Action>, before: Tree, later: Tree)
    requires Valid(before) && RealTargets(actions) && Separated(o, actions) && !o.noBackup && actions != []
    requires ApplyOk(o, actions, before) && Valid(later)
    requires forall p :: OutsideTargets(o, actions, p) ==> At(Applied(o, actions, before), p) == At(later, p)
    requires ThroughFile(before, Mapped(o, actions[|actions| - 1].target))
    ensures Rollback(o, later) == Undo(false, later)
  {
    var n := |actions| - 1;
    var x := Mapped(o, actions[n].target);
    FilesLater(o, actions, before, later, n);
    BackupsUnchanged(o, actions, Applied(o, actions, before), later);
    var es := RecordedOnDisk(o, actions, before, later);
    BehindFile(before, x);
    BehindFile(later, x);
    assert !es[n].existed;
  }

  // ----- Safety -----

  /** A configuration target is filled from its own source, unchanged. */
  ghost predicate ConfigShape(actions: seq<Action>) {
    forall i :: 0 <= i < |actions| && IsConfigCopy(actions[i]) ==>
      !actions[i].rewrite && actions[i].source == (if actions[i].target == ETC_TARGET then ETC_SOURCE else LIB_SOURCE)
  }

  lemma WithinSame(y: Path, p: Path)
    requires Within(y, p)
    ensures |p| == |y| ==> p == y
  {
    assert p == p[..|y|] + p[|y|..];
  }

  lemma CopySafe(t: Tree, u: Tree, x: Path, y: Path)
    requires Saved(t, u, x, y) && AllSafe(t, x) && y != [] && !EndsInJson(y[|y| - 1])
    ensures AllSafe(u, y)
  {
    forall p | p in u && Within(y, p) && Visited(p, u[p]) && u[p].File? ensures !Unsafe(u[p].content) {
      var q := Rebase(p, y, x);
      Rebased(p, y, x);
      assert At(t, q) == At(u, p);
      WithinSame(y, p);
      assert q[|q| - 1] == p[|p| - 1];
    }
  }

  /**
   * Migration safety: without both unsafe flags, no client configuration below a migrated configuration target
   * is left in the clear.
   */
  lemma ApplySafe(o: Options, actions: seq<Action>, t: Tree, i: nat)
    requires Valid(t) && RealTargets(actions) && Separated(o, actions) && ConfigShape(actions)
    requires ApplyOk(o, actions, t) && !(o.allowUnsafe && o.ack)
    requires i < |actions| && IsConfigCopy(actions[i])
    ensures AllSafe(Applied(o, actions, t), Mapped(o, actions[i].target))
  {
    var s := Started(o, t);
    var r := Steps(o, s, actions);
    var x, y := Mapped(o, actions[i].source), Mapped(o, actions[i].target);
    var u := Rejoined(o, r.tree, actions);
    if o.rejoin.Join? {
      if !o.noBackup { ValidMake(t, o.backupDir); }
      StepsValid(o, s, actions);
      forall j | i < j < |actions| ensures Apart(y, Mapped(o, actions[j].target)) { TargetsApart(o, actions, i, j); }
      HardenPlanSafe(o, r.tree, actions, o.rejoin.token, i);
    } else {
      StartFrame(o, t, x);
      StepsCopy(o, s, actions, i);
      SavedFrom(t, s, r.tree, x, y);
      NotJson(o, actions[i]);
      CopySafe(t, r.tree, x, y);
    }
    var m := Manifest("client", r.targets, r.sources);
    forall p | Within(y, p) ensures At(u, p) == At(WithManifest(o, u, m), p) {
      ApartBelow(y, o.backupDir, p);
      assert Within(o.backupDir, ManifestPath(o)) by { assert ManifestPath(o)[..|o.backupDir|] == o.backupDir; }
    }
    SameSafe(u, WithManifest(o, u, m), y);
  }

  lemma NotJson(o: Options, a: Action)
    requires IsConfigCopy(a)
    ensures Mapped(o, a.target) != [] && !EndsInJson(Mapped(o, a.target)[|Mapped(o, a.target)| - 1])
  {
    assert Mapped(o, a.target)[|Mapped(o, a.target)| - 1] == "anonbird";
    assert "anonbird"[3..][0] == 'n' && ".json"[0] == '.';
  }

  /** Re-enabling auto-connect touches anonymous client configurations, and in them that one field. */
  lemma AutoConnectOnlyAnonymous(t: Tree, a: Path, b: Path, p: Path)
    ensures var u := Walk(Walk(t, a, AutoConnect), b, AutoConnect);
            At(u, p) != At(t, p) ==>
              && (Within(a, p) || Within(b, p))
              && p in t && t[p].File? && t[p].content.Config? && p in u && u[p].File? && u[p].content.Config?
              && Anonymous(t[p].content.fields) && HasUrl(t[p].content.fields)
              && u[p].content.fields == t[p].content.fields["DisableAutoConnect" := Bool(false)]
  {
    var w := Walk(t, a, AutoConnect);
    var u := Walk(w, b, AutoConnect);
    assert At(w, p) == WalkedAt(t, a, AutoConnect, p);
    assert At(u, p) == WalkedAt(w, b, AutoConnect, p);
    if p in t && t[p].File? { AutoConnectTwice(t[p].content); }
  }

  lemma AutoConnectTwice(c: Content)
    ensures AutoConnect(AutoConnect(c)) == AutoConnect(c)
  {
  }
}

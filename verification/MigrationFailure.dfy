/** What a migration that fails leaves behind. */
module MigrationFailure {
  import opened Basics
  import opened FileTree
  import opened Migration
  import opened MigrationConfigs
  import opened MigrationApply
  import opened MigrationTheorems

  /** Both trees agree on everything that is clear of the action's target and backups. */
  ghost predicate OnlyTouched(o: Options, a: Action, t: Tree, u: Tree) {
    forall x :: Clear(o, a, x) ==> Same(t, u, x)
  }

  lemma CopyTouches(o: Options, r: Run, a: Action)
    requires a.Copy?
    ensures var r1 := BackupSource(o, r, a.source);
            var r2 := BackupTarget(o, r1, a.target);
            && OnlyTouched(o, a, r.tree, r1.tree) && OnlyTouched(o, a, r.tree, r2.tree)
            && OnlyTouched(o, a, r.tree, RemoveTree(r2.tree, Mapped(o, a.target)))
            && (CanCopyAction(o, r2.tree, a) ==> OnlyTouched(o, a, r.tree, CopyAction(o, r2.tree, a)))
  {
    var r1 := BackupSource(o, r, a.source);
    var r2 := BackupTarget(o, r1, a.target);
    var y := Mapped(o, a.target);
    forall x | Clear(o, a, x)
      ensures Same(r.tree, r1.tree, x) && Same(r.tree, r2.tree, x) && Same(r.tree, RemoveTree(r2.tree, y), x)
      ensures CanCopyAction(o, r2.tree, a) ==> Same(r.tree, CopyAction(o, r2.tree, a), x)
    {
      BackupSourceFrame(o, r, a.source, x);
      BackupTargetFrame(o, r1, a.target, x);
      SameTrans(r.tree, r1.tree, r2.tree, x);
      RemoveFrame(r2.tree, y, x);
      SameTrans(r.tree, r2.tree, RemoveTree(r2.tree, y), x);
      if CanCopyAction(o, r2.tree, a) {
        CopyActionFrame(o, r2.tree, a, x);
        SameTrans(r.tree, r2.tree, CopyAction(o, r2.tree, a), x);
      }
    }
  }

  lemma LinkTouches(o: Options, r: Run, a: Action)
    requires a.Compat? && a.target != []
    ensures var r1 := BackupTarget(o, r, a.target);
            OnlyTouched(o, a, r.tree, r1.tree) && OnlyTouched(o, a, r.tree, LinkAction(o, r1.tree, a))
  {
    var r1 := BackupTarget(o, r, a.target);
    forall x | Clear(o, a, x) ensures Same(r.tree, r1.tree, x) && Same(r.tree, LinkAction(o, r1.tree, a), x) {
      BackupTargetFrame(o, r, a.target, x);
      LinkActionFrame(o, r1.tree, a, x);
      SameTrans(r.tree, r1.tree, LinkAction(o, r1.tree, a), x);
    }
  }

  // ----- What a failing action does to its target -----

  /** The target is untouched, or it was removed because `force` allows it, and then a backup holds it. */
  ghost predicate TargetSafe(o: Options, a: Action, t: Tree, u: Tree) {
    var y := Mapped(o, a.target);
    || Same(t, u, y)
    || (&& a.Copy? && o.force && (forall p :: Within(y, p) ==> p !in u)
        && (o.noBackup || y !in t || Saved(t, u, y, SavedTarget(o, a.target))))
  }

  /** The source is there but cannot be saved. */
  predicate SourceStuck(o: Options, a: Action, t: Tree) {
    a.Copy? && !o.noBackup && Mapped(o, a.source) in t && !CanCopy(t, Mapped(o, a.source), SavedSource(o, a.source))
  }

  /** The action failed on `t` and left `u`: its target is safe, and if its source could not be saved, nothing changed. */
  ghost predicate FailedOn(o: Options, a: Action, t: Tree, u: Tree) {
    OnlyTouched(o, a, t, u) && TargetSafe(o, a, t, u) && (SourceStuck(o, a, t) ==> u == t)
  }

  lemma TargetUnsaved(o: Options, r: Run, a: Action)
    requires r.ok && a.Copy? && ActionApart(o, a)
    ensures var r1 := BackupSource(o, r, a.source);
            var r2 := BackupTarget(o, r1, a.target);
            && (r1.ok <==> !SourceStuck(o, a, r.tree)) && (!r1.ok ==> r1.tree == r.tree)
            && Same(r.tree, r1.tree, Mapped(o, a.target)) && (!r2.ok ==> r2.tree == r1.tree || !r1.ok)
            && Same(r.tree, r2.tree, Mapped(o, a.target))
  {
    var y := Mapped(o, a.target);
    var r1 := BackupSource(o, r, a.source);
    BelowBackup(o, "source", a.source);
    ApartExtends(y, o.backupDir, y, SavedSource(o, a.source));
    BackupSourceFrame(o, r, a.source, y);
    FromBackup(o, "target", a.target);
    BackupTargetFrame(o, r1, a.target, y);
    SameTrans(r.tree, r1.tree, BackupTarget(o, r1, a.target).tree, y);
  }

  lemma TargetSaved(o: Options, r: Run, a: Action)
    requires r.ok && a.Copy? && ActionApart(o, a) && !o.noBackup && Mapped(o, a.target) in r.tree
    ensures var r1 := BackupSource(o, r, a.source);
            var r2 := BackupTarget(o, r1, a.target);
            var y := Mapped(o, a.target);
            r1.ok && r2.ok ==> Saved(r.tree, RemoveTree(r2.tree, y), y, SavedTarget(o, a.target))
  {
    var x, y := Mapped(o, a.target), SavedTarget(o, a.target);
    var r1 := BackupSource(o, r, a.source);
    var r2 := BackupTarget(o, r1, a.target);
    if r1.ok && r2.ok {
      TargetUnsaved(o, r, a);
      assert Within(x, x) && At(r.tree, x) == At(r1.tree, x);
      CopySaves(r1.tree, x, y);
      SavedFrom(r.tree, r1.tree, r2.tree, x, y);
      FromBackup(o, "target", a.target);
      RemoveFrame(r2.tree, x, y);
      SavedKept(r.tree, r2.tree, RemoveTree(r2.tree, x), x, y);
    }
  }

  /** Wherever a copy fails, its target is safe. */
  lemma CopyFails(o: Options, r: Run, a: Action)
    requires r.ok && a.Copy? && ActionApart(o, a)
    ensures var r1 := BackupSource(o, r, a.source);
            var r2 := BackupTarget(o, r1, a.target);
            && (!r1.ok ==> FailedOn(o, a, r.tree, r1.tree))
            && (r1.ok ==> FailedOn(o, a, r.tree, r2.tree))
            && (r1.ok && r2.ok && o.force ==> FailedOn(o, a, r.tree, RemoveTree(r2.tree, Mapped(o, a.target))))
  {
    var r1 := BackupSource(o, r, a.source);
    var r2 := BackupTarget(o, r1, a.target);
    CopyTouches(o, r, a);
    TargetUnsaved(o, r, a);
    if r1.ok && r2.ok && o.force {
      var y := Mapped(o, a.target);
      var u := RemoveTree(r2.tree, y);
      assert forall p :: Within(y, p) ==> At(u, p) == None;
      if !o.noBackup && y in r.tree { TargetSaved(o, r, a); }
    }
  }

  lemma LinkFails(o: Options, r: Run, a: Action)
    requires r.ok && a.Compat? && ActionApart(o, a)
    ensures FailedOn(o, a, r.tree, BackupTarget(o, r, a.target).tree)
  {
    LinkTouches(o, r, a);
    FromBackup(o, "target", a.target);
    BackupTargetFrame(o, r, a.target, Mapped(o, a.target));
  }

  lemma StepFails(o: Options, r: Run, a: Action)
    requires r.ok && ActionApart(o, a) && !Step(o, r, a).ok
    ensures FailedOn(o, a, r.tree, Step(o, r, a).tree)
  {
    if a.Copy? { CopyFails(o, r, a); } else { LinkFails(o, r, a); }
  }

  /** The actions started from `s` and stopped at action `n`. */
  ghost predicate StoppedAt(o: Options, actions: seq<Action>, s: Tree, u: Tree, n: nat)
    requires RealTargets(actions) && n < |actions|
  {
    && Steps(o, s, actions[..n]).ok && !Steps(o, s, actions[..n + 1]).ok
    && FailedOn(o, actions[n], Steps(o, s, actions[..n]).tree, u)
  }

  /** A migration that failed: refused, stopped at an action, or stopped after all of them. */
  ghost predicate Halted(o: Options, actions: seq<Action>, t: Tree, u: Tree)
    requires RealTargets(actions)
  {
    && At(u, ManifestPath(o)) == At(t, ManifestPath(o))
    && (|| (!CanStart(o, t) && u == t)
        || (exists n: nat :: n < |actions| && StoppedAt(o, actions, Started(o, t), u, n))
        || (&& Steps(o, Started(o, t), actions).ok
            && forall p :: OutsideTargets(o, actions, p) ==> At(u, p) == At(Steps(o, Started(o, t), actions).tree, p)))
  }

  lemma ManifestClear(o: Options, a: Action)
    requires Apart(o.backupDir, Mapped(o, a.target))
    ensures Clear(o, a, ManifestPath(o))
  {
    var m := ManifestPath(o);
    assert o.backupDir + ["manifest.json"] + [] == m;
    assert Within(o.backupDir, m) by { assert m[..|o.backupDir|] == o.backupDir; }
    ApartExtends(o.backupDir, Mapped(o, a.target), m, Mapped(o, a.target));
    SavedApart(o, "manifest.json", [], "target", a.target);
    if a.Copy? { SavedApart(o, "manifest.json", [], "source", a.source); }
  }

  /** No action writes the manifest. */
  lemma ManifestUntouched(o: Options, actions: seq<Action>, t: Tree)
    requires RealTargets(actions) && Separated(o, actions)
    ensures At(Steps(o, Started(o, t), actions).tree, ManifestPath(o)) == At(t, ManifestPath(o))
  {
    var m := ManifestPath(o);
    forall i | 0 <= i < |actions| ensures Clear(o, actions[i], m) { ManifestClear(o, actions[i]); }
    StepsFrame(o, Started(o, t), actions, m);
    assert Within(m, m) && !Within(m, o.backupDir);
    assert At(Started(o, t), m) == At(t, m);
  }

  lemma StoppedManifest(o: Options, actions: seq<Action>, t: Tree, u: Tree, n: nat)
    requires RealTargets(actions) && Separated(o, actions) && n < |actions|
    requires StoppedAt(o, actions, Started(o, t), u, n)
    ensures At(u, ManifestPath(o)) == At(t, ManifestPath(o))
  {
    SeparatedFront(o, actions, n);
    ManifestUntouched(o, actions[..n], t);
    ManifestClear(o, actions[n]);
    assert Within(ManifestPath(o), ManifestPath(o));
    assert Same(Steps(o, Started(o, t), actions[..n]).tree, u, ManifestPath(o));
  }

  /** The targets before the failing action are as the completed actions left them. */
  lemma StoppedDone(o: Options, actions: seq<Action>, t: Tree, u: Tree, n: nat, i: nat)
    requires RealTargets(actions) && Separated(o, actions) && n < |actions|
    requires StoppedAt(o, actions, Started(o, t), u, n)
    requires i < n
    ensures Same(Steps(o, Started(o, t), actions[..n]).tree, u, Mapped(o, actions[i].target))
  {
    TargetsApart(o, actions, i, n);
    OutsideBackup(o, actions[n], Mapped(o, actions[i].target));
  }

  /** Plain copies among them hold what their sources held before the migration. */
  lemma StoppedCopied(o: Options, actions: seq<Action>, t: Tree, u: Tree, n: nat, i: nat)
    requires RealTargets(actions) && Separated(o, actions) && n < |actions|
    requires StoppedAt(o, actions, Started(o, t), u, n)
    requires i < n && actions[i].Copy? && !actions[i].rewrite
    ensures Saved(t, u, Mapped(o, actions[i].source), Mapped(o, actions[i].target))
  {
    var x, y := Mapped(o, actions[i].source), Mapped(o, actions[i].target);
    var r := Steps(o, Started(o, t), actions[..n]);
    SeparatedFront(o, actions, n);
    StepsCopy(o, Started(o, t), actions[..n], i);
    StartFrame(o, t, x);
    SavedFrom(t, Started(o, t), r.tree, x, y);
    StoppedDone(o, actions, t, u, n, i);
    SavedKept(t, r.tree, u, x, y);
  }

  /** The targets behind it are as they were. */
  lemma StoppedBefore(o: Options, actions: seq<Action>, t: Tree, u: Tree, n: nat, i: nat)
    requires RealTargets(actions) && Separated(o, actions) && n < |actions|
    requires StoppedAt(o, actions, Started(o, t), u, n)
    requires n < i < |actions|
    ensures Same(t, u, Mapped(o, actions[i].target))
  {
    var x := Mapped(o, actions[i].target);
    var r := Steps(o, Started(o, t), actions[..n]);
    StartFrame(o, t, x);
    forall j | 0 <= j <= n ensures Clear(o, actions[j], x) {
      TargetsApart(o, actions, i, j);
      OutsideBackup(o, actions[j], x);
    }
    StepsFrame(o, Started(o, t), actions[..n], x);
    SameTrans(t, Started(o, t), r.tree, x);
    SameTrans(t, r.tree, u, x);
  }

  lemma SafeSince(o: Options, a: Action, s: Tree, t: Tree, u: Tree)
    requires Same(s, t, Mapped(o, a.target)) && TargetSafe(o, a, t, u)
    ensures TargetSafe(o, a, s, u)
  {
    var x := Mapped(o, a.target);
    assert Within(x, x) && At(s, x) == At(t, x);
    if Same(t, u, x) {
      SameTrans(s, t, u, x);
    } else if !o.noBackup && x in s {
      SavedFrom(s, t, u, x, SavedTarget(o, a.target));
    }
  }

  lemma UntilThen(o: Options, actions: seq<Action>, t: Tree, n: nat)
    requires RealTargets(actions) && Separated(o, actions) && n < |actions|
    ensures Same(t, Steps(o, Started(o, t), actions[..n]).tree, Mapped(o, actions[n].target))
  {
    var s, x := Started(o, t), Mapped(o, actions[n].target);
    assert actions[..n + 1][..n] == actions[..n];
    SeparatedFront(o, actions, n + 1);
    TargetStays(o, s, actions[..n + 1]);
    StartFrame(o, t, x);
    SameTrans(t, s, Steps(o, s, actions[..n]).tree, x);
  }

  /** The target of the failing action is as it was, or removed and saved. */
  lemma StoppedTarget(o: Options, actions: seq<Action>, t: Tree, u: Tree, n: nat)
    requires RealTargets(actions) && Separated(o, actions) && n < |actions|
    requires StoppedAt(o, actions, Started(o, t), u, n)
    ensures TargetSafe(o, actions[n], t, u)
  {
    UntilThen(o, actions, t, n);
    SafeSince(o, actions[n], t, Steps(o, Started(o, t), actions[..n]).tree, u);
  }

  /**
   * A migration that stops at an action has replaced the targets before it and not those behind it, has left its own
   * target or removed it by force once it was saved, and rollback cannot undo that, unless an older manifest happens to
   * be there.
   */
  lemma StoppedHalfway(o: Options, actions: seq<Action>, t: Tree, u: Tree, n: nat)
    requires RealTargets(actions) && Separated(o, actions) && n < |actions|
    requires StoppedAt(o, actions, Started(o, t), u, n)
    ensures forall i :: 0 <= i < n ==>
              Same(Steps(o, Started(o, t), actions[..n]).tree, u, Mapped(o, actions[i].target))
    ensures forall i :: 0 <= i < n && actions[i].Copy? && !actions[i].rewrite ==>
              Saved(t, u, Mapped(o, actions[i].source), Mapped(o, actions[i].target))
    ensures forall i :: n < i < |actions| ==> Same(t, u, Mapped(o, actions[i].target))
    ensures Same(t, u, Mapped(o, actions[n].target)) ||
            (&& o.force
             && (o.noBackup || Mapped(o, actions[n].target) !in t ||
                 Saved(t, u, Mapped(o, actions[n].target), SavedTarget(o, actions[n].target))))
    ensures ManifestPath(o) !in t ==> Rollback(o, u) == Undo(false, u)
  {
    StoppedTarget(o, actions, t, u, n);
    forall i | 0 <= i < n ensures Same(Steps(o, Started(o, t), actions[..n]).tree, u, Mapped(o, actions[i].target)) {
      StoppedDone(o, actions, t, u, n, i);
    }
    forall i | 0 <= i < n && actions[i].Copy? && !actions[i].rewrite
      ensures Saved(t, u, Mapped(o, actions[i].source), Mapped(o, actions[i].target))
    {
      StoppedCopied(o, actions, t, u, n, i);
    }
    forall i | n < i < |actions| ensures Same(t, u, Mapped(o, actions[i].target)) {
      StoppedBefore(o, actions, t, u, n, i);
    }
    StoppedManifest(o, actions, t, u, n);
  }

  lemma OccupiedFails(o: Options, r: Run, a: Action)
    requires r.ok && a.Copy? && a.target != [] && Apart(o.backupDir, Mapped(o, a.target))
    requires !o.force && Mapped(o, a.target) in r.tree
    ensures !Step(o, r, a).ok
  {
    var x := Mapped(o, a.target);
    var r1 := BackupSource(o, r, a.source);
    BelowBackup(o, "source", a.source);
    ApartExtends(x, o.backupDir, x, SavedSource(o, a.source));
    BackupSourceFrame(o, r, a.source, x);
    FromBackup(o, "target", a.target);
    BackupTargetFrame(o, r1, a.target, x);
    assert Within(x, x) && At(r.tree, x) == At(r1.tree, x);
    assert At(r1.tree, x) == At(BackupTarget(o, r1, a.target).tree, x);
  }

  /** Without `force`, a target that exists stops the migration, whatever was done before. */
  lemma ExistingTargetStops(o: Options, actions: seq<Action>, t: Tree, n: nat)
    requires RealTargets(actions) && Separated(o, actions) && n < |actions| && actions[n].Copy? && !o.force
    requires Mapped(o, actions[n].target) in t && Steps(o, Started(o, t), actions[..n]).ok
    ensures exists u :: StoppedAt(o, actions, Started(o, t), u, n)
  {
    var s, a, x := Started(o, t), actions[n], Mapped(o, actions[n].target);
    var upTo := actions[..n + 1];
    var r := Steps(o, s, actions[..n]);
    SeparatedFront(o, actions, n + 1);
    assert upTo[..n] == actions[..n];
    StartFrame(o, t, x);
    TargetStays(o, s, upTo);
    assert Within(x, x) && At(t, x) == At(s, x) == At(r.tree, x);
    OccupiedFails(o, r, a);
    assert Steps(o, s, upTo) == Step(o, r, a);
    ActionsApart(o, actions, n);
    StepFails(o, r, a);
    assert StoppedAt(o, actions, s, Step(o, r, a).tree, n);
  }

  /** Wherever a migration fails, rollback finds the manifest that was there before, or none. */
  lemma HaltedRollback(o: Options, actions: seq<Action>, t: Tree, u: Tree)
    requires RealTargets(actions) && Halted(o, actions, t, u)
    ensures Rollback(o, u).ok ==> ManifestPath(o) in t && t[ManifestPath(o)] == u[ManifestPath(o)]
    ensures ManifestPath(o) !in t ==> Rollback(o, u) == Undo(false, u)
  {
  }
}

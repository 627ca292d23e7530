/** Apply and rollback as a whole: what rollback gives back, and what apply never lets through. */
module MigrationApply {
  import opened Basics
  import opened FileTree
  import opened Migration
  import opened MigrationConfigs

  // ----- Apply -----

  /** The check before anything is changed. */
  ghost predicate Allowed(o: Options, t: Tree) {
    && Readable(t, Mapped(o, ETC_SOURCE)) && Readable(t, Mapped(o, LIB_SOURCE))
    && (|| (AllSafe(t, Mapped(o, ETC_SOURCE)) && AllSafe(t, Mapped(o, LIB_SOURCE)))
        || !o.rejoin.NoRejoin?
        || (o.allowUnsafe && o.ack))
  }

  ghost predicate CanStart(o: Options, t: Tree) {
    Allowed(o, t) && (o.noBackup || AllDirs(t, o.backupDir))
  }

  function Started(o: Options, t: Tree): Tree {
    if o.noBackup then t else MakeDirs(t, o.backupDir)
  }

  ghost predicate CanFinish(o: Options, t: Tree, actions: seq<Action>) {
    && !o.rejoin.BadToken?
    && (o.rejoin.Join? ==> CanHarden(o, t, actions, o.rejoin.token))
    && (o.noBackup || CanOverwrite(Rejoined(o, t, actions), ManifestPath(o)))
  }

  ghost function Rejoined(o: Options, t: Tree, actions: seq<Action>): Tree {
    if o.rejoin.Join? then HardenPlan(o, t, actions, o.rejoin.token) else t
  }

  function WithManifest(o: Options, t: Tree, m: Manifest): Tree {
    if o.noBackup then t else t[ManifestPath(o) := File(Record(m))]
  }

  ghost predicate ApplyOk(o: Options, actions: seq<Action>, t: Tree)
    requires RealTargets(actions)
  {
    actions == [] ||
    (&& CanStart(o, t)
     && Steps(o, Started(o, t), actions).ok
     && CanFinish(o, Steps(o, Started(o, t), actions).tree, actions))
  }

  /** The tree after a migration that succeeds. */
  ghost function Applied(o: Options, actions: seq<Action>, t: Tree): Tree
    requires RealTargets(actions)
  {
    if actions == [] then t else
      var r := Steps(o, Started(o, t), actions);
      WithManifest(o, Rejoined(o, r.tree, actions), Manifest("client", r.targets, r.sources))
  }

  // ----- Rollback -----

  datatype Undo = Undo(ok: bool, tree: Tree)

  ghost function RestoreStep(o: Options, t: Tree, e: BackupEntry): Undo {
    var x := Mapped(o, e.target);
    if e.existed && e.backup.None? then Undo(false, t)
    else if Lstat(t, x) == NotDir then Undo(false, t)
    else if !e.existed then Undo(true, RemoveTree(t, x))
    else if CanCopy(RemoveTree(t, x), e.backup.value, x) then Undo(true, CopyTree(RemoveTree(t, x), e.backup.value, x))
    else Undo(false, RemoveTree(t, x))
  }

  /** The entries are undone from the last to the first. */
  ghost function Restore(o: Options, t: Tree, es: seq<BackupEntry>): Undo
    decreases |es|
  {
    if es == [] then Undo(true, t) else
      var n := |es| - 1;
      var u := RestoreStep(o, t, es[n]);
      if u.ok then Restore(o, u.tree, es[..n]) else u
  }

  ghost function Rollback(o: Options, t: Tree): Undo {
    match At(t, ManifestPath(o))
    case Some(File(Record(m))) => if m.scope == "client" then Restore(o, t, m.targets) else Undo(false, t)
    case _ => Undo(false, t)
  }

  // ----- Frames of the phases around the actions -----

  lemma StartFrame(o: Options, t: Tree, x: Path)
    requires Apart(x, o.backupDir)
    ensures Same(t, Started(o, t), x)
  {
    forall p | Within(x, p) ensures At(t, p) == At(Started(o, t), p) {
      ApartBelow(x, o.backupDir, p);
    }
  }

  lemma FinishFrame(o: Options, t: Tree, actions: seq<Action>, m: Manifest, x: Path)
    requires forall i :: 0 <= i < |actions| ==> Apart(x, Mapped(o, actions[i].target))
    requires Apart(x, ManifestPath(o))
    ensures Same(t, WithManifest(o, Rejoined(o, t, actions), m), x)
  {
    var u := Rejoined(o, t, actions);
    if o.rejoin.Join? { HardenFrame(o, t, actions, o.rejoin.token, x); }
    forall p | Within(x, p) ensures At(t, p) == At(WithManifest(o, u, m), p) {
      assert At(t, p) == At(u, p);
    }
  }

  lemma SavedOutside(o: Options, actions: seq<Action>, target: Path)
    requires forall i :: 0 <= i < |actions| ==> Apart(o.backupDir, Mapped(o, actions[i].target))
    ensures forall i :: 0 <= i < |actions| ==> Apart(SavedTarget(o, target), Mapped(o, actions[i].target))
    ensures Apart(SavedTarget(o, target), ManifestPath(o))
  {
    BelowBackup(o, "target", target);
    forall i | 0 <= i < |actions| ensures Apart(SavedTarget(o, target), Mapped(o, actions[i].target)) {
      var x := Mapped(o, actions[i].target);
      ApartExtends(o.backupDir, x, SavedTarget(o, target), x);
    }
    SavedApart(o, "target", target, "manifest.json", []);
    assert o.backupDir + ["manifest.json"] + [] == ManifestPath(o);
  }

  /** A successful migration with backups leaves a faithful record of every target on the disk. */
  lemma AppliedRecords(o: Options, actions: seq<Action>, t: Tree)
    requires RealTargets(actions) && Separated(o, actions) && !o.noBackup && actions != [] && ApplyOk(o, actions, t)
    ensures At(Applied(o, actions, t), ManifestPath(o)).Some?
    ensures Applied(o, actions, t)[ManifestPath(o)].File?
    ensures Applied(o, actions, t)[ManifestPath(o)].content.Record?
    ensures Applied(o, actions, t)[ManifestPath(o)].content.manifest.scope == "client"
    ensures Recorded(o, t, Applied(o, actions, t), actions, Applied(o, actions, t)[ManifestPath(o)].content.manifest.targets)
  {
    var s := Started(o, t);
    var r := Steps(o, s, actions);
    StepsRecord(o, s, actions);
    var m := Manifest("client", r.targets, r.sources);
    var u := Applied(o, actions, t);
    forall i | 0 <= i < |actions| ensures Faithful(o, t, u, r.targets[i]) {
      var x := Mapped(o, actions[i].target);
      StartFrame(o, t, x);
      assert At(t, x) == At(s, x);
      if r.targets[i].existed { SavedFrom(t, s, r.tree, x, SavedTarget(o, actions[i].target)); }
      SavedOutside(o, actions, actions[i].target);
      FinishFrame(o, r.tree, actions, m, SavedTarget(o, actions[i].target));
      FaithfulKept(o, t, r.tree, u, r.targets[i]);
    }
  }

  // ----- Rollback gives the targets back -----

  lemma RestoreStepFrame(o: Options, t: Tree, e: BackupEntry, x: Path)
    requires Apart(x, Mapped(o, e.target))
    ensures Same(t, RestoreStep(o, t, e).tree, x)
  {
    var y := Mapped(o, e.target);
    var u := RemoveTree(t, y);
    RemoveFrame(t, y, x);
    if e.existed && e.backup.Some? {
      CopyFrame(u, e.backup.value, y, x);
      SameTrans(t, u, CopyTree(u, e.backup.value, y), x);
    }
  }

  lemma {:induction false} RestoreFrame(o: Options, t: Tree, es: seq<BackupEntry>, x: Path)
    requires forall i :: 0 <= i < |es| ==> Apart(x, Mapped(o, es[i].target))
    ensures Same(t, Restore(o, t, es).tree, x)
    decreases |es|
  {
    if es != [] {
      var n := |es| - 1;
      var u := RestoreStep(o, t, es[n]);
      RestoreStepFrame(o, t, es[n], x);
      RestoreFrame(o, u.tree, es[..n], x);
      SameTrans(t, u.tree, Restore(o, u.tree, es[..n]).tree, x);
    }
  }

  lemma NothingThere(s: Tree, u: Tree, x: Path)
    requires Valid(s) && x !in s && (forall p :: Within(x, p) ==> p !in u)
    ensures Same(s, u, x)
  {
    forall p | Within(x, p) ensures At(s, p) == At(u, p) {
      assert p in s && |x| < |p| ==> At(s, p[..|x|]) == Some(Dir);
      assert |x| == |p| ==> p[..|x|] == p;
    }
  }

  /** One entry undone puts the target back to what it was in `s`. */
  lemma RestoreStepBack(o: Options, s: Tree, t: Tree, e: BackupEntry)
    requires Valid(s) && Faithful(o, s, t, e) && RestoreStep(o, t, e).ok
    requires Apart(SavedTarget(o, e.target), Mapped(o, e.target))
    ensures Same(s, RestoreStep(o, t, e).tree, Mapped(o, e.target))
  {
    var x, y := Mapped(o, e.target), SavedTarget(o, e.target);
    var u := RemoveTree(t, x);
    if e.existed {
      RemoveFrame(t, x, y);
      SavedKept(s, t, u, x, y);
      forall p | Within(x, p) ensures At(s, p) == At(CopyTree(u, y, x), p) {
        assert At(s, p) == At(u, Rebase(p, x, y));
      }
    } else {
      assert forall p :: Within(x, p) ==> At(u, p) == None;
      NothingThere(s, u, x);
    }
  }

  lemma EarlierApart(o: Options, actions: seq<Action>, es: seq<BackupEntry>)
    requires Separated(o, actions) && |actions| == |es| + 1
    requires forall i :: 0 <= i < |es| ==> es[i].target == actions[i].target
    ensures forall i :: 0 <= i < |es| ==> Apart(Mapped(o, actions[|es|].target), Mapped(o, es[i].target))
  {
    forall i | 0 <= i < |es| ensures Apart(Mapped(o, actions[|es|].target), Mapped(o, es[i].target)) {
      assert Apart(actions[i].target, actions[|es|].target);
      MappedApart(o.root, actions[|es|].target, actions[i].target);
    }
  }

  /** Undoing the last entry leaves the records of the others true. */
  lemma UndoKeepsRecords(o: Options, s: Tree, t: Tree, actions: seq<Action>, es: seq<BackupEntry>)
    requires Separated(o, actions) && Recorded(o, s, t, actions, es) && es != []
    ensures var n := |es| - 1;
            Recorded(o, s, RestoreStep(o, t, es[n]).tree, actions[..n], es[..n])
  {
    var n := |es| - 1;
    var u := RestoreStep(o, t, es[n]).tree;
    forall j | 0 <= j < n ensures Faithful(o, s, u, es[j]) {
      SavedOutside(o, actions, es[j].target);
      RestoreStepFrame(o, t, es[n], SavedTarget(o, es[j].target));
      FaithfulKept(o, s, t, u, es[j]);
    }
  }

  lemma {:induction false} RestoreBack(o: Options, s: Tree, t: Tree, actions: seq<Action>, es: seq<BackupEntry>, i: nat)
    requires Valid(s) && Separated(o, actions) && Recorded(o, s, t, actions, es) && Restore(o, t, es).ok && i < |es|
    ensures Same(s, Restore(o, t, es).tree, Mapped(o, actions[i].target))
    decreases |es|
  {
    var n := |es| - 1;
    var u := RestoreStep(o, t, es[n]).tree;
    assert Restore(o, t, es) == Restore(o, u, es[..n]);
    UndoKeepsRecords(o, s, t, actions, es);
    if i == n {
      SavedOutside(o, actions, es[n].target);
      RestoreStepBack(o, s, t, es[n]);
      EarlierApart(o, actions, es[..n]);
      RestoreFrame(o, u, es[..n], Mapped(o, es[n].target));
      SameTrans(s, u, Restore(o, u, es[..n]).tree, Mapped(o, es[n].target));
    } else {
      RestoreBack(o, s, u, actions[..n], es[..n], i);
    }
  }

  /**
   * Rollback inverts apply.  Whatever happened to the targets after the migration, a rollback that succeeds
   * gives every target the subtree it had before.
   */
  lemma RollbackInvertsApply(o: Options, actions: seq<Action>, before: Tree, later: Tree, i: nat)
    requires Valid(before) && RealTargets(actions) && Separated(o, actions) && !o.noBackup
    requires i < |actions| && ApplyOk(o, actions, before)
    requires Same(Applied(o, actions, before), later, o.backupDir)
    requires Rollback(o, later).ok
    ensures Same(before, Rollback(o, later).tree, Mapped(o, actions[i].target))
  {
    AppliedRecords(o, actions, before);
    var es := RecordedOnDisk(o, actions, before, later);
    RestoreBack(o, before, later, actions, es, i);
  }

  /** The record is still found in a later tree with the same backup directory. */
  lemma RecordedOnDisk(o: Options, actions: seq<Action>, before: Tree, later: Tree) returns (es: seq<BackupEntry>)
    requires RealTargets(actions) && Separated(o, actions) && !o.noBackup
    requires actions != [] && ApplyOk(o, actions, before)
    requires Same(Applied(o, actions, before), later, o.backupDir)
    ensures Rollback(o, later) == Restore(o, later, es) && Recorded(o, before, later, actions, es)
    ensures exists sources :: At(later, ManifestPath(o)) == Some(File(Record(Manifest("client", es, sources))))
  {
    var after := Applied(o, actions, before);
    AppliedRecords(o, actions, before);
    es := after[ManifestPath(o)].content.manifest.targets;
    assert Within(o.backupDir, ManifestPath(o)) by { assert ManifestPath(o)[..|o.backupDir|] == o.backupDir; }
    assert At(after, ManifestPath(o)) == At(later, ManifestPath(o));
    assert At(later, ManifestPath(o)) ==
      Some(File(Record(Manifest("client", es, after[ManifestPath(o)].content.manifest.sources))));
    forall i | 0 <= i < |es| ensures Faithful(o, before, later, es[i]) {
      var y := SavedTarget(o, es[i].target);
      BelowBackup(o, "target", es[i].target);
      forall p | Within(y, p) ensures At(after, p) == At(later, p) { WithinTrans(o.backupDir, y, p); }
      FaithfulKept(o, before, after, later, es[i]);
    }
  }
}

/** The backups that a client migration leaves, and what a rollback asks of them. */
module MigrationBackups {
  import opened Basics
  import opened FileTree
  import opened Migration
  import opened MigrationConfigs
  import opened MigrationApply
  import opened MigrationTheorems
  import opened MigrationPlan
  import opened MigrationOutcome
  import opened MigrationSuccess

  // ----- Backups of the sources -----

  /** What the manifest says about sources: those of the copies, in order, with the place of their backups. */
  function SourceBackups(o: Options, actions: seq<Action>): seq<SourceBackup> {
    if actions == [] then [] else
      var n := |actions| - 1;
      SourceBackups(o, actions[..n]) +
      match actions[n]
      case Copy(source, _, _) => [SourceBackup(source, o.backupDir + ["source"] + source)]
      case Compat(_, _, _) => []
  }

  lemma SourceCopied(o: Options, r: Run, a: Action)
    requires r.ok && a.Copy? && ActionApart(o, a) && Step(o, r, a).ok && !o.noBackup
    ensures BackupSource(o, r, a.source).ok
    ensures BackupSource(o, r, a.source).sources == r.sources + [SourceBackup(a.source, SavedSource(o, a.source))]
    ensures Saved(r.tree, BackupSource(o, r, a.source).tree, Mapped(o, a.source), SavedSource(o, a.source))
  {
    SourceThere(o, r, a);
    CopySaves(r.tree, Mapped(o, a.source), SavedSource(o, a.source));
  }

  lemma CopiedSourceStays(o: Options, r1: Run, a: Action)
    requires a.Copy? && ActionApart(o, a)
    ensures var r2, y := BackupTarget(o, r1, a.target), SavedSource(o, a.source);
            Same(r1.tree, r2.tree, y) && (CanCopyAction(o, r2.tree, a) ==> Same(r1.tree, CopyAction(o, r2.tree, a), y))
  {
    var r2, y := BackupTarget(o, r1, a.target), SavedSource(o, a.source);
    SavedApart(o, "source", a.source, "target", a.target);
    BackupTargetFrame(o, r1, a.target, y);
    BelowBackup(o, "source", a.source);
    ApartExtends(o.backupDir, Mapped(o, a.target), y, Mapped(o, a.target));
    if CanCopyAction(o, r2.tree, a) {
      CopyActionFrame(o, r2.tree, a, y);
      SameTrans(r1.tree, r2.tree, CopyAction(o, r2.tree, a), y);
    }
  }

  lemma StepSavesSource(o: Options, r: Run, a: Action)
    requires r.ok && ActionApart(o, a) && Step(o, r, a).ok && !o.noBackup
    ensures Step(o, r, a).sources ==
            r.sources + if a.Copy? then [SourceBackup(a.source, SavedSource(o, a.source))] else []
    ensures a.Copy? ==> Saved(r.tree, Step(o, r, a).tree, Mapped(o, a.source), SavedSource(o, a.source))
  {
    if a.Copy? {
      var r1 := BackupSource(o, r, a.source);
      SourceCopied(o, r, a);
      CopiedSourceStays(o, r1, a);
      SavedKept(r.tree, r1.tree, Step(o, r, a).tree, Mapped(o, a.source), SavedSource(o, a.source));
    }
  }

  lemma SourceThere(o: Options, r: Run, a: Action)
    requires r.ok && a.Copy? && ActionApart(o, a) && Step(o, r, a).ok
    ensures Mapped(o, a.source) in r.tree
  {
    StepOkIff(o, r, a);
  }

  /** A saved source outlives a later action. */
  lemma SavedStays(o: Options, t: Tree, r: Run, a: Action, x: Path, y: Path)
    requires a.target != [] && Clear(o, a, y) && Saved(t, r.tree, x, y)
    ensures Saved(t, Step(o, r, a).tree, x, y)
  {
    StepFrame(o, r, a, y);
    SavedKept(t, r.tree, Step(o, r, a).tree, x, y);
  }

  /** The source of the last action is saved as it was before all of them. */
  lemma LastSaved(o: Options, t: Tree, actions: seq<Action>)
    requires Independent(o, actions) && !o.noBackup && actions != [] && Steps(o, t, actions).ok
    ensures var n := |actions| - 1;
            && Steps(o, t, actions).sources == Steps(o, t, actions[..n]).sources +
               (if actions[n].Copy? then [SourceBackup(actions[n].source, SavedSource(o, actions[n].source))] else [])
            && (actions[n].Copy? ==>
                  Saved(t, Steps(o, t, actions).tree, Mapped(o, actions[n].source), SavedSource(o, actions[n].source)))
  {
    var n := |actions| - 1;
    var a, r := actions[n], Steps(o, t, actions[..n]);
    ActionsApart(o, actions, n);
    StepSavesSource(o, r, a);
    if a.Copy? {
      var x := Mapped(o, a.source);
      forall j | 0 <= j < n ensures Clear(o, actions[..n][j], x) { OthersClear(o, actions, n, j); }
      StepsFrame(o, t, actions[..n], x);
      SavedFrom(t, r.tree, Steps(o, t, actions).tree, x, SavedSource(o, a.source));
    }
  }

  lemma {:induction false} StepsSaveSources(o: Options, t: Tree, actions: seq<Action>)
    requires Independent(o, actions) && !o.noBackup && Steps(o, t, actions).ok
    ensures Steps(o, t, actions).sources == SourceBackups(o, actions)
    ensures forall i :: 0 <= i < |actions| && actions[i].Copy? ==>
              Saved(t, Steps(o, t, actions).tree, Mapped(o, actions[i].source), SavedSource(o, actions[i].source))
    decreases |actions|
  {
    if actions != [] {
      var n := |actions| - 1;
      var r := Steps(o, t, actions[..n]);
      IndependentFront(o, actions);
      StepsSaveSources(o, t, actions[..n]);
      LastSaved(o, t, actions);
      forall i | 0 <= i < |actions| && actions[i].Copy?
        ensures Saved(t, Steps(o, t, actions).tree, Mapped(o, actions[i].source), SavedSource(o, actions[i].source))
      {
        if i < n {
          assert actions[..n][i] == actions[i];
          OthersClear(o, actions, i, n);
          SavedStays(o, t, r, actions[n], Mapped(o, actions[i].source), SavedSource(o, actions[i].source));
        }
      }
    }
  }

  /** A migration that succeeds with backups leaves every source once more below the backup directory, and a manifest
      that lists these copies. */
  lemma SourcesBackedUp(o: Options, compat: bool, t: Tree, a: Action, p: Path)
    requires Valid(t) && BackupOutside(o) && !o.noBackup && a in Plan(o, compat, t)
    requires RealTargets(Plan(o, compat, t)) && ApplyOk(o, Plan(o, compat, t), t)
    ensures a.Copy? ==>
              At(Applied(o, Plan(o, compat, t), t), o.backupDir + ["source"] + a.source + p) == At(t, o.root + a.source + p)
    ensures exists targets ::
              At(Applied(o, Plan(o, compat, t), t), o.backupDir + ["manifest.json"]) ==
              Some(File(Record(Manifest("client", targets, SourceBackups(o, Plan(o, compat, t))))))
  {
    var plan, s := Plan(o, compat, t), Started(o, t);
    PlanIndependent(o, compat, t);
    var r := Steps(o, s, plan);
    StepsSaveSources(o, s, plan);
    assert At(Applied(o, plan, t), ManifestPath(o)) == Some(File(Record(Manifest("client", r.targets, SourceBackups(o, plan)))));
    if a.Copy? {
      var i := PlanIndex(o, compat, t, a);
      var x, y := Mapped(o, a.source), SavedSource(o, a.source);
      StartFrame(o, t, x);
      SavedFrom(t, s, r.tree, x, y);
      SourceOutside(o, plan, a.source);
      FinishFrame(o, r.tree, plan, Manifest("client", r.targets, r.sources), y);
      SavedKept(t, r.tree, Applied(o, plan, t), x, y);
      SavedAt(t, Applied(o, plan, t), x, y, p);
    }
  }

  lemma SourceOutside(o: Options, actions: seq<Action>, source: Path)
    requires Separated(o, actions)
    ensures forall i :: 0 <= i < |actions| ==> Apart(SavedSource(o, source), Mapped(o, actions[i].target))
    ensures Apart(SavedSource(o, source), ManifestPath(o))
  {
    BelowBackup(o, "source", source);
    forall i | 0 <= i < |actions| ensures Apart(SavedSource(o, source), Mapped(o, actions[i].target)) {
      var x := Mapped(o, actions[i].target);
      ApartExtends(o.backupDir, x, SavedSource(o, source), x);
    }
    SavedApart(o, "source", source, "manifest.json", []);
    assert o.backupDir + ["manifest.json"] + [] == ManifestPath(o);
  }

  // ----- What a rollback asks -----

  /** Without a client manifest there is no rollback, and nothing changes. */
  lemma NoClientManifest(o: Options, t: Tree)
    requires forall targets, sources ::
               At(t, o.backupDir + ["manifest.json"]) != Some(File(Record(Manifest("client", targets, sources))))
    ensures Rollback(o, t) == Undo(false, t)
  {
    match At(t, ManifestPath(o))
    case Some(File(Record(m))) => assert m == Manifest(m.scope, m.targets, m.sources);
    case _ =>
  }

  /** An entry can be undone exactly if no regular file stands on the way to its target and, where the target existed,
      its backup is recorded and there, outside the target, and only directories lead to the target. */
  lemma UndoOkIff(o: Options, t: Tree, e: BackupEntry)
    requires e.target != []
    ensures var x := o.root + e.target;
            RestoreStep(o, t, e).ok <==>
            && (x in t || forall k :: 0 <= k < |x| && x[..k] in t ==> !t[x[..k]].File?)
            && (e.existed ==> e.backup.Some? && e.backup.value in t && !Within(x, e.backup.value) && Reachable(t, x))
  {
    var x := Mapped(o, e.target);
    var u := RemoveTree(t, x);
    if e.backup.Some? { assert At(u, e.backup.value) == if Within(x, e.backup.value) then None else At(t, e.backup.value); }
    forall k | 0 <= k < |x| ensures At(u, x[..k]) == At(t, x[..k]) { assert !Within(x, x[..k]); }
    forall k | 0 <= k < |x| ensures KeptAt(t, u, x[..k]) { assert At(u, x[..k]) == At(t, x[..k]); }
    WayKept(t, u, x);
    ReachableIff(u, x);
  }
}

/** The migration commands on a mutable disk, step by step as the client runs them. */
module Migrator {
  import opened Basics
  import opened FileTree
  import opened FileDisk
  import opened Migration
  import opened MigrationConfigs
  import opened MigrationApply
  import opened MigrationTheorems
  import opened MigrationFailure
  import opened MigrationPlan

  class Client {
    const disk: Disk
    const o: Options
    var targets: seq<BackupEntry>
    var sources: seq<SourceBackup>

    constructor (disk: Disk, o: Options)
      ensures this.disk == disk && targets == [] && sources == []
    {
      this.disk, this.o, targets, sources := disk, o, [], [];
    }

    ghost function State(ok: bool): Run
      reads this, disk
    {
      Run(ok, disk.files, targets, sources)
    }

    method FirstExisting(paths: seq<Path>) returns (found: Option<Path>)
      ensures found == FirstPresent(o, disk.files, paths)
    {
      assert paths[0..] == paths;
      for i := 0 to |paths|
        invariant FirstPresent(o, disk.files, paths[i..]) == FirstPresent(o, disk.files, paths)
      {
        if Mapped(o, paths[i]) in disk.files { return Some(paths[i]); }
        assert paths[i..][1..] == paths[i + 1..];
      }
      found := None;
    }

    /** Fails where a configuration cannot be read, and has no plan then. */
    method BuildPlan(compat: bool) returns (ok: bool, actions: seq<Action>)
      ensures ok <==> Readable(disk.files, Mapped(o, ETC_SOURCE)) && Readable(disk.files, Mapped(o, LIB_SOURCE))
      ensures actions == if ok then Plan(o, compat, disk.files) else []
    {
      actions := [];
      for k := 0 to 6
        invariant actions == Slots(o, compat, disk.files, k)
      {
        var source := FirstExisting(Sources(k));
        if source.Some? {
          actions := actions + [Copy(source.value, Target(k), 3 <= k)];
        }
      }
      if compat {
        actions := actions + [Compat(COMPAT_TARGET, ["usr", "local", "bin", "anonbird"], true)];
      }
      var safe;
      ok, safe := AllConfigsSafe();
      if !ok { actions := []; }
    }

    // ----- Walks over configuration directories -----

    /** Collects the unsafe configurations below `root`; fails on an entry that cannot be read. */
    method FindUnsafe(root: Path) returns (ok: bool, found: set<Path>)
      ensures ok <==> Readable(disk.files, root)
      ensures ok ==> forall p :: p in found <==> p in disk.files && Within(root, p) && Visited(p, disk.files[p])
                                                 && Unsafe(disk.files[p].content)
    {
      found := {};
      if Lstat(disk.files, root) == NotDir { return false, found; }
      var todo := Subtree(disk.files, root);
      while todo != {}
        invariant todo <= Subtree(disk.files, root)
        invariant forall p :: p in Subtree(disk.files, root) - todo && Visited(p, disk.files[p]) ==> disk.files[p].File?
        invariant forall p :: p in found <==> p in Subtree(disk.files, root) - todo && Visited(p, disk.files[p])
                                              && Unsafe(disk.files[p].content)
      {
        var p :| p in todo;
        if Visited(p, disk.files[p]) {
          if !disk.files[p].File? { return false, found; }
          if Unsafe(disk.files[p].content) { found := found + {p}; }
        }
        todo := todo - {p};
      }
      ok := true;
    }

    /** Inspects both configuration sources. */
    method AllConfigsSafe() returns (ok: bool, safe: bool)
      ensures ok <==> Readable(disk.files, Mapped(o, ETC_SOURCE)) && Readable(disk.files, Mapped(o, LIB_SOURCE))
      ensures ok ==> (safe <==> AllSafe(disk.files, Mapped(o, ETC_SOURCE)) && AllSafe(disk.files, Mapped(o, LIB_SOURCE)))
    {
      var etc, lib := Mapped(o, ETC_SOURCE), Mapped(o, LIB_SOURCE);
      var ok1, unsafe1 := FindUnsafe(etc);
      if !ok1 { return false, false; }
      var ok2, unsafe2 := FindUnsafe(lib);
      if !ok2 { return false, false; }
      assert unsafe1 == {} <==> AllSafe(disk.files, etc);
      assert unsafe2 == {} <==> AllSafe(disk.files, lib);
      return true, unsafe1 == {} && unsafe2 == {};
    }

    method Validate() returns (ok: bool)
      ensures ok <==> Allowed(o, disk.files)
    {
      var safe;
      ok, safe := AllConfigsSafe();
      if !ok || safe { return; }
      ok := o.rejoin != NoRejoin || (o.allowUnsafe && o.ack);
    }

    /** Rewrites every JSON file below `root`, stopping at the first entry that cannot be read. */
    method RewriteBelow(root: Path, f: Content -> Content) returns (ok: bool)
      requires Valid(disk.files)
      modifies disk
      ensures Valid(disk.files) && (ok <==> Readable(old(disk.files), root))
      ensures ok ==> disk.files == Walk(old(disk.files), root, f)
      ensures forall p :: !Within(root, p) ==> At(disk.files, p) == At(old(disk.files), p)
    {
      ghost var t := disk.files;
      if Lstat(disk.files, root) == NotDir { return false; }
      var todo := Subtree(disk.files, root);
      ghost var done: set<Path> := {};
      while todo != {}
        invariant todo + done == Subtree(t, root) && todo !! done
        invariant forall p :: At(disk.files, p) == if p in done then WalkedAt(t, root, f, p) else At(t, p)
        invariant forall p :: p in done && Visited(p, t[p]) ==> t[p].File?
        invariant SameShape(t, disk.files)
      {
        var p :| p in todo;
        assert At(disk.files, p) == At(t, p);
        if Visited(p, disk.files[p]) {
          if !disk.files[p].File? {
            ShapeValid(t, disk.files);
            return false;
          }
          disk.files := disk.files[p := File(f(disk.files[p].content))];
        }
        todo, done := todo - {p}, done + {p};
      }
      forall p ensures At(disk.files, p) == At(Walk(t, root, f), p) { }
      SameTree(disk.files, Walk(t, root, f));
      ShapeValid(t, disk.files);
      ok := true;
    }

    /** Overwrites a helper file if it exists. */
    method RewriteHelper(p: Path, c: Content) returns (ok: bool)
      requires Valid(disk.files)
      modifies disk
      ensures Valid(disk.files) && (ok <==> CanOverwrite(old(disk.files), p))
      ensures disk.files == if ok then Overwrite(old(disk.files), p, c) else old(disk.files)
    {
      if Lstat(disk.files, p) == NotDir { return false; }
      if p !in disk.files { return true; }
      if !disk.files[p].File? { return false; }
      ghost var t := disk.files;
      disk.files := disk.files[p := File(c)];
      OverwriteShape(t, p, c);
      ShapeValid(t, disk.files);
      ok := true;
    }

    method EnableAutoConnect() returns (ok: bool)
      requires Valid(disk.files)
      modifies disk
      ensures Valid(disk.files)
      ensures var t := Walk(old(disk.files), Mapped(o, ETC_TARGET), AutoConnect);
              && (ok <==> Readable(old(disk.files), Mapped(o, ETC_TARGET)) && Readable(t, Mapped(o, LIB_TARGET)))
              && (ok ==> disk.files == Walk(t, Mapped(o, LIB_TARGET), AutoConnect))
    {
      ok := RewriteBelow(Mapped(o, ETC_TARGET), AutoConnect);
      if !ok { return; }
      ok := RewriteBelow(Mapped(o, LIB_TARGET), AutoConnect);
    }

    // ----- The actions -----

    method SaveSource(source: Path) returns (ok: bool)
      requires Valid(disk.files) && Apart(o.backupDir, Mapped(o, source))
      modifies this`sources, disk
      ensures Valid(disk.files) && State(ok) == BackupSource(o, old(State(true)), source)
    {
      if o.noBackup || Mapped(o, source) !in disk.files { return true; }
      FromBackup(o, "source", source);
      ok := disk.CopyPath(Mapped(o, source), SavedSource(o, source));
      if !ok { return; }
      sources := sources + [SourceBackup(source, SavedSource(o, source))];
    }

    method SaveTarget(target: Path) returns (ok: bool)
      requires Valid(disk.files) && Apart(o.backupDir, Mapped(o, target))
      modifies this`targets, disk
      ensures Valid(disk.files) && State(ok) == BackupTarget(o, old(State(true)), target)
    {
      var existed := Mapped(o, target) in disk.files;
      var entry := BackupEntry(target, existed, None);
      if existed && !o.noBackup {
        FromBackup(o, "target", target);
        ok := disk.CopyPath(Mapped(o, target), SavedTarget(o, target));
        if !ok { return; }
        entry := entry.(backup := Some(SavedTarget(o, target)));
      }
      targets := targets + [entry];
      ok := true;
    }

    /** Clears the way for a target, if that is allowed. */
    method ClearTarget(target: Path) returns (ok: bool)
      requires Valid(disk.files) && target != []
      modifies disk
      ensures Valid(disk.files) && (ok <==> CanReplace(o, old(disk.files), target))
      ensures disk.files == if ok then RemoveTree(old(disk.files), Mapped(o, target)) else old(disk.files)
      ensures !o.force ==> disk.files == old(disk.files)
    {
      var x := Mapped(o, target);
      match Lstat(disk.files, x) {
        case Found =>
          if !o.force { return false; }
          ok := disk.RemoveAll(x);
        case NotDir => ok := false;
        case Missing =>
          NothingBelow(disk.files, x);
          assert RemoveTree(disk.files, x) == disk.files;
          ok := true;
      }
    }

    method RunCopy(a: Action) returns (ok: bool)
      requires Valid(disk.files) && a.Copy? && ActionApart(o, a)
      modifies disk
      ensures Valid(disk.files) && (ok <==> CanCopyAction(o, old(disk.files), a))
      ensures ok ==> disk.files == CopyAction(o, old(disk.files), a)
      ensures !ok ==> || disk.files == old(disk.files)
                      || (o.force && disk.files == RemoveTree(old(disk.files), Mapped(o, a.target)))
    {
      ghost var t := disk.files;
      var x, y := Mapped(o, a.source), Mapped(o, a.target);
      RemoveThenCopy(t, x, y);
      ok := ClearTarget(a.target);
      if !ok { return; }
      assert Within(x, x) && At(disk.files, x) == At(t, x);
      if a.rewrite {
        ok := CopyRewritten(a);
      } else {
        ok := disk.CopyPath(x, y);
      }
    }

    method CopyRewritten(a: Action) returns (ok: bool)
      requires Valid(disk.files) && a.Copy? && ActionApart(o, a) && Subtree(disk.files, Mapped(o, a.target)) == {}
      modifies disk
      ensures var x, y, t := Mapped(o, a.source), Mapped(o, a.target), old(disk.files);
              && Valid(disk.files)
              && (ok <==> x in t && t[x].File? && AllDirs(t, Parent(y)))
              && (ok ==> disk.files == CopyTree(t, x, y)[y := File(o.rewriteUnit(t[x].content))])
              && (!ok ==> disk.files == t)
    {
      var x, y := Mapped(o, a.source), Mapped(o, a.target);
      if x !in disk.files || !disk.files[x].File? { return false; }
      var e := File(o.rewriteUnit(disk.files[x].content));
      RewriteIsCopy(disk.files, x, y, e);
      ok := disk.Place(y, e);
    }

    method RunLink(a: Action) returns (ok: bool)
      requires Valid(disk.files) && a.Compat? && ActionApart(o, a)
      modifies disk
      ensures Valid(disk.files) && (ok <==> CanLink(o, old(disk.files), a))
      ensures disk.files == if ok then LinkAction(o, old(disk.files), a) else old(disk.files)
    {
      var y := Mapped(o, a.target);
      if Mapped(o, a.linkTarget) !in disk.files { return false; }
      ghost var t := disk.files;
      RemoveKeepsAbove(t, y);
      ok := ClearTarget(a.target);
      if !ok { return; }
      ok := disk.Place(y, Link(Mapped(o, a.linkTarget)));
      if !ok {
        if y in t { AllDirsAbove(t, y); } else { NothingBelow(t, y); }
        assert RemoveTree(t, y) == t;
      }
    }

    method CopyOne(a: Action) returns (ok: bool)
      requires Valid(disk.files) && a.Copy? && ActionApart(o, a)
      modifies this`targets, this`sources, disk
      ensures Valid(disk.files) && (ok <==> CopyStep(o, old(State(true)), a).ok)
      ensures ok ==> State(true) == CopyStep(o, old(State(true)), a)
      ensures OnlyTouched(o, a, old(disk.files), disk.files) && (!ok ==> FailedOn(o, a, old(disk.files), disk.files))
    {
      ghost var r := State(true);
      ghost var r1 := BackupSource(o, r, a.source);
      ghost var r2 := BackupTarget(o, r1, a.target);
      CopyTouches(o, r, a);
      CopyFails(o, r, a);
      ok := SaveSource(a.source);
      if !ok { return; }
      ok := SaveTarget(a.target);
      if !ok { return; }
      ok := RunCopy(a);
    }

    method LinkOne(a: Action) returns (ok: bool)
      requires Valid(disk.files) && a.Compat? && ActionApart(o, a)
      modifies this`targets, disk
      ensures Valid(disk.files) && (ok <==> LinkStep(o, old(State(true)), a).ok)
      ensures ok ==> State(true) == LinkStep(o, old(State(true)), a)
      ensures OnlyTouched(o, a, old(disk.files), disk.files) && (!ok ==> FailedOn(o, a, old(disk.files), disk.files))
    {
      LinkTouches(o, State(true), a);
      LinkFails(o, State(true), a);
      ok := SaveTarget(a.target);
      if !ok { return; }
      ok := RunLink(a);
      if !ok && a.optional { ok := true; }
    }

    /** `done` counts the actions completed. */
    method RunActions(actions: seq<Action>) returns (ok: bool, ghost done: nat)
      requires Valid(disk.files) && RealTargets(actions) && Separated(o, actions) && targets == [] && sources == []
      modifies this`targets, this`sources, disk
      ensures Valid(disk.files) && (ok <==> Steps(o, old(disk.files), actions).ok)
      ensures ok ==> State(true) == Steps(o, old(disk.files), actions)
      ensures !ok ==> done < |actions| && StoppedAt(o, actions, old(disk.files), disk.files, done)
      ensures Confined(o, actions, old(disk.files), disk.files)
    {
      ghost var t := disk.files;
      done := 0;
      for i := 0 to |actions|
        invariant Valid(disk.files) && State(true) == Steps(o, t, actions[..i])
        invariant Confined(o, actions, t, disk.files)
      {
        ActionsApart(o, actions, i);
        NextStep(o, t, actions, i);
        ghost var before := disk.files;
        done := i;
        match actions[i] {
          case Copy(_, _, _) => ok := CopyOne(actions[i]);
          case Compat(_, _, _) => ok := LinkOne(actions[i]);
        }
        TouchedConfined(o, actions[i], before, disk.files);
        ConfinedTrans(o, actions, i, t, before, disk.files);
        if !ok {
          StopsHere(o, t, actions, i, disk.files);
          return;
        }
      }
      assert actions[..|actions|] == actions;
      ok := true;
    }

    // ----- Rejoin, manifest, and the whole -----

    method RewriteHelpers(dir: Path, token: Token) returns (ok: bool)
      requires Valid(disk.files)
      modifies disk
      ensures Valid(disk.files) && (ok <==> CanHelp(old(disk.files), dir))
      ensures ok ==> disk.files == Help(old(disk.files), dir, token)
      ensures forall p :: !Within(dir, p) ==> At(disk.files, p) == At(old(disk.files), p)
    {
      HelperBelow(dir);
      HelpersApart(disk.files, dir, Plain(token.url + "\n"));
      ok := RewriteHelper(HelperFiles(dir)[0], Plain(token.url + "\n"));
      if !ok { return; }
      ok := RewriteHelper(HelperFiles(dir)[1], Plain(token.key + "\n"));
    }

    method HardenOne(a: Action, token: Token) returns (ok: bool)
      requires Valid(disk.files)
      modifies disk
      ensures Valid(disk.files) && (ok <==> CanHardenStep(o, old(disk.files), a, token))
      ensures ok ==> disk.files == HardenStep(o, old(disk.files), a, token)
      ensures forall p :: !Within(Mapped(o, a.target), p) ==> At(disk.files, p) == At(old(disk.files), p)
    {
      if !IsConfigCopy(a) { return true; }
      var root := Mapped(o, a.target);
      if Lstat(disk.files, root) != Found { return Lstat(disk.files, root) == Missing; }
      ok := RewriteBelow(root, Hardener(token));
      if !ok || a.target != ETC_TARGET { return; }
      ok := RewriteHelpers(root, token);
    }

    method HardenConfigs(actions: seq<Action>, token: Token) returns (ok: bool)
      requires Valid(disk.files)
      modifies disk
      ensures Valid(disk.files) && (ok <==> CanHarden(o, old(disk.files), actions, token))
      ensures ok ==> disk.files == HardenPlan(o, old(disk.files), actions, token)
      ensures forall p :: OutsideTargets(o, actions, p) ==> At(disk.files, p) == At(old(disk.files), p)
      ensures Confined(o, actions, old(disk.files), disk.files)
    {
      ghost var t := disk.files;
      for i := 0 to |actions|
        invariant Valid(disk.files) && CanHarden(o, t, actions[..i], token)
        invariant disk.files == HardenPlan(o, t, actions[..i], token)
        invariant forall p :: OutsideTargets(o, actions, p) ==> At(disk.files, p) == At(t, p)
        invariant Confined(o, actions, t, disk.files)
      {
        assert actions[..i + 1][..i] == actions[..i];
        ghost var before := disk.files;
        ok := HardenOne(actions[i], token);
        BelowConfined(o, actions[i], before, disk.files);
        ConfinedTrans(o, actions, i, t, before, disk.files);
        if !ok {
          HardenStops(o, t, actions, i + 1, token);
          return;
        }
      }
      assert actions[..|actions|] == actions;
      ok := true;
    }

    method WriteManifest() returns (ok: bool)
      requires Valid(disk.files) && At(disk.files, o.backupDir) == Some(Dir)
      modifies disk
      ensures Valid(disk.files) && (ok <==> CanOverwrite(old(disk.files), ManifestPath(o)))
      ensures disk.files == if ok then old(disk.files)[ManifestPath(o) := File(Record(Manifest("client", targets, sources)))]
                            else old(disk.files)
    {
      var p := ManifestPath(o);
      if Lstat(disk.files, p) == NotDir || (p in disk.files && !disk.files[p].File?) { return false; }
      assert Parent(p) == o.backupDir;
      ValidWrite(disk.files, p, File(Record(Manifest("client", targets, sources))));
      disk.files := disk.files[p := File(Record(Manifest("client", targets, sources)))];
      ok := true;
    }

    method Finish(actions: seq<Action>) returns (ok: bool)
      requires Valid(disk.files) && (o.noBackup || At(disk.files, o.backupDir) == Some(Dir))
      modifies disk
      ensures Valid(disk.files) && (ok <==> CanFinish(o, old(disk.files), actions))
      ensures ok ==> disk.files == WithManifest(o, Rejoined(o, old(disk.files), actions), Manifest("client", targets, sources))
      ensures !ok ==> forall p :: OutsideTargets(o, actions, p) ==> At(disk.files, p) == At(old(disk.files), p)
      ensures Confined(o, actions, old(disk.files), disk.files)
    {
      ghost var t := disk.files;
      ConfinedRefl(o, actions, t);
      if o.rejoin == BadToken { return false; }
      if o.rejoin.Join? {
        ok := HardenConfigs(actions, o.rejoin.token);
        if !ok { return; }
        HardenShape(o, t, actions, o.rejoin.token);
      }
      if o.noBackup { return true; }
      ghost var u := disk.files;
      ok := WriteManifest();
      ManifestConfined(o, actions, t, u, Manifest("client", targets, sources));
    }

    method Apply(actions: seq<Action>) returns (ok: bool)
      requires Valid(disk.files) && RealTargets(actions) && Separated(o, actions) && targets == [] && sources == []
      modifies this`targets, this`sources, disk
      ensures Valid(disk.files) && (ok <==> ApplyOk(o, actions, old(disk.files)))
      ensures ok ==> disk.files == Applied(o, actions, old(disk.files))
      ensures !ok ==> Halted(o, actions, old(disk.files), disk.files)
      ensures Confined(o, actions, old(disk.files), disk.files)
    {
      ghost var t := disk.files;
      ConfinedRefl(o, actions, t);
      if actions == [] { return true; }
      ok := Validate();
      if !ok { return; }
      if !o.noBackup {
        ok := disk.MkdirAll(o.backupDir);
        if !ok { return; }
      }
      StartConfined(o, actions, t);
      ghost var s := disk.files;
      assert s == Started(o, t);
      ghost var done;
      ok, done := RunActions(actions);
      ConfinedChain(o, actions, t, s, disk.files);
      if !ok {
        StoppedManifest(o, actions, t, disk.files, done);
        return;
      }
      if !o.noBackup { BackupDirStays(o, t, actions); }
      ManifestUntouched(o, actions, t);
      ManifestOutside(o, actions);
      ghost var u := disk.files;
      ok := Finish(actions);
      ConfinedChain(o, actions, t, u, disk.files);
    }

    method UndoOne(e: BackupEntry) returns (ok: bool)
      requires Valid(disk.files) && e.target != []
      requires e.backup.Some? ==> Apart(e.backup.value, Mapped(o, e.target))
      modifies disk
      ensures Valid(disk.files) && Undo(ok, disk.files) == RestoreStep(o, old(disk.files), e)
    {
      if e.existed && e.backup.None? { return false; }
      ok := disk.RemoveAll(Mapped(o, e.target));
      if !ok || !e.existed { return; }
      ok := disk.CopyPath(e.backup.value, Mapped(o, e.target));
    }

    /** Undoes the entries from the last to the first. */
    method UndoAll(es: seq<BackupEntry>) returns (ok: bool)
      requires Valid(disk.files) && Undoable(o, es)
      modifies disk
      ensures Undo(ok, disk.files) == Restore(o, old(disk.files), es)
    {
      ghost var goal := Restore(o, disk.files, es);
      RestoreWhole(o, disk.files, es);
      for i := |es| downto 0
        invariant Valid(disk.files) && Restore(o, disk.files, es[..i]) == goal
      {
        RestoreNext(o, disk.files, es, i);
        ok := UndoOne(es[i]);
        if !ok { return; }
      }
      ok := true;
    }

    method RollbackMigration() returns (ok: bool)
      requires Valid(disk.files) && Restorable(o, disk.files)
      modifies disk
      ensures Undo(ok, disk.files) == Rollback(o, old(disk.files))
    {
      var p := ManifestPath(o);
      if p !in disk.files || !disk.files[p].File? || !disk.files[p].content.Record? { return false; }
      var manifest := disk.files[p].content.manifest;
      if manifest.scope != "client" { return false; }
      ok := UndoAll(manifest.targets);
    }
  }

  lemma RestoreNext(o: Options, t: Tree, es: seq<BackupEntry>, i: nat)
    requires i < |es|
    ensures var u := RestoreStep(o, t, es[i]);
            Restore(o, t, es[..i + 1]) == if u.ok then Restore(o, u.tree, es[..i]) else u
  {
    assert es[..i + 1][..i] == es[..i];
  }

  lemma RestoreWhole(o: Options, t: Tree, es: seq<BackupEntry>)
    ensures Restore(o, t, es[..|es|]) == Restore(o, t, es)
  {
    assert es[..|es|] == es;
  }

  /** The backups of the entries, if any, lie apart from their targets. */
  ghost predicate Undoable(o: Options, es: seq<BackupEntry>) {
    forall i :: 0 <= i < |es| ==>
      es[i].target != [] && (es[i].backup.Some? ==> Apart(es[i].backup.value, Mapped(o, es[i].target)))
  }

  ghost predicate Restorable(o: Options, t: Tree) {
    var p := ManifestPath(o);
    p in t && t[p].File? && t[p].content.Record? ==> Undoable(o, t[p].content.manifest.targets)
  }

  /** What a migration left behind can be handed to rollback. */
  lemma AppliedRestorable(o: Options, actions: seq<Action>, before: Tree, later: Tree)
    requires RealTargets(actions) && Separated(o, actions) && !o.noBackup && actions != []
    requires ApplyOk(o, actions, before) && Same(Applied(o, actions, before), later, o.backupDir)
    ensures Restorable(o, later)
  {
    var es := RecordedOnDisk(o, actions, before, later);
    forall i | 0 <= i < |es| && es[i].backup.Some? ensures Apart(es[i].backup.value, Mapped(o, es[i].target)) {
      SavedOutside(o, actions, es[i].target);
    }
  }

  lemma BelowConfined(o: Options, a: Action, t: Tree, u: Tree)
    requires forall p :: !Within(Mapped(o, a.target), p) ==> At(u, p) == At(t, p)
    ensures Confined(o, [a], t, u)
  {
    assert [a][0] == a;
    forall x | Apart(x, Mapped(o, a.target)) ensures Same(t, u, x) {
      forall p | Within(x, p) ensures At(t, p) == At(u, p) { ApartBelow(x, Mapped(o, a.target), p); }
    }
  }

  lemma ConfinedRefl(o: Options, actions: seq<Action>, t: Tree)
    ensures Confined(o, actions, t, t)
  {
  }

  lemma ConfinedChain(o: Options, actions: seq<Action>, t: Tree, u: Tree, v: Tree)
    requires Confined(o, actions, t, u) && Confined(o, actions, u, v)
    ensures Confined(o, actions, t, v)
  {
    forall x | Apart(x, o.backupDir) && (forall j :: 0 <= j < |actions| ==> Apart(x, Mapped(o, actions[j].target)))
      ensures Same(t, v, x)
    {
      assert Same(t, u, x) && Same(u, v, x);
      SameTrans(t, u, v, x);
    }
  }

  lemma StartConfined(o: Options, actions: seq<Action>, t: Tree)
    ensures Confined(o, actions, t, Started(o, t))
  {
    forall x | Apart(x, o.backupDir) ensures Same(t, Started(o, t), x) { StartFrame(o, t, x); }
  }

  lemma ManifestConfined(o: Options, actions: seq<Action>, t: Tree, u: Tree, m: Manifest)
    requires Confined(o, actions, t, u)
    ensures Confined(o, actions, t, u[ManifestPath(o) := File(Record(m))])
  {
    var v := u[ManifestPath(o) := File(Record(m))];
    assert Within(o.backupDir, ManifestPath(o)) by { assert ManifestPath(o)[..|o.backupDir|] == o.backupDir; }
    forall x | Apart(x, o.backupDir) ensures Same(u, v, x) {
      forall p | Within(x, p) ensures At(u, p) == At(v, p) { ApartBelow(x, o.backupDir, p); }
    }
    ConfinedChain(o, actions, t, u, v);
  }

  lemma {:induction false} HardenStops(o: Options, t: Tree, actions: seq<Action>, n: nat, token: Token)
    requires n <= |actions| && !CanHarden(o, t, actions[..n], token)
    ensures !CanHarden(o, t, actions, token)
    decreases |actions|
  {
    if n < |actions| {
      var m := |actions| - 1;
      assert actions[..m][..n] == actions[..n];
      HardenStops(o, t, actions[..m], n, token);
    } else {
      assert actions[..n] == actions;
    }
  }

  /** Whatever lies apart from the backup directory and from every target is the same in both trees. */
  ghost predicate Confined(o: Options, actions: seq<Action>, t: Tree, u: Tree) {
    forall x :: Apart(x, o.backupDir) && (forall i :: 0 <= i < |actions| ==> Apart(x, Mapped(o, actions[i].target))) ==>
      Same(t, u, x)
  }

  lemma ManifestOutside(o: Options, actions: seq<Action>)
    requires Separated(o, actions)
    ensures OutsideTargets(o, actions, ManifestPath(o))
  {
    forall i | 0 <= i < |actions| ensures !Within(Mapped(o, actions[i].target), ManifestPath(o)) {
      ManifestClear(o, actions[i]);
    }
  }

  lemma TouchedConfined(o: Options, a: Action, t: Tree, u: Tree)
    requires OnlyTouched(o, a, t, u)
    ensures Confined(o, [a], t, u)
  {
    assert [a][0] == a;
    forall x | Apart(x, o.backupDir) && Apart(x, Mapped(o, a.target)) ensures Same(t, u, x) { OutsideBackup(o, a, x); }
  }

  lemma ConfinedTrans(o: Options, actions: seq<Action>, i: nat, t: Tree, u: Tree, v: Tree)
    requires i < |actions| && Confined(o, actions, t, u) && Confined(o, [actions[i]], u, v)
    ensures Confined(o, actions, t, v)
  {
    forall x | Apart(x, o.backupDir) && (forall j :: 0 <= j < |actions| ==> Apart(x, Mapped(o, actions[j].target)))
      ensures Same(t, v, x)
    {
      assert Same(t, u, x);
      assert Same(u, v, x);
      SameTrans(t, u, v, x);
    }
  }

  lemma NextStep(o: Options, t: Tree, actions: seq<Action>, i: nat)
    requires RealTargets(actions) && i < |actions| && Steps(o, t, actions[..i]).ok
    ensures Steps(o, t, actions[..i + 1]) == Step(o, Steps(o, t, actions[..i]), actions[i])
  {
    assert actions[..i + 1][..i] == actions[..i];
  }

  lemma StopsHere(o: Options, t: Tree, actions: seq<Action>, i: nat, u: Tree)
    requires RealTargets(actions) && i < |actions| && Steps(o, t, actions[..i]).ok && !Steps(o, t, actions[..i + 1]).ok
    requires FailedOn(o, actions[i], Steps(o, t, actions[..i]).tree, u)
    ensures !Steps(o, t, actions).ok && StoppedAt(o, actions, t, u, i)
  {
    StepsStop(o, t, actions, i + 1);
  }

  /** Once a step fails, the rest of the plan is not run. */
  lemma {:induction false} StepsStop(o: Options, t: Tree, actions: seq<Action>, n: nat)
    requires RealTargets(actions) && n <= |actions| && !Steps(o, t, actions[..n]).ok
    ensures !Steps(o, t, actions).ok
    decreases |actions|
  {
    if n < |actions| {
      var m := |actions| - 1;
      assert actions[..m][..n] == actions[..n];
      StepsStop(o, t, actions[..m], n);
    } else {
      assert actions[..n] == actions;
    }
  }

  lemma RewriteIsCopy(t: Tree, x: Path, y: Path, e: Entry)
    requires Valid(t) && x in t && t[x] != Dir && Apart(x, y) && Subtree(t, y) == {}
    ensures MakeDirs(t, Parent(y))[y := e] == CopyTree(t, x, y)[y := e]
  {
    PlaceIsCopy(t, x, y);
  }

  /** Writing the first helper file does not stand in the way of the second. */
  lemma HelpersApart(t: Tree, dir: Path, c: Content)
    requires Valid(t)
    ensures CanOverwrite(t, HelperFiles(dir)[0]) ==>
              (CanOverwrite(Overwrite(t, HelperFiles(dir)[0], c), HelperFiles(dir)[1]) <==> CanOverwrite(t, HelperFiles(dir)[1]))
  {
    var p, q := HelperFiles(dir)[0], HelperFiles(dir)[1];
    var u := Overwrite(t, p, c);
    assert |p[|dir|]| != |q[|dir|]|;
    forall k | 0 <= k < |q| ensures q[..k] != p { }
    SameFiles(t, u, q);
    SameFiles(u, t, q);
  }
}

/** The client migration plan, and that its paths are kept apart whatever is on the disk. */
module MigrationPlan {
  import opened Basics
  import opened FileTree
  import opened Migration
  import opened MigrationConfigs
  import opened MigrationApply
  import opened MigrationTheorems

  const SYSTEMD_SOURCES: seq<Path> := [
    ["etc", "systemd", "system", "netbird.service"],
    ["lib", "systemd", "system", "netbird.service"],
    ["usr", "lib", "systemd", "system", "netbird.service"]
  ]

  const COMPAT_TARGET: Path := ["usr", "local", "bin", "netbird"]

  function Target(k: nat): Path {
    match k
    case 0 => ETC_TARGET
    case 1 => LIB_TARGET
    case 2 => ["var", "log", "anonbird"]
    case 3 => ["etc", "systemd", "system", "anonbird.service"]
    case 4 => ["etc", "sysconfig", "anonbird"]
    case 5 => ["etc", "default", "anonbird"]
    case _ => COMPAT_TARGET
  }

  /** The sources that may fill target `k`, in the order in which they are tried. */
  function Sources(k: nat): seq<Path> {
    match k
    case 0 => [ETC_SOURCE]
    case 1 => [LIB_SOURCE]
    case 2 => [["var", "log", "netbird"]]
    case 3 => SYSTEMD_SOURCES
    case 4 => [["etc", "sysconfig", "netbird"]]
    case 5 => [["etc", "default", "netbird"]]
    case _ => []
  }

  function FirstPresent(o: Options, t: Tree, paths: seq<Path>): (r: Option<Path>)
    ensures r.Some? ==> r.value in paths && Mapped(o, r.value) in t
    ensures r.None? ==> forall p :: p in paths ==> Mapped(o, p) !in t
  {
    if paths == [] then None
    else if Mapped(o, paths[0]) in t then Some(paths[0])
    else FirstPresent(o, t, paths[1..])
  }

  /** The action for target `k`, if there is one. */
  function Slot(o: Options, compat: bool, t: Tree, k: nat): seq<Action> {
    if k < 6 then
      match FirstPresent(o, t, Sources(k))
      case Some(source) => [Copy(source, Target(k), 3 <= k)]
      case None => []
    else if compat then [Compat(COMPAT_TARGET, ["usr", "local", "bin", "anonbird"], true)]
    else []
  }

  /** The actions for the first `k` targets. */
  function Slots(o: Options, compat: bool, t: Tree, k: nat): seq<Action> {
    if k == 0 then [] else Slots(o, compat, t, k - 1) + Slot(o, compat, t, k - 1)
  }

  function Plan(o: Options, compat: bool, t: Tree): seq<Action> {
    Slots(o, compat, t, 7)
  }

  // ----- The fixed paths -----

  lemma DifferAt(x: Path, y: Path, i: nat)
    requires i < |x| && i < |y| && x[i] != y[i]
    ensures Apart(x, y)
  {
    if |x| <= |y| { assert y[..|x|][i] == y[i]; }
    if |y| <= |x| { assert x[..|y|][i] == x[i]; }
  }

  lemma Words()
    ensures "etc" != "var" && "etc" != "usr" && "etc" != "lib" && "var" != "usr" && "var" != "lib" && "usr" != "lib"
    ensures "lib" != "log" && "systemd" != "default" && "netbird" != "systemd" && "netbird" != "default"
    ensures "lib" != "backups" && "log" != "backups" && "anonbird" != "netbird"
  {
    assert "etc"[0] == 'e' && "var"[0] == 'v' && "usr"[0] == 'u' && "lib"[0] == 'l';
    assert "lib"[1] == 'i' && "log"[1] == 'o';
    assert "systemd"[0] == 's' && "default"[0] == 'd' && "netbird"[0] == 'n';
  }

  lemma TargetsDiffer(j: nat, k: nat)
    requires j < k < 7
    ensures Apart(Target(j), Target(k))
  {
    Words();
    if k == 6 {
      DifferAt(Target(j), Target(k), 0);
    } else if (j == 1 || j == 2) != (k == 1 || k == 2) {
      DifferAt(Target(j), Target(k), 0);
    } else {
      DifferAt(Target(j), Target(k), 1);
    }
  }

  lemma ConfigTargets(j: nat)
    requires j < 7
    ensures Target(j) == ETC_TARGET <==> j == 0
    ensures Target(j) == LIB_TARGET <==> j == 1
  {
    assert Within(Target(j), Target(j));
    if j > 0 { TargetsDiffer(0, j); }
    if j > 1 { TargetsDiffer(1, j); }
    if j == 0 { TargetsDiffer(0, 1); }
  }

  lemma NotThere(x: Path, y: Path)
    requires x != [] && x[|x| - 1] !in y
    ensures !Within(x, y)
  {
    if |x| <= |y| { assert y[..|x|][|x| - 1] == y[|x| - 1]; }
  }

  lemma SourceNames(j: nat, source: Path)
    requires j < 6 && source in Sources(j)
    ensures |source| > 1 && source[|source| - 1] in {"netbird", "netbird.service"}
    ensures "anonbird" !in source && "anonbird.service" !in source
  {
    Words();
  }

  lemma TargetNames(k: nat)
    requires k < 6
    ensures |Target(k)| > 1 && Target(k)[|Target(k)| - 1] in {"anonbird", "anonbird.service"}
    ensures "netbird" !in Target(k) && "netbird.service" !in Target(k)
  {
    Words();
  }

  lemma SourceHead(j: nat, source: Path)
    requires j < 6 && source in Sources(j)
    ensures |source| > 1 && (source[0] != "usr" || source[1] == "lib")
  {
    Words();
  }

  lemma SourceDiffers(j: nat, source: Path, k: nat)
    requires j < 6 && source in Sources(j) && k < 7
    ensures Apart(source, Target(k))
  {
    if k == 6 {
      SourceHead(j, source);
      assert |"lib"| != |"local"|;
      DifferAt(source, COMPAT_TARGET, if source[0] == "usr" then 1 else 0);
    } else {
      SourceNames(j, source);
      TargetNames(k);
      NotThere(source, Target(k));
      NotThere(Target(k), source);
    }
  }

  // ----- The plan keeps its paths apart -----

  /** The backup directory lies outside everything a plan may read or write. */
  ghost predicate BackupOutside(o: Options) {
    && (forall k :: 0 <= k < 7 ==> Apart(o.backupDir, Mapped(o, Target(k))))
    && (forall k, source :: 0 <= k < 6 && source in Sources(k) ==> Apart(o.backupDir, Mapped(o, source)))
  }

  /** The action fills target `j` from one of its sources. */
  ghost predicate FromTable(a: Action, j: nat) {
    && a.target == Target(j)
    && (a.Copy? ==> j < 6 && a.source in Sources(j) && (a.rewrite <==> 3 <= j))
    && (a.Compat? ==> j == 6)
  }

  ghost predicate Listed(a: Action, k: nat) {
    exists j: nat :: j < k && FromTable(a, j)
  }

  ghost predicate InTable(plan: seq<Action>, k: nat) {
    forall i :: 0 <= i < |plan| ==> Listed(plan[i], k)
  }

  lemma TableAppend(front: seq<Action>, a: seq<Action>, k: nat)
    requires InTable(front, k) && forall i :: 0 <= i < |a| ==> FromTable(a[i], k)
    ensures InTable(front + a, k + 1)
  {
    var s := front + a;
    forall i | 0 <= i < |s| ensures Listed(s[i], k + 1) {
      if i < |front| {
        assert Listed(front[i], k);
        var j: nat :| j < k && FromTable(front[i], j);
        assert FromTable(s[i], j);
      } else {
        assert FromTable(s[i], k);
      }
    }
  }

  lemma {:induction false} SlotsShape(o: Options, compat: bool, t: Tree, k: nat)
    requires k <= 7
    ensures InTable(Slots(o, compat, t, k), k)
    ensures forall i, i' :: 0 <= i < i' < |Slots(o, compat, t, k)| ==>
              Apart(Slots(o, compat, t, k)[i].target, Slots(o, compat, t, k)[i'].target)
    decreases k
  {
    if k > 0 {
      var front, a := Slots(o, compat, t, k - 1), Slot(o, compat, t, k - 1);
      SlotsShape(o, compat, t, k - 1);
      SlotShape(o, compat, t, k - 1);
      TableAppend(front, a, k - 1);
      forall i, i' | 0 <= i < i' < |front + a| ensures Apart((front + a)[i].target, (front + a)[i'].target) {
        if i' >= |front| { BeforeSlot(front, i, k - 1); }
      }
    }
  }

  lemma SlotShape(o: Options, compat: bool, t: Tree, k: nat)
    requires k < 7
    ensures |Slot(o, compat, t, k)| <= 1
    ensures forall i :: 0 <= i < |Slot(o, compat, t, k)| ==> FromTable(Slot(o, compat, t, k)[i], k)
  {
  }

  lemma BeforeSlot(front: seq<Action>, i: nat, k: nat)
    requires InTable(front, k) && i < |front| && k < 7
    ensures Apart(front[i].target, Target(k))
  {
    assert Listed(front[i], k);
    var j: nat :| j < k && FromTable(front[i], j);
    TargetsDiffer(j, k);
  }

  /** Any plan built from any disk keeps its targets, sources and backups apart. */
  lemma PlanSeparated(o: Options, compat: bool, t: Tree)
    requires BackupOutside(o)
    ensures RealTargets(Plan(o, compat, t)) && Separated(o, Plan(o, compat, t)) && ConfigShape(Plan(o, compat, t))
  {
    var plan := Plan(o, compat, t);
    SlotsShape(o, compat, t, 7);
    forall i | 0 <= i < |plan|
      ensures plan[i].target != [] && Apart(o.backupDir, Mapped(o, plan[i].target))
      ensures plan[i].Copy? ==> Apart(o.backupDir, Mapped(o, plan[i].source))
    {
      assert Listed(plan[i], 7);
      var j: nat :| j < 7 && FromTable(plan[i], j);
    }
    forall i, i' | 0 <= i < |plan| && 0 <= i' < |plan| && plan[i].Copy? ensures Apart(plan[i].source, plan[i'].target) {
      assert Listed(plan[i], 7);
      var j: nat :| j < 7 && FromTable(plan[i], j);
      assert Listed(plan[i'], 7);
      var j': nat :| j' < 7 && FromTable(plan[i'], j');
      SourceDiffers(j, plan[i].source, j');
    }
    forall i | 0 <= i < |plan| && IsConfigCopy(plan[i])
      ensures !plan[i].rewrite
      ensures plan[i].source == (if plan[i].target == ETC_TARGET then ETC_SOURCE else LIB_SOURCE)
    {
      assert Listed(plan[i], 7);
      var j: nat :| j < 7 && FromTable(plan[i], j);
      ConfigTargets(j);
    }
  }

  /** The default backup directory satisfies the condition. */
  lemma DefaultBackupOutside(o: Options, stamp: string)
    requires o.backupDir == Mapped(o, ["var", "backups", "anonbird", "migration-" + stamp])
    ensures BackupOutside(o)
  {
    var b: Path := ["var", "backups", "anonbird", "migration-" + stamp];
    Words();
    forall k | 0 <= k < 7 ensures Apart(o.backupDir, Mapped(o, Target(k))) {
      DifferAt(b, Target(k), if k == 1 || k == 2 then 1 else 0);
      MappedApart(o.root, b, Target(k));
    }
    forall k, source | 0 <= k < 6 && source in Sources(k) ensures Apart(o.backupDir, Mapped(o, source)) {
      DifferAt(b, source, if source[0] == "var" then 1 else 0);
      MappedApart(o.root, b, source);
    }
  }

  /** Rollback of the built plan gives every target back, from any disk and whatever became of the targets. */
  lemma PlanRollsBack(o: Options, compat: bool, before: Tree, later: Tree, i: nat)
    requires Valid(before) && BackupOutside(o) && !o.noBackup && i < |Plan(o, compat, before)|
    requires RealTargets(Plan(o, compat, before)) && ApplyOk(o, Plan(o, compat, before), before)
    requires Same(Applied(o, Plan(o, compat, before), before), later, o.backupDir) && Rollback(o, later).ok
    ensures Same(before, Rollback(o, later).tree, Mapped(o, Plan(o, compat, before)[i].target))
  {
    PlanSeparated(o, compat, before);
    RollbackInvertsApply(o, Plan(o, compat, before), before, later, i);
  }

  /** Without both unsafe flags, the built plan leaves no configuration in the clear. */
  lemma PlanSafe(o: Options, compat: bool, t: Tree, i: nat)
    requires Valid(t) && BackupOutside(o) && !(o.allowUnsafe && o.ack)
    requires RealTargets(Plan(o, compat, t)) && ApplyOk(o, Plan(o, compat, t), t)
    requires i < |Plan(o, compat, t)| && IsConfigCopy(Plan(o, compat, t)[i])
    ensures AllSafe(Applied(o, Plan(o, compat, t), t), Mapped(o, Plan(o, compat, t)[i].target))
  {
    PlanSeparated(o, compat, t);
    ApplySafe(o, Plan(o, compat, t), t, i);
  }

  /**
   * If only targets changed since the migration, the built plan can be rolled back exactly when no regular file
   * stood on the way to the compatibility link, or none was asked for.
   */
  lemma PlanRollbackIff(o: Options, compat: bool, before: Tree, later: Tree)
    requires Valid(before) && BackupOutside(o) && !o.noBackup && Plan(o, compat, before) != [] && Valid(later)
    requires RealTargets(Plan(o, compat, before)) && ApplyOk(o, Plan(o, compat, before), before)
    requires forall p :: OutsideTargets(o, Plan(o, compat, before), p) ==>
               At(Applied(o, Plan(o, compat, before), before), p) == At(later, p)
    ensures Rollback(o, later).ok <==> !compat || !ThroughFile(before, Mapped(o, COMPAT_TARGET))
  {
    var plan, front := Plan(o, compat, before), Plan(o, false, before);
    PlanSeparated(o, compat, before);
    RollbackSucceedsIff(o, plan, before, later);
    PlanWithLink(o, before);
    OnlyCopies(o, before);
    forall i | 0 <= i < |front| ensures !ThroughFile(before, Mapped(o, plan[i].target)) {
      assert plan[i] == front[i];
      CopyReached(o, plan, before, later, i);
    }
  }

  lemma OnlyCopies(o: Options, t: Tree)
    ensures forall i :: 0 <= i < |Plan(o, false, t)| ==> Plan(o, false, t)[i].Copy?
  {
    SlotsCopies(o, t, 7);
  }

  lemma {:induction false} SlotsCopies(o: Options, t: Tree, k: nat)
    requires k <= 7
    ensures forall i :: 0 <= i < |Slots(o, false, t, k)| ==> Slots(o, false, t, k)[i].Copy?
    decreases k
  {
    if k > 0 { SlotsCopies(o, t, k - 1); }
  }

  // ----- The compatibility link behind a regular file -----

  lemma PlanWithLink(o: Options, t: Tree)
    ensures Plan(o, true, t) == Plan(o, false, t) + [Compat(COMPAT_TARGET, ["usr", "local", "bin", "anonbird"], true)]
  {
    SlotsAlike(o, t, 6);
  }

  lemma {:induction false} SlotsAlike(o: Options, t: Tree, k: nat)
    requires k <= 6
    ensures Slots(o, true, t, k) == Slots(o, false, t, k)
    decreases k
  {
    if k > 0 { SlotsAlike(o, t, k - 1); }
  }

  lemma SkippedStep(o: Options, r: Run, a: Action)
    requires r.ok && Valid(r.tree) && a.Compat? && a.optional && a.target != []
    requires ThroughFile(r.tree, Mapped(o, a.target))
    ensures Step(o, r, a) == r.(targets := r.targets + [BackupEntry(a.target, false, None)])
  {
    BehindFile(r.tree, Mapped(o, a.target));
  }

  /**
   * With a regular file on the way to the link, the migration succeeds exactly as it would without the link:
   * the link is skipped.
   */
  lemma SkippedLinkApplies(o: Options, t: Tree)
    requires Valid(t) && BackupOutside(o) && RealTargets(Plan(o, true, t)) && RealTargets(Plan(o, false, t))
    requires ThroughFile(t, Mapped(o, COMPAT_TARGET))
    ensures ApplyOk(o, Plan(o, true, t), t) <==>
            && CanStart(o, t) && Steps(o, Started(o, t), Plan(o, false, t)).ok
            && CanFinish(o, Steps(o, Started(o, t), Plan(o, false, t)).tree, Plan(o, false, t))
    ensures Plan(o, false, t) != [] ==> (ApplyOk(o, Plan(o, true, t), t) <==> ApplyOk(o, Plan(o, false, t), t))
  {
    PlanWithLink(o, t);
    PlanSeparated(o, true, t);
    FileBefore(o, t);
    SkippedLast(o, Plan(o, false, t), Compat(COMPAT_TARGET, ["usr", "local", "bin", "anonbird"], true), t);
  }

  /** An optional link behind a regular file, at the end of any plan, decides nothing. */
  lemma SkippedLast(o: Options, front: seq<Action>, a: Action, t: Tree)
    requires Valid(t) && RealTargets(front) && a.Compat? && a.optional && a.target != [] && Separated(o, front + [a])
    requires ThroughFile(Steps(o, Started(o, t), front).tree, Mapped(o, a.target))
    ensures ApplyOk(o, front + [a], t) <==>
            && CanStart(o, t) && Steps(o, Started(o, t), front).ok
            && CanFinish(o, Steps(o, Started(o, t), front).tree, front)
  {
    var plan, s := front + [a], Started(o, t);
    var n := |front|;
    var r := Steps(o, s, front);
    assert plan[..n] == front;
    assert Steps(o, s, plan) == if r.ok then Step(o, r, a) else r;
    if CanStart(o, t) && r.ok {
      if !o.noBackup { ValidMake(t, o.backupDir); }
      SeparatedFront(o, plan, n);
      StepsValid(o, s, front);
      SkippedStep(o, r, a);
      SkippedFinish(o, r.tree, front, a);
    }
  }

  lemma SkippedFinish(o: Options, t: Tree, front: seq<Action>, a: Action)
    requires a.Compat?
    ensures CanFinish(o, t, front + [a]) <==> CanFinish(o, t, front)
  {
    assert (front + [a])[..|front|] == front;
  }

  /** Also after the copies alone, the file is still there. */
  lemma FileBefore(o: Options, t: Tree)
    requires Valid(t) && BackupOutside(o) && RealTargets(Plan(o, false, t))
    requires ThroughFile(t, Mapped(o, COMPAT_TARGET))
    ensures ThroughFile(Steps(o, Started(o, t), Plan(o, false, t)).tree, Mapped(o, COMPAT_TARGET))
  {
    var plan, front := Plan(o, true, t), Plan(o, false, t);
    var s, x := Started(o, t), Mapped(o, COMPAT_TARGET);
    PlanWithLink(o, t);
    PlanSeparated(o, true, t);
    forall k | 0 <= k < |x| ensures KeptAt(t, Steps(o, s, front).tree, x[..k]) {
      forall j | 0 <= j < |front| ensures Spares(o, front[j], x[..k]) {
        assert front[j] == plan[j];
        TargetsApart(o, plan, |front|, j);
        AboveSpared(o, front[j], x, k);
      }
      StepsKeep(o, s, front, x[..k]);
    }
    SameFiles(t, Steps(o, s, front).tree, x);
  }

  /**
   * For every disk with a regular file on the way to the link: the migration leaves everything on that way as it
   * was, and rollback then fails without restoring a single target.
   */
  lemma SkippedLinkBlocksRollback(o: Options, before: Tree, later: Tree)
    requires Valid(before) && BackupOutside(o) && !o.noBackup && ThroughFile(before, Mapped(o, COMPAT_TARGET))
    requires RealTargets(Plan(o, true, before)) && ApplyOk(o, Plan(o, true, before), before) && Valid(later)
    requires forall p :: OutsideTargets(o, Plan(o, true, before), p) ==>
               At(Applied(o, Plan(o, true, before), before), p) == At(later, p)
    ensures forall k :: 0 <= k < |Mapped(o, COMPAT_TARGET)| && Mapped(o, COMPAT_TARGET)[..k] in before ==>
              At(Applied(o, Plan(o, true, before), before), Mapped(o, COMPAT_TARGET)[..k]) ==
              At(before, Mapped(o, COMPAT_TARGET)[..k])
    ensures Rollback(o, later) == Undo(false, later)
  {
    PlanWithLink(o, before);
    PlanSeparated(o, true, before);
    forall k | 0 <= k < |Mapped(o, COMPAT_TARGET)| && Mapped(o, COMPAT_TARGET)[..k] in before
      ensures At(Applied(o, Plan(o, true, before), before), Mapped(o, COMPAT_TARGET)[..k]) ==
              At(before, Mapped(o, COMPAT_TARGET)[..k])
    {
      AppliedKeeps(o, Plan(o, true, before), before, |Plan(o, false, before)|, k);
    }
    BlockedRollback(o, Plan(o, true, before), before, later);
  }

  /** The smallest such disk: a regular file `/usr` and nothing else. */
  ghost predicate OnlyUsrFile(t: Tree) {
    && At(t, []) == Some(Dir) && ["usr"] in t && t[["usr"]].File?
    && forall p :: p in t ==> p == [] || p == ["usr"]
  }

  lemma OffUsr(t: Tree, x: Path)
    requires OnlyUsrFile(t) && x != [] && x[0] != "usr"
    ensures forall k :: 0 < k <= |x| ==> x[..k] !in t
    ensures Lstat(t, x) == Missing && AllDirs(t, x) && forall p :: p in t ==> !Within(x, p)
  {
    forall k | 0 < k <= |x| ensures x[..k] !in t {
      assert x[..k][0] == x[0];
    }
    assert x[..|x|] == x && x[..0] == [];
    forall p | p in t ensures !Within(x, p) {
      if |x| <= |p| { assert p[..|x|][0] == p[0]; }
    }
  }

  lemma {:induction false} NoSlots(o: Options, t: Tree, k: nat)
    requires k <= 6 && forall p :: p in t ==> |p| <= |o.root| + 1
    ensures Slots(o, false, t, k) == []
    decreases k
  {
    if k > 0 {
      NoSlots(o, t, k - 1);
      NoSlot(o, t, k - 1);
    }
  }

  lemma NoSlot(o: Options, t: Tree, k: nat)
    requires k < 6 && forall p :: p in t ==> |p| <= |o.root| + 1
    ensures Slot(o, false, t, k) == []
  {
    var found := FirstPresent(o, t, Sources(k));
    if found.Some? { SourceNames(k, found.value); }
  }

  lemma UsrFileStart(o: Options, t: Tree)
    requires OnlyUsrFile(t) && o.root == [] && o.backupDir != [] && o.backupDir[0] == "var"
    requires !o.noBackup && o.rejoin.NoRejoin?
    ensures CanStart(o, t) && CanFinish(o, Started(o, t), [])
  {
    Words();
    var m := ManifestPath(o);
    OffUsr(t, Mapped(o, ETC_SOURCE));
    OffUsr(t, Mapped(o, LIB_SOURCE));
    OffUsr(t, o.backupDir);
    OffUsr(t, m);
    assert Rejoined(o, Started(o, t), []) == Started(o, t);
    assert m[..|m|] == m && !Within(m, o.backupDir);
    assert At(Started(o, t), m) == None;
    forall k | 0 <= k < |m| ensures At(Started(o, t), m[..k]) in {None, Some(Dir)} {
      assert k > 0 ==> m[..k] !in t;
      assert m[..0] == [];
    }
    assert !ThroughFile(Started(o, t), m);
  }

  /** On that disk the migration with the link requested and otherwise default options succeeds, and its rollback
      fails. */
  lemma UsrFileBlocksRollback(o: Options, t: Tree, stamp: string)
    requires OnlyUsrFile(t) && o.root == [] && o.backupDir == ["var", "backups", "anonbird", "migration-" + stamp]
    requires !o.noBackup && o.rejoin.NoRejoin?
    ensures RealTargets(Plan(o, true, t)) && ApplyOk(o, Plan(o, true, t), t)
    ensures !Rollback(o, Applied(o, Plan(o, true, t), t)).ok
  {
    var x := Mapped(o, COMPAT_TARGET);
    assert x[..1] == ["usr"];
    assert o.backupDir == Mapped(o, o.backupDir);
    DefaultBackupOutside(o, stamp);
    PlanSeparated(o, true, t);
    PlanSeparated(o, false, t);
    NoPlan(o, t);
    UsrFileStart(o, t);
    SkippedLinkApplies(o, t);
    AppliedValid(o, Plan(o, true, t), t);
    SkippedLinkBlocksRollback(o, t, Applied(o, Plan(o, true, t), t));
  }

  lemma NoPlan(o: Options, t: Tree)
    requires forall p :: p in t ==> |p| <= |o.root| + 1
    ensures Plan(o, false, t) == []
  {
    NoSlots(o, t, 6);
  }

  // ----- Without backups the backup directory does not matter -----

  lemma CopyActionIgnoresBackupDir(o: Options, b: Path, t: Tree, a: Action)
    requires a.Copy?
    ensures CanCopyAction(o, t, a) <==> CanCopyAction(o.(backupDir := b), t, a)
    ensures CanCopyAction(o, t, a) ==> CopyAction(o, t, a) == CopyAction(o.(backupDir := b), t, a)
  {
  }

  lemma StepIgnoresBackupDir(o: Options, b: Path, r: Run, a: Action)
    requires o.noBackup && a.target != []
    ensures Step(o, r, a) == Step(o.(backupDir := b), r, a)
  {
    var p := o.(backupDir := b);
    assert BackupTarget(o, r, a.target) == BackupTarget(p, r, a.target);
    if a.Copy? {
      assert BackupSource(o, r, a.source) == r && BackupSource(p, r, a.source) == r;
      CopyActionIgnoresBackupDir(o, b, BackupTarget(o, r, a.target).tree, a);
    }
  }

  lemma {:induction false} StepsIgnoreBackupDir(o: Options, b: Path, t: Tree, actions: seq<Action>)
    requires o.noBackup && RealTargets(actions)
    ensures Steps(o, t, actions) == Steps(o.(backupDir := b), t, actions)
    decreases |actions|
  {
    if actions != [] {
      var n := |actions| - 1;
      StepsIgnoreBackupDir(o, b, t, actions[..n]);
      StepIgnoresBackupDir(o, b, Steps(o, t, actions[..n]), actions[n]);
    }
  }

  lemma {:induction false} HardenIgnoresBackupDir(o: Options, b: Path, t: Tree, actions: seq<Action>, token: Token)
    ensures HardenPlan(o, t, actions, token) == HardenPlan(o.(backupDir := b), t, actions, token)
    ensures CanHarden(o, t, actions, token) <==> CanHarden(o.(backupDir := b), t, actions, token)
    decreases |actions|
  {
    if actions != [] { HardenIgnoresBackupDir(o, b, t, actions[..|actions| - 1], token); }
  }

  lemma {:induction false} SlotsIgnoreBackupDir(o: Options, b: Path, compat: bool, t: Tree, k: nat)
    ensures Slots(o, compat, t, k) == Slots(o.(backupDir := b), compat, t, k)
    decreases k
  {
    if k > 0 {
      PresentIgnoresBackupDir(o, b, t, Sources(k - 1));
      SlotsIgnoreBackupDir(o, b, compat, t, k - 1);
    }
  }

  lemma {:induction false} PresentIgnoresBackupDir(o: Options, b: Path, t: Tree, paths: seq<Path>)
    ensures FirstPresent(o, t, paths) == FirstPresent(o.(backupDir := b), t, paths)
    decreases |paths|
  {
    if paths != [] { PresentIgnoresBackupDir(o, b, t, paths[1..]); }
  }

  /** The built plan is as safe without backups, wherever the backup directory would have been. */
  lemma PlanSafeWithoutBackups(o: Options, compat: bool, t: Tree, i: nat)
    requires Valid(t) && o.noBackup && !(o.allowUnsafe && o.ack)
    requires RealTargets(Plan(o, compat, t)) && ApplyOk(o, Plan(o, compat, t), t)
    requires i < |Plan(o, compat, t)| && IsConfigCopy(Plan(o, compat, t)[i])
    ensures AllSafe(Applied(o, Plan(o, compat, t), t), Mapped(o, Plan(o, compat, t)[i].target))
  {
    var b := Mapped(o, ["var", "backups", "anonbird", "migration-" + ""]);
    var p := o.(backupDir := b);
    DefaultBackupOutside(p, "");
    SlotsIgnoreBackupDir(o, b, compat, t, 7);
    var plan := Plan(o, compat, t);
    StepsIgnoreBackupDir(o, b, t, plan);
    if o.rejoin.Join? { HardenIgnoresBackupDir(o, b, Steps(o, t, plan).tree, plan, o.rejoin.token); }
    PlanSafe(p, compat, t, i);
  }
}

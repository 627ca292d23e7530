/** When a client migration succeeds, in terms of the disk before it. */
module MigrationSuccess {
  import opened Basics
  import opened FileTree
  import opened Migration
  import opened MigrationConfigs
  import opened MigrationApply
  import opened MigrationTheorems
  import opened MigrationPlan
  import opened MigrationOutcome

  /** Nothing but directories stands on the way to `x`. */
  predicate Reachable(t: Tree, x: Path)
    requires x != []
  {
    forall k :: 0 <= k < |x| && x[..k] in t ==> t[x[..k]] == Dir
  }

  lemma ReachableIff(t: Tree, x: Path)
    requires x != []
    ensures AllDirs(t, Parent(x)) <==> Reachable(t, x)
    ensures Reachable(t, x) ==> !ThroughFile(t, x)
  {
    assert forall k :: 0 <= k < |x| ==> Parent(x)[..k] == x[..k];
  }

  /** There is room for the action's backups. */
  ghost predicate RoomForBackups(o: Options, t: Tree, a: Action) {
    o.noBackup ||
    (&& (a.Copy? ==> Reachable(t, o.backupDir + ["source"] + a.source))
     && (o.root + a.target in t ==> Reachable(t, o.backupDir + ["target"] + a.target)))
  }

  /** The action can be carried out on the disk as it is. */
  ghost predicate Fits(o: Options, t: Tree, a: Action)
    requires a.target != []
  {
    && RoomForBackups(o, t, a)
    && (a.Copy? ==>
          && o.root + a.source in t && (a.rewrite ==> t[o.root + a.source].File?)
          && Reachable(t, o.root + a.target) && (o.root + a.target in t ==> o.force))
  }

  // ----- One action -----

  lemma WayKept(t: Tree, u: Tree, x: Path)
    requires x != [] && forall k :: 0 <= k < |x| ==> KeptAt(t, u, x[..k])
    ensures Reachable(t, x) <==> Reachable(u, x)
  {
    forall k | 0 <= k < |x|
      ensures (x[..k] in t ==> t[x[..k]] == Dir) <==> (x[..k] in u ==> u[x[..k]] == Dir)
    {
      assert KeptAt(t, u, x[..k]);
    }
  }

  /** Above what is clear of the action, nothing is lost. */
  lemma AboveClear(o: Options, a: Action, x: Path, k: nat)
    requires Clear(o, a, x) && k < |x|
    ensures Spares(o, a, x[..k])
  {
    var p := x[..k];
    assert Within(p, x);
    if Within(Mapped(o, a.target), p) {
      WithinTrans(Mapped(o, a.target), p, x);
      assert false;
    }
    if Within(SavedTarget(o, a.target), p) {
      WithinTrans(SavedTarget(o, a.target), p, x);
      assert false;
    }
    if a.Copy? && Within(SavedSource(o, a.source), p) {
      WithinTrans(SavedSource(o, a.source), p, x);
      assert false;
    }
  }

  lemma SourceSaved(o: Options, r: Run, a: Action)
    requires r.ok && a.Copy? && ActionApart(o, a) && Mapped(o, a.source) in r.tree
    ensures var r1 := BackupSource(o, r, a.source);
            && (r1.ok <==> o.noBackup || Reachable(r.tree, SavedSource(o, a.source)))
            && At(r1.tree, Mapped(o, a.source)) == At(r.tree, Mapped(o, a.source))
            && At(r1.tree, Mapped(o, a.target)) == At(r.tree, Mapped(o, a.target))
            && (Reachable(r1.tree, Mapped(o, a.target)) <==> Reachable(r.tree, Mapped(o, a.target)))
            && (Reachable(r1.tree, SavedTarget(o, a.target)) <==> Reachable(r.tree, SavedTarget(o, a.target)))
  {
    var x, y, r1 := Mapped(o, a.source), Mapped(o, a.target), BackupSource(o, r, a.source);
    ReachableIff(r.tree, SavedSource(o, a.source));
    BelowBackup(o, "source", a.source);
    ApartExtends(o.backupDir, x, SavedSource(o, a.source), x);
    ApartExtends(o.backupDir, y, SavedSource(o, a.source), y);
    BackupSourceFrame(o, r, a.source, x);
    BackupSourceFrame(o, r, a.source, y);
    assert Within(x, x) && Within(y, y);
    SavedApart(o, "source", a.source, "target", a.target);
    SaveKeepsWay(o, r, a.source, y);
    SaveKeepsWay(o, r, a.source, SavedTarget(o, a.target));
  }

  lemma SaveKeepsWay(o: Options, r: Run, source: Path, x: Path)
    requires x != [] && Apart(SavedSource(o, source), x)
    ensures Reachable(BackupSource(o, r, source).tree, x) <==> Reachable(r.tree, x)
  {
    forall k | 0 <= k < |x| ensures KeptAt(r.tree, BackupSource(o, r, source).tree, x[..k]) {
      assert Within(x[..k], x);
      if Within(SavedSource(o, source), x[..k]) {
        WithinTrans(SavedSource(o, source), x[..k], x);
        assert false;
      }
    }
    WayKept(r.tree, BackupSource(o, r, source).tree, x);
  }

  lemma TargetSaved(o: Options, r: Run, a: Action)
    requires r.ok && ActionApart(o, a)
    ensures var r1 := BackupTarget(o, r, a.target);
            && (r1.ok <==> o.noBackup || Mapped(o, a.target) !in r.tree || Reachable(r.tree, SavedTarget(o, a.target)))
            && (a.Copy? ==> At(r1.tree, Mapped(o, a.source)) == At(r.tree, Mapped(o, a.source)))
            && At(r1.tree, Mapped(o, a.target)) == At(r.tree, Mapped(o, a.target))
            && (Reachable(r1.tree, Mapped(o, a.target)) <==> Reachable(r.tree, Mapped(o, a.target)))
  {
    var y, r1 := Mapped(o, a.target), BackupTarget(o, r, a.target);
    ReachableIff(r.tree, SavedTarget(o, a.target));
    BelowBackup(o, "target", a.target);
    ApartExtends(o.backupDir, y, SavedTarget(o, a.target), y);
    BackupTargetFrame(o, r, a.target, y);
    assert Within(y, y);
    if a.Copy? {
      var x := Mapped(o, a.source);
      ApartExtends(o.backupDir, x, SavedTarget(o, a.target), x);
      BackupTargetFrame(o, r, a.target, x);
      assert Within(x, x);
    }
    forall k | 0 <= k < |y| ensures KeptAt(r.tree, r1.tree, y[..k]) {
      assert Within(y[..k], y);
      if Within(SavedTarget(o, a.target), y[..k]) {
        WithinTrans(SavedTarget(o, a.target), y[..k], y);
        assert false;
      }
    }
    WayKept(r.tree, r1.tree, y);
  }

  lemma CopyOkIff(o: Options, t: Tree, a: Action)
    requires a.Copy? && a.target != []
    ensures CanCopyAction(o, t, a) <==>
            && o.root + a.source in t && (a.rewrite ==> t[o.root + a.source].File?)
            && Reachable(t, o.root + a.target) && (o.root + a.target in t ==> o.force)
  {
    ReachableIff(t, o.root + a.target);
  }

  lemma StepOkIff(o: Options, r: Run, a: Action)
    requires r.ok && ActionApart(o, a) && (a.Compat? ==> a.optional)
    ensures Step(o, r, a).ok <==> Fits(o, r.tree, a)
  {
    if a.Copy? {
      var r1 := BackupSource(o, r, a.source);
      var r2 := BackupTarget(o, r1, a.target);
      if Mapped(o, a.source) in r.tree {
        SourceSaved(o, r, a);
        if r1.ok {
          TargetSaved(o, r1, a);
          CopyOkIff(o, r2.tree, a);
        }
      } else {
        TargetSaved(o, r, a);
        CopyOkIff(o, r2.tree, a);
      }
    } else {
      TargetSaved(o, r, a);
    }
  }

  // ----- All actions -----

  ghost predicate SourcesApart(actions: seq<Action>) {
    forall i, j :: 0 <= i < |actions| && 0 <= j < |actions| && i != j && actions[i].Copy? && actions[j].Copy? ==>
      Apart(actions[i].source, actions[j].source)
  }

  /** Everything that action `i` looks at is clear of action `j`. */
  lemma OthersClear(o: Options, actions: seq<Action>, i: nat, j: nat)
    requires RealTargets(actions) && Separated(o, actions) && SourcesApart(actions)
    requires i < |actions| && j < |actions| && i != j
    ensures Clear(o, actions[j], Mapped(o, actions[i].target)) && Clear(o, actions[j], SavedTarget(o, actions[i].target))
    ensures actions[i].Copy? ==> Clear(o, actions[j], Mapped(o, actions[i].source))
    ensures actions[i].Copy? ==> Clear(o, actions[j], SavedSource(o, actions[i].source))
  {
    var a, b := actions[i], actions[j];
    TargetsApart(o, actions, i, j);
    OutsideBackup(o, b, Mapped(o, a.target));
    MappedApart(o.root, a.target, b.target);
    SavedClear(o, b, a.target);
    if a.Copy? {
      assert Apart(actions[i].source, actions[j].target);
      MappedApart(o.root, a.source, b.target);
      OutsideBackup(o, b, Mapped(o, a.source));
      SourceClear(o, a, b);
    }
  }

  lemma SourceClear(o: Options, a: Action, b: Action)
    requires a.Copy? && Apart(o.backupDir, Mapped(o, b.target)) && (b.Copy? ==> Apart(a.source, b.source))
    ensures Clear(o, b, SavedSource(o, a.source))
  {
    BelowBackup(o, "source", a.source);
    ApartExtends(o.backupDir, Mapped(o, b.target), SavedSource(o, a.source), Mapped(o, b.target));
    SavedApart(o, "source", a.source, "target", b.target);
    if b.Copy? { SavedApart(o, "source", a.source, "source", b.source); }
  }

  lemma PlaceKept(o: Options, t: Tree, actions: seq<Action>, x: Path)
    requires RealTargets(actions) && x != [] && forall j :: 0 <= j < |actions| ==> Clear(o, actions[j], x)
    ensures At(Steps(o, t, actions).tree, x) == At(t, x)
    ensures Reachable(Steps(o, t, actions).tree, x) <==> Reachable(t, x)
  {
    StepsFrame(o, t, actions, x);
    assert Within(x, x);
    forall k | 0 <= k < |x| ensures KeptAt(t, Steps(o, t, actions).tree, x[..k]) {
      forall j | 0 <= j < |actions| ensures Spares(o, actions[j], x[..k]) { AboveClear(o, actions[j], x, k); }
      StepsKeep(o, t, actions, x[..k]);
    }
    WayKept(t, Steps(o, t, actions).tree, x);
  }

  /** Whether the last action can be carried out is decided before the others. */
  lemma LastFits(o: Options, t: Tree, actions: seq<Action>)
    requires RealTargets(actions) && Separated(o, actions) && SourcesApart(actions) && actions != []
    ensures var n := |actions| - 1;
            Fits(o, Steps(o, t, actions[..n]).tree, actions[n]) <==> Fits(o, t, actions[n])
  {
    var n := |actions| - 1;
    var a, front := actions[n], actions[..n];
    forall j | 0 <= j < n
      ensures Clear(o, front[j], Mapped(o, a.target)) && Clear(o, front[j], SavedTarget(o, a.target))
      ensures a.Copy? ==> Clear(o, front[j], Mapped(o, a.source)) && Clear(o, front[j], SavedSource(o, a.source))
    {
      OthersClear(o, actions, n, j);
    }
    PlaceKept(o, t, front, Mapped(o, a.target));
    PlaceKept(o, t, front, SavedTarget(o, a.target));
    if a.Copy? {
      if Mapped(o, a.source) != [] { PlaceKept(o, t, front, Mapped(o, a.source)); }
      PlaceKept(o, t, front, SavedSource(o, a.source));
    }
  }

  ghost predicate AllFit(o: Options, t: Tree, actions: seq<Action>)
    requires RealTargets(actions)
  {
    forall i :: 0 <= i < |actions| ==> Fits(o, t, actions[i])
  }

  ghost predicate LinksOptional(actions: seq<Action>) {
    forall i :: 0 <= i < |actions| && actions[i].Compat? ==> actions[i].optional
  }

  /** What a plan needs so that its actions do not get in each other's way. */
  ghost predicate Independent(o: Options, actions: seq<Action>) {
    RealTargets(actions) && Separated(o, actions) && SourcesApart(actions) && LinksOptional(actions)
  }

  lemma IndependentFront(o: Options, actions: seq<Action>)
    requires Independent(o, actions) && actions != []
    ensures Independent(o, actions[..|actions| - 1])
  {
    SeparatedFront(o, actions, |actions| - 1);
  }

  lemma AllFitLast(o: Options, t: Tree, actions: seq<Action>)
    requires RealTargets(actions) && actions != []
    ensures var n := |actions| - 1;
            AllFit(o, t, actions) <==> AllFit(o, t, actions[..n]) && Fits(o, t, actions[n])
  {
    var n := |actions| - 1;
    assert forall i :: 0 <= i < n ==> actions[..n][i] == actions[i];
  }

  /** Once the others went through, the last action does exactly when it fits the disk before them. */
  lemma LastOkIff(o: Options, t: Tree, actions: seq<Action>)
    requires Independent(o, actions) && actions != [] && Steps(o, t, actions[..|actions| - 1]).ok
    ensures Steps(o, t, actions).ok <==> Fits(o, t, actions[|actions| - 1])
  {
    var n := |actions| - 1;
    ActionsApart(o, actions, n);
    StepOkIff(o, Steps(o, t, actions[..n]), actions[n]);
    LastFits(o, t, actions);
  }

  /** The actions succeed exactly when each of them fits the disk as it was before the first. */
  lemma {:induction false} StepsOkIff(o: Options, t: Tree, actions: seq<Action>)
    requires Independent(o, actions)
    ensures Steps(o, t, actions).ok <==> AllFit(o, t, actions)
    decreases |actions|
  {
    if actions != [] {
      var n := |actions| - 1;
      IndependentFront(o, actions);
      StepsOkIff(o, t, actions[..n]);
      AllFitLast(o, t, actions);
      if Steps(o, t, actions[..n]).ok { LastOkIff(o, t, actions); }
    }
  }

  // ----- Before the actions -----

  lemma StartKeeps(o: Options, t: Tree, x: Path)
    requires x != [] && !Within(x, o.backupDir)
    ensures At(Started(o, t), x) == At(t, x)
    ensures Reachable(Started(o, t), x) <==> Reachable(t, x)
  {
    forall k | 0 <= k < |x| ensures KeptAt(t, Started(o, t), x[..k]) {
    }
    WayKept(t, Started(o, t), x);
  }

  lemma SavedBelow(o: Options, name: string, p: Path)
    ensures !Within(o.backupDir + [name] + p, o.backupDir)
  {
  }

  lemma StartFits(o: Options, t: Tree, a: Action)
    requires ActionApart(o, a)
    ensures Fits(o, Started(o, t), a) <==> Fits(o, t, a)
  {
    StartKeeps(o, t, Mapped(o, a.target));
    SavedBelow(o, "target", a.target);
    StartKeeps(o, t, SavedTarget(o, a.target));
    if a.Copy? {
      SavedBelow(o, "source", a.source);
      StartKeeps(o, t, SavedSource(o, a.source));
      assert Mapped(o, a.source) != [] by { assert Mapped(o, a.source) == [] ==> Within(Mapped(o, a.source), o.backupDir); }
      StartKeeps(o, t, Mapped(o, a.source));
    }
  }

  // ----- After the actions -----

  /** The helper files below `y` can be written: each is absent or a regular file, and `y` is no file itself. */
  predicate HelpersFit(t: Tree, y: Path)
    requires y in t
  {
    && !t[y].File?
    && (y + ["management-url"] in t ==> t[y + ["management-url"]].File?)
    && (y + ["setup-key"] in t ==> t[y + ["setup-key"]].File?)
  }

  lemma OverwriteIff(t: Tree, y: Path, name: string)
    requires Valid(t) && y in t
    ensures CanOverwrite(t, y + [name]) <==> (y + [name] in t ==> t[y + [name]].File?) && !t[y].File?
  {
    var h := y + [name];
    assert h[..|y|] == y && y[..|y|] == y;
    assert forall k :: 0 <= k < |y| ==> h[..k] == y[..k] && At(t, y[..k]) == Some(Dir);
    if h in t { assert At(t, h[..|y|]) == Some(Dir); }
  }

  lemma WalkKeeps(t: Tree, y: Path, f: Content -> Content, p: Path)
    requires p != [] && !EndsInJson(p[|p| - 1])
    ensures At(Walk(t, y, f), p) == At(t, p)
  {
    assert At(Walk(t, y, f), p) == WalkedAt(t, y, f, p);
  }

  lemma HelpIff(t: Tree, y: Path, token: Token)
    requires Valid(t) && y in t && y != [] && !EndsInJson(y[|y| - 1])
    ensures CanHelp(Walk(t, y, Hardener(token)), y) <==> HelpersFit(t, y)
  {
    var u := Walk(t, y, Hardener(token));
    WalkShape(t, y, Hardener(token));
    ShapeValid(t, u);
    HelperNames();
    WalkKeeps(t, y, Hardener(token), y);
    WalkKeeps(t, y, Hardener(token), y + ["management-url"]);
    WalkKeeps(t, y, Hardener(token), y + ["setup-key"]);
    OverwriteIff(u, y, "management-url");
    OverwriteIff(u, y, "setup-key");
  }

  lemma HardenStepOkIff(o: Options, t: Tree, a: Action, token: Token)
    requires Valid(t) && (IsConfigCopy(a) ==> Mapped(o, a.target) in t && Readable(t, Mapped(o, a.target)))
    ensures CanHardenStep(o, t, a, token) <==>
            (IsConfigCopy(a) && a.target == ETC_TARGET ==> HelpersFit(t, Mapped(o, a.target)))
  {
    if IsConfigCopy(a) {
      NotJson(o, a);
      HelpIff(t, Mapped(o, a.target), token);
    }
  }

  ghost predicate ConfigsReadable(o: Options, t: Tree, actions: seq<Action>) {
    forall i :: 0 <= i < |actions| && IsConfigCopy(actions[i]) ==>
      Mapped(o, actions[i].target) in t && Readable(t, Mapped(o, actions[i].target))
  }

  ghost predicate AllHelpersFit(o: Options, t: Tree, actions: seq<Action>)
    requires ConfigsReadable(o, t, actions)
  {
    forall i :: 0 <= i < |actions| && IsConfigCopy(actions[i]) && actions[i].target == ETC_TARGET ==>
      HelpersFit(t, Mapped(o, actions[i].target))
  }

  lemma SameHelpers(t: Tree, u: Tree, y: Path)
    requires Same(t, u, y) && y in t && Readable(t, y)
    ensures y in u && Readable(u, y) && (HelpersFit(u, y) <==> HelpersFit(t, y))
  {
    assert Within(y, y) && At(t, y) == At(u, y);
    assert (y + ["management-url"])[..|y|] == y && (y + ["setup-key"])[..|y|] == y;
    assert At(t, y + ["management-url"]) == At(u, y + ["management-url"]);
    assert At(t, y + ["setup-key"]) == At(u, y + ["setup-key"]);
    forall p | p in u && Within(y, p) && Visited(p, u[p]) ensures u[p].File? { assert At(t, p) == At(u, p); }
  }

  lemma HelpersLast(o: Options, t: Tree, actions: seq<Action>)
    requires ConfigsReadable(o, t, actions) && actions != []
    ensures ConfigsReadable(o, t, actions[..|actions| - 1])
    ensures var n := |actions| - 1;
            AllHelpersFit(o, t, actions) <==>
            && AllHelpersFit(o, t, actions[..n])
            && (IsConfigCopy(actions[n]) && actions[n].target == ETC_TARGET ==> HelpersFit(t, Mapped(o, actions[n].target)))
  {
    var n := |actions| - 1;
    assert forall i :: 0 <= i < n ==> actions[..n][i] == actions[i];
  }

  lemma LastHardenOkIff(o: Options, t: Tree, actions: seq<Action>, token: Token)
    requires Valid(t) && Separated(o, actions) && ConfigsReadable(o, t, actions) && actions != []
    requires CanHarden(o, t, actions[..|actions| - 1], token)
    ensures var n := |actions| - 1;
            CanHardenStep(o, HardenPlan(o, t, actions[..n], token), actions[n], token) <==>
            (IsConfigCopy(actions[n]) && actions[n].target == ETC_TARGET ==> HelpersFit(t, Mapped(o, actions[n].target)))
  {
    var n := |actions| - 1;
    var u := HardenPlan(o, t, actions[..n], token);
    HardenShape(o, t, actions[..n], token);
    ShapeValid(t, u);
    HardenBefore(o, t, actions, token, n);
    if IsConfigCopy(actions[n]) { SameHelpers(t, u, Mapped(o, actions[n].target)); }
    HardenStepOkIff(o, u, actions[n], token);
  }

  lemma {:induction false} HardenOkIff(o: Options, t: Tree, actions: seq<Action>, token: Token)
    requires Valid(t) && Separated(o, actions) && ConfigsReadable(o, t, actions)
    ensures CanHarden(o, t, actions, token) <==> AllHelpersFit(o, t, actions)
    decreases |actions|
  {
    if actions != [] {
      var n := |actions| - 1;
      SeparatedFront(o, actions, n);
      HelpersLast(o, t, actions);
      HardenOkIff(o, t, actions[..n], token);
      if CanHarden(o, t, actions[..n], token) { LastHardenOkIff(o, t, actions, token); }
    }
  }

  lemma ConfigSaved(o: Options, t: Tree, actions: seq<Action>, i: nat)
    requires Independent(o, actions) && ConfigShape(actions) && Steps(o, Started(o, t), actions).ok
    requires i < |actions| && IsConfigCopy(actions[i])
    ensures Mapped(o, actions[i].source) in t
    ensures Saved(t, Steps(o, Started(o, t), actions).tree, Mapped(o, actions[i].source), Mapped(o, actions[i].target))
  {
    var u, x, y := Steps(o, Started(o, t), actions).tree, Mapped(o, actions[i].source), Mapped(o, actions[i].target);
    StepsOkIff(o, Started(o, t), actions);
    assert Fits(o, Started(o, t), actions[i]);
    StartFrame(o, t, x);
    StepsCopy(o, Started(o, t), actions, i);
    SavedFrom(t, Started(o, t), u, x, y);
    assert At(Started(o, t), x) == At(t, x) by { assert Within(x, x); }
  }

  lemma SavedHelpers(t: Tree, u: Tree, x: Path, y: Path)
    requires Saved(t, u, x, y) && x in t && y in u && At(u, y) == At(t, x)
    ensures HelpersFit(u, y) <==> HelpersFit(t, x)
  {
    SavedAt(t, u, x, y, ["management-url"]);
    SavedAt(t, u, x, y, ["setup-key"]);
  }

  /** What hardening will look at is what the source holds now. */
  lemma CopiedConfig(o: Options, t: Tree, actions: seq<Action>, i: nat)
    requires Independent(o, actions) && ConfigShape(actions) && Steps(o, Started(o, t), actions).ok
    requires i < |actions| && IsConfigCopy(actions[i]) && Readable(t, Mapped(o, actions[i].source))
    ensures var u, x, y := Steps(o, Started(o, t), actions).tree, Mapped(o, actions[i].source), Mapped(o, actions[i].target);
            && x in t && y in u && Readable(u, y) && (HelpersFit(u, y) <==> HelpersFit(t, x))
  {
    var u, x, y := Steps(o, Started(o, t), actions).tree, Mapped(o, actions[i].source), Mapped(o, actions[i].target);
    ConfigSaved(o, t, actions, i);
    NotJson(o, actions[i]);
    CopyReadable(t, u, x, y);
    SavedHelpers(t, u, x, y);
  }

  lemma CopyReadable(t: Tree, u: Tree, x: Path, y: Path)
    requires Saved(t, u, x, y) && x in t && Readable(t, x) && y != [] && !EndsInJson(y[|y| - 1])
    ensures At(u, y) == At(t, x) && Readable(u, y)
  {
    SavedAt(t, u, x, y, []);
    assert x + [] == x && y + [] == y;
    forall p | p in u && Within(y, p) && Visited(p, u[p]) ensures u[p].File? {
      var q := Rebase(p, y, x);
      Rebased(p, y, x);
      assert At(t, q) == At(u, p);
      WithinSame(y, p);
      assert q[|q| - 1] == p[|p| - 1];
    }
  }

  lemma ManifestClear(o: Options, a: Action)
    requires Apart(o.backupDir, Mapped(o, a.target))
    ensures Clear(o, a, ManifestPath(o))
  {
    assert o.backupDir + ["manifest.json"] + [] == ManifestPath(o);
    BelowBackup(o, "manifest.json", []);
    ApartExtends(o.backupDir, Mapped(o, a.target), ManifestPath(o), Mapped(o, a.target));
    SavedApart(o, "manifest.json", [], "target", a.target);
    if a.Copy? { SavedApart(o, "manifest.json", [], "source", a.source); }
  }

  lemma RejoinKeeps(o: Options, t: Tree, actions: seq<Action>, x: Path)
    requires x != [] && forall i :: 0 <= i < |actions| ==> Apart(x, Mapped(o, actions[i].target))
    ensures At(Rejoined(o, t, actions), x) == At(t, x)
    ensures Reachable(Rejoined(o, t, actions), x) <==> Reachable(t, x)
  {
    if o.rejoin.Join? {
      forall k | 0 <= k <= |x| ensures At(Rejoined(o, t, actions), x[..k]) == At(t, x[..k]) {
        assert Within(x[..k], x);
        forall i | 0 <= i < |actions| ensures !Within(Mapped(o, actions[i].target), x[..k]) {
          if Within(Mapped(o, actions[i].target), x[..k]) {
            WithinTrans(Mapped(o, actions[i].target), x[..k], x);
            assert false;
          }
        }
        HardenKeeps(o, t, actions, o.rejoin.token, x[..k]);
      }
      assert x[..|x|] == x;
      WayKept(t, Rejoined(o, t, actions), x);
    }
  }

  /** The manifest can be written at the end exactly when nothing but a file stands in its place before. */
  lemma ManifestOkIff(o: Options, t: Tree, actions: seq<Action>)
    requires RealTargets(actions) && Separated(o, actions) && AllDirs(t, o.backupDir)
    ensures CanOverwrite(Rejoined(o, Steps(o, Started(o, t), actions).tree, actions), ManifestPath(o)) <==>
            (o.backupDir + ["manifest.json"] in t ==> t[o.backupDir + ["manifest.json"]].File?)
  {
    var m := ManifestPath(o);
    var u := Steps(o, Started(o, t), actions).tree;
    forall i | 0 <= i < |actions| ensures Clear(o, actions[i], m) { ManifestClear(o, actions[i]); }
    assert Parent(m) == o.backupDir;
    ReachableIff(t, m);
    StartKeeps(o, t, m);
    PlaceKept(o, Started(o, t), actions, m);
    RejoinKeeps(o, u, actions, m);
    ReachableIff(Rejoined(o, u, actions), m);
  }

  // ----- The built plan -----

  lemma SourcesDiffer(j: nat, x: Path, k: nat, y: Path)
    requires j < k < 6 && x in Sources(j) && y in Sources(k)
    ensures Apart(x, y)
  {
    Words();
    assert "sysconfig" != "default" by { assert |"sysconfig"| != |"default"|; }
    assert "sysconfig" != "systemd" by { assert |"sysconfig"| != |"systemd"|; }
    assert "sysconfig" != "netbird" by { assert |"sysconfig"| != |"netbird"|; }
    DifferAt(x, y, if x[0] != y[0] then 0 else 1);
  }

  /** Each action of a plan has a place in the table of its own. */
  lemma SlotsDiffer(o: Options, compat: bool, t: Tree, i: nat, i': nat)
    requires var plan := Plan(o, compat, t);
             i < |plan| && i' < |plan| && i != i' && plan[i].Copy? && plan[i'].Copy?
    ensures Apart(Plan(o, compat, t)[i].source, Plan(o, compat, t)[i'].source)
  {
    var plan := Plan(o, compat, t);
    SlotsShape(o, compat, t, 7);
    assert Listed(plan[i], 7) && Listed(plan[i'], 7);
    var j: nat :| j < 7 && FromTable(plan[i], j);
    var j': nat :| j' < 7 && FromTable(plan[i'], j');
    assert Within(Target(j), Target(j));
    assert j != j' by {
      if i < i' { assert Apart(plan[i].target, plan[i'].target); } else { assert Apart(plan[i'].target, plan[i].target); }
    }
    if j < j' {
      SourcesDiffer(j, plan[i].source, j', plan[i'].source);
    } else {
      SourcesDiffer(j', plan[i'].source, j, plan[i].source);
    }
  }

  lemma PlanIndependent(o: Options, compat: bool, t: Tree)
    requires BackupOutside(o)
    ensures Independent(o, Plan(o, compat, t)) && ConfigShape(Plan(o, compat, t))
  {
    var plan := Plan(o, compat, t);
    PlanSeparated(o, compat, t);
    forall i, j | 0 <= i < |plan| && 0 <= j < |plan| && i != j && plan[i].Copy? && plan[j].Copy?
      ensures Apart(plan[i].source, plan[j].source)
    {
      SlotsDiffer(o, compat, t, i, j);
    }
    forall i | 0 <= i < |plan| && plan[i].Compat? ensures plan[i].optional { PlannedIff(o, compat, t, plan[i]); }
  }

  // ----- Configurations, read off the disk -----

  /** The place of `p` below `x` is taken by something that is named like a JSON file and is no directory. */
  predicate JsonBelow(t: Tree, x: Path, p: Path) {
    && p in t && t[p] != Dir && |x| <= |p| && p[..|x|] == x
    && p != [] && |p[|p| - 1]| >= 5 && p[|p| - 1][|p[|p| - 1]| - 5..] == ".json"
  }

  const URL_KEYS := ["ManagementURL", "management_url", "managementURL"]

  /** No URL: null, an empty object or text that is all white space. */
  predicate Blank(v: Json) {
    v == Null || v == Object(0) || (v.Text? && forall i :: 0 <= i < |v.s| ==> IsSpace(v.s[i]))
  }

  /** The first of the three spellings that is there holds a URL, and anonymous mode is not switched on. */
  predicate InTheClear(c: Content) {
    && c.Config?
    && (exists k :: 0 <= k < 3 && URL_KEYS[k] in c.fields && !Blank(c.fields[URL_KEYS[k]])
                    && forall j :: 0 <= j < k ==> URL_KEYS[j] !in c.fields)
    && ("anonymous_mode" in c.fields ==> c.fields["anonymous_mode"] != Bool(true))
  }

  lemma UnsafeIff(c: Content)
    ensures Unsafe(c) <==> InTheClear(c)
  {
    assert URL_KEYS[0] == "ManagementURL" && URL_KEYS[1] == "management_url" && URL_KEYS[2] == "managementURL";
    if c.Config? { forall v | v in c.fields.Values ensures Given(v) <==> !Blank(v) { } }
  }

  ghost predicate ConfigsReadableBelow(t: Tree, x: Path) {
    && (x in t || forall k :: 0 <= k < |x| && x[..k] in t ==> !t[x[..k]].File?)
    && forall p :: JsonBelow(t, x, p) ==> t[p].File?
  }

  ghost predicate NoneInTheClear(t: Tree, x: Path) {
    forall p :: JsonBelow(t, x, p) && t[p].File? ==> !InTheClear(t[p].content)
  }

  lemma ConfigsIff(t: Tree, x: Path)
    ensures Readable(t, x) <==> ConfigsReadableBelow(t, x)
    ensures AllSafe(t, x) <==> NoneInTheClear(t, x)
  {
    assert forall p :: p in t ==> (Within(x, p) && Visited(p, t[p]) <==> JsonBelow(t, x, p));
    forall p | p in t && t[p].File? ensures Unsafe(t[p].content) <==> InTheClear(t[p].content) { UnsafeIff(t[p].content); }
  }

  // ----- When the migration succeeds -----

  /** Everything that is looked at before, between and after the actions. */
  ghost predicate CanMigrate(o: Options, compat: bool, t: Tree) {
    var etc, lib := o.root + ["etc", "netbird"], o.root + ["var", "lib", "netbird"];
    && ConfigsReadableBelow(t, etc) && ConfigsReadableBelow(t, lib)
    && (o.rejoin.NoRejoin? ==> (NoneInTheClear(t, etc) && NoneInTheClear(t, lib)) || (o.allowUnsafe && o.ack))
    && !o.rejoin.BadToken?
    && (o.noBackup || (&& Reachable(t, o.backupDir + ["manifest.json"])
                       && (o.backupDir + ["manifest.json"] in t ==> t[o.backupDir + ["manifest.json"]].File?)))
    && (forall a :: a in Plan(o, compat, t) ==> a.target != [] && Fits(o, t, a))
    && (o.rejoin.Join? && etc in t ==> HelpersFit(t, etc))
  }

  lemma PlanFits(o: Options, compat: bool, t: Tree)
    requires Independent(o, Plan(o, compat, t))
    ensures AllFit(o, Started(o, t), Plan(o, compat, t)) <==>
            forall a :: a in Plan(o, compat, t) ==> a.target != [] && Fits(o, t, a)
  {
    var plan := Plan(o, compat, t);
    forall i | 0 <= i < |plan| ensures Fits(o, Started(o, t), plan[i]) <==> Fits(o, t, plan[i]) {
      ActionsApart(o, plan, i);
      StartFits(o, t, plan[i]);
    }
  }

  lemma PlanConfigs(o: Options, compat: bool, t: Tree)
    requires BackupOutside(o) && Independent(o, Plan(o, compat, t)) && ConfigShape(Plan(o, compat, t))
    requires Steps(o, Started(o, t), Plan(o, compat, t)).ok
    requires Readable(t, Mapped(o, ETC_SOURCE)) && Readable(t, Mapped(o, LIB_SOURCE))
    ensures ConfigsReadable(o, Steps(o, Started(o, t), Plan(o, compat, t)).tree, Plan(o, compat, t))
    ensures AllHelpersFit(o, Steps(o, Started(o, t), Plan(o, compat, t)).tree, Plan(o, compat, t)) <==>
            (Mapped(o, ETC_SOURCE) in t ==> HelpersFit(t, Mapped(o, ETC_SOURCE)))
  {
    var plan := Plan(o, compat, t);
    var u := Steps(o, Started(o, t), plan).tree;
    forall i | 0 <= i < |plan| && IsConfigCopy(plan[i])
      ensures Mapped(o, plan[i].source) in t && Mapped(o, plan[i].target) in u && Readable(u, Mapped(o, plan[i].target))
      ensures HelpersFit(u, Mapped(o, plan[i].target)) <==> HelpersFit(t, Mapped(o, plan[i].source))
    {
      CopiedConfig(o, t, plan, i);
    }
    if Mapped(o, ETC_SOURCE) in t {
      var a := Copy(ETC_SOURCE, ETC_TARGET, false);
      PlannedIff(o, compat, t, a);
      var i := PlanIndex(o, compat, t, a);
      assert IsConfigCopy(plan[i]);
    }
  }

  lemma PlanStarts(o: Options, t: Tree)
    ensures CanStart(o, t) <==>
            var etc, lib := o.root + ["etc", "netbird"], o.root + ["var", "lib", "netbird"];
            && ConfigsReadableBelow(t, etc) && ConfigsReadableBelow(t, lib)
            && (o.rejoin.NoRejoin? ==> (NoneInTheClear(t, etc) && NoneInTheClear(t, lib)) || (o.allowUnsafe && o.ack))
            && (o.noBackup || Reachable(t, o.backupDir + ["manifest.json"]))
  {
    ConfigsIff(t, Mapped(o, ETC_SOURCE));
    ConfigsIff(t, Mapped(o, LIB_SOURCE));
    assert Parent(ManifestPath(o)) == o.backupDir;
    ReachableIff(t, ManifestPath(o));
  }

  lemma PlanFinishes(o: Options, compat: bool, t: Tree)
    requires Valid(t) && BackupOutside(o) && Independent(o, Plan(o, compat, t)) && ConfigShape(Plan(o, compat, t))
    requires CanStart(o, t) && Steps(o, Started(o, t), Plan(o, compat, t)).ok
    ensures CanFinish(o, Steps(o, Started(o, t), Plan(o, compat, t)).tree, Plan(o, compat, t)) <==>
            && !o.rejoin.BadToken?
            && (o.rejoin.Join? && Mapped(o, ETC_SOURCE) in t ==> HelpersFit(t, Mapped(o, ETC_SOURCE)))
            && (o.noBackup || (o.backupDir + ["manifest.json"] in t ==> t[o.backupDir + ["manifest.json"]].File?))
  {
    var plan, s := Plan(o, compat, t), Started(o, t);
    if !o.noBackup {
      ValidMake(t, o.backupDir);
      ManifestOkIff(o, t, plan);
    }
    StepsValid(o, s, plan);
    PlanConfigs(o, compat, t);
    if o.rejoin.Join? { HardenOkIff(o, Steps(o, s, plan).tree, plan, o.rejoin.token); }
  }

  /** The built plan succeeds on exactly these disks. */
  lemma ApplyOkIff(o: Options, compat: bool, t: Tree)
    requires Valid(t) && BackupsAside(o)
    ensures RealTargets(Plan(o, compat, t))
    ensures ApplyOk(o, Plan(o, compat, t), t) <==> Plan(o, compat, t) == [] || CanMigrate(o, compat, t)
  {
    forall i | 0 <= i < |Plan(o, compat, t)| ensures Plan(o, compat, t)[i].target != [] {
      PlannedIff(o, compat, t, Plan(o, compat, t)[i]);
    }
    if o.noBackup {
      NoBackupsAnywhere(o, compat, t);
      OutsideOkIff(Elsewhere(o), compat, t);
      assert forall a :: a in Plan(o, compat, t) ==> (Fits(o, t, a) <==> Fits(Elsewhere(o), t, a));
    } else {
      OutsideOkIff(o, compat, t);
    }
  }

  lemma OutsideOkIff(o: Options, compat: bool, t: Tree)
    requires Valid(t) && BackupOutside(o)
    ensures RealTargets(Plan(o, compat, t))
    ensures ApplyOk(o, Plan(o, compat, t), t) <==> Plan(o, compat, t) == [] || CanMigrate(o, compat, t)
  {
    var plan := Plan(o, compat, t);
    PlanIndependent(o, compat, t);
    PlanStarts(o, t);
    PlanFits(o, compat, t);
    StepsOkIff(o, Started(o, t), plan);
    if CanStart(o, t) && Steps(o, Started(o, t), plan).ok { PlanFinishes(o, compat, t); }
  }
}

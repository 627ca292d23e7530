/** CrowdSec holds and stored mappings over arbitrary runs: nothing here depends on the
    callers' discipline. */
module ProxyHolds {
  import opened Basics
  import opened ProxyMappings

  /** Replays the log of hold events: the services still holding the bouncer, or nothing
      when some service was acquired twice or released without holding. */
  function HeldAfter(log: seq<HoldEvent>): Option<set<string>> {
    if log == [] then Some({})
    else
      var before := HeldAfter(log[..|log| - 1]);
      if before.None? then None
      else match log[|log| - 1]
        case Held(s) => if s in before.value then None else Some(before.value + {s})
        case Released(s) => if s in before.value then Some(before.value - {s}) else None
  }

  /** Between updates the proxy's own set, the registry and the history of holds agree. */
  ghost predicate HoldsAgree(hs: Holds) {
    hs.tracked == hs.refs && HeldAfter(hs.log) == Some(hs.refs)
  }

  lemma HeldNext(log: seq<HoldEvent>, s: string)
    requires HeldAfter(log).Some?
    ensures s !in HeldAfter(log).value ==> HeldAfter(log + [Held(s)]) == Some(HeldAfter(log).value + {s})
  {
    var longer := log + [Held(s)];
    assert longer[..|longer| - 1] == log;
  }

  lemma ReleasedNext(log: seq<HoldEvent>, s: string)
    requires HeldAfter(log).Some?
    ensures s in HeldAfter(log).value ==> HeldAfter(log + [Released(s)]) == Some(HeldAfter(log).value - {s})
  {
    var longer := log + [Released(s)];
    assert longer[..|longer| - 1] == log;
  }

  lemma AcquireHolds(cfg: Config, hs: Holds, m: Mapping, o: Outcome)
    requires HoldsAgree(hs)
    ensures HoldsAgree(Acquire(cfg, hs, m, o))
  {
    HeldNext(hs.log, m.id);
    if m.id in hs.refs { assert hs.refs + {m.id} == hs.refs; }
  }

  lemma ReleaseHolds(hs: Holds, s: string)
    requires HoldsAgree(hs)
    ensures HoldsAgree(Release(hs, s)) && Release(hs, s).refs == hs.refs - {s}
  {
    ReleasedNext(hs.log, s);
  }

  /** Did the update end with its mapping installed? */
  predicate Succeeds(cfg: Config, st: State, u: Update) {
    match u
    case Created(m, o) => o.peerOk && SetupRoutes(cfg, st, m, o).ok
    case Modified(m, o) => SetupRoutes(cfg, Cleanup(cfg, st, Previous(st, m)), m, o).ok
    case Removed(_) => false
  }

  lemma SetupKeeps(cfg: Config, st: State, m: Mapping, o: Outcome)
    ensures var st' := SetupRoutes(cfg, st, m, o).st;
            st'.stored == st.stored && (st'.holds == st.holds || st'.holds == Acquire(cfg, st.holds, m, o))
  {
  }

  /** A failed create or modify leaves the stored mapping as it was. */
  lemma StepStored(cfg: Config, st: State, u: Update)
    ensures Step(cfg, st, u).stored ==
            if Succeeds(cfg, st, u) then st.stored[u.m.id := u.m] else if u.Removed? then st.stored - {u.m.id} else st.stored
  {
    match u
    case Created(m, o) => SetupKeeps(cfg, st, m, o);
    case Modified(m, o) => SetupKeeps(cfg, Cleanup(cfg, st, Previous(st, m)), m, o);
    case Removed(_) =>
  }

  ghost predicate StoredById(stored: Stored) {
    forall s :: s in stored ==> stored[s].id == s
  }

  /** Every unreleased hold belongs to a service with a stored mapping. */
  ghost predicate Conserved(st: State) {
    HoldsAgree(st.holds) && st.holds.refs <= st.stored.Keys && StoredById(st.stored)
  }

  lemma StepHolds(cfg: Config, st: State, u: Update)
    requires Conserved(st)
    ensures Conserved(Step(cfg, st, u))
  {
    StepStored(cfg, st, u);
    match u
    case Created(m, o) =>
      SetupKeeps(cfg, st, m, o);
      AcquireHolds(cfg, st.holds, m, o);
      ReleaseHolds(SetupRoutes(cfg, st, m, o).st.holds, m.id);
    case Modified(m, o) =>
      var st1 := Cleanup(cfg, st, Previous(st, m));
      ReleaseHolds(st.holds, m.id);
      SetupKeeps(cfg, st1, m, o);
      AcquireHolds(cfg, st1.holds, m, o);
      ReleaseHolds(SetupRoutes(cfg, st1, m, o).st.holds, m.id);
    case Removed(m) =>
      ReleaseHolds(st.holds, m.id);
  }

  /** In every run the tracked services are exactly those with an unreleased hold, and no
      hold is taken or given back twice. */
  lemma {:induction false} RunHolds(cfg: Config, st: State, us: seq<Update>)
    requires Conserved(st)
    ensures Conserved(Run(cfg, st, us))
    decreases |us|
  {
    if us != [] {
      StepHolds(cfg, st, us[0]);
      RunHolds(cfg, Step(cfg, st, us[0]), us[1..]);
    }
  }

  function ReleaseAll(hs: Holds, order: seq<string>): Holds
    decreases |order|
  {
    if order == [] then hs else ReleaseAll(Release(hs, order[0]), order[1..])
  }

  /** Shutdown releases every tracked service, in any order, and leaves no hold behind. */
  lemma {:induction false} ReleaseAllEmpties(hs: Holds, order: seq<string>)
    requires HoldsAgree(hs) && hs.refs <= Elems(order)
    ensures HoldsAgree(ReleaseAll(hs, order)) && ReleaseAll(hs, order).refs == {}
    decreases |order|
  {
    if order != [] {
      ReleaseHolds(hs, order[0]);
      ReleaseAllEmpties(Release(hs, order[0]), order[1..]);
    }
  }

  /** Whatever updates came, shutdown leaves no service with a hold. */
  lemma NoHoldAfterShutdown(cfg: Config, us: seq<Update>, order: seq<string>)
    requires Lists(order, Run(cfg, INITIAL, us).holds.tracked)
    ensures var hs := ReleaseAll(Run(cfg, INITIAL, us).holds, order); hs.refs == {} && hs.tracked == {} && HoldsAgree(hs)
  {
    RunHolds(cfg, INITIAL, us);
    ReleaseAllEmpties(Run(cfg, INITIAL, us).holds, order);
  }

  lemma {:induction false} RunSplit(cfg: Config, st: State, us: seq<Update>, vs: seq<Update>)
    ensures Run(cfg, st, us + vs) == Run(cfg, Run(cfg, st, us), vs)
    decreases |us|
  {
    if us == [] {
      assert us + vs == vs;
    } else {
      assert (us + vs)[1..] == us[1..] + vs;
      RunSplit(cfg, Step(cfg, st, us[0]), us[1..], vs);
    }
  }

  lemma {:induction false} RunSilent(cfg: Config, st: State, us: seq<Update>, svc: string)
    requires forall u :: u in us ==> u.m.id != svc
    ensures svc in st.stored ==> svc in Run(cfg, st, us).stored && Run(cfg, st, us).stored[svc] == st.stored[svc]
    decreases |us|
  {
    if us != [] {
      StepStored(cfg, st, us[0]);
      RunSilent(cfg, Step(cfg, st, us[0]), us[1..], svc);
    }
  }

  /** A service whose last update installed a mapping is stored with that mapping. */
  lemma LastInstalled(cfg: Config, st: State, before: seq<Update>, u: Update, after: seq<Update>)
    requires Succeeds(cfg, Run(cfg, st, before), u)
    requires forall v :: v in after ==> v.m.id != u.m.id
    ensures var stored := Run(cfg, st, before + [u] + after).stored; u.m.id in stored && stored[u.m.id] == u.m
  {
    RunSplit(cfg, st, before + [u], after);
    RunSplit(cfg, st, before, [u]);
    var mid := Run(cfg, st, before);
    assert [u][1..] == [];
    assert Run(cfg, mid, [u]) == Run(cfg, Step(cfg, mid, u), []);
    StepStored(cfg, mid, u);
    RunSilent(cfg, Step(cfg, mid, u), after, u.m.id);
  }
}

/**
 * Ownership of the engine's packet-capture slot.
 *
 * Stream captures, bundle captures, their timeouts and debug bundles run concurrently.  Every critical section, and
 * every call into an engine that is made outside the server's lock, is one step of a state machine.
 */
module CaptureSlot {
  import opened Basics

  type Session = int
  type EngineId = int

  /** How far a stream capture that holds the slot has come. */
  datatype Phase = Claimed(engine: EngineId) | Refused(engine: EngineId) | Running(engine: EngineId)

  datatype Bundle = Bundle(session: Session, engine: EngineId)

  /** The engines that have an interface, and the session each of them feeds. */
  datatype Engines = Engines(up: set<EngineId>, installed: map<EngineId, Session>)

  datatype State = State(
    active: Option<Session>,          // recorded owner
    bundle: Option<Bundle>,           // current bundle capture
    stopped: set<Session>,
    files: set<Session>,              // temporary files, by the session that writes them
    timers: set<Bundle>,              // bundle captures whose timeout callback has not come yet
    streams: map<Session, Phase>,     // stream captures under way
    engines: Engines,
    current: Option<EngineId>,        // the connected client's engine
    used: set<Session>)

  const START := State(None, None, {}, {}, {}, map[], Engines({}, map[]), None, {})

  datatype Step =
    | Claim(session: Session)
    | Install(session: Session, deviceOk: bool)
    | Release(session: Session)
    | Clear(session: Session)
    | StartBundle(session: Session, fileOk: bool, sessionOk: bool, deviceOk: bool)
    | StopBundle
    | Timeout(bundle: Bundle)
    | DebugBundle
    | EngineUp(engine: EngineId)
    | EngineDown(engine: EngineId)
    | Connect(client: Option<EngineId>)

  // ----- Engines -----

  predicate CanInstall(g: Engines, e: EngineId, deviceOk: bool) {
    e in g.up && deviceOk
  }

  /** `SetCapture` with a session. */
  function SetCapture(g: Engines, e: EngineId, s: Session, deviceOk: bool): Engines {
    if e !in g.up then g
    else if deviceOk then g.(installed := g.installed[e := s])
    else g.(installed := g.installed - {e})
  }

  /** `SetCapture` with nil. */
  function Uncapture(g: Engines, e: EngineId): Engines {
    if e in g.up then g.(installed := g.installed - {e}) else g
  }

  // ----- Critical sections -----

  function Claiming(st: State, s: Session): State {
    var st := st.(used := st.used + {s});
    if st.active.Some? || st.current.None? then st.(stopped := st.stopped + {s})
    else st.(active := Some(s), streams := st.streams[s := Claimed(st.current.value)])
  }

  function Installing(st: State, s: Session, deviceOk: bool): State
    requires s in st.streams
  {
    var e := st.streams[s].engine;
    st.(engines := SetCapture(st.engines, e, s, deviceOk),
        streams := st.streams[s := if CanInstall(st.engines, e, deviceOk) then Running(e) else Refused(e)])
  }

  function Releasing(st: State, s: Session): State {
    st.(active := if st.active == Some(s) then None else st.active, stopped := st.stopped + {s},
        streams := st.streams - {s})
  }

  function Clearing(st: State, s: Session): State
    requires s in st.streams
  {
    var ended := st.(stopped := st.stopped + {s}, streams := st.streams - {s});
    if st.active != Some(s) then ended
    else ended.(active := None, engines := Uncapture(st.engines, st.streams[s].engine))
  }

  function StoppingBundle(st: State): State {
    if st.bundle.None? then st else
      var b := st.bundle.value;
      var st := st.(stopped := st.stopped + {b.session});
      if st.active == Some(b.session) then st.(active := None, engines := Uncapture(st.engines, b.engine)) else st
  }

  function CleaningBundle(st: State): State {
    if st.bundle.None? then st
    else st.(files := st.files - {st.bundle.value.session}, bundle := None)
  }

  function StartingBundle(st: State, s: Session, fileOk: bool, sessionOk: bool, deviceOk: bool): State {
    Beginning(CleaningBundle(StoppingBundle(st)), s, fileOk, sessionOk, deviceOk)
  }

  /** The part of a start that follows the end of the previous bundle capture. */
  function Beginning(st: State, s: Session, fileOk: bool, sessionOk: bool, deviceOk: bool): State {
    var st := st.(used := st.used + {s});
    if st.active.Some? || st.current.None? || !fileOk || !sessionOk then st
    else
      var e := st.current.value;
      var st1 := st.(engines := SetCapture(st.engines, e, s, deviceOk));
      if !CanInstall(st.engines, e, deviceOk) then st1.(stopped := st.stopped + {s})
      else st1.(active := Some(s), bundle := Some(Bundle(s, e)), files := st.files + {s},
                timers := st.timers + {Bundle(s, e)})
  }

  function TimingOut(st: State, b: Bundle): State {
    var st := st.(timers := st.timers - {b});
    if st.bundle == Some(b) then StoppingBundle(st) else st.(stopped := st.stopped + {b.session})
  }

  /** The debug bundle stops the session and cleans up, but does not clear the slot. */
  function Debugging(st: State): State {
    if st.bundle.None? then st else CleaningBundle(st.(stopped := st.stopped + {st.bundle.value.session}))
  }

  predicate Enabled(st: State, step: Step) {
    match step
    case Claim(s) => s !in st.used
    case Install(s, _) => s in st.streams && st.streams[s].Claimed?
    case Release(s) => s in st.streams && st.streams[s].Refused?
    case Clear(s) => s in st.streams && st.streams[s].Running?
    case StartBundle(s, _, _, _) => s !in st.used
    case Timeout(b) => b in st.timers
    case _ => true
  }

  function Next(st: State, step: Step): State
    requires Enabled(st, step)
  {
    match step
    case Claim(s) => Claiming(st, s)
    case Install(s, deviceOk) => Installing(st, s, deviceOk)
    case Release(s) => Releasing(st, s)
    case Clear(s) => Clearing(st, s)
    case StartBundle(s, fileOk, sessionOk, deviceOk) => StartingBundle(st, s, fileOk, sessionOk, deviceOk)
    case StopBundle => StoppingBundle(st)
    case Timeout(b) => TimingOut(st, b)
    case DebugBundle => Debugging(st)
    case EngineUp(e) => st.(engines := st.engines.(up := st.engines.up + {e}))
    case EngineDown(e) => st.(engines := Engines(st.engines.up - {e}, st.engines.installed - {e}))
    case Connect(e) => st.(current := e)
  }

  ghost predicate Possible(st: State, steps: seq<Step>)
    decreases |steps|
  {
    steps == [] || (Enabled(st, steps[0]) && Possible(Next(st, steps[0]), steps[1..]))
  }

  ghost function Run(st: State, steps: seq<Step>): State
    requires Possible(st, steps)
    decreases |steps|
  {
    if steps == [] then st else Run(Next(st, steps[0]), steps[1..])
  }

  // ----- Ownership -----

  /** `s` runs as a stream capture on `e`, or is the bundle capture on `e`. */
  predicate OwnerOn(st: State, s: Session, e: EngineId) {
    (s in st.streams && st.streams[s] == Running(e)) || st.bundle == Some(Bundle(s, e))
  }

  /** The slot is recorded as taken, but whoever took it is gone. */
  predicate Wedged(st: State) {
    && st.active.Some? && st.active.value !in st.streams
    && (st.bundle.Some? ==> st.bundle.value.session != st.active.value)
  }

  ghost predicate Inv(st: State) {
    // An installed session is the recorded owner, and its engine is up.
    && (forall e :: e in st.engines.installed ==> e in st.engines.up && st.active == Some(st.engines.installed[e]))
    // It is installed in one engine at most, and only where its owner runs, unless the owner is gone.
    && (forall e, e' :: e in st.engines.installed && e' in st.engines.installed ==> e == e')
    && (forall e :: e in st.engines.installed && !Wedged(st) ==> OwnerOn(st, st.engines.installed[e], e))
    // Every stream capture under way holds the slot.
    && (forall s :: s in st.streams ==> st.active == Some(s) && s in st.used && s !in st.stopped)
    // A bundle capture is not a stream capture; one that was not stopped holds the slot.
    && (st.bundle.Some? ==> st.bundle.value.session !in st.streams && st.bundle.value.session in st.used)
    && (st.bundle.Some? && st.bundle.value.session !in st.stopped ==> st.active == Some(st.bundle.value.session))
    // Temporary files belong to the current bundle capture.
    && st.files == (if st.bundle.Some? then {st.bundle.value.session} else {})
    && (forall b :: b in st.timers ==> b.session in st.used && b.session !in st.streams)
    && (forall s :: s in st.stopped ==> s in st.used)
    && (st.active.Some? ==> st.active.value in st.used)
  }

  lemma StreamSteps(st: State, step: Step)
    requires Inv(st) && Enabled(st, step) && (step.Install? || step.Release? || step.Clear? || step.Claim?)
    ensures Inv(Next(st, step))
  {
  }

  lemma StoppingInv(st: State)
    requires Inv(st)
    ensures Inv(StoppingBundle(st)) && Inv(CleaningBundle(StoppingBundle(st)))
  {
  }

  lemma StartingInv(st: State, s: Session, fileOk: bool, sessionOk: bool, deviceOk: bool)
    requires Inv(st) && s !in st.used
    ensures Inv(StartingBundle(st, s, fileOk, sessionOk, deviceOk))
  {
    StoppingInv(st);
    BeginningInv(CleaningBundle(StoppingBundle(st)), s, fileOk, sessionOk, deviceOk);
  }

  lemma BeginningInv(st: State, s: Session, fileOk: bool, sessionOk: bool, deviceOk: bool)
    requires Inv(st) && s !in st.used && st.bundle.None?
    ensures Inv(Beginning(st, s, fileOk, sessionOk, deviceOk))
  {
  }

  lemma TimingInv(st: State, b: Bundle)
    requires Inv(st) && b in st.timers
    ensures Inv(TimingOut(st, b))
  {
    StoppingInv(st.(timers := st.timers - {b}));
  }

  lemma OtherSteps(st: State, step: Step)
    requires Inv(st) && Enabled(st, step)
    requires step.DebugBundle? || step.EngineUp? || step.EngineDown? || step.Connect?
    ensures Inv(Next(st, step))
  {
  }

  lemma StepInv(st: State, step: Step)
    requires Inv(st) && Enabled(st, step)
    ensures Inv(Next(st, step))
  {
    match step {
      case StartBundle(s, fileOk, sessionOk, deviceOk) => StartingInv(st, s, fileOk, sessionOk, deviceOk);
      case StopBundle => StoppingInv(st);
      case Timeout(b) => TimingInv(st, b);
      case DebugBundle => OtherSteps(st, step);
      case EngineUp(_) => OtherSteps(st, step);
      case EngineDown(_) => OtherSteps(st, step);
      case Connect(_) => OtherSteps(st, step);
      case _ => StreamSteps(st, step);
    }
  }

  lemma {:induction false} RunInv(st: State, steps: seq<Step>)
    requires Inv(st) && Possible(st, steps)
    ensures Inv(Run(st, steps))
    decreases |steps|
  {
    if steps != [] {
      StepInv(st, steps[0]);
      RunInv(Next(st, steps[0]), steps[1..]);
    }
  }

  /**
   * In every interleaving: an installed session is the recorded owner, it is installed in one engine at most, and
   * no two captures are under way at once.
   */
  lemma SingleOwner(steps: seq<Step>, e1: EngineId, e2: EngineId, s1: Session, s2: Session)
    requires Possible(START, steps)
    ensures var st := Run(START, steps);
            && (e1 in st.engines.installed ==> st.active == Some(st.engines.installed[e1]))
            && (e1 in st.engines.installed && e2 in st.engines.installed ==> e1 == e2)
            && (s1 in st.streams && s2 in st.streams ==> s1 == s2)
            && (s1 in st.streams && st.bundle.Some? ==> st.bundle.value.session in st.stopped)
            && st.files == (if st.bundle.Some? then {st.bundle.value.session} else {})
  {
    RunInv(START, steps);
  }

  // ----- Nobody else's capture is touched -----

  /** The step is taken on behalf of capture `x`. */
  predicate Concerns(st: State, step: Step, x: Session) {
    match step
    case Install(s, _) => s == x
    case Release(s) => s == x
    case Clear(s) => s == x
    case Timeout(b) => b.session == x
    case StopBundle => st.bundle.Some? && st.bundle.value.session == x
    case DebugBundle => st.bundle.Some? && st.bundle.value.session == x
    case StartBundle(_, _, _, _) => st.bundle.Some? && st.bundle.value.session == x
    case _ => false
  }

  /** Late timeouts, repeated stops and releases of others leave the owner, its engine and its session alone. */
  lemma OthersLeaveOwnerAlone(st: State, step: Step, x: Session)
    requires Inv(st) && Enabled(st, step) && st.active == Some(x) && !Concerns(st, step, x)
    ensures Next(st, step).active == Some(x)
    ensures x in Next(st, step).stopped <==> x in st.stopped
    ensures Next(st, step).engines.installed ==
            if step.EngineDown? then st.engines.installed - {step.engine} else st.engines.installed
  {
    if step.Timeout? { TimeoutOfOther(st, step.bundle, x); }
  }

  lemma TimeoutOfOther(st: State, b: Bundle, x: Session)
    requires st.active == Some(x) && b.session != x
    ensures TimingOut(st, b).active == Some(x) && TimingOut(st, b).engines == st.engines
    ensures x in TimingOut(st, b).stopped <==> x in st.stopped
  {
  }

  // ----- The slot that is never freed -----

  lemma WedgedStep(st: State, step: Step)
    requires Inv(st) && Wedged(st) && Enabled(st, step)
    ensures Wedged(Next(st, step)) && Next(st, step).active == st.active
  {
  }

  /** Once wedged, the slot is refused to everyone in every continuation. */
  lemma {:induction false} WedgedForever(st: State, steps: seq<Step>)
    requires Inv(st) && Wedged(st) && Possible(st, steps)
    ensures Wedged(Run(st, steps)) && Run(st, steps).active == st.active
    decreases |steps|
  {
    if steps != [] {
      StepInv(st, steps[0]);
      WedgedStep(st, steps[0]);
      WedgedForever(Next(st, steps[0]), steps[1..]);
    }
  }

  /** Only a debug bundle taken while its capture still holds the slot wedges it. */
  lemma WedgesIff(st: State, step: Step)
    requires Inv(st) && Enabled(st, step)
    ensures Wedged(Next(st, step)) <==>
            Wedged(st) || (step.DebugBundle? && st.bundle.Some? && st.active == Some(st.bundle.value.session))
  {
    if Wedged(st) {
      WedgedStep(st, step);
    } else if step.StartBundle? {
      StoppingInv(st);
    }
  }

  /** The steps that bring the owner of a slot that is not wedged to give it up. */
  function WayOut(st: State): seq<Step> {
    if st.active.None? then []
    else if st.active.value in st.streams then
      var s := st.active.value;
      match st.streams[s]
      case Claimed(_) => [Install(s, false), Release(s)]
      case Refused(_) => [Release(s)]
      case Running(_) => [Clear(s)]
    else [StopBundle]
  }

  lemma WayOutWorks(st: State)
    requires Inv(st) && !Wedged(st)
    ensures Possible(st, WayOut(st)) && Run(st, WayOut(st)).active == None
  {
    var way := WayOut(st);
    if |way| == 1 {
      assert way[1..] == [];
    } else if |way| == 2 {
      var st1 := Next(st, way[0]);
      assert way[1..] == [way[1]] && way[1..][1..] == [];
      assert Possible(Next(st1, way[1]), []);
      assert Possible(st1, way[1..]);
      assert Run(st1, way[1..]) == Run(Next(st1, way[1]), []);
      assert Run(st, way) == Run(st1, way[1..]);
    }
  }

  /** The slot can become free again exactly when it is not wedged. */
  lemma RecoverableIff(st: State)
    requires Inv(st)
    ensures (exists steps :: Possible(st, steps) && Run(st, steps).active.None?) <==> !Wedged(st)
  {
    if Wedged(st) {
      forall steps | Possible(st, steps) ensures Run(st, steps).active.Some? { WedgedForever(st, steps); }
    } else {
      WayOutWorks(st);
    }
  }

  /** A debug bundle after a start without a stop in between: the slot stays taken for good. */
  lemma DebugWithoutStopWedges(st: State, s: Session, steps: seq<Step>)
    requires Inv(st) && s !in st.used && st.active.None? && st.current.Some? && st.current.value in st.engines.up
    requires Possible(st, [StartBundle(s, true, true, true), DebugBundle] + steps)
    ensures Run(st, [StartBundle(s, true, true, true), DebugBundle] + steps).active == Some(s)
  {
    var all := [StartBundle(s, true, true, true), DebugBundle] + steps;
    var st1 := Next(st, all[0]);
    StepInv(st, all[0]);
    assert all[1..] == [DebugBundle] + steps && all[1..][1..] == steps;
    var st2 := Next(st1, DebugBundle);
    StepInv(st1, DebugBundle);
    WedgesIff(st1, DebugBundle);
    assert st1.bundle.Some? && st1.active == Some(s);
    WedgedForever(st2, steps);
  }

  // ----- What each step achieves -----

  /** Somebody feeds from the slot only while its owner is there. */
  lemma NothingInstalled(st: State)
    requires Inv(st) && !Wedged(st)
    requires forall s, e :: st.active == Some(s) ==> !OwnerOn(st, s, e)
    ensures st.engines.installed == map[]
  {
    assert forall e :: e in st.engines.installed ==> OwnerOn(st, st.engines.installed[e], e);
    assert forall e :: e !in st.engines.installed;
  }

  /** An engine that is up feeds the session it was given, none if its device refuses or the session is withdrawn; one
      that is down, and every other engine, goes on as it was. */
  lemma EngineFeeds(g: Engines, e: EngineId, s: Session, deviceOk: bool, x: EngineId)
    ensures x in SetCapture(g, e, s, deviceOk).installed <==>
            if x == e && e in g.up then deviceOk else x in g.installed
    ensures x in SetCapture(g, e, s, deviceOk).installed ==>
            SetCapture(g, e, s, deviceOk).installed[x] == if x == e && e in g.up then s else g.installed[x]
    ensures x in Uncapture(g, e).installed <==> x in g.installed && !(x == e && e in g.up)
    ensures x in Uncapture(g, e).installed ==> Uncapture(g, e).installed[x] == g.installed[x]
    ensures SetCapture(g, e, s, deviceOk).up == g.up && Uncapture(g, e).up == g.up
  {
  }

  /** In any state whatever, a session that is not the recorded owner gives up nothing but itself. */
  lemma NotOwnerGivesUpNothing(st: State, s: Session)
    requires s in st.streams && st.active != Some(s)
    ensures Releasing(st, s) == st.(stopped := st.stopped + {s}, streams := st.streams - {s})
    ensures Clearing(st, s) == Releasing(st, s)
  {
  }

  /** A claim takes a free slot of a connected client, and is refused otherwise. */
  lemma ClaimTakes(st: State, s: Session)
    requires Inv(st) && s !in st.used
    ensures var st' := Next(st, Claim(s));
            if st.active.None? && st.current.Some? then
              && st'.active == Some(s) && st'.streams == map[s := Claimed(st.current.value)] && s !in st'.stopped
              && st' == st.(used := st.used + {s}, active := st'.active, streams := st'.streams)
            else st' == st.(used := st.used + {s}, stopped := st.stopped + {s})
  {
    if st.active.None? { assert st.streams == map[] by { assert forall x :: x !in st.streams; } }
  }

  /** The claimed session is fed by its engine, and by no other, if that engine is up and accepts it. */
  lemma InstallFeeds(st: State, s: Session, deviceOk: bool)
    requires Inv(st) && s in st.streams && st.streams[s].Claimed?
    ensures var st', e := Next(st, Install(s, deviceOk)), st.streams[s].engine;
            var fed := e in st.engines.up && deviceOk;
            && st.engines.installed == map[]
            && st'.engines == Engines(st.engines.up, if fed then map[e := s] else map[])
            && st'.streams == map[s := if fed then Running(e) else Refused(e)]
            && st' == st.(engines := st'.engines, streams := st'.streams)
  {
    NothingInstalled(st);
    assert st.streams == map[s := st.streams[s]] by { assert forall x :: x in st.streams ==> x == s; }
  }

  /** A stream capture that was refused gives the slot up. */
  lemma ReleaseFrees(st: State, s: Session)
    requires Inv(st) && s in st.streams && st.streams[s].Refused?
    ensures var st' := Next(st, Release(s));
            st.engines.installed == map[] && st' == st.(active := None, stopped := st.stopped + {s}, streams := map[])
  {
    NothingInstalled(st);
    assert st.streams - {s} == map[] by { assert forall x :: x in st.streams ==> x == s; }
  }

  /** A stream capture that ends gives the slot up, and no engine feeds it any more. */
  lemma ClearFrees(st: State, s: Session)
    requires Inv(st) && s in st.streams && st.streams[s].Running?
    ensures var st' := Next(st, Clear(s));
            st' == st.(active := None, stopped := st.stopped + {s}, streams := map[], engines := Engines(st.engines.up, map[]))
  {
    assert st.streams - {s} == map[] by { assert forall x :: x in st.streams ==> x == s; }
    InstalledThere(st, s, st.streams[s].engine);
  }

  lemma InstalledThere(st: State, s: Session, e: EngineId)
    requires Inv(st) && !Wedged(st) && st.active == Some(s) && OwnerOn(st, s, e)
    ensures Uncapture(st.engines, e).installed == map[]
    ensures Uncapture(st.engines, e).up == st.engines.up
  {
    forall x | x in st.engines.installed ensures x == e {
      assert st.active == Some(st.engines.installed[x]) && OwnerOn(st, s, x);
    }
  }

  /** A stream capture from claim to end leaves no trace but a used session. */
  lemma StreamLeavesNothing(st: State, s: Session, deviceOk: bool)
    requires Inv(st) && s !in st.used && st.active.None? && st.current.Some?
    ensures var st1 := Next(st, Claim(s));
            s in st1.streams && st1.streams[s].Claimed? &&
            var st2 := Next(st1, Install(s, deviceOk));
            var end := if st2.streams[s].Running? then Clear(s) else Release(s);
            && Enabled(st2, end)
            && Next(st2, end) == st.(used := st.used + {s}, stopped := st.stopped + {s})
  {
    var st1 := Next(st, Claim(s));
    ClaimTakes(st, s);
    StepInv(st, Claim(s));
    InstallFeeds(st1, s, deviceOk);
    StepInv(st1, Install(s, deviceOk));
    var st2 := Next(st1, Install(s, deviceOk));
    if st2.streams[s].Running? { ClearFrees(st2, s); } else { ReleaseFrees(st2, s); }
    assert st.streams == map[] by { assert forall x :: x !in st.streams; }
  }

  /** Stopping the bundle capture stops its session and, while it owns the slot, gives the slot up. */
  lemma StopBundleFrees(st: State)
    requires Inv(st)
    ensures var st' := Next(st, StopBundle);
            if st.bundle.None? then st' == st
            else if st.active == Some(st.bundle.value.session) then
              st' == st.(stopped := st.stopped + {st.bundle.value.session}, active := None,
                         engines := Engines(st.engines.up, map[]))
            else st' == st.(stopped := st.stopped + {st.bundle.value.session})
  {
    if st.bundle.Some? && st.active == Some(st.bundle.value.session) {
      InstalledThere(st, st.bundle.value.session, st.bundle.value.engine);
    }
  }

  /** Starting a bundle capture ends the previous one, and then takes the slot if it is free, the client connected, file
      and session can be made and the engine accepts; only then are there a file, a timeout and an engine that feeds. */
  lemma StartBundleTakes(st: State, s: Session, fileOk: bool, sessionOk: bool, deviceOk: bool)
    requires Inv(st) && s !in st.used
    ensures var st' := Next(st, StartBundle(s, fileOk, sessionOk, deviceOk));
            var previous := st.bundle.Some? && st.active == Some(st.bundle.value.session);
            var ended := st.stopped + (if st.bundle.Some? then {st.bundle.value.session} else {});
            && st'.used == st.used + {s} && st'.streams == st.streams && st'.current == st.current
            && st'.engines.up == st.engines.up
            && if (st.active.Some? && !previous) || st.current.None? || !fileOk || !sessionOk then
                 && st'.active == (if previous then None else st.active) && st'.bundle.None? && st'.files == {}
                 && st'.timers == st.timers && st'.stopped == ended
                 && st'.engines.installed == (if previous then map[] else st.engines.installed)
               else if st.current.value in st.engines.up && deviceOk then
                 && st'.active == Some(s) && st'.bundle == Some(Bundle(s, st.current.value)) && st'.files == {s}
                 && st'.timers == st.timers + {Bundle(s, st.current.value)} && st'.stopped == ended
                 && st'.engines.installed == map[st.current.value := s]
               else
                 && st'.active == None && st'.bundle.None? && st'.files == {}
                 && st'.timers == st.timers && st'.stopped == ended + {s}
                 && st'.engines.installed == map[]
  {
    StopBundleFrees(st);
    StoppingInv(st);
    var st0 := CleaningBundle(StoppingBundle(st));
    assert st0.files == {};
    if st0.active.None? {
      assert st0.engines.installed == map[] by {
        var st1 := StoppingBundle(st);
        assert forall e :: e in st1.engines.installed ==> st1.active.Some?;
      }
    }
  }

  /** A timeout stops its own session; it ends the bundle capture only while that is still the current one. */
  lemma TimeoutStops(st: State, b: Bundle)
    requires Inv(st) && b in st.timers
    ensures var st' := Next(st, Timeout(b));
            if st.bundle == Some(b) && st.active == Some(b.session) then
              st' == st.(timers := st.timers - {b}, stopped := st.stopped + {b.session}, active := None,
                         engines := Engines(st.engines.up, map[]))
            else st' == st.(timers := st.timers - {b}, stopped := st.stopped + {b.session})
  {
    if st.bundle == Some(b) && st.active == Some(b.session) { InstalledThere(st, b.session, b.engine); }
  }

  /** A debug bundle stops the session and takes the file, and nothing else: slot and engine stay as they are. */
  lemma DebugBundleTakes(st: State)
    requires Inv(st)
    ensures Next(st, DebugBundle) ==
            if st.bundle.None? then st
            else st.(bundle := None, files := {}, stopped := st.stopped + {st.bundle.value.session})
  {
  }

  /** What happens to engines and clients. */
  lemma EnginesChange(st: State, e: EngineId, client: Option<EngineId>)
    ensures Next(st, EngineUp(e)).engines == Engines(st.engines.up + {e}, st.engines.installed)
    ensures Next(st, EngineDown(e)).engines == Engines(st.engines.up - {e}, st.engines.installed - {e})
    ensures Next(st, Connect(client)).current == client && Next(st, Connect(client)).engines == st.engines
  {
  }

  // ----- The server object -----

  class CaptureServer {
    var active: Option<Session>
    var bundle: Option<Bundle>
    var stopped: set<Session>
    var files: set<Session>
    var timers: set<Bundle>
    var streams: map<Session, Phase>
    var engines: Engines
    var current: Option<EngineId>
    ghost var used: set<Session>

    constructor ()
      ensures View() == START
    {
      active, bundle, stopped, files, timers, streams := None, None, {}, {}, {}, map[];
      engines, current, used := Engines({}, map[]), None, {};
    }

    ghost function View(): State
      reads this
    {
      State(active, bundle, stopped, files, timers, streams, engines, current, used)
    }

    method SetEngineCapture(e: EngineId, session: Option<Session>, deviceOk: bool) returns (ok: bool)
      modifies this`engines
      ensures session.Some? ==> engines == SetCapture(old(engines), e, session.value, deviceOk)
                                && (ok <==> CanInstall(old(engines), e, deviceOk))
      ensures session.None? ==> engines == Uncapture(old(engines), e)
    {
      if e !in engines.up { return false; }
      engines := engines.(installed := engines.installed - {e});
      if session.None? { return true; }
      if !deviceOk { return false; }
      engines := engines.(installed := engines.installed[e := session.value]);
      ok := true;
    }

    method ClaimCapture(s: Session) returns (ok: bool)
      requires s !in used
      modifies this
      ensures View() == Claiming(old(View()), s) && (ok <==> old(active).None? && current.Some?)
    {
      used := used + {s};
      if active.Some? || current.None? {
        stopped := stopped + {s};
        return false;
      }
      active := Some(s);
      streams := streams[s := Claimed(current.value)];
      ok := true;
    }

    /** Outside the lock: installs the claimed session. */
    method InstallStream(s: Session, deviceOk: bool) returns (ok: bool)
      requires s in streams
      modifies this
      ensures View() == Installing(old(View()), s, deviceOk) && (ok <==> streams[s].Running?)
    {
      var e := streams[s].engine;
      ok := SetEngineCapture(e, Some(s), deviceOk);
      streams := streams[s := if ok then Running(e) else Refused(e)];
    }

    method ReleaseCapture(s: Session)
      modifies this
      ensures View() == Releasing(old(View()), s)
    {
      if active == Some(s) { active := None; }
      stopped, streams := stopped + {s}, streams - {s};
    }

    method ClearCaptureIfOwner(s: Session)
      requires s in streams
      modifies this
      ensures View() == Clearing(old(View()), s)
    {
      if active == Some(s) {
        var _ := SetEngineCapture(streams[s].engine, None, true);
        active := None;
      }
      stopped, streams := stopped + {s}, streams - {s};
    }

    method StopBundleLocked()
      modifies this
      ensures View() == StoppingBundle(old(View()))
    {
      if bundle.None? { return; }
      var b := bundle.value;
      if active == Some(b.session) {
        var _ := SetEngineCapture(b.engine, None, true);
        active := None;
      }
      stopped := stopped + {b.session};
    }

    method CleanupBundle()
      modifies this
      ensures View() == CleaningBundle(old(View()))
    {
      if bundle.None? { return; }
      files := files - {bundle.value.session};
      bundle := None;
    }

    method StartBundleCapture(s: Session, fileOk: bool, sessionOk: bool, deviceOk: bool)
      requires s !in used
      modifies this
      ensures View() == StartingBundle(old(View()), s, fileOk, sessionOk, deviceOk)
    {
      StopBundleLocked();
      CleanupBundle();
      used := used + {s};
      if active.Some? || current.None? || !fileOk || !sessionOk { return; }
      var e := current.value;
      var ok := SetEngineCapture(e, Some(s), deviceOk);
      if !ok {
        stopped := stopped + {s};
        return;
      }
      active, bundle := Some(s), Some(Bundle(s, e));
      files, timers := files + {s}, timers + {Bundle(s, e)};
    }

    method OnTimeout(b: Bundle)
      modifies this
      ensures View() == TimingOut(old(View()), b)
    {
      timers := timers - {b};
      if bundle == Some(b) {
        StopBundleLocked();
      } else {
        stopped := stopped + {b.session};
      }
    }

    method TakeDebugBundle() returns (path: Option<Session>)
      modifies this
      ensures View() == Debugging(old(View()))
      ensures path == if old(bundle).None? then None else Some(old(bundle).value.session)
    {
      path := None;
      if bundle.Some? {
        stopped := stopped + {bundle.value.session};
        path := Some(bundle.value.session);
      }
      CleanupBundle();
    }
  }
}

/** The initial snapshot of a mapping stream: service IDs are collected until the batch that
    completes the sync, then the mappings named by no batch are removed, once. */
module ProxySnapshot {
  import opened Basics
  import opened ProxyMappings
  import opened ProxyHolds
  import opened ProxyRuns

  /** `order` is the order in which stale mappings happen to be visited. */
  datatype Batch = Batch(updates: seq<Update>, complete: bool, order: seq<string>)

  datatype Stream = Stream(st: State, ids: set<string>, done: bool)

  function Named(us: seq<Update>): set<string> {
    set u | u in us :: u.m.id
  }

  function Stale(st: State, ids: set<string>): set<string> {
    st.stored.Keys - ids
  }

  /** Removes the mappings of the listed services, as they were stored at the start. */
  function RemoveListed(cfg: Config, st: State, was: Stored, order: seq<string>): State
    requires forall k :: k in order ==> k in was
    decreases |order|
  {
    if order == [] then st else RemoveListed(cfg, Step(cfg, st, Removed(was[order[0]])), was, order[1..])
  }

  /** recordBatch, once the updates `us` of a batch have been processed into `s.st`. */
  ghost predicate RecordFits(s: Stream, us: seq<Update>, complete: bool, order: seq<string>) {
    !s.done && complete ==> Lists(order, Stale(s.st, s.ids + Named(us)))
  }

  ghost function Recorded(cfg: Config, s: Stream, us: seq<Update>, complete: bool, order: seq<string>): Stream
    requires RecordFits(s, us, complete, order)
  {
    if s.done then s
    else if !complete then s.(ids := s.ids + Named(us))
    else Stream(RemoveListed(cfg, s.st, s.st.stored, order), {}, true)
  }

  ghost predicate OrderFits(cfg: Config, s: Stream, b: Batch) {
    RecordFits(s.(st := Run(cfg, s.st, b.updates)), b.updates, b.complete, b.order)
  }

  ghost function OnBatch(cfg: Config, s: Stream, b: Batch): Stream
    requires OrderFits(cfg, s, b)
  {
    Recorded(cfg, s.(st := Run(cfg, s.st, b.updates)), b.updates, b.complete, b.order)
  }

  ghost predicate OrdersFit(cfg: Config, s: Stream, bs: seq<Batch>)
    decreases |bs|
  {
    bs == [] || (OrderFits(cfg, s, bs[0]) && OrdersFit(cfg, OnBatch(cfg, s, bs[0]), bs[1..]))
  }

  ghost function OverStream(cfg: Config, s: Stream, bs: seq<Batch>): Stream
    requires OrdersFit(cfg, s, bs)
    decreases |bs|
  {
    if bs == [] then s else OverStream(cfg, OnBatch(cfg, s, bs[0]), bs[1..])
  }

  function Flat(bs: seq<Batch>): seq<Update> {
    if bs == [] then [] else bs[0].updates + Flat(bs[1..])
  }

  lemma {:induction false} RemoveListedStored(cfg: Config, st: State, was: Stored, order: seq<string>)
    requires StoredById(was) && forall k :: k in order ==> k in was
    ensures RemoveListed(cfg, st, was, order).stored == st.stored - Elems(order)
    decreases |order|
  {
    if order != [] {
      var st1 := Step(cfg, st, Removed(was[order[0]]));
      StepStored(cfg, st, Removed(was[order[0]]));
      RemoveListedStored(cfg, st1, was, order[1..]);
      assert Elems(order) == {order[0]} + Elems(order[1..]);
    }
  }

  /** The updates that a reconciliation amounts to. */
  function Removals(was: Stored, order: seq<string>): seq<Update>
    requires forall k :: k in order ==> k in was
  {
    if order == [] then [] else [Removed(was[order[0]])] + Removals(was, order[1..])
  }

  lemma {:induction false} RemoveListedIsRun(cfg: Config, st: State, was: Stored, order: seq<string>)
    requires forall k :: k in order ==> k in was
    ensures RemoveListed(cfg, st, was, order) == Run(cfg, st, Removals(was, order))
    decreases |order|
  {
    if order != [] { RemoveListedIsRun(cfg, Step(cfg, st, Removed(was[order[0]])), was, order[1..]); }
  }

  /** Throughout a reconciliation everything is in agreement if and only if every removal is admissible when its turn
      comes. */
  lemma RemoveListedInv(cfg: Config, st: State, was: Stored, order: seq<string>)
    requires Inv(cfg, st) && forall k :: k in order ==> k in was
    ensures RemoveListed(cfg, st, was, order) == Run(cfg, st, Removals(was, order))
    ensures AlwaysInv(cfg, st, Removals(was, order)) <==> AdmissibleRun(cfg, st, Removals(was, order))
    ensures AdmissibleRun(cfg, st, Removals(was, order)) ==> Inv(cfg, RemoveListed(cfg, st, was, order))
  {
    RemoveListedIsRun(cfg, st, was, order);
    AlwaysInvIff(cfg, st, Removals(was, order));
    if AdmissibleRun(cfg, st, Removals(was, order)) { RunInv(cfg, st, Removals(was, order)); }
  }

  lemma NamedConcat(us: seq<Update>, vs: seq<Update>)
    ensures Named(us + vs) == Named(us) + Named(vs)
  {
    forall k ensures k in Named(us + vs) <==> k in Named(us) + Named(vs) {
      if k in Named(us) { var u :| u in us && u.m.id == k; assert u in us + vs; }
      if k in Named(vs) { var u :| u in vs && u.m.id == k; assert u in us + vs; }
    }
  }

  /** Until the completing batch a stream only runs its updates and collects their names. */
  lemma {:induction false} BeforeComplete(cfg: Config, s: Stream, bs: seq<Batch>)
    requires OrdersFit(cfg, s, bs) && !s.done && forall b :: b in bs ==> !b.complete
    ensures OverStream(cfg, s, bs) == Stream(Run(cfg, s.st, Flat(bs)), s.ids + Named(Flat(bs)), false)
    decreases |bs|
  {
    if bs != [] {
      BeforeComplete(cfg, OnBatch(cfg, s, bs[0]), bs[1..]);
      RunSplit(cfg, s.st, bs[0].updates, Flat(bs[1..]));
      NamedConcat(bs[0].updates, Flat(bs[1..]));
    }
  }

  lemma {:induction false} RunStoredById(cfg: Config, st: State, us: seq<Update>)
    requires StoredById(st.stored)
    ensures StoredById(Run(cfg, st, us).stored)
    decreases |us|
  {
    if us != [] {
      StepStored(cfg, st, us[0]);
      RunStoredById(cfg, Step(cfg, st, us[0]), us[1..]);
    }
  }

  /** The completing batch leaves exactly the mappings that the run stored and the stream named. */
  lemma SnapshotReconciles(cfg: Config, st: State, bs: seq<Batch>, last: Batch)
    requires StoredById(st.stored)
    requires OrdersFit(cfg, Stream(st, {}, false), bs) && last.complete
    requires forall b :: b in bs ==> !b.complete
    requires OrderFits(cfg, OverStream(cfg, Stream(st, {}, false), bs), last)
    ensures var s := OnBatch(cfg, OverStream(cfg, Stream(st, {}, false), bs), last);
            var us := Flat(bs) + last.updates;
            && s.done
            && s.st.stored == Run(cfg, st, us).stored - Stale(Run(cfg, st, us), Named(us))
  {
    var us := Flat(bs) + last.updates;
    BeforeComplete(cfg, Stream(st, {}, false), bs);
    RunSplit(cfg, st, Flat(bs), last.updates);
    NamedConcat(Flat(bs), last.updates);
    var run := Run(cfg, st, us);
    RunStoredById(cfg, st, us);
    assert Lists(last.order, Stale(run, Named(us)));
    RemoveListedStored(cfg, run, run.stored, last.order);
  }

  /** After the completing batch, every stored service was named by the stream, and every service whose last update
      installed a mapping is stored with it. */
  lemma SnapshotContents(cfg: Config, st: State, bs: seq<Batch>, last: Batch, before: seq<Update>, u: Update, after: seq<Update>)
    requires StoredById(st.stored)
    requires OrdersFit(cfg, Stream(st, {}, false), bs) && last.complete
    requires forall b :: b in bs ==> !b.complete
    requires OrderFits(cfg, OverStream(cfg, Stream(st, {}, false), bs), last)
    requires Flat(bs) + last.updates == before + [u] + after && Succeeds(cfg, Run(cfg, st, before), u)
    requires forall v :: v in after ==> v.m.id != u.m.id
    ensures var stored := OnBatch(cfg, OverStream(cfg, Stream(st, {}, false), bs), last).st.stored;
            stored.Keys <= Named(Flat(bs) + last.updates) && u.m.id in stored && stored[u.m.id] == u.m
  {
    SnapshotReconciles(cfg, st, bs, last);
    LastInstalled(cfg, st, before, u, after);
    assert u in before + [u] + after;
  }

  /** Once done, no later batch of the stream removes anything beyond its own updates. */
  lemma {:induction false} AfterComplete(cfg: Config, s: Stream, bs: seq<Batch>)
    requires s.done && OrdersFit(cfg, s, bs)
    ensures OverStream(cfg, s, bs) == s.(st := Run(cfg, s.st, Flat(bs)))
    decreases |bs|
  {
    if bs != [] {
      AfterComplete(cfg, OnBatch(cfg, s, bs[0]), bs[1..]);
      RunSplit(cfg, s.st, bs[0].updates, Flat(bs[1..]));
    }
  }
}

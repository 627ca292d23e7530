/**
 * The event-driven interface watcher against the poller that it replaces.
 *
 * The kernel's link table changes step by step, and every change publishes one event.
 */
module IfaceWatcher {
  import opened Basics

  /** Links by index, with their names. */
  type Links = map<int, string>

  datatype Change = Add(index: int, name: string) | Delete(index: int) | Rename(index: int, name: string) | Touch(index: int)

  datatype Event = NewLink(index: int, name: string) | DelLink(index: int, name: string) | OtherEvent(index: int)

  /** What the watcher's wait can end with. */
  datatype Message = Update(event: Event) | Closed | Cancelled

  datatype Reason = SubscribeFailed | Deleted | Recreated(index: int) | Renamed(name: string) | ChannelClosed
  datatype Verdict = Waiting | Stopped | Restart(reason: Reason)

  // ----- The kernel -----

  ghost predicate Unique(l: Links) {
    && (forall i :: i in l ==> l[i] != "")
    && forall i, j :: i in l && j in l && l[i] == l[j] ==> i == j
  }

  ghost predicate Free(l: Links, name: string) {
    name != "" && forall i :: i in l ==> l[i] != name
  }

  ghost predicate Legal(l: Links, c: Change) {
    match c
    case Add(index, name) => index !in l && Free(l, name)
    case Delete(index) => index in l
    case Rename(index, name) => index in l && Free(l, name)
    case Touch(index) => index in l
  }

  function Changed(l: Links, c: Change): Links {
    match c
    case Add(index, name) => l[index := name]
    case Delete(index) => l - {index}
    case Rename(index, name) => l[index := name]
    case Touch(_) => l
  }

  function EventOf(l: Links, c: Change): Event
    requires Legal(l, c)
  {
    match c
    case Add(index, name) => NewLink(index, name)
    case Delete(index) => DelLink(index, l[index])
    case Rename(index, name) => NewLink(index, name)
    case Touch(index) => NewLink(index, l[index])
  }

  /** The table after the first `t` changes. */
  function TableAt(l: Links, history: seq<Change>, t: nat): Links
    requires t <= |history|
  {
    if t == 0 then l else Changed(TableAt(l, history, t - 1), history[t - 1])
  }

  ghost predicate LegalHistory(l: Links, history: seq<Change>) {
    Unique(l) && forall t :: 0 <= t < |history| ==> LegalAt(l, history, t)
  }

  ghost predicate LegalAt(l: Links, history: seq<Change>, t: nat)
    requires t < |history|
  {
    Legal(TableAt(l, history, t), history[t])
  }

  /** The event that change `t` publishes. */
  ghost function EventAt(l: Links, history: seq<Change>, t: nat): Event
    requires LegalHistory(l, history) && t < |history|
  {
    assert LegalAt(l, history, t);
    EventOf(TableAt(l, history, t), history[t])
  }

  /** The messages published by the changes from `t` on. */
  ghost function Published(l: Links, history: seq<Change>, t: nat): seq<Message>
    requires LegalHistory(l, history) && t <= |history|
    decreases |history| - t
  {
    if t == |history| then [] else
      [Update(EventAt(l, history, t))] + Published(l, history, t + 1)
  }

  // ----- Looking an interface up -----

  function IndexByName(l: Links, name: string): Option<int>
    requires Unique(l)
  {
    if exists i :: i in l && l[i] == name then
      var i :| i in l && l[i] == name;
      Some(i)
    else None
  }

  /** The name no longer leads to the expected index. */
  predicate Mismatch(l: Links, name: string, expected: int)
    requires Unique(l)
  {
    IndexByName(l, name) != Some(expected)
  }

  function Recheck(l: Links, name: string, expected: int): Verdict
    requires Unique(l)
  {
    match IndexByName(l, name)
    case None => Restart(Deleted)
    case Some(i) => if i != expected then Restart(Recreated(i)) else Waiting
  }

  // ----- The watcher -----

  function InspectDelLink(index: int, expected: int): Verdict {
    if index != expected then Waiting else Restart(Deleted)
  }

  function InspectNewLink(index: int, eventName: string, name: string, expected: int): Verdict {
    if eventName == name && index != expected then Restart(Recreated(index))
    else if index == expected && eventName != "" && eventName != name then Restart(Renamed(eventName))
    else Waiting
  }

  function InspectEvent(e: Event, name: string, expected: int): Verdict {
    match e
    case DelLink(index, _) => InspectDelLink(index, expected)
    case NewLink(index, eventName) => InspectNewLink(index, eventName, name, expected)
    case OtherEvent(_) => Waiting
  }

  function OnMessage(m: Message, name: string, expected: int): Verdict {
    match m
    case Cancelled => Stopped
    case Closed => Restart(ChannelClosed)
    case Update(e) => InspectEvent(e, name, expected)
  }

  /** The first message that ends the wait decides. */
  function Await(inbox: seq<Message>, name: string, expected: int): Verdict {
    if inbox == [] then Waiting
    else if OnMessage(inbox[0], name, expected) != Waiting then OnMessage(inbox[0], name, expected)
    else Await(inbox[1..], name, expected)
  }

  /** The watcher: `table` is what the re-check after subscribing reads. */
  method WatchInterface(subscribed: bool, table: Links, inbox: seq<Message>, name: string, expected: int)
    returns (v: Verdict)
    requires Unique(table)
    ensures !subscribed ==> v == Restart(SubscribeFailed)
    ensures subscribed && Mismatch(table, name, expected) ==> v == Recheck(table, name, expected)
    ensures subscribed && !Mismatch(table, name, expected) ==> v == Await(inbox, name, expected)
  {
    if !subscribed { return Restart(SubscribeFailed); }
    var current := IndexByName(table, name);
    if current.None? { return Restart(Deleted); }
    if current.value != expected { return Restart(Recreated(current.value)); }
    assert inbox[0..] == inbox;
    for i := 0 to |inbox|
      invariant Await(inbox[i..], name, expected) == Await(inbox, name, expected)
    {
      assert inbox[i..][1..] == inbox[i + 1..];
      match inbox[i] {
        case Cancelled => return Stopped;
        case Closed => return Restart(ChannelClosed);
        case Update(e) =>
          v := InspectEvent(e, name, expected);
          if v.Restart? { return; }
      }
    }
    v := Waiting;
  }

  // ----- The poller -----

  datatype Wake = Tick(table: Links) | Cancel

  ghost predicate UniqueWakes(wakes: seq<Wake>) {
    forall w :: w in wakes && w.Tick? ==> Unique(w.table)
  }

  function Poll(wakes: seq<Wake>, name: string, expected: int): Verdict
    requires UniqueWakes(wakes)
  {
    if wakes == [] then Waiting
    else if wakes[0].Cancel? then Stopped
    else if Mismatch(wakes[0].table, name, expected) then Recheck(wakes[0].table, name, expected)
    else Poll(wakes[1..], name, expected)
  }

  method PollInterface(wakes: seq<Wake>, name: string, expected: int) returns (v: Verdict)
    requires UniqueWakes(wakes)
    ensures v == Poll(wakes, name, expected)
  {
    assert wakes[0..] == wakes;
    for i := 0 to |wakes|
      invariant Poll(wakes[i..], name, expected) == Poll(wakes, name, expected)
    {
      assert wakes[i..][1..] == wakes[i + 1..];
      if wakes[i].Cancel? { return Stopped; }
      assert wakes[i] in wakes;
      var current := IndexByName(wakes[i].table, name);
      if current.None? { return Restart(Deleted); }
      if current.value != expected { return Restart(Recreated(current.value)); }
    }
    v := Waiting;
  }

  // ----- One change -----

  lemma ChangedUnique(l: Links, c: Change)
    requires Unique(l) && Legal(l, c)
    ensures Unique(Changed(l, c))
  {
  }

  lemma NamedIff(l: Links, name: string, expected: int)
    requires Unique(l)
    ensures Mismatch(l, name, expected) <==> !(expected in l && l[expected] == name)
  {
  }

  /** An event that makes the watcher restart leaves a mismatch behind. */
  lemma EventSound(l: Links, c: Change, name: string, expected: int)
    requires Unique(l) && Legal(l, c) && Unique(Changed(l, c)) && name != ""
    requires InspectEvent(EventOf(l, c), name, expected) != Waiting
    ensures Mismatch(Changed(l, c), name, expected)
  {
    NamedIff(Changed(l, c), name, expected);
  }

  /** The change that ends a match publishes an event that makes the watcher restart. */
  lemma EventComplete(l: Links, c: Change, name: string, expected: int)
    requires Unique(l) && Legal(l, c) && Unique(Changed(l, c))
    requires !Mismatch(l, name, expected) && Mismatch(Changed(l, c), name, expected)
    ensures InspectEvent(EventOf(l, c), name, expected) in {Restart(Deleted)} ||
            (c.Rename? && InspectEvent(EventOf(l, c), name, expected) == Restart(Renamed(c.name)))
  {
    NamedIff(l, name, expected);
    NamedIff(Changed(l, c), name, expected);
  }

  // ----- Whole histories -----

  lemma {:induction false} TableUnique(l: Links, history: seq<Change>, t: nat)
    requires LegalHistory(l, history) && t <= |history|
    ensures Unique(TableAt(l, history, t))
    decreases t
  {
    if t > 0 {
      TableUnique(l, history, t - 1);
      assert LegalAt(l, history, t - 1);
      ChangedUnique(TableAt(l, history, t - 1), history[t - 1]);
    }
  }

  /** At time `t` the name does not lead to the expected index. */
  ghost predicate MismatchAt(l: Links, history: seq<Change>, name: string, expected: int, t: nat)
    requires LegalHistory(l, history) && t <= |history|
  {
    TableUnique(l, history, t);
    Mismatch(TableAt(l, history, t), name, expected)
  }

  /** The watcher's verdict when it subscribes at `from`, re-checks at `check` and is neither stopped nor cut off. */
  ghost function Watched(l: Links, history: seq<Change>, name: string, expected: int, from: nat, check: nat): Verdict
    requires LegalHistory(l, history) && from <= check <= |history|
  {
    TableUnique(l, history, check);
    var table := TableAt(l, history, check);
    if Mismatch(table, name, expected) then Recheck(table, name, expected)
    else Await(Published(l, history, from), name, expected)
  }

  lemma AwaitCons(m: Message, rest: seq<Message>, name: string, expected: int)
    ensures Await([m] + rest, name, expected) ==
            if OnMessage(m, name, expected) != Waiting then OnMessage(m, name, expected) else Await(rest, name, expected)
  {
    assert ([m] + rest)[1..] == rest;
  }

  /** The watcher looks at the event of change `t`, and then at the rest. */
  lemma AwaitPublished(l: Links, history: seq<Change>, name: string, expected: int, t: nat)
    requires LegalHistory(l, history) && t < |history|
    ensures var v := InspectEvent(EventAt(l, history, t), name, expected);
            Await(Published(l, history, t), name, expected) ==
            if v != Waiting then v else Await(Published(l, history, t + 1), name, expected)
  {
    AwaitCons(Update(EventAt(l, history, t)), Published(l, history, t + 1), name, expected);
  }

  /** From a match on, a mismatch at any later time is announced. */
  lemma {:induction false} MismatchAnnounced(l: Links, history: seq<Change>, name: string, expected: int, from: nat, t: nat)
    requires LegalHistory(l, history) && from <= t <= |history|
    requires !MismatchAt(l, history, name, expected, from) && MismatchAt(l, history, name, expected, t)
    ensures Await(Published(l, history, from), name, expected).Restart?
    decreases t - from
  {
    AwaitPublished(l, history, name, expected, from);
    TableUnique(l, history, from);
    TableUnique(l, history, from + 1);
    if MismatchAt(l, history, name, expected, from + 1) {
      assert LegalAt(l, history, from);
      EventComplete(TableAt(l, history, from), history[from], name, expected);
    } else {
      MismatchAnnounced(l, history, name, expected, from + 1, t);
    }
  }

  /** Whatever an earlier subscription adds in front does not lose an announcement. */
  lemma {:induction false} EarlierSubscription(l: Links, history: seq<Change>, name: string, expected: int, from: nat, check: nat)
    requires LegalHistory(l, history) && from <= check <= |history|
    requires Await(Published(l, history, check), name, expected).Restart?
    ensures Await(Published(l, history, from), name, expected).Restart?
    decreases check - from
  {
    if from < check {
      AwaitPublished(l, history, name, expected, from);
      EarlierSubscription(l, history, name, expected, from + 1, check);
    }
  }

  /** An announcement comes from a mismatch after the subscription. */
  lemma {:induction false} AnnouncedMismatch(l: Links, history: seq<Change>, name: string, expected: int, from: nat)
    returns (t: nat)
    requires LegalHistory(l, history) && from <= |history| && name != ""
    requires Await(Published(l, history, from), name, expected) != Waiting
    ensures from < t <= |history| && MismatchAt(l, history, name, expected, t)
    decreases |history| - from
  {
    AwaitPublished(l, history, name, expected, from);
    TableUnique(l, history, from);
    TableUnique(l, history, from + 1);
    if InspectEvent(EventAt(l, history, from), name, expected) != Waiting {
      assert LegalAt(l, history, from);
      EventSound(TableAt(l, history, from), history[from], name, expected);
      t := from + 1;
    } else {
      t := AnnouncedMismatch(l, history, name, expected, from + 1);
    }
  }

  /** Every mismatch that exists at or after the re-check makes the watcher restart. */
  lemma WatcherSeesMismatch(l: Links, history: seq<Change>, name: string, expected: int, from: nat, check: nat, t: nat)
    requires LegalHistory(l, history) && from <= check <= t <= |history|
    requires MismatchAt(l, history, name, expected, t)
    ensures Watched(l, history, name, expected, from, check).Restart?
  {
    TableUnique(l, history, check);
    if !MismatchAt(l, history, name, expected, check) {
      MismatchAnnounced(l, history, name, expected, check, t);
      EarlierSubscription(l, history, name, expected, from, check);
    }
  }

  /**
   * The watcher restarts exactly when the interface was lost at some time since the subscription, provided it was
   * in place when the subscription began.
   */
  lemma WatcherExact(l: Links, history: seq<Change>, name: string, expected: int, from: nat, check: nat)
    requires LegalHistory(l, history) && from <= check <= |history| && name != ""
    requires !MismatchAt(l, history, name, expected, from)
    ensures Watched(l, history, name, expected, from, check).Restart? <==>
            exists t: nat :: from <= t <= |history| && MismatchAt(l, history, name, expected, t)
    ensures !Watched(l, history, name, expected, from, check).Stopped?
  {
    if t: nat :| from <= t <= |history| && MismatchAt(l, history, name, expected, t) {
      if MismatchAt(l, history, name, expected, check) {
        WatcherSeesMismatch(l, history, name, expected, from, check, check);
      } else {
        MismatchAnnounced(l, history, name, expected, from, t);
      }
    }
    WatcherRestartsForCause(l, history, name, expected, from, check);
  }

  /** A restart has a cause: a mismatch at the re-check, or one that a change after the subscription brought. */
  lemma WatcherRestartsForCause(l: Links, history: seq<Change>, name: string, expected: int, from: nat, check: nat)
    requires LegalHistory(l, history) && from <= check <= |history| && name != ""
    ensures Watched(l, history, name, expected, from, check) != Waiting ==>
            exists t: nat :: from <= t <= |history| && MismatchAt(l, history, name, expected, t)
    ensures !Watched(l, history, name, expected, from, check).Stopped?
  {
    TableUnique(l, history, check);
    if MismatchAt(l, history, name, expected, check) {
    } else if Await(Published(l, history, from), name, expected) != Waiting {
      var t := AnnouncedMismatch(l, history, name, expected, from);
    }
    NeverStopped(l, history, name, expected, from);
  }

  lemma {:induction false} NeverStopped(l: Links, history: seq<Change>, name: string, expected: int, from: nat)
    requires LegalHistory(l, history) && from <= |history|
    ensures !Await(Published(l, history, from), name, expected).Stopped?
    decreases |history| - from
  {
    if from < |history| {
      AwaitPublished(l, history, name, expected, from);
      NeverStopped(l, history, name, expected, from + 1);
    }
  }

  // ----- When the watcher stays waiting -----

  /** The change leaves the watcher waiting: it neither deletes the expected link, nor reports it under another name,
      nor reports our name at another index. */
  predicate Quiet(l: Links, c: Change, name: string, expected: int)
    requires Legal(l, c)
  {
    match c
    case Delete(index) => index != expected
    case Add(index, other) => QuietReport(index, other, name, expected)
    case Rename(index, other) => QuietReport(index, other, name, expected)
    case Touch(index) => QuietReport(index, l[index], name, expected)
  }

  predicate QuietReport(index: int, reported: string, name: string, expected: int) {
    index == expected <==> reported == name
  }

  lemma QuietIff(l: Links, c: Change, name: string, expected: int)
    requires Unique(l) && Legal(l, c)
    ensures InspectEvent(EventOf(l, c), name, expected) == Waiting <==> Quiet(l, c, name, expected)
  {
  }

  ghost predicate QuietAt(l: Links, history: seq<Change>, name: string, expected: int, t: nat)
    requires LegalHistory(l, history) && t < |history|
  {
    assert LegalAt(l, history, t);
    Quiet(TableAt(l, history, t), history[t], name, expected)
  }

  lemma QuietEvent(l: Links, history: seq<Change>, name: string, expected: int, t: nat)
    requires LegalHistory(l, history) && t < |history|
    ensures InspectEvent(EventAt(l, history, t), name, expected) == Waiting <==> QuietAt(l, history, name, expected, t)
  {
    TableUnique(l, history, t);
    assert LegalAt(l, history, t);
    QuietIff(TableAt(l, history, t), history[t], name, expected);
  }

  lemma {:induction false} AwaitQuiet(l: Links, history: seq<Change>, name: string, expected: int, from: nat)
    requires LegalHistory(l, history) && from <= |history|
    ensures Await(Published(l, history, from), name, expected) == Waiting <==>
            forall t: nat :: from <= t < |history| ==> QuietAt(l, history, name, expected, t)
    decreases |history| - from
  {
    if from < |history| {
      AwaitPublished(l, history, name, expected, from);
      QuietEvent(l, history, name, expected, from);
      AwaitQuiet(l, history, name, expected, from + 1);
    }
  }

  /** For every history and whatever the state at the subscription: the watcher stays waiting if and only if the name
      leads to the expected index at the re-check and every change since the subscription was quiet. */
  lemma WatcherWaitsIff(l: Links, history: seq<Change>, name: string, expected: int, from: nat, check: nat)
    requires LegalHistory(l, history) && from <= check <= |history|
    ensures Watched(l, history, name, expected, from, check) == Waiting <==>
            && !MismatchAt(l, history, name, expected, check)
            && forall t: nat :: from <= t < |history| ==> QuietAt(l, history, name, expected, t)
  {
    TableUnique(l, history, check);
    AwaitQuiet(l, history, name, expected, from);
  }

  /** A loss before the subscription that one rename repairs before the re-check goes unnoticed, however many quiet
      changes follow: `WatcherExact` needs its condition. */
  lemma RepairedUnnoticed(l: Links, name: string, expected: int, rest: seq<Change>)
    requires Unique(l) && Free(l, name) && expected in l
    requires LegalHistory(l, [Rename(expected, name)] + rest)
    requires forall t: nat :: 0 < t <= |rest| ==> QuietAt(l, [Rename(expected, name)] + rest, name, expected, t)
    ensures MismatchAt(l, [Rename(expected, name)] + rest, name, expected, 0)
    ensures Watched(l, [Rename(expected, name)] + rest, name, expected, 0, 1) == Waiting
  {
    var h := [Rename(expected, name)] + rest;
    NamedIff(l, name, expected);
    TableUnique(l, h, 1);
    assert h[..1] == [Rename(expected, name)];
    NamedIff(TableAt(l, h, 1), name, expected);
    assert QuietAt(l, h, name, expected, 0);
    WatcherWaitsIff(l, h, name, expected, 0, 1);
  }

  /** Such histories exist: the rename alone is one. */
  lemma RenameLegal(l: Links, name: string, expected: int)
    requires Unique(l) && Free(l, name) && expected in l
    ensures LegalHistory(l, [Rename(expected, name)])
  {
    assert LegalAt(l, [Rename(expected, name)], 0);
  }

  /** The same loss is noticed if the misnamed link reports anything before it is repaired. */
  lemma RepairedNoticed(l: Links, name: string, expected: int)
    requires Unique(l) && Free(l, name) && expected in l
    ensures LegalHistory(l, [Touch(expected), Rename(expected, name)])
    ensures Watched(l, [Touch(expected), Rename(expected, name)], name, expected, 0, 2).Restart?
  {
    var h := [Touch(expected), Rename(expected, name)];
    assert TableAt(l, h, 0) == l && TableAt(l, h, 1) == l;
    assert LegalAt(l, h, 0) && LegalAt(l, h, 1);
    assert LegalHistory(l, h);
    TableUnique(l, h, 2);
    NamedIff(TableAt(l, h, 2), name, expected);
    AwaitPublished(l, h, name, expected, 0);
  }

  // ----- Refinement -----

  /** What a poller that looks at the given times reads. */
  ghost function Ticks(l: Links, history: seq<Change>, times: seq<nat>): (wakes: seq<Wake>)
    requires LegalHistory(l, history) && forall t :: t in times ==> t <= |history|
    ensures |wakes| == |times| && UniqueWakes(wakes)
    ensures forall i :: 0 <= i < |times| ==> times[i] <= |history| && wakes[i] == Tick(TableAt(l, history, times[i]))
  {
    if times == [] then [] else
      assert times[0] in times && forall t :: t in times[1..] ==> t in times;
      TableUnique(l, history, times[0]);
      [Tick(TableAt(l, history, times[0]))] + Ticks(l, history, times[1..])
  }

  /** If a poller on any schedule from the re-check on would restart, so does the watcher. */
  lemma {:induction false} WatcherRefinesPoller(l: Links, history: seq<Change>, name: string, expected: int,
                                                from: nat, check: nat, times: seq<nat>)
    requires LegalHistory(l, history) && from <= check <= |history|
    requires forall t :: t in times ==> check <= t <= |history|
    requires Poll(Ticks(l, history, times), name, expected).Restart?
    ensures Watched(l, history, name, expected, from, check).Restart?
    decreases |times|
  {
    var wakes := Ticks(l, history, times);
    assert wakes != [];
    assert times[0] in times && wakes[0] in wakes;
    if Mismatch(wakes[0].table, name, expected) {
      WatcherSeesMismatch(l, history, name, expected, from, check, times[0]);
    } else {
      assert forall t :: t in times[1..] ==> t in times;
      assert wakes[1..] == Ticks(l, history, times[1..]);
      WatcherRefinesPoller(l, history, name, expected, from, check, times[1..]);
    }
  }

  /** And if the watcher restarts, a poller that had looked at the right time would have restarted too. */
  lemma PollerWouldSee(l: Links, history: seq<Change>, name: string, expected: int, from: nat, check: nat)
    returns (t: nat)
    requires LegalHistory(l, history) && from <= check <= |history| && name != ""
    requires Watched(l, history, name, expected, from, check).Restart?
    ensures from <= t <= |history| && UniqueWakes([Tick(TableAt(l, history, t))])
    ensures Poll([Tick(TableAt(l, history, t))], name, expected).Restart?
  {
    WatcherRestartsForCause(l, history, name, expected, from, check);
    t :| from <= t <= |history| && MismatchAt(l, history, name, expected, t);
    TableUnique(l, history, t);
  }

  // ----- What the verdicts say -----

  /** The message ends the wait: the context is done, the channel closes, the link is deleted, our name appears at
      another index, or the link is reported under another name. */
  predicate Decisive(m: Message, name: string, expected: int) {
    match m
    case Cancelled => true
    case Closed => true
    case Update(DelLink(index, _)) => index == expected
    case Update(NewLink(index, n)) => (n == name && index != expected) || (n != "" && n != name && index == expected)
    case Update(OtherEvent(_)) => false
  }

  /** The verdict names what the message reported. */
  predicate Reports(m: Message, v: Verdict) {
    match m
    case Cancelled => v == Stopped
    case Closed => v == Restart(ChannelClosed)
    case Update(DelLink(_, _)) => v == Restart(Deleted)
    case Update(NewLink(index, n)) => v == Restart(Recreated(index)) || v == Restart(Renamed(n))
    case Update(OtherEvent(_)) => false
  }

  lemma OnMessageIs(m: Message, name: string, expected: int)
    ensures OnMessage(m, name, expected) == Waiting <==> !Decisive(m, name, expected)
    ensures Decisive(m, name, expected) ==> Reports(m, OnMessage(m, name, expected))
    ensures m.Update? && m.event.NewLink? && Decisive(m, name, expected) ==>
              OnMessage(m, name, expected) ==
              if m.event.name == name then Restart(Recreated(m.event.index)) else Restart(Renamed(m.event.name))
  {
  }

  /** The watcher's answer is that of the first decisive message, and it waits as long as there is none. */
  lemma {:induction false} AwaitIs(inbox: seq<Message>, name: string, expected: int, i: nat)
    requires i <= |inbox| && forall j :: 0 <= j < i ==> !Decisive(inbox[j], name, expected)
    requires i < |inbox| ==> Decisive(inbox[i], name, expected)
    ensures if i < |inbox| then Reports(inbox[i], Await(inbox, name, expected)) else Await(inbox, name, expected) == Waiting
    decreases i
  {
    if inbox != [] { OnMessageIs(inbox[0], name, expected); }
    if i > 0 { AwaitIs(inbox[1..], name, expected, i - 1); }
  }

  /** The re-check says that the interface is gone where no link has the name, and where the name leads elsewhere it
      says where. */
  lemma RecheckIs(l: Links, name: string, expected: int)
    requires Unique(l)
    ensures Recheck(l, name, expected) == Waiting <==> expected in l && l[expected] == name
    ensures Recheck(l, name, expected) == Restart(Deleted) <==> forall i :: i in l ==> l[i] != name
    ensures forall i :: Recheck(l, name, expected) == Restart(Recreated(i)) <==> i in l && l[i] == name && i != expected
  {
  }

  /** The poller's answer is that of the first tick at which the re-check would object, unless it is cancelled before. */
  lemma {:induction false} PollIs(wakes: seq<Wake>, name: string, expected: int, i: nat)
    requires UniqueWakes(wakes) && i <= |wakes|
    requires forall j :: 0 <= j < i ==>
               wakes[j].Tick? && expected in wakes[j].table && wakes[j].table[expected] == name
    requires i < |wakes| && wakes[i].Tick? ==> !(expected in wakes[i].table && wakes[i].table[expected] == name)
    ensures i == |wakes| ==> Poll(wakes, name, expected) == Waiting
    ensures i < |wakes| && wakes[i].Cancel? ==> Poll(wakes, name, expected) == Stopped
    ensures i < |wakes| && wakes[i].Tick? ==>
              && Poll(wakes, name, expected).Restart?
              && (Poll(wakes, name, expected) == Restart(Deleted) <==>
                    forall j :: j in wakes[i].table ==> wakes[i].table[j] != name)
    decreases i
  {
    if wakes != [] {
      assert wakes[0] in wakes;
      if wakes[0].Tick? {
        NamedIff(wakes[0].table, name, expected);
        RecheckIs(wakes[0].table, name, expected);
      }
    }
    if i > 0 {
      assert forall w :: w in wakes[1..] ==> w in wakes;
      PollIs(wakes[1..], name, expected, i - 1);
    }
  }

  /** The kernel's table: a link added or renamed is found under its name, a deleted one is not found. */
  lemma TableFollows(l: Links, index: int, name: string)
    requires Unique(l) && Free(l, name)
    ensures index !in l ==> IndexByName(Changed(l, Add(index, name)), name) == Some(index)
    ensures index in l ==> IndexByName(Changed(l, Rename(index, name)), name) == Some(index)
    ensures index in l ==> index !in Changed(l, Delete(index)) && Changed(l, Touch(index)) == l
    ensures forall j :: j != index && j in l ==>
              && j in Changed(l, Add(index, name)) && Changed(l, Add(index, name))[j] == l[j]
              && j in Changed(l, Rename(index, name)) && Changed(l, Rename(index, name))[j] == l[j]
              && j in Changed(l, Delete(index)) && Changed(l, Delete(index))[j] == l[j]
  {
    var c := if index !in l then Add(index, name) else Rename(index, name);
    ChangedUnique(l, c);
    NamedIff(Changed(l, c), name, index);
  }
}

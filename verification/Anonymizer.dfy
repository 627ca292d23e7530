/** The address anonymizer as an allocator of replacement addresses. */
module Anonymizer {
  import opened Basics

  datatype Addr = Addr(is4: bool, value: nat)

  /** One family's replacements: `start` up to, not including, `next`. */
  datatype Range = Range(start: nat, next: nat)

  datatype State = State(table: map<Addr, Addr>, v4: Range, v6: Range)

  /** Addresses that are never replaced: loopback, link-local, private IPv4, multicast, well-known. */
  type Special = Addr -> bool

  function Started(start4: nat, start6: nat): State {
    State(map[], Range(start4, start4), Range(start6, start6))
  }

  function RangeOf(st: State, is4: bool): Range {
    if is4 then st.v4 else st.v6
  }

  /** The check includes the next address to be handed out. */
  predicate InRange(st: State, ip: Addr) {
    RangeOf(st, ip.is4).start <= ip.value <= RangeOf(st, ip.is4).next
  }

  function Taken(r: Range): Range {
    r.(next := r.next + 1)
  }

  function After(sp: Special, st: State, ip: Addr): State {
    if sp(ip) || InRange(st, ip) || ip in st.table then st
    else if ip.is4 then State(st.table[ip := Addr(true, st.v4.next)], Taken(st.v4), st.v6)
    else State(st.table[ip := Addr(false, st.v6.next)], st.v4, Taken(st.v6))
  }

  function Answer(sp: Special, st: State, ip: Addr): Addr {
    if sp(ip) || InRange(st, ip) then ip
    else if ip in st.table then st.table[ip]
    else Addr(ip.is4, RangeOf(st, ip.is4).next)
  }

  function Run(sp: Special, st: State, ips: seq<Addr>): State {
    if ips == [] then st else After(sp, Run(sp, st, ips[..|ips| - 1]), ips[|ips| - 1])
  }

  class Anonymizer {
    var ipAnonymizer: map<Addr, Addr>
    var currentV4: nat
    var currentV6: nat
    const startV4: nat
    const startV6: nat
    const special: Special

    constructor (start4: nat, start6: nat, special: Special)
      ensures View() == Started(start4, start6) && this.special == special
    {
      ipAnonymizer, currentV4, currentV6, startV4, startV6 := map[], start4, start6, start4, start6;
      this.special := special;
    }

    function View(): State
      reads this
    {
      State(ipAnonymizer, Range(startV4, currentV4), Range(startV6, currentV6))
    }

    method IsInAnonymizedRange(ip: Addr) returns (b: bool)
      ensures b <==> InRange(View(), ip)
    {
      if ip.is4 && ip.value >= startV4 && ip.value <= currentV4 { return true; }
      if !ip.is4 && ip.value >= startV6 && ip.value <= currentV6 { return true; }
      b := false;
    }

    method AnonymizeIP(ip: Addr) returns (r: Addr)
      modifies this
      ensures View() == After(special, old(View()), ip) && r == Answer(special, old(View()), ip)
    {
      var inRange := IsInAnonymizedRange(ip);
      if special(ip) || inRange { return ip; }
      if ip !in ipAnonymizer {
        if ip.is4 {
          ipAnonymizer := ipAnonymizer[ip := Addr(true, currentV4)];
          currentV4 := currentV4 + 1;
        } else {
          ipAnonymizer := ipAnonymizer[ip := Addr(false, currentV6)];
          currentV6 := currentV6 + 1;
        }
      }
      r := ipAnonymizer[ip];
    }
  }

  // ----- The allocator -----

  /** `r` is one of the addresses handed out so far. */
  predicate Given(st: State, r: Addr) {
    RangeOf(st, r.is4).start <= r.value < RangeOf(st, r.is4).next
  }

  /** Replacements are addresses handed out, keep the family, and are distinct. */
  ghost predicate Sound(st: State) {
    && st.v4.start <= st.v4.next && st.v6.start <= st.v6.next
    && (forall ip :: ip in st.table ==> st.table[ip].is4 == ip.is4 && Given(st, st.table[ip]))
    && (forall p, q :: p in st.table && q in st.table && st.table[p] == st.table[q] ==> p == q)
  }

  ghost predicate Replaces(st: State, r: Addr) {
    exists ip :: ip in st.table && st.table[ip] == r
  }

  /** Nothing in the range is left out. */
  ghost predicate Filled(st: State) {
    forall r: Addr :: Given(st, r) ==> Replaces(st, r)
  }

  lemma SoundKept(sp: Special, st: State, ip: Addr)
    requires Sound(st)
    ensures Sound(After(sp, st, ip))
  {
    var u := After(sp, st, ip);
    forall p | p in u.table ensures u.table[p].is4 == p.is4 && Given(u, u.table[p]) { }
    forall p, q | p in u.table && q in u.table && u.table[p] == u.table[q] ensures p == q {
      if p != ip && p in st.table { assert Given(st, st.table[p]); }
      if q != ip && q in st.table { assert Given(st, st.table[q]); }
    }
  }

  lemma FilledKept(sp: Special, st: State, ip: Addr)
    requires Filled(st)
    ensures Filled(After(sp, st, ip))
  {
    var u := After(sp, st, ip);
    if u != st {
      assert u.table[ip] == Addr(ip.is4, RangeOf(st, ip.is4).next);
      forall r: Addr | Given(u, r) ensures Replaces(u, r) {
        if r != u.table[ip] {
          assert Given(st, r);
          assert Replaces(st, r);
          var k :| k in st.table && st.table[k] == r;
          assert k in u.table && u.table[k] == r;
        }
      }
    }
  }

  /** Over any run, the replacements are pairwise distinct and fill exactly the range handed out. */
  lemma {:induction false} RunAllocated(sp: Special, start4: nat, start6: nat, ips: seq<Addr>)
    ensures Sound(Run(sp, Started(start4, start6), ips)) && Filled(Run(sp, Started(start4, start6), ips))
    decreases |ips|
  {
    if ips != [] {
      var st := Run(sp, Started(start4, start6), ips[..|ips| - 1]);
      RunAllocated(sp, start4, start6, ips[..|ips| - 1]);
      SoundKept(sp, st, ips[|ips| - 1]);
      FilledKept(sp, st, ips[|ips| - 1]);
    }
  }

  // ----- Later states -----

  /** What was assigned stays assigned, and the ranges only grow. */
  ghost predicate Extends(st: State, u: State) {
    && (forall ip :: ip in st.table ==> ip in u.table && u.table[ip] == st.table[ip])
    && st.v4.start == u.v4.start && st.v6.start == u.v6.start && st.v4.next <= u.v4.next && st.v6.next <= u.v6.next
  }

  lemma {:induction false} RunExtends(sp: Special, st: State, ips: seq<Addr>)
    ensures Extends(st, Run(sp, st, ips))
    decreases |ips|
  {
    if ips != [] { RunExtends(sp, st, ips[..|ips| - 1]); }
  }

  /** A replacement is its own answer ever after. */
  lemma Idempotent(sp: Special, st: State, ip: Addr, ips: seq<Addr>)
    requires Sound(st)
    ensures var later := Run(sp, After(sp, st, ip), ips);
            Answer(sp, later, Answer(sp, st, ip)) == Answer(sp, st, ip)
  {
    var u := After(sp, st, ip);
    var r := Answer(sp, st, ip);
    RunExtends(sp, u, ips);
    if !sp(ip) && !InRange(st, ip) && ip in st.table { assert Given(st, st.table[ip]); }
    assert sp(r) || InRange(u, r);
  }

  /**
   * The same input gets the same answer at two times exactly when the range check says the same at both: only an
   * input that the range has grown past in between is answered differently.
   */
  lemma SameAnswerIff(sp: Special, st: State, ip: Addr, ips: seq<Addr>)
    requires Sound(st)
    ensures var later := Run(sp, After(sp, st, ip), ips);
            Answer(sp, later, ip) == Answer(sp, st, ip) <==> sp(ip) || (InRange(later, ip) <==> InRange(st, ip))
  {
    var u := After(sp, st, ip);
    var later := Run(sp, u, ips);
    RunExtends(sp, u, ips);
    if !sp(ip) && !InRange(st, ip) {
      if ip in st.table { assert Given(st, st.table[ip]); }
      assert u.table[ip] == Answer(sp, st, ip);
      assert later.table[ip] == u.table[ip];
    }
  }

  /** The address right behind the next one is replaced the first time it is asked for, and passes the second time. */
  lemma AnswerChanges(sp: Special, st: State, ip: Addr)
    requires Sound(st) && !sp(ip) && ip !in st.table && ip.value == RangeOf(st, ip.is4).next + 1
    ensures Answer(sp, st, ip) == Addr(ip.is4, RangeOf(st, ip.is4).next) && Answer(sp, st, ip) != ip
    ensures Answer(sp, After(sp, st, ip), ip) == ip
  {
  }

  /** An input outside the final range is answered alike throughout. */
  lemma OutsideAnsweredAlike(sp: Special, st: State, ip: Addr, ips: seq<Addr>)
    requires Sound(st) && !InRange(Run(sp, After(sp, st, ip), ips), ip)
    ensures Answer(sp, Run(sp, After(sp, st, ip), ips), ip) == Answer(sp, st, ip)
  {
    RunExtends(sp, After(sp, st, ip), ips);
    SameAnswerIff(sp, st, ip, ips);
  }

  /** Two inputs with one answer: the same input, or the answer itself is one of them. */
  lemma CollidesIff(sp: Special, st: State, p: Addr, q: Addr)
    requires Sound(st) && p in st.table && !sp(p) && !InRange(st, p)
    ensures Answer(sp, st, p) == Answer(sp, st, q) <==>
            q == p || (q == st.table[p] && (sp(q) || InRange(st, q)))
  {
    assert Given(st, st.table[p]);
    if q in st.table { assert Given(st, st.table[q]); }
  }

  /** The inclusive check lets the next address through, and then hands it out again. */
  lemma NextAddressReused(sp: Special, st: State, p: Addr)
    requires Sound(st) && !sp(p) && !InRange(st, p) && p !in st.table
    requires !sp(Addr(p.is4, RangeOf(st, p.is4).next))
    ensures var q := Addr(p.is4, RangeOf(st, p.is4).next);
            q != p && Answer(sp, st, q) == q && After(sp, st, q) == st && Answer(sp, st, p) == q
  {
  }

  /** The first replacement of each family is where its range starts, the following ones come one by one. */
  lemma FirstAnswers(sp: Special, start4: nat, start6: nat, p: Addr, q: Addr)
    requires !sp(p) && !sp(q) && p != q && p.is4 == q.is4
    requires p.value > (if p.is4 then start4 else start6) + 1 && q.value > (if p.is4 then start4 else start6) + 1
    ensures var st := Started(start4, start6);
            && Answer(sp, st, p) == Addr(p.is4, if p.is4 then start4 else start6)
            && Answer(sp, After(sp, st, p), q) == Addr(p.is4, (if p.is4 then start4 else start6) + 1)
  {
  }

  /** After a run every input is one that passes unchanged, or has its replacement in the table. */
  lemma {:induction false} RunAnswers(sp: Special, st: State, ips: seq<Addr>, i: nat)
    requires i < |ips|
    ensures var later := Run(sp, st, ips);
            sp(ips[i]) || InRange(later, ips[i]) || ips[i] in later.table
    decreases |ips|
  {
    var n := |ips| - 1;
    var before := Run(sp, st, ips[..n]);
    if i < n {
      RunAnswers(sp, st, ips[..n], i);
      RunExtends(sp, before, [ips[n]]);
      assert [ips[n]][..0] == [] && Run(sp, before, [ips[n]]) == After(sp, before, ips[n]);
    }
  }
}

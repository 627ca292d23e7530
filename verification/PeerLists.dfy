/** The list comparators that peer reconciliation rests on: SliceDiff (util/common.go),
    filterAllowedIPs and compareNetIPLists (client/internal/engine.go). */
module PeerLists {
  import opened Basics
  import opened LazyConn

  /** How prefixes are written: netip.ParsePrefix and Prefix.String. */
  datatype Syntax = Syntax(parse: string -> Option<Prefix>, show: Prefix -> string)

  /** What is printed can be read back. */
  ghost predicate Faithful(x: Syntax) {
    forall p :: x.parse(x.show(p)) == Some(p)
  }

  predicate AllParse(x: Syntax, ss: seq<string>) {
    forall i :: 0 <= i < |ss| ==> x.parse(ss[i]).Some?
  }

  function Parsed(x: Syntax, ss: seq<string>): (ps: seq<Prefix>)
    requires AllParse(x, ss)
    ensures |ps| == |ss|
  {
    if ss == [] then [] else [x.parse(ss[0]).value] + Parsed(x, ss[1..])
  }

  function Shown(x: Syntax, ps: seq<Prefix>): (ss: seq<string>)
    ensures |ss| == |ps|
  {
    if ps == [] then [] else [x.show(ps[0])] + Shown(x, ps[1..])
  }

  /** IPv6 prefixes are dropped when the local interface has no IPv6 address. */
  function Usable(ps: seq<Prefix>, hasIPv6: bool): seq<Prefix> {
    if ps == [] then []
    else if ps[0].is6 && !hasIPv6 then Usable(ps[1..], hasIPv6)
    else [ps[0]] + Usable(ps[1..], hasIPv6)
  }

  function Filtered(x: Syntax, ss: seq<string>, hasIPv6: bool): seq<string> {
    if ss == [] then []
    else if !hasIPv6 && x.parse(ss[0]).Some? && x.parse(ss[0]).value.is6 then Filtered(x, ss[1..], hasIPv6)
    else [ss[0]] + Filtered(x, ss[1..], hasIPv6)
  }

  /** Filtering the strings and filtering the parsed prefixes come to the same. */
  lemma {:induction false} FilterAlike(x: Syntax, ss: seq<string>, hasIPv6: bool)
    requires AllParse(x, ss)
    ensures AllParse(x, Filtered(x, ss, hasIPv6)) && Parsed(x, Filtered(x, ss, hasIPv6)) == Usable(Parsed(x, ss), hasIPv6)
  {
    if ss != [] {
      assert AllParse(x, ss[1..]);
      FilterAlike(x, ss[1..], hasIPv6);
      var rest := Filtered(x, ss[1..], hasIPv6);
      assert Parsed(x, ss)[1..] == Parsed(x, ss[1..]);
      assert ([ss[0]] + rest)[1..] == rest;
    }
  }

  /** Filtering never hides a string that does not parse. */
  lemma {:induction false} FilterKeepsBad(x: Syntax, ss: seq<string>, hasIPv6: bool)
    requires !AllParse(x, ss)
    ensures !AllParse(x, Filtered(x, ss, hasIPv6))
  {
    var i :| 0 <= i < |ss| && x.parse(ss[i]).None?;
    if i == 0 {
      assert Filtered(x, ss, hasIPv6)[0] == ss[0];
    } else {
      assert ss[1..][i - 1] == ss[i];
      FilterKeepsBad(x, ss[1..], hasIPv6);
      var rest := Filtered(x, ss[1..], hasIPv6);
      var j :| 0 <= j < |rest| && x.parse(rest[j]).None?;
      assert ([ss[0]] + rest)[j + 1] == rest[j];
    }
  }

  /** The stored prefixes are those the list of strings stands for, counted with repetition. */
  ghost predicate SameIPs(x: Syntax, ps: seq<Prefix>, ss: seq<string>) {
    AllParse(x, ss) && multiset(ps) == multiset(Parsed(x, ss))
  }

  lemma {:induction false} ShownCount(x: Syntax, ps: seq<Prefix>, p: Prefix)
    requires Faithful(x)
    ensures multiset(Shown(x, ps))[x.show(p)] == multiset(ps)[p]
  {
    if ps != [] {
      ShownCount(x, ps[1..], p);
      assert ps == [ps[0]] + ps[1..];
      assert x.parse(x.show(ps[0])) == Some(ps[0]) && x.parse(x.show(p)) == Some(p);
    }
  }

  lemma {:induction false} ShownMembers(x: Syntax, ps: seq<Prefix>, s: string)
    requires s in multiset(Shown(x, ps))
    ensures exists p :: p in ps && s == x.show(p)
  {
    assert s in Shown(x, ps);
    if s != x.show(ps[0]) {
      assert s in Shown(x, ps[1..]);
      ShownMembers(x, ps[1..], s);
    }
  }

  /** Prefix lists agree as multisets exactly when their printed forms do. */
  lemma ShownSame(x: Syntax, ps: seq<Prefix>, qs: seq<Prefix>)
    requires Faithful(x)
    ensures multiset(Shown(x, ps)) == multiset(Shown(x, qs)) <==> multiset(ps) == multiset(qs)
  {
    if multiset(Shown(x, ps)) == multiset(Shown(x, qs)) {
      forall p ensures multiset(ps)[p] == multiset(qs)[p] {
        ShownCount(x, ps, p);
        ShownCount(x, qs, p);
      }
    }
    if multiset(ps) == multiset(qs) {
      forall s ensures multiset(Shown(x, ps))[s] == multiset(Shown(x, qs))[s] {
        if s in multiset(Shown(x, ps)) {
          ShownMembers(x, ps, s);
          var p :| p in ps && s == x.show(p);
          ShownCount(x, ps, p);
          ShownCount(x, qs, p);
        } else if s in multiset(Shown(x, qs)) {
          ShownMembers(x, qs, s);
          var p :| p in qs && s == x.show(p);
          ShownCount(x, ps, p);
          ShownCount(x, qs, p);
        }
      }
    }
  }

  function CountOf(freq: map<string, int>, s: string): int {
    if s in freq then freq[s] else 0
  }

  ghost predicate Counts(freq: map<string, int>, ms: multiset<string>) {
    forall s :: CountOf(freq, s) == ms[s]
  }

  lemma {:induction false} ShownAppend(x: Syntax, ps: seq<Prefix>, p: Prefix)
    ensures Shown(x, ps + [p]) == Shown(x, ps) + [x.show(p)]
  {
    if ps == [] {
      assert ([] + [p])[1..] == [];
    } else {
      assert (ps + [p])[1..] == ps[1..] + [p];
      ShownAppend(x, ps[1..], p);
    }
  }

  lemma {:induction false} ParsedAppend(x: Syntax, ss: seq<string>, s: string)
    requires AllParse(x, ss) && x.parse(s).Some?
    ensures AllParse(x, ss + [s]) && Parsed(x, ss + [s]) == Parsed(x, ss) + [x.parse(s).value]
  {
    if ss == [] {
      assert ([] + [s])[1..] == [];
    } else {
      assert AllParse(x, ss[1..]);
      assert (ss + [s])[1..] == ss[1..] + [s];
      ParsedAppend(x, ss[1..], s);
    }
  }

  lemma ShownPrefix(x: Syntax, ps: seq<Prefix>, i: nat)
    requires i < |ps|
    ensures multiset(Shown(x, ps[..i + 1])) == multiset(Shown(x, ps[..i])) + multiset{x.show(ps[i])}
  {
    ShownAppend(x, ps[..i], ps[i]);
    assert ps[..i + 1] == ps[..i] + [ps[i]];
  }

  lemma CountedUp(freq: map<string, int>, shown: multiset<string>, key: string)
    requires Counts(freq, shown)
    ensures Counts(freq[key := CountOf(freq, key) + 1], shown + multiset{key})
  {
  }

  /** How often each prefix of the list is printed. */
  method CountShown(x: Syntax, ps: seq<Prefix>) returns (freq: map<string, int>)
    ensures Counts(freq, multiset(Shown(x, ps)))
  {
    freq := map[];
    for i := 0 to |ps|
      invariant Counts(freq, multiset(Shown(x, ps[..i])))
    {
      var key := x.show(ps[i]);
      ShownPrefix(x, ps, i);
      CountedUp(freq, multiset(Shown(x, ps[..i])), key);
      freq := freq[key := CountOf(freq, key) + 1];
    }
    assert ps[..|ps|] == ps;
  }

  /** How often each prefix of a list of strings would be printed. */
  ghost function Printed(x: Syntax, ss: seq<string>): multiset<string>
    requires AllParse(x, ss)
  {
    multiset(Shown(x, Parsed(x, ss)))
  }

  lemma PrintedNext(x: Syntax, ss: seq<string>, i: nat)
    requires i < |ss| && AllParse(x, ss[..i]) && x.parse(ss[i]).Some?
    ensures AllParse(x, ss[..i + 1]) && Printed(x, ss[..i + 1]) == Printed(x, ss[..i]) + multiset{x.show(x.parse(ss[i]).value)}
  {
    assert ss[..i + 1] == ss[..i] + [ss[i]];
    ParsedAppend(x, ss[..i], ss[i]);
    ShownAppend(x, Parsed(x, ss[..i]), x.parse(ss[i]).value);
  }

  lemma CountDown(freq: map<string, int>, left: multiset<string>, used: multiset<string>, key: string)
    requires Counts(freq, left) && CountOf(freq, key) != 0
    ensures key in freq && Counts(freq[key := freq[key] - 1], left - multiset{key})
    ensures left + used == (left - multiset{key}) + (used + multiset{key})
  {
  }

  /** Counts the strings of the right list off; stops at the first that has no match left. */
  method CountOff(x: Syntax, counted: map<string, int>, list1: seq<Prefix>, list2: seq<string>)
    returns (ok: bool, freq: map<string, int>, ghost left: multiset<string>)
    requires Faithful(x) && Counts(counted, multiset(Shown(x, list1)))
    ensures !ok ==> !SameIPs(x, list1, list2)
    ensures ok ==> AllParse(x, list2) && Counts(freq, left) && multiset(Shown(x, list1)) == left + Printed(x, list2)
  {
    ghost var all := multiset(Shown(x, list1));
    freq, left := counted, all;
    for i := 0 to |list2|
      invariant AllParse(x, list2[..i])
      invariant Counts(freq, left) && all == left + Printed(x, list2[..i])
    {
      var p := x.parse(list2[i]);
      if p.None? { return false, freq, left; }
      var key := x.show(p.value);
      PrintedNext(x, list2, i);
      if CountOf(freq, key) == 0 {
        MissingKey(x, list1, list2, i, key);
        return false, freq, left;
      }
      CountDown(freq, left, Printed(x, list2[..i]), key);
      freq := freq[key := freq[key] - 1];
      left := left - multiset{key};
    }
    assert list2[..|list2|] == list2;
    ok := true;
  }

  /** compareNetIPLists decides exactly whether the two lists agree up to order. */
  method CompareNetIPLists(x: Syntax, list1: seq<Prefix>, list2: seq<string>) returns (same: bool)
    requires Faithful(x)
    ensures same <==> SameIPs(x, list1, list2)
  {
    if |list1| != |list2| {
      SizesDiffer(x, list1, list2);
      return false;
    }
    var freq := CountShown(x, list1);
    ghost var left;
    same, freq, left := CountOff(x, freq, list1, list2);
    if !same { return; }
    NothingLeft(left, Shown(x, list1), Shown(x, Parsed(x, list2)));
    ShownSame(x, list1, Parsed(x, list2));
    forall s | s in freq ensures freq[s] == 0 { assert CountOf(freq, s) == 0; }
    same := AllZero(freq);
  }

  lemma NothingLeft(left: multiset<string>, a: seq<string>, b: seq<string>)
    requires multiset(a) == left + multiset(b) && |a| == |b|
    ensures left == multiset{} && multiset(a) == multiset(b)
  {
    assert |multiset(a)| == |a| && |multiset(b)| == |b|;
    assert |left + multiset(b)| == |left| + |multiset(b)|;
  }

  predicate AllZero(freq: map<string, int>) {
    forall s :: s in freq ==> freq[s] == 0
  }

  lemma SizesDiffer(x: Syntax, ps: seq<Prefix>, ss: seq<string>)
    requires |ps| != |ss|
    ensures !SameIPs(x, ps, ss)
  {
    assert |multiset(ps)| == |ps|;
    if AllParse(x, ss) { assert |multiset(Parsed(x, ss))| == |ss|; }
  }

  /** A printed prefix that occurs more often on the right than on the left. */
  lemma MissingKey(x: Syntax, ps: seq<Prefix>, ss: seq<string>, i: nat, key: string)
    requires Faithful(x) && i < |ss| && AllParse(x, ss[..i + 1])
    requires Printed(x, ss[..i + 1])[key] > multiset(Shown(x, ps))[key]
    ensures !SameIPs(x, ps, ss)
  {
    if SameIPs(x, ps, ss) {
      ShownSame(x, ps, Parsed(x, ss));
      assert ss == ss[..i + 1] + ss[i + 1..];
      ParsedSplit(x, ss[..i + 1], ss[i + 1..]);
      ShownSplit(x, Parsed(x, ss[..i + 1]), Parsed(x, ss[i + 1..]));
    }
  }

  lemma {:induction false} ParsedSplit(x: Syntax, a: seq<string>, b: seq<string>)
    requires AllParse(x, a + b)
    ensures AllParse(x, a) && AllParse(x, b) && Parsed(x, a + b) == Parsed(x, a) + Parsed(x, b)
  {
    assert forall i :: 0 <= i < |a| ==> (a + b)[i] == a[i];
    assert forall i :: 0 <= i < |b| ==> (a + b)[|a| + i] == b[i];
    if a == [] {
      assert a + b == b;
    } else {
      assert (a + b)[1..] == a[1..] + b;
      assert AllParse(x, (a + b)[1..]);
      ParsedSplit(x, a[1..], b);
    }
  }

  lemma {:induction false} ShownSplit(x: Syntax, a: seq<Prefix>, b: seq<Prefix>)
    ensures Shown(x, a + b) == Shown(x, a) + Shown(x, b)
  {
    if a == [] {
      assert a + b == b;
    } else {
      assert (a + b)[1..] == a[1..] + b;
      ShownSplit(x, a[1..], b);
    }
  }

  method FilterAllowedIPs(x: Syntax, ips: seq<string>, hasIPv6: bool) returns (filtered: seq<string>)
    ensures filtered == Filtered(x, ips, hasIPv6)
  {
    if hasIPv6 {
      FilterNothing(x, ips);
      return ips;
    }
    filtered := [];
    var i := 0;
    assert ips[0..] == ips;
    while i < |ips|
      invariant 0 <= i <= |ips|
      invariant filtered + Filtered(x, ips[i..], false) == Filtered(x, ips, false)
    {
      var p := x.parse(ips[i]);
      assert ips[i..][1..] == ips[i + 1..];
      if p.None? || !p.value.is6 {
        filtered := filtered + [ips[i]];
      }
      i := i + 1;
    }
    assert ips[i..] == [];
  }

  lemma {:induction false} FilterNothing(x: Syntax, ss: seq<string>)
    ensures Filtered(x, ss, true) == ss
  {
    if ss != [] { FilterNothing(x, ss[1..]); }
  }

  function Minus(x: seq<string>, y: set<string>): seq<string> {
    if x == [] then [] else if x[0] in y then Minus(x[1..], y) else [x[0]] + Minus(x[1..], y)
  }

  /** The elements of `x` that are not in `y`, in order. */
  method SliceDiff(x: seq<string>, y: seq<string>) returns (diff: seq<string>)
    ensures diff == Minus(x, Elems(y))
  {
    var seen: set<string> := {};
    for i := 0 to |y|
      invariant seen == Elems(y[..i])
    {
      seen := seen + {y[i]};
      assert y[..i + 1] == y[..i] + [y[i]];
    }
    assert y[..|y|] == y;
    diff := [];
    var i := 0;
    assert x[0..] == x;
    while i < |x|
      invariant 0 <= i <= |x|
      invariant diff + Minus(x[i..], seen) == Minus(x, seen)
    {
      assert x[i..][1..] == x[i + 1..];
      if x[i] !in seen {
        diff := diff + [x[i]];
      }
      i := i + 1;
    }
    assert x[i..] == [];
  }

  lemma {:induction false} MinusMembers(x: seq<string>, y: set<string>)
    ensures Elems(Minus(x, y)) == Elems(x) - y
  {
    if x != [] {
      MinusMembers(x[1..], y);
      assert Elems(x) == {x[0]} + Elems(x[1..]);
      if x[0] !in y { assert Elems([x[0]] + Minus(x[1..], y)) == {x[0]} + Elems(Minus(x[1..], y)); }
    }
  }
}

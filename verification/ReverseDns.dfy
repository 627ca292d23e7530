/**
 * Reverse DNS names: the PTR name of an address, the zone of a network, and when the two agree
 * (section 3.5 of RFC 1035 for IPv4, section 2.5 of RFC 3596 for IPv6).
 *
 * Addresses are their bits, most significant first.  Names are label sequences; `NameText` writes them out.
 */
module ReverseDns {
  import opened Basics

  datatype Addr = Addr(is4: bool, bits: seq<bool>) {
    predicate Valid() {
      |bits| == if is4 then 32 else 128
    }
  }

  datatype Prefix = Prefix(addr: Addr, length: nat) {
    predicate Valid() {
      addr.Valid() && length <= |addr.bits|
    }
  }

  // ----- Numbers -----

  function Val(s: seq<bool>): nat {
    if s == [] then 0 else 2 * Val(s[..|s| - 1]) + (if s[|s| - 1] then 1 else 0)
  }

  lemma {:induction false} ValBound(s: seq<bool>)
    ensures Val(s) < Pow2(|s|)
    decreases |s|
  {
    if s != [] { ValBound(s[..|s| - 1]); }
  }

  lemma {:induction false} ValInjective(s: seq<bool>, t: seq<bool>)
    requires |s| == |t| && Val(s) == Val(t)
    ensures s == t
    decreases |s|
  {
    if s != [] {
      var n := |s| - 1;
      ValInjective(s[..n], t[..n]);
      assert s == s[..n] + [s[n]] && t == t[..n] + [t[n]];
    }
  }

  /** `v` followed by `k` zero bits. */
  function Shifted(v: nat, k: nat): nat {
    if k == 0 then v else 2 * Shifted(v, k - 1)
  }

  lemma {:induction false} ValAppend(s: seq<bool>, t: seq<bool>)
    ensures Val(s + t) == Shifted(Val(s), |t|) + Val(t)
    decreases |t|
  {
    if t == [] {
      assert s + t == s;
    } else {
      ValAppend(s, t[..|t| - 1]);
      assert (s + t)[..|s + t| - 1] == s + t[..|t| - 1];
    }
  }

  function Zeros(n: nat): seq<bool> {
    seq(n, _ => false)
  }

  // ----- Labels -----

  function Digit(n: nat): char
    requires n < 10
  {
    '0' + n as char
  }

  function Decimal(n: nat): string {
    if n < 10 then [Digit(n)] else Decimal(n / 10) + [Digit(n % 10)]
  }

  lemma {:induction false} DecimalShape(n: nat)
    ensures Decimal(n) != [] && forall i :: 0 <= i < |Decimal(n)| ==> '0' <= Decimal(n)[i] <= '9'
    decreases n
  {
    if n >= 10 { DecimalShape(n / 10); }
  }

  lemma {:induction false} DecimalInjective(m: nat, n: nat)
    requires Decimal(m) == Decimal(n)
    ensures m == n
    decreases m
  {
    DecimalShape(m / 10);
    DecimalShape(n / 10);
    assert Decimal(m)[|Decimal(m)| - 1] == Digit(m % 10) && Decimal(n)[|Decimal(n)| - 1] == Digit(n % 10);
    if m >= 10 && n >= 10 {
      assert Decimal(m)[..|Decimal(m)| - 1] == Decimal(m / 10) && Decimal(n)[..|Decimal(n)| - 1] == Decimal(n / 10);
      DecimalInjective(m / 10, n / 10);
    }
  }

  const HEX := "0123456789abcdef"

  function Hex(n: nat): string
    requires n < 16
  {
    [HEX[n]]
  }

  /** The number of labels of a full name. */
  function Groups(is4: bool): nat {
    if is4 then 4 else 32
  }

  /** The number of bits behind `k` labels. */
  function Edge(is4: bool, k: nat): nat {
    if is4 then 8 * k else 4 * k
  }

  function Group(a: Addr, i: nat): seq<bool>
    requires a.Valid() && i < Groups(a.is4)
  {
    a.bits[Edge(a.is4, i)..Edge(a.is4, i + 1)]
  }

  /** The label of the `i`-th group of bits. */
  function Label(a: Addr, i: nat): string
    requires a.Valid() && i < Groups(a.is4)
  {
    if a.is4 then Decimal(Val(Group(a, i))) else (GroupBound(Group(a, i)); Hex(Val(Group(a, i))))
  }

  lemma GroupBound(group: seq<bool>)
    requires |group| == 4
    ensures Val(group) < 16
  {
    ValBound(group);
    assert Pow2(4) == 16;
  }

  lemma HexInjective(m: nat, n: nat)
    requires m < 16 && n < 16 && Hex(m) == Hex(n)
    ensures m == n
  {
    assert HEX[m] == HEX[n];
  }

  lemma LabelInjective(a: Addr, b: Addr, i: nat)
    requires a.Valid() && b.Valid() && a.is4 == b.is4 && i < Groups(a.is4) && Label(a, i) == Label(b, i)
    ensures Group(a, i) == Group(b, i)
  {
    var s, t := Group(a, i), Group(b, i);
    if a.is4 {
      DecimalInjective(Val(s), Val(t));
    } else {
      GroupBound(s);
      GroupBound(t);
      HexInjective(Val(s), Val(t));
    }
    ValInjective(s, t);
  }

  /** The labels of an address, in the order of its bits. */
  function LabelsOf(a: Addr): (r: seq<string>)
    requires a.Valid()
    ensures |r| == Groups(a.is4)
  {
    seq(Groups(a.is4), i requires 0 <= i < Groups(a.is4) => Label(a, i))
  }

  /** The first `k` elements, last one first. */
  function Backwards<T>(s: seq<T>, k: nat): (r: seq<T>)
    requires k <= |s|
    ensures |r| == k && forall i :: 0 <= i < k ==> r[i] == s[k - 1 - i]
  {
    if k == 0 then [] else [s[k - 1]] + Backwards(s, k - 1)
  }

  lemma SameParts<T>(x: seq<T>, y: seq<T>, u: seq<T>, v: seq<T>)
    requires |x| == |u|
    ensures x + y == u + v <==> x == u && y == v
  {
    assert (x + y)[..|x|] == x && (u + v)[..|u|] == u && (x + y)[|x|..] == y && (u + v)[|u|..] == v;
  }

  lemma BackwardsEqualIff<T>(s: seq<T>, t: seq<T>, k: nat)
    requires k <= |s| && k <= |t|
    ensures Backwards(s, k) == Backwards(t, k) <==> s[..k] == t[..k]
  {
    if Backwards(s, k) == Backwards(t, k) {
      forall i | 0 <= i < k ensures s[i] == t[i] {
        assert Backwards(s, k)[k - 1 - i] == Backwards(t, k)[k - 1 - i];
      }
    }
    if s[..k] == t[..k] {
      forall i | 0 <= i < k ensures Backwards(s, k)[i] == Backwards(t, k)[i] {
        assert s[..k][k - 1 - i] == t[..k][k - 1 - i];
      }
    }
  }

  predicate Suffix<T(==)>(z: seq<T>, n: seq<T>) {
    |z| <= |n| && n[|n| - |z|..] == z
  }

  /** Written backwards before a common ending, a shorter list is a suffix exactly when it is a prefix. */
  lemma BackwardsSuffixIff<T>(s: seq<T>, k: nat, t: seq<T>, end: seq<T>)
    requires k <= |s| && k <= |t|
    ensures Suffix(Backwards(s, k) + end, Backwards(t, |t|) + end) <==> t[..k] == s[..k]
  {
    var z, n := Backwards(s, k) + end, Backwards(t, |t|) + end;
    assert n[|n| - |z|..] == Backwards(t, k) + end;
    SameParts(Backwards(t, k), end, Backwards(s, k), end);
    BackwardsEqualIff(s, t, k);
  }

  lemma SameSlice<T>(x: seq<T>, y: seq<T>, k: nat, m: nat, n: nat)
    requires m <= n <= k <= |x| && k <= |y| && x[..k] == y[..k]
    ensures x[m..n] == y[m..n]
  {
    assert x[..k][m..n] == x[m..n] && y[..k][m..n] == y[m..n];
  }

  lemma SameGroup(a: Addr, b: Addr, k: nat, i: nat)
    requires a.Valid() && b.Valid() && a.is4 == b.is4 && i < k <= Groups(a.is4)
    requires a.bits[..Edge(a.is4, k)] == b.bits[..Edge(a.is4, k)]
    ensures LabelsOf(a)[i] == LabelsOf(b)[i]
  {
    var m, n := Edge(a.is4, i), Edge(a.is4, i + 1);
    SameSlice(a.bits, b.bits, Edge(a.is4, k), m, n);
  }

  lemma SameBit(a: Addr, b: Addr, k: nat, j: nat)
    requires a.Valid() && b.Valid() && a.is4 == b.is4 && k <= Groups(a.is4) && j < Edge(a.is4, k)
    requires LabelsOf(a)[..k] == LabelsOf(b)[..k]
    ensures a.bits[j] == b.bits[j]
  {
    var i := if a.is4 then j / 8 else j / 4;
    assert LabelsOf(a)[i] == LabelsOf(a)[..k][i] == LabelsOf(b)[..k][i] == LabelsOf(b)[i];
    GroupsAgree(a, b, i, j);
  }

  /** Labels agree exactly when the bits behind them do. */
  lemma LabelsAgreeIff(a: Addr, b: Addr, k: nat)
    requires a.Valid() && b.Valid() && a.is4 == b.is4 && k <= Groups(a.is4)
    ensures LabelsOf(a)[..k] == LabelsOf(b)[..k] <==> a.bits[..Edge(a.is4, k)] == b.bits[..Edge(a.is4, k)]
  {
    if LabelsOf(a)[..k] == LabelsOf(b)[..k] {
      forall j | 0 <= j < Edge(a.is4, k) ensures a.bits[j] == b.bits[j] { SameBit(a, b, k, j); }
    }
    if a.bits[..Edge(a.is4, k)] == b.bits[..Edge(a.is4, k)] {
      forall i | 0 <= i < k ensures LabelsOf(a)[i] == LabelsOf(b)[i] { SameGroup(a, b, k, i); }
    }
  }

  lemma GroupsAgree(a: Addr, b: Addr, i: nat, j: nat)
    requires a.Valid() && b.Valid() && a.is4 == b.is4 && i < Groups(a.is4)
    requires Edge(a.is4, i) <= j < Edge(a.is4, i + 1) && LabelsOf(a)[i] == LabelsOf(b)[i]
    ensures a.bits[j] == b.bits[j]
  {
    LabelInjective(a, b, i);
    assert a.bits[j] == Group(a, i)[j - Edge(a.is4, i)];
    assert b.bits[j] == Group(b, i)[j - Edge(a.is4, i)];
  }

  // ----- Names -----

  function Arpa(is4: bool): seq<string> {
    if is4 then ["in-addr", "arpa"] else ["ip6", "arpa"]
  }

  function PtrLabels(a: Addr): seq<string>
    requires a.Valid()
  {
    Backwards(LabelsOf(a), Groups(a.is4)) + Arpa(a.is4)
  }

  function Ones(n: nat): seq<bool> {
    seq(n, _ => true)
  }

  /** The first 96 bits of an IPv4 address written as IPv6. */
  const MAPPED: seq<bool> := Zeros(80) + Ones(16)

  function Unmap(a: Addr): (r: Addr)
    requires a.Valid()
    ensures r.Valid()
  {
    if !a.is4 && a.bits[..96] == MAPPED then Addr(true, a.bits[96..]) else a
  }

  function Masked(p: Prefix): (r: Addr)
    requires p.Valid()
    ensures r.Valid()
  {
    Addr(p.addr.is4, p.addr.bits[..p.length] + Zeros(|p.addr.bits| - p.length))
  }

  predicate Contains(p: Prefix, a: Addr)
    requires p.Valid() && a.Valid()
  {
    a.is4 == p.addr.is4 && a.bits[..p.length] == p.addr.bits[..p.length]
  }

  /** The number of groups that a network of `length` bits touches. */
  function ZoneGroups(is4: bool, length: nat): nat {
    if is4 then (length + 7) / 8 else (length + 3) / 4
  }

  /** Without labels, joining leaves an empty first label. */
  function ZoneLabels(p: Prefix): Option<seq<string>>
    requires p.Valid()
  {
    var n := Unmap(Masked(p));
    var k := ZoneGroups(n.is4, p.length);
    if n.is4 && k > 4 then None
    else Some((if k == 0 then [""] else Backwards(LabelsOf(n), k)) + Arpa(n.is4))
  }

  /** The zone of the network holds the names of exactly the addresses in it. */
  ghost predicate Agrees(p: Prefix)
    requires p.Valid()
  {
    && ZoneLabels(p).Some?
    && forall a: Addr :: a.Valid() && Unmap(a) == a ==> (Contains(p, a) <==> Suffix(ZoneLabels(p).value, PtrLabels(a)))
  }

  predicate Aligned(p: Prefix) {
    p.length > 0 && p.length % (if p.addr.is4 then 8 else 4) == 0
  }

  /** The one exception: half of this network are IPv4 addresses written as IPv6. */
  predicate HalfMapped(p: Prefix)
    requires p.Valid()
  {
    !p.addr.is4 && p.length == 95 && p.addr.bits[..95] == MAPPED[..95]
  }

  // ----- Agreement -----

  lemma LabelNotEmpty(a: Addr, i: nat)
    requires a.Valid() && i < Groups(a.is4)
    ensures Label(a, i) != ""
  {
    if a.is4 { DecimalShape(Val(Group(a, i))); }
  }

  lemma OtherFamily(z: seq<string>, ptr: seq<string>, is4: bool)
    requires |z| >= 2 && |ptr| >= 2 && z[|z| - 2..] == Arpa(!is4) && ptr[|ptr| - 2..] == Arpa(is4)
    ensures !Suffix(z, ptr)
  {
    assert |"in-addr"| != |"ip6"|;
    assert Arpa(is4)[0] != Arpa(!is4)[0];
    assert z[|z| - 2] == Arpa(!is4)[0] && ptr[|ptr| - 2] == Arpa(is4)[0];
    if |z| <= |ptr| { assert ptr[|ptr| - |z|..][|z| - 2] == ptr[|ptr| - 2]; }
  }

  lemma ZoneSuffixIff(n: Addr, k: nat, a: Addr)
    requires n.Valid() && a.Valid() && k <= Groups(n.is4)
    ensures Suffix(Backwards(LabelsOf(n), k) + Arpa(n.is4), PtrLabels(a)) <==>
            a.is4 == n.is4 && a.bits[..Edge(n.is4, k)] == n.bits[..Edge(n.is4, k)]
  {
    if a.is4 == n.is4 {
      BackwardsSuffixIff(LabelsOf(n), k, LabelsOf(a), Arpa(n.is4));
      LabelsAgreeIff(a, n, k);
    } else {
      OtherFamily(Backwards(LabelsOf(n), k) + Arpa(n.is4), PtrLabels(a), a.is4);
    }
  }

  lemma EmptyZoneSuffix(is4: bool, a: Addr)
    requires a.Valid()
    ensures !Suffix([""] + Arpa(is4), PtrLabels(a))
  {
    var ptr := PtrLabels(a);
    var g := Groups(a.is4);
    LabelNotEmpty(a, 0);
    assert ptr[|ptr| - 3..][0] == ptr[g - 1] == LabelsOf(a)[0];
  }

  /** The bits behind the labels of the zone: those of the network, rounded up. */
  function ZoneEdge(p: Prefix): (e: nat)
    requires p.Valid()
    ensures p.length <= e <= |p.addr.bits|
    ensures e == p.length <==> p.length % (if p.addr.is4 then 8 else 4) == 0
  {
    Edge(p.addr.is4, ZoneGroups(p.addr.is4, p.length))
  }

  lemma ZoneHolds(p: Prefix, a: Addr)
    requires p.Valid() && a.Valid() && Unmap(Masked(p)) == Masked(p) && p.length > 0
    ensures ZoneLabels(p).Some?
    ensures Suffix(ZoneLabels(p).value, PtrLabels(a)) <==>
            a.is4 == p.addr.is4 && a.bits[..ZoneEdge(p)] == Masked(p).bits[..ZoneEdge(p)]
  {
    ZoneSuffixIff(Masked(p), ZoneGroups(p.addr.is4, p.length), a);
  }

  lemma MaskedFront(p: Prefix)
    requires p.Valid()
    ensures Masked(p).bits[..p.length] == p.addr.bits[..p.length]
  {
  }

  lemma AlignedAt(p: Prefix, a: Addr)
    requires p.Valid() && Unmap(Masked(p)) == Masked(p) && Aligned(p) && a.Valid()
    ensures ZoneLabels(p).Some? && (Contains(p, a) <==> Suffix(ZoneLabels(p).value, PtrLabels(a)))
  {
    var e := ZoneEdge(p);
    assert e == p.length;
    MaskedFront(p);
    ZoneHolds(p, a);
  }

  lemma HalfMappedAt(p: Prefix, a: Addr)
    requires p.Valid() && Unmap(Masked(p)) == Masked(p) && HalfMapped(p) && a.Valid() && Unmap(a) == a
    ensures ZoneLabels(p).Some? && (Contains(p, a) <==> Suffix(ZoneLabels(p).value, PtrLabels(a)))
  {
    var e := ZoneEdge(p);
    assert e == 96;
    if !a.is4 { HalfMappedBits(p, a); }
    ZoneHolds(p, a);
  }

  lemma ZoneAgrees(p: Prefix)
    requires p.Valid() && Unmap(Masked(p)) == Masked(p) && (Aligned(p) || HalfMapped(p))
    ensures Agrees(p)
  {
    ZoneHolds(p, p.addr);
    forall a: Addr | a.Valid() && Unmap(a) == a
      ensures Contains(p, a) <==> Suffix(ZoneLabels(p).value, PtrLabels(a))
    {
      if Aligned(p) { AlignedAt(p, a); } else { HalfMappedAt(p, a); }
    }
  }

  lemma HalfMappedBits(p: Prefix, a: Addr)
    requires p.Valid() && HalfMapped(p) && a.Valid() && Unmap(a) == a && !a.is4
    ensures a.bits[..95] == p.addr.bits[..95] <==> a.bits[..96] == Masked(p).bits[..96]
  {
    assert Masked(p).bits[..96] == p.addr.bits[..95] + [false];
    assert a.bits[..96] == a.bits[..95] + [a.bits[95]];
    assert MAPPED == MAPPED[..95] + [true];
    assert a.bits[..96] != MAPPED;
    SameParts(a.bits[..95], [a.bits[95]], p.addr.bits[..95], [false]);
    SameParts(a.bits[..95], [a.bits[95]], MAPPED[..95], [true]);
    assert a.bits[95] ==> [a.bits[95]] == [true];
    assert !a.bits[95] ==> [a.bits[95]] == [false];
  }

  /** The network address with the first bit after the network set. */
  function Flipped(p: Prefix): Addr
    requires p.Valid() && p.length < |p.addr.bits|
  {
    Masked(p).(bits := Masked(p).bits[p.length := true])
  }

  lemma FlippedMapped(p: Prefix)
    requires p.Valid() && p.length < |p.addr.bits| && Unmap(Masked(p)) == Masked(p) && Unmap(Flipped(p)) != Flipped(p)
    ensures HalfMapped(p)
  {
    var f, n := Flipped(p).bits, Masked(p).bits;
    assert f[..96] == MAPPED && f[..96][95] == MAPPED[95] == true;
    assert p.length >= 95;
    assert n[..96] == f[..96][..if p.length < 96 then 95 else 96] + n[if p.length < 96 then 95 else 96..96];
    assert f[..96][..95] == MAPPED[..95];
    assert p.addr.bits[..95] == f[..95] == f[..96][..95];
  }

  /** An address of the network whose name lies outside its zone. */
  ghost predicate NamedOutside(p: Prefix, a: Addr)
    requires p.Valid() && ZoneLabels(p).Some?
  {
    a.Valid() && Unmap(a) == a && Contains(p, a) && !Suffix(ZoneLabels(p).value, PtrLabels(a))
  }

  /** An unaligned network contains an address whose name lies outside the zone. */
  lemma UnalignedDisagrees(p: Prefix)
    requires p.Valid() && Unmap(Masked(p)) == Masked(p) && !Aligned(p) && !HalfMapped(p)
    ensures !Agrees(p) && ZoneLabels(p).Some? && exists a :: NamedOutside(p, a)
  {
    if p.length == 0 {
      EmptyZoneSuffix(p.addr.is4, Masked(p));
      assert NamedOutside(p, Masked(p));
    } else {
      var f := Flipped(p);
      if Unmap(f) != f {
        FlippedMapped(p);
        assert false;
      }
      ZoneHolds(p, f);
      assert f.bits[..ZoneEdge(p)][p.length] != Masked(p).bits[..ZoneEdge(p)][p.length];
      assert f.bits[..p.length] == p.addr.bits[..p.length];
      assert NamedOutside(p, f);
    }
  }

  /** The generated zone agrees with the network exactly for nonempty prefixes on a label boundary. */
  lemma AgreesIff(p: Prefix)
    requires p.Valid()
    ensures Agrees(p) <==> Unmap(Masked(p)) == Masked(p) && (Aligned(p) || HalfMapped(p))
  {
    if Unmap(Masked(p)) != Masked(p) {
      MappedRefused(p);
    } else if Aligned(p) || HalfMapped(p) {
      ZoneAgrees(p);
    } else {
      UnalignedDisagrees(p);
    }
  }

  /** A network of IPv4 addresses written as IPv6 gets no zone. */
  lemma MappedRefused(p: Prefix)
    requires p.Valid() && Unmap(Masked(p)) != Masked(p)
    ensures ZoneLabels(p).None? && p.length >= 96
  {
    var n := Masked(p).bits;
    assert n[..96][95] == MAPPED[95] == true;
  }

  /** Different addresses have different names. */
  lemma PtrInjective(a: Addr, b: Addr)
    requires a.Valid() && b.Valid() && PtrLabels(a) == PtrLabels(b)
    ensures a == b
  {
    var g := Groups(a.is4);
    assert |PtrLabels(a)| == g + 2 && |PtrLabels(b)| == Groups(b.is4) + 2;
    SameParts(Backwards(LabelsOf(a), g), Arpa(a.is4), Backwards(LabelsOf(b), g), Arpa(b.is4));
    BackwardsEqualIff(LabelsOf(a), LabelsOf(b), g);
    LabelsAgreeIff(a, b, g);
    assert a.bits[..Edge(a.is4, g)] == a.bits && b.bits[..Edge(b.is4, g)] == b.bits;
  }
}

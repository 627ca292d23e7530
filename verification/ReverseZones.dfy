/** Reverse zones in the client's DNS configuration: how names are written, collected and added. */
module ReverseZones {
  import opened Basics
  import opened ReverseDns

  // ----- Names as text -----

  function JoinDots(labels: seq<string>): string {
    if labels == [] then ""
    else if |labels| == 1 then labels[0]
    else labels[0] + "." + JoinDots(labels[1..])
  }

  function NameText(labels: seq<string>): string {
    JoinDots(labels) + "."
  }

  predicate DotFree(s: string) {
    '.' !in s
  }

  lemma {:induction false} JoinAppend(x: seq<string>, y: seq<string>)
    requires x != [] && y != []
    ensures JoinDots(x + y) == JoinDots(x) + "." + JoinDots(y)
    decreases |x|
  {
    if |x| == 1 {
      assert (x + y)[1..] == y;
    } else {
      assert (x + y)[1..] == x[1..] + y;
      JoinAppend(x[1..], y);
    }
  }

  /** Text before the first dot is determined by the whole. */
  lemma FirstDot(s: string, u: string, t: string, v: string)
    requires DotFree(s) && DotFree(t) && s + "." + u == t + "." + v
    ensures s == t && u == v
  {
    var x, y := s + "." + u, t + "." + v;
    assert x[|s|] == '.' && y[|t|] == '.';
    assert forall i :: 0 <= i < |s| ==> x[i] == s[i] && s[i] in s;
    assert forall i :: 0 <= i < |t| ==> y[i] == t[i] && t[i] in t;
    assert |s| == |t|;
    assert s == x[..|s|] && t == y[..|t|] && u == x[|s| + 1..] && v == y[|t| + 1..];
  }

  lemma HasDot(x: seq<string>)
    requires |x| > 1
    ensures '.' in JoinDots(x)
  {
    assert JoinDots(x)[|x[0]|] == '.';
  }

  lemma {:induction false} JoinInjective(x: seq<string>, y: seq<string>)
    requires x != [] && y != [] && JoinDots(x) == JoinDots(y)
    requires forall l :: l in x ==> DotFree(l)
    requires forall l :: l in y ==> DotFree(l)
    ensures x == y
    decreases |x|
  {
    assert x[0] in x && y[0] in y;
    if |x| > 1 { HasDot(x); }
    if |y| > 1 { HasDot(y); }
    if |x| > 1 {
      FirstDot(x[0], JoinDots(x[1..]), y[0], JoinDots(y[1..]));
      JoinInjective(x[1..], y[1..]);
      assert x == [x[0]] + x[1..] && y == [y[0]] + y[1..];
    }
  }

  lemma LabelDotFree(a: Addr, i: nat)
    requires a.Valid() && i < Groups(a.is4)
    ensures DotFree(Label(a, i))
  {
    if a.is4 {
      DecimalShape(Val(Group(a, i)));
    } else {
      GroupBound(Group(a, i));
    }
  }

  lemma ArpaDotFree(is4: bool, l: string)
    requires l in Arpa(is4)
    ensures DotFree(l)
  {
  }

  lemma BackwardsMember(s: seq<string>, k: nat, l: string) returns (i: nat)
    requires k <= |s| && l in Backwards(s, k)
    ensures i < k && s[i] == l
  {
    var j :| 0 <= j < k && Backwards(s, k)[j] == l;
    i := k - 1 - j;
  }

  lemma PtrDotFree(a: Addr, l: string)
    requires a.Valid() && l in PtrLabels(a)
    ensures DotFree(l)
  {
    if l in Arpa(a.is4) {
      ArpaDotFree(a.is4, l);
    } else {
      var i := BackwardsMember(LabelsOf(a), Groups(a.is4), l);
      LabelDotFree(a, i);
    }
  }

  /** No two addresses share a PTR name, as written. */
  lemma PtrTextInjective(a: Addr, b: Addr)
    requires a.Valid() && b.Valid() && NameText(PtrLabels(a)) == NameText(PtrLabels(b))
    ensures a == b
  {
    var x, y := JoinDots(PtrLabels(a)), JoinDots(PtrLabels(b));
    assert x == (x + ".")[..|x + "."| - 1] && y == (y + ".")[..|y + "."| - 1];
    forall l | l in PtrLabels(a) ensures DotFree(l) { PtrDotFree(a, l); }
    forall l | l in PtrLabels(b) ensures DotFree(l) { PtrDotFree(b, l); }
    JoinInjective(PtrLabels(a), PtrLabels(b));
    PtrInjective(a, b);
  }

  // ----- Writing names -----

  function TrailingBackslashes(s: string): nat {
    if s == "" || s[|s| - 1] != '\\' then 0 else 1 + TrailingBackslashes(s[..|s| - 1])
  }

  predicate IsFqdn(s: string) {
    s != "" && s[|s| - 1] == '.' && TrailingBackslashes(s[..|s| - 1]) % 2 == 0
  }

  function Fqdn(s: string): (r: string)
    ensures IsFqdn(s) ==> r == s
    ensures !IsFqdn(s) ==> r == s + "."
  {
    if IsFqdn(s) then s else s + "."
  }

  /** Byte `i` of an address. */
  function Byte(a: Addr, i: nat): nat
    requires a.Valid() && 8 * i + 8 <= |a.bits|
  {
    Val(a.bits[8 * i..8 * i + 8])
  }

  lemma ValOfByte(s: seq<bool>)
    requires |s| == 8
    ensures Val(s) / 16 == Val(s[..4]) && Val(s) % 16 == Val(s[4..]) && Val(s) < 256
  {
    assert s == s[..4] + s[4..];
    ValAppend(s[..4], s[4..]);
    GroupBound(s[..4]);
    GroupBound(s[4..]);
    FourBits(Val(s[..4]));
    DivMod16(Val(s), Val(s[..4]), Val(s[4..]));
  }

  lemma FourBits(v: nat)
    ensures Shifted(v, 4) == 16 * v
  {
    assert Shifted(v, 0) == v;
    assert Shifted(v, 1) == 2 * v;
    assert Shifted(v, 2) == 4 * v;
    assert Shifted(v, 3) == 8 * v;
  }

  lemma DivMod16(v: nat, h: nat, l: nat)
    requires v == h * 16 + l && h < 16 && l < 16
    ensures v / 16 == h && v % 16 == l && v < 256
  {
  }

  /** The two nibbles of byte `i` are the labels `2 * i` and `2 * i + 1`. */
  ghost predicate SpellsByte(a: Addr, labels: seq<string>, i: nat)
    requires a.Valid() && !a.is4 && i < 16 && |labels| == 32
  {
    Byte(a, i) < 256 && Hex(Byte(a, i) / 16) == labels[2 * i] && Hex(Byte(a, i) % 16) == labels[2 * i + 1]
  }

  ghost predicate Spells(a: Addr, labels: seq<string>)
    requires a.Valid() && !a.is4
  {
    |labels| == 32 && forall i: nat :: i < 16 ==> SpellsByte(a, labels, i)
  }

  lemma Halves(bits: seq<bool>, from: nat)
    requires from + 8 <= |bits|
    ensures bits[from..from + 8][..4] == bits[from..from + 4] && bits[from..from + 8][4..] == bits[from + 4..from + 8]
  {
  }

  lemma ByteNibbles(a: Addr, i: nat)
    requires a.Valid() && !a.is4 && i < 16
    ensures SpellsByte(a, LabelsOf(a), i)
  {
    ValOfByte(a.bits[8 * i..8 * i + 8]);
    ByteGroups(a, i);
    assert LabelsOf(a)[2 * i] == Label(a, 2 * i);
    assert LabelsOf(a)[2 * i + 1] == Label(a, 2 * i + 1);
  }

  lemma ByteGroups(a: Addr, i: nat)
    requires a.Valid() && !a.is4 && i < 16
    ensures a.bits[8 * i..8 * i + 8][..4] == Group(a, 2 * i) && a.bits[8 * i..8 * i + 8][4..] == Group(a, 2 * i + 1)
  {
    Halves(a.bits, 8 * i);
    assert Edge(false, 2 * i) == 8 * i && Edge(false, 2 * i + 1) == 8 * i + 4 && Edge(false, 2 * i + 2) == 8 * i + 8;
  }

  lemma LabelsSpell(a: Addr)
    requires a.Valid() && !a.is4
    ensures Spells(a, LabelsOf(a))
  {
    forall i: nat | i < 16 ensures SpellsByte(a, LabelsOf(a), i) { ByteNibbles(a, i); }
  }

  method NibblePair(a: Addr, i: nat, ghost labels: seq<string>) returns (hi: string, lo: string)
    requires a.Valid() && !a.is4 && i < 16 && Spells(a, labels)
    ensures hi == labels[2 * i] && lo == labels[2 * i + 1]
  {
    assert SpellsByte(a, labels, i);
    hi, lo := Hex(Byte(a, i) / 16), Hex(Byte(a, i) % 16);
  }

  /** All nibbles of an IPv6 address, least significant first. */
  method ReversedNibbles(a: Addr, ghost labels: seq<string>) returns (r: seq<string>)
    requires a.Valid() && !a.is4 && Spells(a, labels)
    ensures r == Backwards(labels, 32)
  {
    var nibbles := new string[32](_ => "");
    for i := 0 to 16
      invariant forall j :: 0 <= j < 2 * i ==> nibbles[31 - j] == labels[j]
    {
      var hi, lo := NibblePair(a, i, labels);
      nibbles[31 - i * 2], nibbles[31 - i * 2 - 1] := hi, lo;
    }
    r := nibbles[..];
  }

  /** The first `k` names, last one first. */
  method TakeReversed(names: seq<string>, k: nat) returns (r: seq<string>)
    requires k <= |names|
    ensures r == Backwards(names, k)
  {
    var reversed := new string[k](_ => "");
    for i := 0 to k
      invariant forall j :: 0 <= j < i ==> reversed[k - 1 - j] == names[j]
    {
      reversed[k - 1 - i] := names[i];
    }
    r := reversed[..];
  }

  /** All nibbles of an IPv6 address, in order. */
  method Nibbles(a: Addr, ghost labels: seq<string>) returns (r: seq<string>)
    requires a.Valid() && !a.is4 && Spells(a, labels)
    ensures r == labels
  {
    var nibbles := new string[32](_ => "");
    for i := 0 to 16
      invariant forall j :: 0 <= j < 2 * i ==> nibbles[j] == labels[j]
    {
      var hi, lo := NibblePair(a, i, labels);
      nibbles[i * 2], nibbles[i * 2 + 1] := hi, lo;
    }
    r := nibbles[..];
  }

  method AllNibbles(a: Addr) returns (r: seq<string>)
    requires a.Valid() && !a.is4
    ensures r == LabelsOf(a)
  {
    LabelsSpell(a);
    r := Nibbles(a, LabelsOf(a));
  }

  lemma ArpaText(is4: bool)
    ensures "." + JoinDots(Arpa(is4)) == if is4 then ".in-addr.arpa" else ".ip6.arpa"
  {
    if is4 {
      assert ["in-addr", "arpa"][1..] == ["arpa"];
      assert "in-addr" + "." + "arpa" == "in-addr.arpa";
      assert "." + "in-addr.arpa" == ".in-addr.arpa";
    } else {
      assert ["ip6", "arpa"][1..] == ["arpa"];
      assert "ip6" + "." + "arpa" == "ip6.arpa";
      assert "." + "ip6.arpa" == ".ip6.arpa";
    }
  }

  lemma JoinArpa(labels: seq<string>, is4: bool)
    requires labels != []
    ensures JoinDots(labels + Arpa(is4)) == JoinDots(labels) + (if is4 then ".in-addr.arpa" else ".ip6.arpa")
  {
    JoinAppend(labels, Arpa(is4));
    ArpaText(is4);
    Associate(JoinDots(labels), ".", JoinDots(Arpa(is4)));
  }

  lemma FqdnArpa(x: string, is4: bool)
    ensures var s := x + (if is4 then ".in-addr.arpa" else ".ip6.arpa"); Fqdn(s) == s + "."
  {
    var s := x + (if is4 then ".in-addr.arpa" else ".ip6.arpa");
    assert s[|s| - 1] == 'a';
  }

  lemma NameEnds(labels: seq<string>, is4: bool)
    requires labels != []
    ensures NameText(labels + Arpa(is4)) ==
            Fqdn(JoinDots(labels) + (if is4 then ".in-addr.arpa" else ".ip6.arpa"))
  {
    JoinArpa(labels, is4);
    FqdnArpa(JoinDots(labels), is4);
  }

  method PtrName(a: Addr) returns (name: string)
    requires a.Valid()
    ensures name == NameText(PtrLabels(a))
  {
    NameEnds(Backwards(LabelsOf(a), Groups(a.is4)), a.is4);
    if a.is4 {
      var octets := TakeReversed(LabelsOf(a), 4);
      name := Fqdn(JoinDots(octets) + ".in-addr.arpa");
    } else {
      LabelsSpell(a);
      var nibbles := ReversedNibbles(a, LabelsOf(a));
      name := Fqdn(JoinDots(nibbles) + ".ip6.arpa");
    }
  }

  method ReverseZoneName(network: Prefix) returns (name: Option<string>)
    requires network.Valid()
    ensures name == if ZoneLabels(network).None? then None else Some(NameText(ZoneLabels(network).value))
  {
    var n := Unmap(Masked(network));
    var k := ZoneGroups(n.is4, network.length);
    if n.is4 {
      if k > 4 { return None; }
      var octets := TakeReversed(LabelsOf(n), k);
      NameEnds(if k == 0 then [""] else octets, true);
      name := Some(Fqdn(JoinDots(octets) + ".in-addr.arpa"));
    } else {
      var all := AllNibbles(n);
      var nibbles := TakeReversed(all, k);
      NameEnds(if k == 0 then [""] else nibbles, false);
      name := Some(Fqdn(JoinDots(nibbles) + ".ip6.arpa"));
    }
  }

  // ----- Zones -----

  datatype Record = Record(name: string, kind: int, rclass: string, ttl: int, data: string)
  datatype Zone = Zone(domain: string, records: seq<Record>, nonAuthoritative: bool, searchDomainDisabled: bool)

  const TYPE_A := 1
  const TYPE_PTR := 12
  const TYPE_AAAA := 28

  /** How the library reads addresses. */
  type Parser = f: string -> Option<Addr> | forall s :: f(s).Some? ==> f(s).value.Valid() witness _ => None

  function PtrRecord(parse: Parser, r: Record, p: Prefix): Option<Record>
    requires p.Valid()
  {
    match parse(r.data)
    case None => None
    case Some(ip) =>
      var a := Unmap(ip);
      if !Contains(p, a) then None
      else Some(Record(NameText(PtrLabels(a)), TYPE_PTR, r.rclass, r.ttl, Fqdn(r.name)))
  }

  method CreatePtrRecord(parse: Parser, r: Record, p: Prefix) returns (ptr: Option<Record>)
    requires p.Valid()
    ensures ptr == PtrRecord(parse, r, p)
  {
    var ip := parse(r.data);
    if ip.None? { return None; }
    var a := Unmap(ip.value);
    if !Contains(p, a) { return None; }
    var name := PtrName(a);
    ptr := Some(Record(name, TYPE_PTR, r.rclass, r.ttl, Fqdn(r.name)));
  }

  /** What the network gets for one record, if anything. */
  function PtrFinder(parse: Parser, p: Prefix): Record -> Option<Record>
    requires p.Valid()
  {
    (r: Record) => if r.kind == TYPE_A || r.kind == TYPE_AAAA then PtrRecord(parse, r, p) else None
  }

  function Found(find: Record -> Option<Record>, records: seq<Record>): seq<Record> {
    if records == [] then [] else
      var n := |records| - 1;
      Found(find, records[..n]) + if find(records[n]).Some? then [find(records[n]).value] else []
  }

  function FoundIn(find: Record -> Option<Record>, zones: seq<Zone>): seq<Record> {
    if zones == [] then [] else
      var n := |zones| - 1;
      FoundIn(find, zones[..n]) + if zones[n].nonAuthoritative then [] else Found(find, zones[n].records)
  }

  function Collected(parse: Parser, zones: seq<Zone>, p: Prefix): seq<Record>
    requires p.Valid()
  {
    FoundIn(PtrFinder(parse, p), zones)
  }

  method CollectZone(parse: Parser, records: seq<Record>, p: Prefix) returns (found: seq<Record>)
    requires p.Valid()
    ensures found == Found(PtrFinder(parse, p), records)
  {
    found := [];
    ghost var find := PtrFinder(parse, p);
    for i := 0 to |records|
      invariant found == Found(find, records[..i])
    {
      assert records[..i + 1][..i] == records[..i];
      if records[i].kind != TYPE_A && records[i].kind != TYPE_AAAA { continue; }
      var ptr := CreatePtrRecord(parse, records[i], p);
      if ptr.Some? { found := found + [ptr.value]; }
    }
    assert records[..|records|] == records;
  }

  method CollectPtrRecords(parse: Parser, zones: seq<Zone>, p: Prefix) returns (found: seq<Record>)
    requires p.Valid()
    ensures found == Collected(parse, zones, p)
  {
    found := [];
    ghost var find := PtrFinder(parse, p);
    for i := 0 to |zones|
      invariant found == FoundIn(find, zones[..i])
    {
      assert zones[..i + 1][..i] == zones[..i];
      if zones[i].nonAuthoritative { continue; }
      var more := CollectZone(parse, zones[i].records, p);
      found := found + more;
    }
    assert zones[..|zones|] == zones;
  }

  predicate ZoneExists(zones: seq<Zone>, name: string) {
    exists i :: 0 <= i < |zones| && zones[i].domain == name
  }

  function Added(parse: Parser, zones: seq<Zone>, network: Prefix): seq<Zone>
    requires network.Valid()
  {
    match ZoneLabels(network)
    case None => zones
    case Some(labels) =>
      if ZoneExists(zones, NameText(labels)) then zones
      else zones + [Zone(NameText(labels), Collected(parse, zones, network), false, true)]
  }

  class Config {
    var zones: seq<Zone>

    method HasZone(name: string) returns (found: bool)
      ensures found <==> ZoneExists(zones, name)
    {
      for i := 0 to |zones|
        invariant forall j :: 0 <= j < i ==> zones[j].domain != name
      {
        if zones[i].domain == name { return true; }
      }
      found := false;
    }

    method AddReverseZone(parse: Parser, network: Prefix)
      requires network.Valid()
      modifies this
      ensures zones == Added(parse, old(zones), network)
    {
      var name := ReverseZoneName(network);
      if name.None? { return; }
      var exists_ := HasZone(name.value);
      if exists_ { return; }
      var records := CollectPtrRecords(parse, zones, network);
      zones := zones + [Zone(name.value, records, false, true)];
    }
  }

  // ----- What adding a zone does -----

  /** Adding the zone a second time changes nothing. */
  lemma AddedTwice(parse: Parser, zones: seq<Zone>, network: Prefix)
    requires network.Valid()
    ensures Added(parse, Added(parse, zones, network), network) == Added(parse, zones, network)
  {
    var once := Added(parse, zones, network);
    if once != zones { assert once[|zones|].domain == NameText(ZoneLabels(network).value); }
  }

  lemma {:induction false} FoundAt(find: Record -> Option<Record>, records: seq<Record>, ptr: Record) returns (i: nat)
    requires ptr in Found(find, records)
    ensures i < |records| && find(records[i]) == Some(ptr)
    decreases |records|
  {
    var n := |records| - 1;
    if ptr in Found(find, records[..n]) {
      i := FoundAt(find, records[..n], ptr);
    } else {
      i := n;
    }
  }

  lemma {:induction false} AtFound(find: Record -> Option<Record>, records: seq<Record>, ptr: Record, i: nat)
    requires i < |records| && find(records[i]) == Some(ptr)
    ensures ptr in Found(find, records)
    decreases |records|
  {
    var n := |records| - 1;
    if i < n { AtFound(find, records[..n], ptr, i); }
  }

  /** The zone is authoritative and holds a record that `ptr` is found for. */
  ghost predicate Gives(find: Record -> Option<Record>, z: Zone, ptr: Record) {
    !z.nonAuthoritative && exists i :: 0 <= i < |z.records| && find(z.records[i]) == Some(ptr)
  }

  lemma GivesIff(find: Record -> Option<Record>, z: Zone, ptr: Record)
    ensures Gives(find, z, ptr) <==> !z.nonAuthoritative && ptr in Found(find, z.records)
  {
    if ptr in Found(find, z.records) { var i := FoundAt(find, z.records, ptr); }
    if i :| 0 <= i < |z.records| && find(z.records[i]) == Some(ptr) { AtFound(find, z.records, ptr, i); }
  }

  lemma {:induction false} FoundWhere(find: Record -> Option<Record>, zones: seq<Zone>, ptr: Record) returns (i: nat)
    requires ptr in FoundIn(find, zones)
    ensures i < |zones| && Gives(find, zones[i], ptr)
    decreases |zones|
  {
    var n := |zones| - 1;
    if ptr in FoundIn(find, zones[..n]) {
      i := FoundWhere(find, zones[..n], ptr);
    } else {
      GivesIff(find, zones[n], ptr);
      i := n;
    }
  }

  lemma {:induction false} WhereFound(find: Record -> Option<Record>, zones: seq<Zone>, ptr: Record, i: nat)
    requires i < |zones| && Gives(find, zones[i], ptr)
    ensures ptr in FoundIn(find, zones)
    decreases |zones|
  {
    var n := |zones| - 1;
    if i < n {
      WhereFound(find, zones[..n], ptr, i);
    } else {
      GivesIff(find, zones[n], ptr);
    }
  }

  /** The collected records are those of address records in authoritative zones that the network contains. */
  lemma CollectedIff(parse: Parser, zones: seq<Zone>, p: Prefix, ptr: Record)
    requires p.Valid()
    ensures ptr in Collected(parse, zones, p) <==> exists z :: z in zones && Gives(PtrFinder(parse, p), z, ptr)
  {
    var find := PtrFinder(parse, p);
    if ptr in FoundIn(find, zones) {
      var i := FoundWhere(find, zones, ptr);
      assert zones[i] in zones;
    }
    if z :| z in zones && Gives(find, z, ptr) {
      var i :| 0 <= i < |zones| && zones[i] == z;
      WhereFound(find, zones, ptr, i);
    }
  }

  /** In a network on a label boundary, every collected name lies in the zone that holds it. */
  lemma CollectedInZone(parse: Parser, zones: seq<Zone>, p: Prefix, ptr: Record)
    requires p.Valid() && Agrees(p) && ptr in Collected(parse, zones, p)
    ensures exists a: Addr :: a.Valid() && ptr.name == NameText(PtrLabels(a)) && Suffix(ZoneLabels(p).value, PtrLabels(a))
  {
    CollectedIff(parse, zones, p, ptr);
    var z :| z in zones && Gives(PtrFinder(parse, p), z, ptr);
    var i :| 0 <= i < |z.records| && PtrFinder(parse, p)(z.records[i]) == Some(ptr);
    var a := FoundFor(parse, p, z.records[i], ptr);
    InItsZone(p, a);
  }

  /** The address that a record found in the network stands for. */
  lemma FoundFor(parse: Parser, p: Prefix, r: Record, ptr: Record) returns (a: Addr)
    requires p.Valid() && PtrFinder(parse, p)(r) == Some(ptr)
    ensures a.Valid() && Unmap(a) == a && Contains(p, a) && ptr.name == NameText(PtrLabels(a))
  {
    assert PtrRecord(parse, r, p) == Some(ptr);
    a := Unmap(parse(r.data).value);
    UnmapTwice(parse(r.data).value);
  }

  lemma InItsZone(p: Prefix, a: Addr)
    requires p.Valid() && Agrees(p) && a.Valid() && Unmap(a) == a && Contains(p, a)
    ensures Suffix(ZoneLabels(p).value, PtrLabels(a))
  {
  }

  lemma UnmapTwice(a: Addr)
    requires a.Valid()
    ensures Unmap(Unmap(a)) == Unmap(a)
  {
  }

  // ----- The records, written out -----

  /** `ptr` answers for the address that the record names, which the network contains, with the record's own name. */
  ghost predicate AnswersFor(parse: Parser, p: Prefix, r: Record, ptr: Record)
    requires p.Valid()
  {
    && (r.kind == 1 || r.kind == 28) && parse(r.data).Some?
    && var a := Unmap(parse(r.data).value);
       && a.is4 == p.addr.is4 && a.bits[..p.length] == p.addr.bits[..p.length]
       && ptr == Record(NameText(PtrLabels(a)), 12, r.rclass, r.ttl, Fqdn(r.name))
  }

  lemma FinderIs(parse: Parser, p: Prefix, r: Record, ptr: Record)
    requires p.Valid()
    ensures PtrFinder(parse, p)(r) == Some(ptr) <==> AnswersFor(parse, p, r, ptr)
  {
  }

  /** What is collected for a network: for every A or AAAA record of an authoritative zone whose address lies in it, the
      PTR record that leads from the address to the record's name; and nothing else. */
  lemma CollectedAre(parse: Parser, zones: seq<Zone>, p: Prefix, ptr: Record)
    requires p.Valid()
    ensures ptr in Collected(parse, zones, p) <==>
            exists i, j :: 0 <= i < |zones| && !zones[i].nonAuthoritative && 0 <= j < |zones[i].records| &&
                           AnswersFor(parse, p, zones[i].records[j], ptr)
  {
    CollectedIff(parse, zones, p, ptr);
    var find := PtrFinder(parse, p);
    if ptr in Collected(parse, zones, p) {
      var z :| z in zones && Gives(find, z, ptr);
      var j :| 0 <= j < |z.records| && find(z.records[j]) == Some(ptr);
      var i :| 0 <= i < |zones| && zones[i] == z;
      FinderIs(parse, p, zones[i].records[j], ptr);
    }
    if i, j :| 0 <= i < |zones| && !zones[i].nonAuthoritative && 0 <= j < |zones[i].records| &&
               AnswersFor(parse, p, zones[i].records[j], ptr)
    {
      FinderIs(parse, p, zones[i].records[j], ptr);
      assert zones[i] in zones && Gives(find, zones[i], ptr);
    }
  }

  /** One record after the other: their order is that of the zones and of the records in them. */
  lemma CollectedInOrder(parse: Parser, zones: seq<Zone>, z: Zone, records: seq<Record>, r: Record, p: Prefix)
    requires p.Valid()
    ensures Collected(parse, zones + [z], p) ==
            Collected(parse, zones, p) + (if z.nonAuthoritative then [] else Found(PtrFinder(parse, p), z.records))
    ensures Found(PtrFinder(parse, p), records + [r]) ==
            Found(PtrFinder(parse, p), records) +
            (if PtrFinder(parse, p)(r).Some? then [PtrFinder(parse, p)(r).value] else [])
  {
    assert (zones + [z])[..|zones|] == zones;
    assert (records + [r])[..|records|] == records;
  }

  /** Adding the reverse zone of a network: nothing where the network has none or a zone of that name is there already;
      otherwise one authoritative zone at the end, kept out of the search domains, with the records collected. */
  lemma AddedIs(parse: Parser, zones: seq<Zone>, network: Prefix)
    requires network.Valid()
    ensures Added(parse, zones, network) ==
            if ZoneLabels(network).None? || (exists i :: 0 <= i < |zones| && zones[i].domain == NameText(ZoneLabels(network).value))
            then zones
            else zones + [Zone(NameText(ZoneLabels(network).value), Collected(parse, zones, network), false, true)]
  {
  }

  // ----- Fully qualified names -----

  function Backslashes(k: nat): string {
    seq(k, _ => '\\')
  }

  lemma {:induction false} CountsBackslashes(s: string, k: nat)
    requires s == "" || s[|s| - 1] != '\\'
    ensures TrailingBackslashes(s + Backslashes(k)) == k
    decreases k
  {
    if k == 0 {
      assert s + Backslashes(0) == s;
    } else {
      CountsBackslashes(s, k - 1);
      var t := s + Backslashes(k);
      assert t[|t| - 1] == '\\' && t[..|t| - 1] == s + Backslashes(k - 1);
    }
  }

  /** A dot is added unless there is one at the end that no backslash takes away. */
  lemma FqdnIs(s: string, k: nat)
    requires s == "" || s[|s| - 1] != '\\'
    ensures Fqdn(s + Backslashes(k) + ".") == s + Backslashes(k) + (if k % 2 == 0 then "." else "..")
    ensures (s == "" || s[|s| - 1] != '.') ==> Fqdn(s) == s + "."
  {
    CountsBackslashes(s, k);
    var t := s + Backslashes(k) + ".";
    assert t[..|t| - 1] == s + Backslashes(k);
    assert s + Backslashes(k) + ".." == t + ".";
  }
}

/** Shared vocabulary: optional values, and listings that stand for the
    unspecified iteration order of a hash map. */
module Basics {

  datatype Option<+T> = None | Some(value: T)

  /** The elements of a sequence, as a set. */
  function Elems<T>(s: seq<T>): set<T> {
    set x | x in s
  }

  ghost predicate Distinct<T(!new)>(s: seq<T>) {
    forall i, j :: 0 <= i < j < |s| ==> s[i] != s[j]
  }

  /** `order` visits every element of `keys` exactly once. */
  ghost predicate Lists<T(!new)>(order: seq<T>, keys: set<T>) {
    && Distinct(order)
    && (forall k :: k in keys <==> k in order)
  }

  lemma ElemsAppend<T>(s: seq<T>, x: T)
    ensures Elems(s + [x]) == Elems(s) + {x}
  {
    assert forall y :: y in s + [x] <==> y in s || y == x;
  }

  lemma Associate<T>(a: seq<T>, b: seq<T>, c: seq<T>)
    ensures (a + b) + c == a + (b + c)
  {
  }

  predicate Any<T>(s: seq<T>, f: T -> bool) {
    exists i :: 0 <= i < |s| && f(s[i])
  }

  lemma AnyLast<T>(s: seq<T>, f: T -> bool)
    requires s != []
    ensures Any(s, f) <==> Any(s[..|s| - 1], f) || f(s[|s| - 1])
  {
    var n := |s| - 1;
    if i :| 0 <= i < n && f(s[i]) { assert f(s[..n][i]); }
    if i :| 0 <= i < n && f(s[..n][i]) { assert f(s[i]); }
  }

  lemma EmptyOrElement<T>(s: seq<T>)
    ensures s == [] || exists x :: x in s
  {
    if s != [] { assert s[0] in s; }
  }

  /** Visits the elements in an arbitrary order. */
  method Enumerate<T(==, !new)>(keys: set<T>) returns (order: seq<T>)
    ensures Lists(order, keys)
  {
    order := [];
    var rest := keys;
    while rest != {}
      invariant rest <= keys && Distinct(order)
      invariant forall k :: k in order <==> k in keys - rest
      decreases |rest|
    {
      var k :| k in rest;
      assert forall i :: 0 <= i < |order| ==> order[i] in order;
      order := order + [k];
      rest := rest - {k};
    }
  }

  // ----- Numbers -----

  function Pow2(n: nat): nat {
    if n == 0 then 1 else 2 * Pow2(n - 1)
  }

  // ----- Text -----

  function LowerChar(c: char): char {
    if 'A' <= c <= 'Z' then c - 'A' + 'a' else c
  }

  /** ASCII lower-casing. */
  function Lower(s: string): (r: string)
    ensures |r| == |s|
  {
    if s == "" then "" else [LowerChar(s[0])] + Lower(s[1..])
  }

  /** Unicode white space. */
  predicate IsSpace(c: char) {
    || '\t' <= c <= '\r' || c == ' ' || c == '\U{0085}' || c == '\U{00A0}' || c == '\U{1680}'
    || '\U{2000}' <= c <= '\U{200A}' || c == '\U{2028}' || c == '\U{2029}' || c == '\U{202F}'
    || c == '\U{205F}' || c == '\U{3000}'
  }

  /** The text without white space at either end. */
  function Trim(s: string): (r: string)
    ensures r == "" || (!IsSpace(r[0]) && !IsSpace(r[|r| - 1]))
  {
    if s == "" then ""
    else if IsSpace(s[0]) then Trim(s[1..])
    else if IsSpace(s[|s| - 1]) then Trim(s[..|s| - 1])
    else s
  }
}

/** Base-62 numbers for 32-bit values. */
module Base62 {
  import opened Basics

  const WORD := 0x1_0000_0000

  type Uint32 = x: nat | x < WORD

  // ----- Digits -----

  /** The alphabet: decimal digits, upper-case letters, lower-case letters. */
  function DigitChar(d: nat): char
    requires d < 62
  {
    if d < 10 then '0' + d as char
    else if d < 36 then 'A' + (d - 10) as char
    else 'a' + (d - 36) as char
  }

  function DigitIndex(c: char): (r: Option<nat>)
    ensures r.Some? ==> r.value < 62 && DigitChar(r.value) == c
  {
    if '0' <= c <= '9' then Some((c - '0') as nat)
    else if 'A' <= c <= 'Z' then Some((c - 'A') as nat + 10)
    else if 'a' <= c <= 'z' then Some((c - 'a') as nat + 36)
    else None
  }

  lemma DigitRoundTrip(d: nat)
    requires d < 62
    ensures DigitIndex(DigitChar(d)) == Some(d)
  {
  }

  predicate ValidDigits(s: string) {
    forall i :: 0 <= i < |s| ==> DigitIndex(s[i]).Some?
  }

  function Pow62(k: nat): nat {
    if k == 0 then 1 else 62 * Pow62(k - 1)
  }

  /** The number that a string of digits stands for. */
  function Value(s: string): nat
    requires ValidDigits(s)
  {
    if s == "" then 0 else 62 * Value(s[..|s| - 1]) + DigitIndex(s[|s| - 1]).value
  }

  /** The digits of `n`, without leading zeros. */
  function Digits(n: nat): (s: string)
    ensures s != "" && ValidDigits(s)
  {
    if n < 62 then [DigitChar(n)] else Digits(n / 62) + [DigitChar(n % 62)]
  }

  lemma {:induction false} ValueOfDigits(n: nat)
    ensures Value(Digits(n)) == n
    decreases n
  {
    var s := Digits(n);
    if n < 62 {
      DigitRoundTrip(n);
      assert s[..0] == "";
    } else {
      ValueOfDigits(n / 62);
      DigitRoundTrip(n % 62);
      assert s[..|s| - 1] == Digits(n / 62);
    }
  }

  lemma {:induction false} NoLeadingZero(n: nat)
    ensures Digits(n)[0] == '0' <==> n == 0
    decreases n
  {
    if n >= 62 {
      NoLeadingZero(n / 62);
    }
  }

  lemma {:induction false} DigitCount(n: nat, k: nat)
    requires k > 0 && n < Pow62(k)
    ensures |Digits(n)| <= k
    decreases k
  {
    if n >= 62 {
      DigitCount(n / 62, k - 1);
    }
  }

  lemma Powers()
    ensures Pow62(0) == 1 && Pow62(1) == 62 && Pow62(2) == 3844 && Pow62(3) == 238328
    ensures Pow62(4) == 14776336 && Pow62(5) == 916132832 && Pow62(6) == 56800235584
  {
    assert Pow62(2) == 62 * Pow62(1);
    assert Pow62(4) == 62 * (62 * Pow62(2));
    assert Pow62(6) == 62 * (62 * Pow62(4));
  }

  // ----- Encoding -----

  function Reversed(s: string): string {
    seq(|s|, i requires 0 <= i < |s| => s[|s| - 1 - i])
  }

  method Reverse(s: string) returns (r: string)
    ensures r == Reversed(s)
  {
    var runes := new char[|s|](i requires 0 <= i < |s| => s[i]);
    var i, j := 0, |s| - 1;
    while i < j
      invariant 0 <= i <= |s| && i + j == |s| - 1 && j >= -1
      invariant forall k :: 0 <= k < i ==> runes[k] == s[|s| - 1 - k] && runes[|s| - 1 - k] == s[k]
      invariant forall k :: i <= k <= j ==> runes[k] == s[k]
    {
      runes[i], runes[j] := runes[j], runes[i];
      i, j := i + 1, j - 1;
    }
    r := runes[..];
  }

  lemma ReversedAppend(s: string, c: char)
    ensures Reversed(s + [c]) == [c] + Reversed(s)
  {
  }

  method Encode(num: Uint32) returns (s: string)
    ensures s == Digits(num)
  {
    if num == 0 {
      assert Digits(0) == ['0'];
      return ['0'];
    }
    var encoded: string, rest: Uint32 := "", num;
    while rest > 0
      invariant rest > 0 ==> Digits(num) == Digits(rest) + Reversed(encoded)
      invariant rest == 0 ==> Digits(num) == Reversed(encoded)
    {
      var c := DigitChar(rest % 62);
      ReversedAppend(encoded, c);
      if rest >= 62 {
        assert Digits(rest / 62) + [c] + Reversed(encoded) == Digits(rest / 62) + ([c] + Reversed(encoded));
      }
      encoded, rest := encoded + [c], rest / 62;
    }
    s := Reverse(encoded);
  }

  // ----- Decoding -----

  /** How the library turns a floating-point power from 62^6 on into 32 bits, which the language leaves open. */
  type Conversion = nat -> Uint32

  function Power(conv: Conversion, k: nat): Uint32 {
    if k <= 5 then Pow62(k) % WORD else conv(k)
  }

  function Plus(a: Uint32, b: Uint32): Uint32 {
    (a + b) % WORD
  }

  function Times(a: nat, b: Uint32): Uint32 {
    (a * b) % WORD
  }

  /** The sum after the first `i` digits, in 32 bits. */
  function Sum(conv: Conversion, s: string, i: nat): Uint32
    requires ValidDigits(s) && i <= |s|
  {
    if i == 0 then 0 else Plus(Sum(conv, s, i - 1), Times(DigitIndex(s[i - 1]).value, Power(conv, |s| - i)))
  }

  method Decode(conv: Conversion, encoded: string) returns (r: Option<Uint32>)
    ensures r.Some? <==> ValidDigits(encoded)
    ensures r.Some? ==> r.value == Sum(conv, encoded, |encoded|)
  {
    var decoded: Uint32 := 0;
    for i := 0 to |encoded|
      invariant forall j :: 0 <= j < i ==> DigitIndex(encoded[j]).Some?
      invariant ValidDigits(encoded) ==> decoded == Sum(conv, encoded, i)
    {
      var index := DigitIndex(encoded[i]);
      if index.None? { return None; }
      decoded := Plus(decoded, Times(index.value, Power(conv, |encoded| - i - 1)));
    }
    r := Some(decoded);
  }

  /** The sum after the first `i` digits, without a word size. */
  function WideSum(s: string, i: nat): nat
    requires ValidDigits(s) && i <= |s|
  {
    if i == 0 then 0 else WideSum(s, i - 1) + DigitIndex(s[i - 1]).value * Pow62(|s| - i)
  }

  lemma Distribute(v: nat, d: nat, p: nat)
    ensures v * (62 * p) + d * p == (62 * v + d) * p
  {
  }

  lemma ValuePrefix(s: string, i: nat)
    requires ValidDigits(s) && 0 < i <= |s|
    ensures Value(s[..i]) == 62 * Value(s[..i - 1]) + DigitIndex(s[i - 1]).value
  {
    assert s[..i][..i - 1] == s[..i - 1];
  }

  lemma {:induction false} WideSumValue(s: string, i: nat)
    requires ValidDigits(s) && i <= |s|
    ensures WideSum(s, i) == Value(s[..i]) * Pow62(|s| - i)
    decreases i
  {
    if i > 0 {
      WideSumValue(s, i - 1);
      ValuePrefix(s, i);
      var p := Pow62(|s| - i);
      assert Pow62(|s| - (i - 1)) == 62 * p;
      Distribute(Value(s[..i - 1]), DigitIndex(s[i - 1]).value, p);
    }
  }

  lemma WideSumWhole(s: string)
    requires ValidDigits(s)
    ensures WideSum(s, |s|) == Value(s)
  {
    WideSumValue(s, |s|);
    assert s[..|s|] == s && Pow62(0) == 1;
    assert Value(s) * 1 == Value(s);
  }

  lemma ModPlus(a: nat, b: nat)
    ensures (a % WORD + b % WORD) % WORD == (a + b) % WORD
  {
    var q, r := a / WORD, b / WORD;
    assert a + b == (a % WORD + b % WORD) + WORD * (q + r);
  }

  lemma SumStep(w: nat, d: nat, p: Uint32)
    ensures Plus(w % WORD, Times(d, p)) == (w + d * p) % WORD
  {
    ModPlus(w, d * p);
  }

  lemma PowerExact(conv: Conversion, k: nat)
    requires k <= 5
    ensures Power(conv, k) == Pow62(k)
  {
    Powers();
    PowerGrows(k, 5);
  }

  lemma {:induction false} PowerGrows(j: nat, k: nat)
    requires j <= k
    ensures Pow62(j) <= Pow62(k)
    decreases k
  {
    if j < k { PowerGrows(j, k - 1); }
  }

  /** While the powers are exact, the 32-bit sum is the wide sum cut to 32 bits. */
  lemma {:induction false} SumIsWideSum(conv: Conversion, s: string, i: nat)
    requires ValidDigits(s) && |s| <= 6 && i <= |s|
    ensures Sum(conv, s, i) == WideSum(s, i) % WORD
    decreases i
  {
    if i > 0 {
      SumIsWideSum(conv, s, i - 1);
      PowerExact(conv, |s| - i);
      SumStep(WideSum(s, i - 1), DigitIndex(s[i - 1]).value, Pow62(|s| - i));
    }
  }

  /** At most six digits decode to their value modulo 2^32. */
  lemma SixDigits(conv: Conversion, s: string)
    requires ValidDigits(s) && |s| <= 6
    ensures Sum(conv, s, |s|) == Value(s) % WORD
  {
    SumIsWideSum(conv, s, |s|);
    WideSumWhole(s);
  }

  lemma NoLess(w: nat, d: nat, p: nat)
    ensures w <= w + d * p
  {
  }

  lemma {:induction false} WideSumGrows(s: string, i: nat, j: nat)
    requires ValidDigits(s) && i <= j <= |s|
    ensures WideSum(s, i) <= WideSum(s, j)
    decreases j
  {
    if i < j {
      WideSumGrows(s, i, j - 1);
      NoLess(WideSum(s, j - 1), DigitIndex(s[j - 1]).value, Pow62(|s| - j));
    }
  }

  lemma PartialSum(s: string, i: nat)
    requires ValidDigits(s) && i <= |s|
    ensures WideSum(s, i) <= Value(s)
  {
    WideSumGrows(s, i, |s|);
    WideSumWhole(s);
  }

  lemma PartialSumsFit(s: string)
    requires ValidDigits(s) && Value(s) < WORD
    ensures forall i :: 0 <= i <= |s| ==> WideSum(s, i) < WORD
  {
    forall i | 0 <= i <= |s| ensures WideSum(s, i) < WORD { PartialSum(s, i); }
  }

  lemma FitsWord(n: nat)
    requires n < WORD
    ensures n % WORD == n
  {
  }

  lemma SixEnough(n: Uint32)
    ensures |Digits(n)| <= 6
  {
    Powers();
    DigitCount(n, 6);
  }

  lemma NoOverflow(conv: Conversion, s: string)
    requires ValidDigits(s) && |s| <= 6 && Value(s) < WORD
    ensures Sum(conv, s, |s|) == Value(s)
    ensures forall i :: 0 <= i <= |s| ==> WideSum(s, i) < WORD
  {
    SixDigits(conv, s);
    FitsWord(Value(s));
    PartialSumsFit(s);
  }

  /** Beyond six digits the leading digit is weighed by what the language makes of the power. */
  lemma LeadingDigit(conv: Conversion, s: string)
    requires ValidDigits(s) && |s| > 6
    ensures Sum(conv, s, 1) == DigitIndex(s[0]).value * conv(|s| - 1) % WORD
  {
    assert Sum(conv, s, 0) == 0;
    FitsWord(DigitIndex(s[0]).value * conv(|s| - 1) % WORD);
  }

  /** Decoding undoes encoding, and no partial sum on the way overflows. */
  lemma RoundTrip(conv: Conversion, n: Uint32)
    ensures Sum(conv, Digits(n), |Digits(n)|) == n
    ensures forall i :: 0 <= i <= |Digits(n)| ==> WideSum(Digits(n), i) < WORD
  {
    SixEnough(n);
    ValueOfDigits(n);
    NoOverflow(conv, Digits(n));
  }

  lemma EncodeInjective(m: Uint32, n: Uint32)
    requires Digits(m) == Digits(n)
    ensures m == n
  {
    ValueOfDigits(m);
    ValueOfDigits(n);
  }

  /** Six digits can exceed 32 bits, and then decode to what is left of their value. */
  lemma WrapsAround(conv: Conversion, s: string, n: Uint32)
    requires ValidDigits(s) && |s| <= 6 && Value(s) == n + WORD
    ensures Sum(conv, s, |s|) == n
  {
    SixDigits(conv, s);
    CutWord(n);
  }

  lemma CutWord(n: Uint32)
    ensures (n + WORD) % WORD == n
  {
  }
}

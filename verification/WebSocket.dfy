/**
 * The WebSocket frames of the overlay smoke server (sections 5.2 and 5.3 of RFC 6455), read from a socket that may
 * deliver its bytes in any pieces.
 */
module WebSocket {
  import opened Basics

  type Byte = x: nat | x < 256
  type Bytes = seq<Byte>

  datatype Frame = Frame(opcode: nat, payload: Bytes)

  const CLOSE := 8
  const PING := 9
  const PONG := 10
  const TEXT := 1
  const LIMIT := 0x1_0000_0000_0000_0000

  // ----- Numbers -----

  function BigEndian(n: nat, k: nat): (r: Bytes)
    ensures |r| == k
  {
    if k == 0 then [] else BigEndian(n / 256, k - 1) + [n % 256]
  }

  function FromBigEndian(s: Bytes): nat {
    if s == [] then 0 else 256 * FromBigEndian(s[..|s| - 1]) + s[|s| - 1]
  }

  function Pow256(k: nat): nat {
    if k == 0 then 1 else 256 * Pow256(k - 1)
  }

  lemma {:induction false} BigEndianRoundTrip(n: nat, k: nat)
    requires n < Pow256(k)
    ensures FromBigEndian(BigEndian(n, k)) == n
    decreases k
  {
    if k > 0 {
      BigEndianRoundTrip(n / 256, k - 1);
      assert BigEndian(n, k)[..k - 1] == BigEndian(n / 256, k - 1);
    }
  }

  lemma Sizes()
    ensures Pow256(2) == 65536 && Pow256(8) == LIMIT
  {
    assert Pow256(2) == 256 * Pow256(1);
    assert Pow256(4) == 256 * 256 * Pow256(2);
    assert Pow256(6) == 256 * 256 * Pow256(4);
    assert Pow256(8) == 256 * 256 * Pow256(6);
  }

  /** Exclusive or of the lowest `k` bits. */
  function XorBits(a: nat, b: nat, k: nat): nat {
    if k == 0 then 0 else 2 * XorBits(a / 2, b / 2, k - 1) + (if a % 2 != b % 2 then 1 else 0)
  }

  lemma {:induction false} XorBound(a: nat, b: nat, k: nat)
    ensures XorBits(a, b, k) < Pow2(k)
    decreases k
  {
    if k > 0 { XorBound(a / 2, b / 2, k - 1); }
  }

  lemma {:induction false} XorTwice(a: nat, b: nat, k: nat)
    requires a < Pow2(k)
    ensures XorBits(XorBits(a, b, k), b, k) == a
    decreases k
  {
    if k > 0 {
      XorTwice(a / 2, b / 2, k - 1);
      var x := XorBits(a, b, k);
      assert x / 2 == XorBits(a / 2, b / 2, k - 1);
      assert x % 2 == if a % 2 != b % 2 then 1 else 0;
    }
  }

  /** Bit `i` of a number. */
  predicate Bit(n: nat, i: nat)
    decreases i
  {
    if i == 0 then n % 2 == 1 else Bit(n / 2, i - 1)
  }

  lemma {:induction false} XorBitsAt(a: nat, b: nat, k: nat, i: nat)
    requires i < k
    ensures Bit(XorBits(a, b, k), i) <==> Bit(a, i) != Bit(b, i)
    decreases k
  {
    var x := XorBits(a, b, k);
    assert x / 2 == XorBits(a / 2, b / 2, k - 1);
    assert x % 2 == if a % 2 != b % 2 then 1 else 0;
    if i > 0 { XorBitsAt(a / 2, b / 2, k - 1, i - 1); }
  }

  function Xor(a: Byte, b: Byte): Byte {
    XorBound(a, b, 8);
    assert Pow2(8) == 256 by { assert Pow2(4) == 16; assert Pow2(8) == 16 * Pow2(4); }
    XorBits(a, b, 8)
  }

  lemma XorByteTwice(a: Byte, b: Byte)
    ensures Xor(Xor(a, b), b) == a
  {
    assert Pow2(8) == 256 by { assert Pow2(4) == 16; assert Pow2(8) == 16 * Pow2(4); }
    XorTwice(a, b, 8);
  }

  /** Exclusive or, bit by bit. */
  lemma XorAt(a: Byte, b: Byte, i: nat)
    requires i < 8
    ensures Bit(Xor(a, b), i) <==> Bit(a, i) != Bit(b, i)
  {
    XorBitsAt(a, b, 8, i);
  }

  function Masked(p: Bytes, mask: Bytes): Bytes
    requires |mask| == 4
  {
    seq(|p|, i requires 0 <= i < |p| => Xor(p[i], mask[i % 4]))
  }

  lemma MaskedTwice(p: Bytes, mask: Bytes)
    requires |mask| == 4
    ensures Masked(Masked(p, mask), mask) == p
  {
    forall i | 0 <= i < |p| ensures Masked(Masked(p, mask), mask)[i] == p[i] {
      XorByteTwice(p[i], mask[i % 4]);
    }
  }

  // ----- Writing -----

  function Length(n: nat, flag: nat): Bytes
    requires n < LIMIT && (flag == 0 || flag == 128)
  {
    if n < 126 then [flag + n]
    else if n < 65536 then [flag + 126] + BigEndian(n, 2)
    else [flag + 127] + BigEndian(n, 8)
  }

  /** What the server writes: one final frame without a mask. */
  function Encode(f: Frame): Bytes
    requires f.opcode < 16 && |f.payload| < LIMIT
  {
    [128 + f.opcode] + Length(|f.payload|, 0) + f.payload
  }

  /** What a client sends: the same with a mask; the upper four bits of the first byte do not matter. */
  function EncodeMasked(f: Frame, upper: nat, mask: Bytes): Bytes
    requires f.opcode < 16 && upper < 16 && |f.payload| < LIMIT && |mask| == 4
  {
    [16 * upper + f.opcode] + Length(|f.payload|, 128) + mask + Masked(f.payload, mask)
  }

  // ----- Reading -----

  datatype Taken = Taken(bytes: Option<Bytes>, rest: Bytes)

  /** Reading exactly `n` bytes; a stream that ends early is used up. */
  function Take(s: Bytes, n: nat): Taken {
    if n <= |s| then Taken(Some(s[..n]), s[n..]) else Taken(None, [])
  }

  datatype Read = Read(frame: Option<Frame>, rest: Bytes)

  function ReadLength(s: Bytes, short: nat): Taken
    requires short < 128
  {
    if short == 126 then Take(s, 2) else if short == 127 then Take(s, 8) else Taken(Some([short]), s)
  }

  function ReadPayload(s: Bytes, opcode: nat, masked: bool, n: nat): Read {
    var m := Take(s, if masked then 4 else 0);
    if m.bytes.None? then Read(None, m.rest) else
    var p := Take(m.rest, n);
    if p.bytes.None? then Read(None, p.rest)
    else Read(Some(Frame(opcode, if masked then Masked(p.bytes.value, m.bytes.value) else p.bytes.value)), p.rest)
  }

  function ReadFrame(s: Bytes): Read {
    var h := Take(s, 2);
    if h.bytes.None? then Read(None, h.rest) else
    var first, second := h.bytes.value[0], h.bytes.value[1];
    var l := ReadLength(h.rest, second % 128);
    if l.bytes.None? then Read(None, l.rest)
    else ReadPayload(l.rest, first % 16, second >= 128, FromBigEndian(l.bytes.value))
  }

  // ----- The socket -----

  function Join(chunks: seq<Bytes>): Bytes {
    if chunks == [] then [] else Join(chunks[..|chunks| - 1]) + chunks[|chunks| - 1]
  }

  class Socket {
    var incoming: Bytes
    var outgoing: Bytes

    /** Delivers any nonempty piece of at most `n` bytes; an empty piece only when the peer is done. */
    method Recv(n: nat) returns (chunk: Bytes)
      modifies this`incoming
      ensures chunk + incoming == old(incoming) && |chunk| <= n
      ensures n > 0 && old(incoming) != [] ==> chunk != []
    {
      if n == 0 || incoming == [] { return []; }
      var k: nat :| 1 <= k <= n && k <= |incoming|;
      chunk := incoming[..k];
      incoming := incoming[k..];
    }

    method ReadExact(size: nat) returns (r: Option<Bytes>)
      modifies this`incoming
      ensures Taken(r, incoming) == Take(old(incoming), size)
    {
      var chunks: seq<Bytes> := [];
      var remaining: nat := size;
      while remaining > 0
        invariant Join(chunks) + incoming == old(incoming) && |Join(chunks)| + remaining == size
      {
        var chunk := Recv(remaining);
        if chunk == [] {
          assert incoming == [] && |old(incoming)| == |Join(chunks)|;
          return None;
        }
        assert (chunks + [chunk])[..|chunks|] == chunks;
        assert Join(chunks) + (chunk + incoming) == (Join(chunks) + chunk) + incoming;
        chunks := chunks + [chunk];
        remaining := remaining - |chunk|;
      }
      r := Some(Join(chunks));
      TakeFront(Join(chunks), incoming);
    }

    method ReadWsFrame() returns (r: Option<Frame>)
      modifies this`incoming
      ensures Read(r, incoming) == ReadFrame(old(incoming))
    {
      var header := ReadExact(2);
      if header.None? { return None; }
      var first, second := header.value[0], header.value[1];
      var length := second % 128;
      if length == 126 {
        var extended := ReadExact(2);
        if extended.None? { return None; }
        length := FromBigEndian(extended.value);
      } else if length == 127 {
        var extended := ReadExact(8);
        if extended.None? { return None; }
        length := FromBigEndian(extended.value);
      } else {
        OneByte(length);
      }
      r := ReadBody(first % 16, second >= 128, length);
    }

    method ReadBody(opcode: nat, masked: bool, length: nat) returns (r: Option<Frame>)
      modifies this`incoming
      ensures Read(r, incoming) == ReadPayload(old(incoming), opcode, masked, length)
    {
      var mask: Bytes := [];
      assert incoming[0..] == incoming;
      if masked {
        var m := ReadExact(4);
        if m.None? { return None; }
        mask := m.value;
      }
      var payload := ReadExact(length);
      if payload.None? { return None; }
      r := Some(Frame(opcode, if masked then Masked(payload.value, mask) else payload.value));
    }

    method WriteWsFrame(f: Frame)
      requires f.opcode < 16 && |f.payload| < LIMIT
      modifies this`outgoing
      ensures outgoing == old(outgoing) + Encode(f)
    {
      var first, length := 128 + f.opcode, |f.payload|;
      var header: Bytes;
      if length < 126 {
        header := [first, length];
      } else if length < 65536 {
        header := [first, 126] + BigEndian(length, 2);
      } else {
        header := [first, 127] + BigEndian(length, 8);
      }
      assert header == [first] + Length(length, 0);
      outgoing := outgoing + (header + f.payload);
    }
  }

  // ----- Round trips -----

  lemma TakeFront(x: Bytes, y: Bytes)
    ensures Take(x + y, |x|) == Taken(Some(x), y)
  {
    assert (x + y)[..|x|] == x && (x + y)[|x|..] == y;
  }

  lemma OneByte(n: Byte)
    ensures FromBigEndian([n]) == n
  {
    assert [n][..0] == [];
  }

  lemma HeaderReadBack(first: Byte, second: Byte, more: Bytes)
    ensures var l := ReadLength(more, second % 128);
            ReadFrame([first, second] + more) ==
            if l.bytes.None? then Read(None, l.rest)
            else ReadPayload(l.rest, first % 16, second >= 128, FromBigEndian(l.bytes.value))
  {
    TakeFront([first, second], more);
  }

  /** The length field is read back, whichever of its three forms it has. */
  lemma LongLength(head: Byte, n: nat, k: nat, rest: Bytes)
    requires n < Pow256(k)
    ensures Take(([head] + BigEndian(n, k))[1..] + rest, k) == Taken(Some(BigEndian(n, k)), rest)
    ensures FromBigEndian(BigEndian(n, k)) == n
  {
    BigEndianRoundTrip(n, k);
    assert ([head] + BigEndian(n, k))[1..] == BigEndian(n, k);
    TakeFront(BigEndian(n, k), rest);
  }

  /** Seven bits of length under one bit of flag. */
  lemma FlagAndLength(flag: nat, v: nat)
    requires v < 128 && (flag == 0 || flag == 128)
    ensures (flag + v) % 128 == v && (flag + v >= 128 <==> flag == 128)
  {
  }

  lemma LengthField(n: nat, flag: nat, rest: Bytes)
    requires n < LIMIT && (flag == 0 || flag == 128)
    ensures var field := Length(n, flag);
            var l := ReadLength(field[1..] + rest, field[0] % 128);
            l.bytes.Some? && FromBigEndian(l.bytes.value) == n && l.rest == rest
    ensures Length(n, flag)[0] >= 128 <==> flag == 128
  {
    var field := Length(n, flag);
    Sizes();
    if n < 126 {
      FlagAndLength(flag, n);
      assert field[1..] + rest == rest;
      OneByte(n);
    } else if n < 65536 {
      FlagAndLength(flag, 126);
      LongLength(flag + 126, n, 2, rest);
    } else {
      FlagAndLength(flag, 127);
      LongLength(flag + 127, n, 8, rest);
    }
  }

  lemma LengthReadBack(n: nat, flag: nat, first: Byte, rest: Bytes)
    requires n < LIMIT && (flag == 0 || flag == 128)
    ensures ReadFrame([first] + Length(n, flag) + rest) == ReadPayload(rest, first % 16, flag == 128, n)
  {
    var field := Length(n, flag);
    assert [first] + field + rest == [first, field[0]] + (field[1..] + rest);
    LengthField(n, flag, rest);
    HeaderReadBack(first, field[0], field[1..] + rest);
  }

  lemma PlainPayload(p: Bytes, opcode: nat, rest: Bytes)
    ensures ReadPayload(p + rest, opcode, false, |p|) == Read(Some(Frame(opcode, p)), rest)
  {
    TakeFront(p, rest);
    assert (p + rest)[0..] == p + rest;
  }

  /** A written frame is read back whole, and nothing more is consumed. */
  lemma FrameRoundTrip(f: Frame, rest: Bytes)
    requires f.opcode < 16 && |f.payload| < LIMIT
    ensures ReadFrame(Encode(f) + rest) == Read(Some(f), rest)
  {
    var n := |f.payload|;
    Associate([128 + f.opcode] + Length(n, 0), f.payload, rest);
    LengthReadBack(n, 0, 128 + f.opcode, f.payload + rest);
    PlainPayload(f.payload, f.opcode, rest);
  }

  lemma LowBits(upper: nat, opcode: nat)
    requires upper < 16 && opcode < 16
    ensures (16 * upper + opcode) % 16 == opcode && 16 * upper + opcode < 256
  {
  }

  /** A masked frame is read back with its mask removed. */
  lemma MaskedRoundTrip(f: Frame, upper: nat, mask: Bytes, rest: Bytes)
    requires f.opcode < 16 && upper < 16 && |f.payload| < LIMIT && |mask| == 4
    ensures ReadFrame(EncodeMasked(f, upper, mask) + rest) == Read(Some(f), rest)
  {
    var p := Masked(f.payload, mask);
    var header := [16 * upper + f.opcode] + Length(|f.payload|, 128);
    Associate(header + mask, p, rest);
    Associate(header, mask, p + rest);
    LowBits(upper, f.opcode);
    LengthReadBack(|f.payload|, 128, 16 * upper + f.opcode, mask + (p + rest));
    MaskedPayload(f.payload, mask, f.opcode, rest);
  }

  lemma MaskedPayload(payload: Bytes, mask: Bytes, opcode: nat, rest: Bytes)
    requires |mask| == 4
    ensures ReadPayload(mask + (Masked(payload, mask) + rest), opcode, true, |payload|) == Read(Some(Frame(opcode, payload)), rest)
  {
    MaskedBody(mask, Masked(payload, mask), opcode, rest);
    MaskedTwice(payload, mask);
  }

  // ----- The bytes on the wire -----

  /** A written frame byte by byte: the final bit and the opcode, the length in one, three or nine bytes, the payload. */
  lemma WrittenBytes(f: Frame)
    requires f.opcode < 16 && |f.payload| < LIMIT
    ensures var n := |f.payload|;
            Encode(f) ==
            [0x80 + f.opcode] +
            (if n < 126 then [n]
             else if n < 0x10000 then [126, n / 256, n % 256]
             else [127] + BigEndian(n, 8)) + f.payload
    ensures |BigEndian(|f.payload|, 8)| == 8 && FromBigEndian(BigEndian(|f.payload|, 8)) == |f.payload|
  {
    var n := |f.payload|;
    Sizes();
    BigEndianRoundTrip(n, 8);
    assert BigEndian(n / 256, 1) == BigEndian(n / 256 / 256, 0) + [n / 256 % 256];
    assert BigEndian(n, 2) == BigEndian(n / 256, 1) + [n % 256];
  }

  /** The value of bytes, most significant first. */
  lemma BytesValue(s: Bytes, b: Byte)
    ensures FromBigEndian([]) == 0 && FromBigEndian(s + [b]) == 256 * FromBigEndian(s) + b
  {
    assert (s + [b])[..|s|] == s;
  }

  lemma ShortHeader(first: Byte, masked: bool, n: nat, more: Bytes)
    requires n < 126
    ensures ReadFrame([first, (if masked then 128 else 0) + n] + more) == ReadPayload(more, first % 16, masked, n)
  {
    var flag := if masked then 128 else 0;
    FlagAndLength(flag, n);
    OneByte(n);
    HeaderReadBack(first, flag + n, more);
  }

  lemma MaskedAt(body: Bytes, mask: Bytes)
    requires |mask| == 4
    ensures |Masked(body, mask)| == |body|
    ensures forall i :: 0 <= i < |body| ==> Masked(body, mask)[i] == Xor(body[i], mask[i % 4])
  {
  }

  /** A short masked frame as a client sends it: the mask is removed byte by byte, in turn. */
  lemma ReadsMasked(first: Byte, mask: Bytes, body: Bytes, rest: Bytes)
    requires |mask| == 4 && |body| < 126
    ensures var r := ReadFrame([first, 0x80 + |body|] + (mask + (body + rest)));
            && r.frame.Some? && r.rest == rest && r.frame.value.opcode == first % 16
            && |r.frame.value.payload| == |body|
            && forall i :: 0 <= i < |body| ==> r.frame.value.payload[i] == Xor(body[i], mask[i % 4])
  {
    ShortHeader(first, true, |body|, mask + (body + rest));
    MaskedBody(mask, body, first % 16, rest);
    MaskedAt(body, mask);
  }

  lemma MaskedBody(mask: Bytes, body: Bytes, opcode: nat, rest: Bytes)
    requires |mask| == 4
    ensures ReadPayload(mask + (body + rest), opcode, true, |body|) == Read(Some(Frame(opcode, Masked(body, mask))), rest)
  {
    TakeFront(mask, body + rest);
    TakeFront(body, rest);
  }

  /** A short frame without a mask. */
  lemma ReadsPlain(first: Byte, body: Bytes, rest: Bytes)
    requires |body| < 126
    ensures ReadFrame([first, |body|] + (body + rest)) == Read(Some(Frame(first % 16, body)), rest)
  {
    ShortHeader(first, false, |body|, body + rest);
    PlainPayload(body, first % 16, rest);
  }

  /** A stream that ends before a frame is complete gives none. */
  lemma ReadsNothing(s: Bytes)
    requires |s| < 2
    ensures ReadFrame(s).frame.None?
  {
  }

  // ----- Streams of frames -----

  ghost predicate Sendable(fs: seq<Frame>) {
    forall f :: f in fs ==> f.opcode < 16 && |f.payload| < LIMIT
  }

  function EncodeAll(fs: seq<Frame>): Bytes
    requires Sendable(fs)
  {
    if fs == [] then [] else assert fs[0] in fs; Encode(fs[0]) + EncodeAll(fs[1..])
  }

  /** Reading frames until the stream ends. */
  function ReadAll(s: Bytes): seq<Frame>
    decreases |s|
  {
    var r := ReadFrame(s);
    if r.frame.None? then [] else ReadShrinks(s); [r.frame.value] + ReadAll(r.rest)
  }

  lemma ReadShrinks(s: Bytes)
    requires ReadFrame(s).frame.Some?
    ensures |ReadFrame(s).rest| < |s|
  {
  }

  lemma ReadAllCons(s: Bytes, f: Frame, rest: Bytes)
    requires ReadFrame(s) == Read(Some(f), rest)
    ensures ReadAll(s) == [f] + ReadAll(rest)
  {
    ReadShrinks(s);
  }

  /** Any sequence of written frames is read back frame by frame, and the bytes are used up exactly. */
  lemma {:induction false} StreamRoundTrip(fs: seq<Frame>)
    requires Sendable(fs)
    ensures ReadAll(EncodeAll(fs)) == fs
    decreases |fs|
  {
    if fs != [] {
      assert fs[0] in fs;
      FrameRoundTrip(fs[0], EncodeAll(fs[1..]));
      ReadAllCons(EncodeAll(fs), fs[0], EncodeAll(fs[1..]));
      StreamRoundTrip(fs[1..]);
      assert fs == [fs[0]] + fs[1..];
    }
  }

  // ----- The echo session -----

  const PREFIX: Bytes := [97, 110, 111, 110, 98, 105, 114, 100, 45, 119, 115, 58]  // anonbird-ws:

  /** The frame that answers `f`, if any. */
  function Reply(f: Frame): Option<Frame> {
    if f.opcode == CLOSE then Some(Frame(CLOSE, []))
    else if f.opcode == PING then Some(Frame(PONG, f.payload))
    else if f.opcode == TEXT then Some(Frame(TEXT, PREFIX + f.payload))
    else None
  }

  /** The answers to a sequence of frames: none after the first close. */
  function Replies(fs: seq<Frame>): seq<Frame> {
    if fs == [] then []
    else if fs[0].opcode == CLOSE then [Frame(CLOSE, [])]
    else (if Reply(fs[0]).Some? then [Reply(fs[0]).value] else []) + Replies(fs[1..])
  }

  function Ascii(s: string): Bytes
    requires forall i :: 0 <= i < |s| ==> s[i] < 128 as char
  {
    seq(|s|, i requires 0 <= i < |s| => s[i] as int)
  }

  /** A text message comes back with a prefix, a ping as a pong, a close as a close; nothing else is answered. */
  lemma ReplyIs(payload: Bytes, opcode: nat)
    ensures Reply(Frame(1, payload)) == Some(Frame(1, Ascii("anonbird-ws:") + payload))
    ensures Reply(Frame(9, payload)) == Some(Frame(10, payload))
    ensures Reply(Frame(8, payload)) == Some(Frame(8, []))
    ensures opcode !in {1, 8, 9} ==> Reply(Frame(opcode, payload)).None?
  {
    assert Ascii("anonbird-ws:") == PREFIX;
  }

  /** The session answers frame by frame up to the first close, and nothing after it. */
  lemma {:induction false} RepliesIs(fs: seq<Frame>, close: Frame, after: seq<Frame>)
    requires (forall f :: f in fs ==> f.opcode != 8) && close.opcode == 8
    ensures Replies(fs + [close] + after) == Replies(fs) + [Frame(8, [])]
    ensures fs != [] ==> Replies(fs) == (if Reply(fs[0]).Some? then [Reply(fs[0]).value] else []) + Replies(fs[1..])
    decreases |fs|
  {
    if fs == [] {
      assert (fs + [close] + after)[0] == close;
    } else {
      assert fs[0] in fs && fs[0].opcode != 8;
      assert (fs + [close] + after)[0] == fs[0] && (fs + [close] + after)[1..] == fs[1..] + [close] + after;
      RepliesIs(fs[1..], close, after);
      Associate(if Reply(fs[0]).Some? then [Reply(fs[0]).value] else [], Replies(fs[1..]), [Frame(8, [])]);
    }
  }

  ghost predicate Small(s: Bytes) {
    |s| + |PREFIX| < LIMIT
  }

  lemma ReadSmall(s: Bytes)
    requires ReadFrame(s).frame.Some?
    ensures |ReadFrame(s).frame.value.payload| <= |s| && ReadFrame(s).frame.value.opcode < 16
  {
  }

  lemma {:induction false} RepliesSendable(s: Bytes)
    requires Small(s)
    ensures Sendable(Replies(ReadAll(s)))
    decreases |s|
  {
    var r := ReadFrame(s);
    if r.frame.Some? {
      ReadShrinks(s);
      ReadSmall(s);
      RepliesSendable(r.rest);
      assert ReadAll(s)[1..] == ReadAll(r.rest);
    }
  }

  function Encoded(f: Option<Frame>): Bytes
    requires f.Some? ==> f.value.opcode < 16 && |f.value.payload| < LIMIT
  {
    if f.Some? then Encode(f.value) else []
  }

  class Session {
    const conn: Socket

    constructor (conn: Socket)
      ensures this.conn == conn
    {
      this.conn := conn;
    }

    /** Answers frames until the peer closes; stops reading after a close frame. */
    method Serve()
      requires Small(conn.incoming)
      modifies conn
      ensures Sendable(Replies(ReadAll(old(conn.incoming))))
      ensures conn.outgoing == old(conn.outgoing) + EncodeAll(Replies(ReadAll(old(conn.incoming))))
    {
      ghost var s := conn.incoming;
      RepliesSendable(s);
      assert conn.outgoing + EncodeAll([]) == conn.outgoing;
      while true
        invariant Small(conn.incoming) && Sendable(Replies(ReadAll(conn.incoming)))
        invariant conn.outgoing + EncodeAll(Replies(ReadAll(conn.incoming))) == old(conn.outgoing) + EncodeAll(Replies(ReadAll(s)))
        decreases |conn.incoming|
      {
        ghost var now, out := conn.incoming, conn.outgoing;
        var frame := conn.ReadWsFrame();
        if frame.None? {
          assert EncodeAll(Replies(ReadAll(now))) == [];
          return;
        }
        ReadShrinks(now);
        ReadSmall(now);
        SessionStep(now);
        RepliesSendable(conn.incoming);
        Answer(frame.value);
        if frame.value.opcode == CLOSE { return; }
        Associate(out, Encoded(Reply(frame.value)), EncodeAll(Replies(ReadAll(conn.incoming))));
      }
    }

    /** Writes the reply to one frame, if there is one. */
    method Answer(f: Frame)
      requires Reply(f).Some? ==> Reply(f).value.opcode < 16 && |Reply(f).value.payload| < LIMIT
      modifies conn`outgoing
      ensures conn.outgoing == old(conn.outgoing) + Encoded(Reply(f))
    {
      if f.opcode == CLOSE {
        conn.WriteWsFrame(Frame(CLOSE, []));
      } else if f.opcode == PING {
        conn.WriteWsFrame(Frame(PONG, f.payload));
      } else if f.opcode == TEXT {
        conn.WriteWsFrame(Frame(TEXT, PREFIX + f.payload));
      }
    }
  }

  /** The bytes owed for a stream: those for its first frame, then those for the rest. */
  lemma SessionStep(s: Bytes)
    requires Small(s) && ReadFrame(s).frame.Some? && Sendable(Replies(ReadAll(s)))
    ensures var f, rest := ReadFrame(s).frame.value, ReadFrame(s).rest;
            && Sendable(Replies(ReadAll(rest)))
            && (Reply(f).Some? ==> Reply(f).value.opcode < 16 && |Reply(f).value.payload| < LIMIT)
            && EncodeAll(Replies(ReadAll(s))) ==
               Encoded(Reply(f)) + if f.opcode == CLOSE then [] else EncodeAll(Replies(ReadAll(rest)))
  {
    var f, rest := ReadFrame(s).frame.value, ReadFrame(s).rest;
    ReadShrinks(s);
    ReadSmall(s);
    RepliesSendable(rest);
    assert ReadAll(s) == [f] + ReadAll(rest) && ReadAll(s)[1..] == ReadAll(rest);
    if f.opcode == CLOSE {
      assert [Frame(CLOSE, [])][1..] == [];
    } else if Reply(f).Some? {
      assert ([Reply(f).value] + Replies(ReadAll(rest)))[1..] == Replies(ReadAll(rest));
    } else {
      assert [] + Replies(ReadAll(rest)) == Replies(ReadAll(rest));
    }
  }

  datatype Sent = Sent(frame: Frame, upper: nat, mask: Bytes)

  ghost predicate WellSent(xs: seq<Sent>) {
    forall x :: x in xs ==> x.frame.opcode < 16 && |x.frame.payload| < LIMIT && x.upper < 16 && |x.mask| == 4
  }

  function SentBytes(xs: seq<Sent>): Bytes
    requires WellSent(xs)
  {
    if xs == [] then [] else assert xs[0] in xs; EncodeMasked(xs[0].frame, xs[0].upper, xs[0].mask) + SentBytes(xs[1..])
  }

  function FramesOf(xs: seq<Sent>): seq<Frame> {
    if xs == [] then [] else [xs[0].frame] + FramesOf(xs[1..])
  }

  lemma {:induction false} SentReadBack(xs: seq<Sent>)
    requires WellSent(xs)
    ensures ReadAll(SentBytes(xs)) == FramesOf(xs)
    decreases |xs|
  {
    if xs != [] {
      assert xs[0] in xs;
      MaskedRoundTrip(xs[0].frame, xs[0].upper, xs[0].mask, SentBytes(xs[1..]));
      SentReadBack(xs[1..]);
    }
  }

  /** Whatever the client sends, under whatever masks, it reads back exactly the replies to its frames. */
  lemma EchoSession(xs: seq<Sent>)
    requires WellSent(xs) && Small(SentBytes(xs))
    ensures Sendable(Replies(ReadAll(SentBytes(xs))))
    ensures ReadAll(EncodeAll(Replies(ReadAll(SentBytes(xs))))) == Replies(FramesOf(xs))
  {
    SentReadBack(xs);
    RepliesSendable(SentBytes(xs));
    StreamRoundTrip(Replies(ReadAll(SentBytes(xs))));
  }
}

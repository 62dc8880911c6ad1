/** The WebSocket framing of the embedded firehose (sections 5.2 and 5.3 of RFC 6455). */
module WebSocketFrames {
  import opened Wrappers

  const MAX_CLIENT_FRAME: nat := 65536
  const U64: nat := 0x1_0000_0000_0000_0000

  datatype Read = Frame(opcode: nat, payload: seq<Byte>, rest: seq<Byte>) | Short | TooLarge

  // ---- masking ----

  /** Exclusive or, bit by bit. */
  function XorNat(a: nat, b: nat): nat
    decreases a + b
  {
    if a == 0 && b == 0 then 0
    else 2 * XorNat(a / 2, b / 2) + (if a % 2 == b % 2 then 0 else 1)
  }

  function Pow2(n: nat): nat { if n == 0 then 1 else 2 * Pow2(n - 1) }

  lemma {:induction false} XorBound(a: nat, b: nat, n: nat)
    requires a < Pow2(n) && b < Pow2(n)
    ensures XorNat(a, b) < Pow2(n)
  {
    if n == 0 {
    } else {
      XorBound(a / 2, b / 2, n - 1);
    }
  }

  lemma {:induction false} XorCancels(a: nat, b: nat)
    ensures XorNat(XorNat(a, b), b) == a
    decreases a + b
  {
    if a == 0 && b == 0 {
    } else {
      XorCancels(a / 2, b / 2);
      var r := XorNat(a, b);
      assert r / 2 == XorNat(a / 2, b / 2);
      assert r == 0 && b == 0 ==> a == 0 by { XorZero(a); }
    }
  }

  lemma {:induction false} XorZero(a: nat)
    ensures XorNat(a, 0) == a
  {
    if a == 0 {
    } else {
      XorZero(a / 2);
    }
  }

  /** Exclusive or of two bytes. */
  function Xor(a: Byte, b: Byte): Byte {
    assert Pow2(8) == 256;
    XorBound(a, b, 8);
    XorNat(a, b)
  }

  /** Masking twice with the same key byte is the identity. */
  lemma XorTwice(a: Byte, b: Byte)
    ensures Xor(Xor(a, b), b) == a
  {
    XorCancels(a, b);
  }

  function Masked(payload: seq<Byte>, mask: seq<Byte>): seq<Byte>
    requires |mask| == 4
  {
    seq(|payload|, i requires 0 <= i < |payload| => Xor(payload[i], mask[i % 4]))
  }

  lemma MaskTwice(payload: seq<Byte>, mask: seq<Byte>)
    requires |mask| == 4
    ensures Masked(Masked(payload, mask), mask) == payload
  {
    forall i | 0 <= i < |payload| ensures Masked(Masked(payload, mask), mask)[i] == payload[i] {
      XorTwice(payload[i], mask[i % 4]);
    }
  }

  /** The receive buffer is unmasked in place. */
  method Unmask(buf: array<Byte>, mask: seq<Byte>)
    requires |mask| == 4
    modifies buf
    ensures buf[..] == Masked(old(buf[..]), mask)
  {
    for i := 0 to buf.Length
      invariant forall k :: 0 <= k < i ==> buf[k] == Xor(old(buf[k]), mask[k % 4])
      invariant forall k :: i <= k < buf.Length ==> buf[k] == old(buf[k])
    {
      buf[i] := Xor(buf[i], mask[i % 4]);
    }
  }

  // ---- lengths ----

  function BigEndian(n: nat, k: nat): (s: seq<Byte>)
    ensures |s| == k
  {
    if k == 0 then [] else BigEndian(n / 256, k - 1) + [n % 256]
  }

  function FromBigEndian(s: seq<Byte>): nat {
    if s == [] then 0 else 256 * FromBigEndian(s[..|s| - 1]) + s[|s| - 1]
  }

  function Pow256(k: nat): nat { if k == 0 then 1 else 256 * Pow256(k - 1) }

  lemma {:induction false} BigEndianRoundTrip(n: nat, k: nat)
    requires n < Pow256(k)
    ensures FromBigEndian(BigEndian(n, k)) == n
  {
    if k == 0 {
    } else {
      BigEndianRoundTrip(n / 256, k - 1);
      assert BigEndian(n, k)[..k - 1] == BigEndian(n / 256, k - 1);
    }
  }

  lemma Pow256Values()
    ensures Pow256(2) == 65536 && Pow256(8) == U64
  {
    assert Pow256(4) == 65536 * Pow256(2);
    assert Pow256(6) == 65536 * Pow256(4);
    assert Pow256(8) == 65536 * Pow256(6);
  }

  /** The length field: 7 bits, or an escape and 16 or 64 bits. `flag` is the mask bit. */
  function LengthField(n: nat, flag: nat): seq<Byte>
    requires flag == 0 || flag == 128
  {
    if n < 126 then [n + flag]
    else if n <= 65535 then [126 + flag] + BigEndian(n, 2)
    else [127 + flag] + BigEndian(n, 8)
  }

  /** An unmasked frame with FIN set, as the server writes it. */
  function Encode(opcode: nat, payload: seq<Byte>): seq<Byte> {
    [128 + opcode % 16] + LengthField(|payload|, 0) + payload
  }

  /** A masked frame, as a client sends it. */
  function EncodeMasked(opcode: nat, payload: seq<Byte>, mask: seq<Byte>): seq<Byte>
    requires |mask| == 4
  {
    [128 + opcode % 16] + LengthField(|payload|, 128) + mask + Masked(payload, mask)
  }

  /** `write_frame`: the header is built byte by byte. */
  method WriteFrame(opcode: nat, payload: seq<Byte>) returns (bytes: seq<Byte>)
    requires |payload| < U64
    ensures bytes == Encode(opcode, payload)
  {
    var header: seq<Byte> := [128 + opcode % 16];
    var n := |payload|;
    if n < 126 {
      header := header + [n];
    } else if n <= 0xffff {
      header := header + [126];
      header := header + BigEndian(n, 2);
    } else {
      header := header + [127];
      header := header + BigEndian(n, 8);
    }
    bytes := header + payload;
  }

  // ---- reading ----

  /** The payload length and what follows the length field; `None` when the stream ends. */
  function ReadLength(second: Byte, s: seq<Byte>): (r: (bool, nat, seq<Byte>)) {
    var n := second % 128;
    if n == 126 then (if |s| < 2 then (false, 0, []) else (true, FromBigEndian(s[..2]), s[2..]))
    else if n == 127 then (if |s| < 8 then (false, 0, []) else (true, FromBigEndian(s[..8]), s[8..]))
    else (true, n, s)
  }

  /** One frame off the front of a byte stream, or why there is none. */
  function Decode(s: seq<Byte>): Read {
    if |s| < 2 then Short
    else
      var (ok, n, body) := ReadLength(s[1], s[2..]);
      if !ok then Short
      else if MAX_CLIENT_FRAME < n then TooLarge
      else
        var keyLen := if 128 <= s[1] then 4 else 0;
        if |body| < keyLen + n then Short
        else
          var data := body[keyLen..keyLen + n];
          Frame(s[0] % 16, if keyLen == 4 then Masked(data, body[..4]) else data, body[keyLen + n..])
  }

  /** Reads the extended length, if the second byte announces one. */
  method ReadExtended(s: seq<Byte>) returns (ok: bool, len: nat, at: nat)
    requires 2 <= |s|
    ensures ok == ReadLength(s[1], s[2..]).0
    ensures ok ==> 2 <= at <= |s| && ReadLength(s[1], s[2..]) == (true, len, s[at..])
  {
    ok, len, at := true, s[1] % 128, 2;
    if len == 126 {
      if |s| < 4 {
        return false, 0, 0;
      }
      assert s[2..][..2] == s[2..4] && s[2..][2..] == s[4..];
      len, at := FromBigEndian(s[2..4]), 4;
    } else if len == 127 {
      if |s| < 10 {
        return false, 0, 0;
      }
      assert s[2..][..8] == s[2..10] && s[2..][8..] == s[10..];
      len, at := FromBigEndian(s[2..10]), 10;
    }
  }

  /** Reads `len` payload bytes into a buffer and unmasks them there. */
  method ReadPayload(body: seq<Byte>, masked: bool, len: nat) returns (ok: bool, payload: seq<Byte>)
    ensures var k := if masked then 4 else 0;
      && (ok <==> k + len <= |body|)
      && (ok ==> payload == if masked then Masked(body[4..4 + len], body[..4]) else body[..len])
  {
    var start := if masked then 4 else 0;
    if |body| < start + len {
      return false, [];
    }
    var buf := new Byte[len](i requires 0 <= i < len => body[start + i]);
    assert buf[..] == body[start..start + len];
    if masked {
      Unmask(buf, body[..4]);
    }
    ok, payload := true, buf[..];
  }

  /** `read_frame`. */
  method ReadFrame(s: seq<Byte>) returns (r: Read)
    ensures r == Decode(s)
  {
    if |s| < 2 {
      return Short;
    }
    var ok, len, at := ReadExtended(s);
    if !ok {
      return Short;
    }
    if len > MAX_CLIENT_FRAME {
      return TooLarge;
    }
    var masked := 128 <= s[1];
    var enough, payload := ReadPayload(s[at..], masked, len);
    if !enough {
      return Short;
    }
    var k := if masked then 4 else 0;
    r := Frame(s[0] % 16, payload, s[at..][k + len..]);
  }

  lemma ReadBackLength(n: nat, flag: nat, rest: seq<Byte>)
    requires (flag == 0 || flag == 128) && n < U64
    ensures var f := LengthField(n, flag);
      && 1 <= |f| && (128 <= f[0] <==> flag == 128)
      && ReadLength(f[0], f[1..] + rest) == (true, n, rest)
  {
    Pow256Values();
    var f := LengthField(n, flag);
    if 126 <= n <= 65535 {
      BigEndianRoundTrip(n, 2);
      assert f[1..] == BigEndian(n, 2) && (f[1..] + rest)[..2] == BigEndian(n, 2) && (f[1..] + rest)[2..] == rest;
    } else if 65535 < n {
      BigEndianRoundTrip(n, 8);
      assert f[1..] == BigEndian(n, 8) && (f[1..] + rest)[..8] == BigEndian(n, 8) && (f[1..] + rest)[8..] == rest;
    } else {
      assert f[1..] + rest == rest;
    }
  }

  lemma {:induction false} HeadParts(h: Byte, f: seq<Byte>, body: seq<Byte>)
    requires 1 <= |f|
    ensures var s := [h] + f + body; s[0] == h && s[1] == f[0] && s[2..] == f[1..] + body
  {
  }

  /** How a frame decodes once its length field is known to read back. */
  lemma {:induction false} DecodeParts(h: Byte, f: seq<Byte>, body: seq<Byte>, n: nat)
    requires 1 <= |f| && ReadLength(f[0], f[1..] + body) == (true, n, body)
    ensures Decode([h] + f + body) ==
      var k := if 128 <= f[0] then 4 else 0;
      if MAX_CLIENT_FRAME < n then TooLarge
      else if |body| < k + n then Short
      else Frame(h % 16, if k == 4 then Masked(body[k..k + n], body[..4]) else body[k..k + n], body[k + n..])
  {
    HeadParts(h, f, body);
  }

  /** Reading a written frame returns its opcode and payload and leaves exactly what follows
      it, unless the payload is over the cap, and then the frame is refused. */
  lemma {:induction false} RoundTrip(opcode: nat, payload: seq<Byte>, rest: seq<Byte>)
    requires |payload| < U64
    ensures Decode(Encode(opcode, payload) + rest) ==
            if |payload| <= MAX_CLIENT_FRAME then Frame(opcode % 16, payload, rest) else TooLarge
  {
    ReadBackLength(|payload|, 0, payload + rest);
    PlainParts(128 + opcode % 16, LengthField(|payload|, 0), payload, rest);
  }

  lemma {:induction false} PlainParts(h: Byte, f: seq<Byte>, payload: seq<Byte>, rest: seq<Byte>)
    requires 1 <= |f| && f[0] < 128
    requires ReadLength(f[0], f[1..] + (payload + rest)) == (true, |payload|, payload + rest)
    ensures Decode([h] + f + payload + rest) ==
            if |payload| <= MAX_CLIENT_FRAME then Frame(h % 16, payload, rest) else TooLarge
  {
    var n, body := |payload|, payload + rest;
    DecodeParts(h, f, body, n);
    assert [h] + f + payload + rest == [h] + f + body;
    assert body[..n] == payload && body[n..] == rest;
  }

  /** The cap on a frame is 65536 bytes of payload, itself included. */
  lemma {:induction false} CapIsInclusive(opcode: nat, payload: seq<Byte>, mask: seq<Byte>, rest: seq<Byte>)
    requires |payload| < U64 && |mask| == 4
    ensures Decode(Encode(opcode, payload) + rest).Frame? <==> |payload| <= 65536
    ensures Decode(EncodeMasked(opcode, payload, mask) + rest).Frame? <==> |payload| <= 65536
    ensures 65536 < |payload| ==> Decode(EncodeMasked(opcode, payload, mask) + rest) == TooLarge
  {
    RoundTrip(opcode, payload, rest);
    RoundTripMasked(opcode, payload, mask, rest);
  }

  lemma {:induction false} BodyParts(head: seq<Byte>, mask: seq<Byte>, data: seq<Byte>, rest: seq<Byte>)
    ensures var body := mask + data + rest;
      && head + mask + data + rest == head + body
      && body[..|mask|] == mask
      && body[|mask|..|mask| + |data|] == data
      && body[|mask| + |data|..] == rest
  {
    assert head + (mask + data + rest) == head + mask + data + rest;
  }

  lemma {:induction false} MaskedParts(h: Byte, f: seq<Byte>, payload: seq<Byte>, mask: seq<Byte>, rest: seq<Byte>)
    requires |mask| == 4 && 1 <= |f| && 128 <= f[0]
    requires var body := mask + Masked(payload, mask) + rest; ReadLength(f[0], f[1..] + body) == (true, |payload|, body)
    ensures Decode([h] + f + mask + Masked(payload, mask) + rest) ==
            if |payload| <= MAX_CLIENT_FRAME then Frame(h % 16, payload, rest) else TooLarge
  {
    var n, data := |payload|, Masked(payload, mask);
    var body := mask + data + rest;
    DecodeParts(h, f, body, n);
    BodyParts([h] + f, mask, data, rest);
    MaskTwice(payload, mask);
  }

  lemma {:induction false} RoundTripMasked(opcode: nat, payload: seq<Byte>, mask: seq<Byte>, rest: seq<Byte>)
    requires |payload| < U64 && |mask| == 4
    ensures Decode(EncodeMasked(opcode, payload, mask) + rest) ==
            if |payload| <= MAX_CLIENT_FRAME then Frame(opcode % 16, payload, rest) else TooLarge
  {
    ReadBackLength(|payload|, 128, mask + Masked(payload, mask) + rest);
    MaskedParts(128 + opcode % 16, LengthField(|payload|, 128), payload, mask, rest);
  }

  // ---- streams of frames ----

  /** A frame to send; `mask` is empty for an unmasked one. */
  datatype Outgoing = Outgoing(opcode: nat, payload: seq<Byte>, mask: seq<Byte>)

  ghost predicate Sendable(f: Outgoing) {
    f.opcode < 16 && |f.payload| <= MAX_CLIENT_FRAME && (|f.mask| == 0 || |f.mask| == 4)
  }

  function Wire(f: Outgoing): seq<Byte> {
    if |f.mask| == 4 then EncodeMasked(f.opcode, f.payload, f.mask) else Encode(f.opcode, f.payload)
  }

  function WireAll(fs: seq<Outgoing>): seq<Byte> { if fs == [] then [] else Wire(fs[0]) + WireAll(fs[1..]) }

  /** Reads frames until the stream ends or one is refused. */
  function DecodeAll(s: seq<Byte>): seq<(nat, seq<Byte>)>
    decreases |s|
  {
    match Decode(s)
    case Frame(op, payload, rest) => if |rest| < |s| then [(op, payload)] + DecodeAll(rest) else []
    case _ => []
  }

  lemma {:induction false} HeadFrame(f: Outgoing, rest: seq<Byte>)
    requires Sendable(f)
    ensures Decode(Wire(f) + rest) == Frame(f.opcode, f.payload, rest) && 0 < |Wire(f)|
  {
    if |f.mask| == 4 {
      RoundTripMasked(f.opcode, f.payload, f.mask, rest);
    } else {
      RoundTrip(f.opcode, f.payload, rest);
    }
  }

  /** Any concatenation of written frames, masked or not, reads back as the same opcodes and
      payloads in order, each frame taking exactly its own bytes. */
  lemma {:induction false} StreamRoundTrip(fs: seq<Outgoing>)
    requires forall i :: 0 <= i < |fs| ==> Sendable(fs[i])
    ensures |DecodeAll(WireAll(fs))| == |fs|
    ensures forall i :: 0 <= i < |fs| ==> DecodeAll(WireAll(fs))[i] == (fs[i].opcode, fs[i].payload)
  {
    if fs == [] {
    } else {
      HeadFrame(fs[0], WireAll(fs[1..]));
      StreamRoundTrip(fs[1..]);
    }
  }

  /** No shorter length field reads back as the same length. */
  lemma ShortestLength(n: nat, second: Byte, ext: seq<Byte>)
    requires n < U64 && ReadLength(second, ext) == (true, n, [])
    ensures |LengthField(n, 0)| <= 1 + |ext|
  {
    Pow256Values();
    if second % 128 == 126 {
      assert ext[..2] == ext;
      BigEndianBound(ext);
    }
  }

  lemma {:induction false} BigEndianBound(s: seq<Byte>)
    ensures FromBigEndian(s) < Pow256(|s|)
  {
    if s == [] {
    } else {
      BigEndianBound(s[..|s| - 1]);
    }
  }

  // ---- the bytes on the wire ----

  /** Exclusive or, one bit at a time. */
  lemma {:induction false} XorBits(a: nat, b: nat, i: nat)
    ensures Bit(XorNat(a, b), i) == (Bit(a, i) + Bit(b, i)) % 2
    decreases i
  {
    var x := XorNat(a, b);
    assert x / 2 == XorNat(a / 2, b / 2) && x % 2 == (a % 2 + b % 2) % 2;
    if i == 0 {
    } else {
      XorBits(a / 2, b / 2, i - 1);
    }
  }

  /** Bit `i` of `n`, counted from the low end. */
  function Bit(n: nat, i: nat): nat { if i == 0 then n % 2 else Bit(n / 2, i - 1) }

  /** Every byte goes out with exactly the bits flipped that the repeated key has set. */
  lemma {:induction false} MaskFlipsBits(payload: seq<Byte>, mask: seq<Byte>, k: nat, i: nat)
    requires |mask| == 4 && k < |payload|
    ensures |Masked(payload, mask)| == |payload|
    ensures Bit(Masked(payload, mask)[k], i) == (Bit(payload[k], i) + Bit(mask[k % 4], i)) % 2
  {
    XorBits(payload[k], mask[k % 4], i);
  }

  /** `n` without its last `k` bytes. */
  function Shifted(n: nat, k: nat): nat { if k == 0 then n else Shifted(n / 256, k - 1) }

  /** The most significant byte comes first. */
  lemma {:induction false} BigEndianAt(n: nat, k: nat, i: nat)
    requires i < k
    ensures BigEndian(n, k)[i] == Shifted(n, k - 1 - i) % 256
  {
    if i == k - 1 {
    } else {
      BigEndianAt(n / 256, k - 1, i);
    }
  }

  /** The layout of a written frame: FIN alone over the opcode, no mask bit, the shortest length
      field, big-endian, and then the payload as it is. */
  lemma {:induction false} WireLayout(opcode: nat, payload: seq<Byte>)
    requires |payload| < U64
    ensures var e, n := Encode(opcode, payload), |payload|;
      var h := if n < 126 then 2 else if n <= 65535 then 4 else 10;
      && |e| == h + n && e[0] / 16 == 8 && e[0] % 16 == opcode % 16 && e[h..] == payload
      && e[1] == (if n < 126 then n else if n <= 65535 then 126 else 127)
      && forall i :: 2 <= i < h ==> e[i] == Shifted(n, h - 1 - i) % 256
  {
    var n := |payload|;
    var h := if n < 126 then 2 else if n <= 65535 then 4 else 10;
    var e := Encode(opcode, payload);
    assert e[0] == 128 + opcode % 16 && e[h..] == payload;
    forall i | 2 <= i < h ensures e[i] == Shifted(n, h - 1 - i) % 256 {
      BigEndianAt(n, h - 2, i - 2);
    }
  }

  /** A masked frame differs by the mask bit, the key and the masked payload. */
  lemma {:induction false} MaskedLayout(opcode: nat, payload: seq<Byte>, mask: seq<Byte>)
    requires |payload| < U64 && |mask| == 4
    ensures var e, m, n := Encode(opcode, payload), EncodeMasked(opcode, payload, mask), |payload|;
      var h := if n < 126 then 2 else if n <= 65535 then 4 else 10;
      && |m| == h + 4 + n && |e| == h + n && m[0] == e[0] && m[1] == 128 + e[1] && m[2..h] == e[2..h]
      && m[h..h + 4] == mask && m[h + 4..] == Masked(payload, mask)
  {
  }

  /** A length may come in either wide field that can hold it, shortest or not. */
  lemma {:induction false} AnyLengthField(n: nat, k: nat, second: Byte, rest: seq<Byte>)
    requires (k == 2 && second % 128 == 126) || (k == 8 && second % 128 == 127)
    requires n < Pow256(k)
    ensures ReadLength(second, BigEndian(n, k) + rest) == (true, n, rest)
  {
    BigEndianRoundTrip(n, k);
    var s := BigEndian(n, k) + rest;
    assert s[..k] == BigEndian(n, k) && s[k..] == rest;
  }

  // ---- a stream that ends early ----

  /** Cut anywhere before its end, a frame is short: nothing is read of it and nothing is refused. */
  lemma {:induction false} CutIsShort(f: Outgoing, n: nat)
    requires Sendable(f) && n < |Wire(f)|
    ensures Decode(Wire(f)[..n]) == Short
  {
    var flag, key := if |f.mask| == 4 then 128 else 0, if |f.mask| == 4 then f.mask else [];
    var data := if |f.mask| == 4 then Masked(f.payload, f.mask) else f.payload;
    var field := LengthField(|f.payload|, flag);
    ReadBackLength(|f.payload|, flag, []);
    WireParts(f);
    CutParts(128 + f.opcode % 16, field, key + data, |f.payload|, n);
  }

  lemma {:induction false} WireParts(f: Outgoing)
    requires Sendable(f)
    ensures var flag, key := if |f.mask| == 4 then 128 else 0, if |f.mask| == 4 then f.mask else [];
      var data := if |f.mask| == 4 then Masked(f.payload, f.mask) else f.payload;
      Wire(f) == [128 + f.opcode % 16] + LengthField(|f.payload|, flag) + (key + data) && |data| == |f.payload|
  {
    if |f.mask| == 4 {
      var head := [128 + f.opcode % 16] + LengthField(|f.payload|, 128);
      Reassociate(head, f.mask, Masked(f.payload, f.mask));
    } else {
      assert [] + f.payload == f.payload;
    }
  }

  lemma Reassociate(a: seq<Byte>, b: seq<Byte>, c: seq<Byte>)
    ensures a + b + c == a + (b + c)
  {
  }

  lemma {:induction false} CutParts(h: Byte, f: seq<Byte>, body: seq<Byte>, len: nat, n: nat)
    requires 1 <= |f| && ReadLength(f[0], f[1..] + []) == (true, len, []) && len <= MAX_CLIENT_FRAME
    requires |body| == (if 128 <= f[0] then 4 else 0) + len && n < 1 + |f| + |body|
    ensures Decode(([h] + f + body)[..n]) == Short
  {
    var s := ([h] + f + body)[..n];
    if n < 2 {
    } else if n < 1 + |f| {
      assert s[1] == f[0] && |s[2..]| < |f| - 1;
    } else {
      var part := body[..n - 1 - |f|];
      assert s == [h] + f + part;
      HeadParts(h, f, part);
      LengthThen(f, len, part);
    }
  }

  lemma {:induction false} LengthThen(f: seq<Byte>, len: nat, rest: seq<Byte>)
    requires 1 <= |f| && ReadLength(f[0], f[1..] + []) == (true, len, [])
    ensures ReadLength(f[0], f[1..] + rest) == (true, len, rest)
  {
    assert f[1..] + [] == f[1..];
    var k := |f| - 1;
    assert (f[1..] + rest)[..k] == f[1..] && (f[1..] + rest)[k..] == rest;
  }
}

/** Query parameters: the Worker replaces '+' and then decodes escapes, the embedded server
    does both in one pass, and they return the same value. Text is its bytes; turning
    decoded bytes into a string is the same function on both sides and is left out. */
module QueryString {
  import opened Wrappers

  const PERCENT: Byte := 37
  const PLUS: Byte := 43
  const SPACE: Byte := 32
  const AMP: Byte := 38
  const EQUALS: Byte := 61

  // ---- hexadecimal ----

  function HexValue(b: Byte): Option<nat> {
    if 48 <= b <= 57 then Some(b - 48)
    else if 65 <= b <= 70 then Some(b - 55)
    else if 97 <= b <= 102 then Some(b - 87)
    else None
  }

  /** Both digits on their own, as the embedded server reads them. */
  function TwoDigits(a: Byte, b: Byte): Option<Byte> {
    match (HexValue(a), HexValue(b))
    case (Some(h), Some(l)) => Some(h * 16 + l)
    case _ => None
  }

  /** `u8::from_str_radix(_, 16)` on two bytes, which also accepts a leading sign. */
  function Radix16(a: Byte, b: Byte): Option<Byte> {
    if a == PLUS then HexValue(b) else TwoDigits(a, b)
  }

  // ---- the Worker: replace, then decode ----

  function Replace(s: seq<Byte>): seq<Byte> {
    if s == [] then [] else [if s[0] == PLUS then SPACE else s[0]] + Replace(s[1..])
  }

  function Unescape(s: seq<Byte>): seq<Byte> {
    if s == [] then []
    else if s[0] == PERCENT && 2 < |s| && Radix16(s[1], s[2]).Some?
    then [Radix16(s[1], s[2]).value] + Unescape(s[3..])
    else [s[0]] + Unescape(s[1..])
  }

  function WorkerDecode(v: seq<Byte>): seq<Byte> { Unescape(Replace(v)) }

  /** One turn of the Worker's loop: the byte to push and where to go on. */
  method UnescapeByte(s: seq<Byte>, i: nat) returns (b: Byte, next: nat)
    requires i < |s|
    ensures i < next <= |s| && Unescape(s[i..]) == [b] + Unescape(s[next..])
  {
    ghost var t := s[i..];
    assert t[1..] == s[i + 1..];
    if s[i] == PERCENT && i + 2 < |s| {
      assert t[3..] == s[i + 3..];
      var hex := Radix16(s[i + 1], s[i + 2]);
      if hex.Some? {
        return hex.value, i + 3;
      }
    }
    return s[i], i + 1;
  }

  /** The Worker's `percent_decode`: an index loop filling a buffer. */
  method PercentDecode(s: seq<Byte>) returns (out: seq<Byte>)
    ensures out == Unescape(s)
  {
    out := [];
    var i := 0;
    while i < |s|
      invariant 0 <= i <= |s|
      invariant Unescape(s) == out + Unescape(s[i..])
    {
      var b, next := UnescapeByte(s, i);
      out := out + [b];
      i := next;
    }
  }

  // ---- the embedded server: one pass ----

  function FormDecode(s: seq<Byte>): seq<Byte> {
    if s == [] then []
    else if s[0] == PLUS then [SPACE] + FormDecode(s[1..])
    else if s[0] == PERCENT && 2 < |s| && TwoDigits(s[1], s[2]).Some?
    then [TwoDigits(s[1], s[2]).value] + FormDecode(s[3..])
    else [s[0]] + FormDecode(s[1..])
  }

  /** One turn of the embedded server's loop: the byte to push and where to go on. */
  method FormByte(s: seq<Byte>, i: nat) returns (b: Byte, next: nat)
    requires i < |s|
    ensures i < next <= |s| && FormDecode(s[i..]) == [b] + FormDecode(s[next..])
  {
    ghost var t := s[i..];
    assert t[1..] == s[i + 1..];
    if s[i] == PLUS {
      return SPACE, i + 1;
    } else if s[i] == PERCENT && i + 2 < |s| {
      assert t[3..] == s[i + 3..];
      var hex := TwoDigits(s[i + 1], s[i + 2]);
      if hex.Some? {
        return hex.value, i + 3;
      }
    }
    return s[i], i + 1;
  }

  /** The embedded server's `percent_decode`. */
  method FormPercentDecode(s: seq<Byte>) returns (out: seq<Byte>)
    ensures out == FormDecode(s)
  {
    out := [];
    var i := 0;
    while i < |s|
      invariant 0 <= i <= |s|
      invariant FormDecode(s) == out + FormDecode(s[i..])
    {
      var b, next := FormByte(s, i);
      out := out + [b];
      i := next;
    }
  }

  // ---- agreement ----

  lemma {:induction false} ReplaceAt(s: seq<Byte>, n: nat)
    requires n <= |s|
    ensures |Replace(s)| == |s| && Replace(s)[n..] == Replace(s[n..])
    ensures n < |s| ==> Replace(s)[n] == if s[n] == PLUS then SPACE else s[n]
  {
    if s != [] && 0 < n {
      ReplaceAt(s[1..], n - 1);
      assert Replace(s)[n..] == Replace(s[1..])[n - 1..] && s[1..][n - 1..] == s[n..];
    } else if s != [] {
      ReplaceAt(s[1..], 0);
    }
  }

  /** The two decoders agree on every value. */
  lemma {:induction false} DecodersAgree(v: seq<Byte>)
    ensures WorkerDecode(v) == FormDecode(v)
    decreases |v|
  {
    if v == [] {
    } else {
      ReplaceAt(v, 0);
      ReplaceAt(v, 1);
      DecodersAgree(v[1..]);
      if 2 < |v| {
        ReplaceAt(v, 2);
        ReplaceAt(v, 3);
        DecodersAgree(v[3..]);
      }
    }
  }

  /** The replacement has to come first: a sign is not a digit to the embedded server but is to
      the radix parser, so the raw value "%+5" would decode differently. */
  lemma ReplacementMatters()
    ensures Unescape([PERCENT, PLUS, 53]) == [5]
    ensures FormDecode([PERCENT, PLUS, 53]) == [PERCENT, SPACE, 53]
  {
    var s: seq<Byte> := [PERCENT, PLUS, 53];
    assert s[1..] == [PLUS, 53] && s[1..][1..] == [53] && s[3..] == [];
    assert FormDecode([53]) == [53] + FormDecode([]);
  }

  // ---- query_param ----

  /** Index of the first `b`, or the length without one. */
  function Find(s: seq<Byte>, b: Byte): (n: nat)
    ensures n <= |s| && b !in s[..n] && (n < |s| ==> s[n] == b)
  {
    if s == [] || s[0] == b then 0 else 1 + Find(s[1..], b)
  }

  /** The raw value of the first pair named `key`; a piece without '=' is skipped. */
  function RawParam(query: seq<Byte>, key: seq<Byte>): Option<seq<Byte>>
    decreases |query|
  {
    var n := Find(query, AMP);
    var pair := query[..n];
    var e := Find(pair, EQUALS);
    if e < |pair| && pair[..e] == key then Some(pair[e + 1..])
    else if n < |query| then RawParam(query[n + 1..], key)
    else None
  }

  function WorkerParam(query: seq<Byte>, key: seq<Byte>): Option<seq<Byte>> {
    match RawParam(query, key)
    case None => None
    case Some(v) => Some(WorkerDecode(v))
  }

  function EmbeddedParam(query: seq<Byte>, key: seq<Byte>): Option<seq<Byte>> {
    match RawParam(query, key)
    case None => None
    case Some(v) => Some(FormDecode(v))
  }

  /** Both servers return the same value for every query and key. */
  lemma {:induction false} ParamsAgree(query: seq<Byte>, key: seq<Byte>)
    ensures WorkerParam(query, key) == EmbeddedParam(query, key)
  {
    var raw := RawParam(query, key);
    if raw.Some? {
      DecodersAgree(raw.value);
    }
  }

  // ---- the inverse: percent-encoding ----

  /** Letters, digits, '-', '.', '_' and '~' (section 2.3 of RFC 3986). */
  predicate Unreserved(b: Byte) {
    48 <= b <= 57 || 65 <= b <= 90 || 97 <= b <= 122 || b in {45, 46, 95, 126}
  }

  function HexDigit(n: nat): Byte
    requires n < 16
  {
    if n < 10 then 48 + n else 55 + n
  }

  /** Every other byte is written as an escape. */
  function Escape(v: seq<Byte>): seq<Byte> {
    if v == [] then []
    else (if Unreserved(v[0]) then [v[0]] else [PERCENT, HexDigit(v[0] / 16), HexDigit(v[0] % 16)]) + Escape(v[1..])
  }

  lemma {:induction false} DecodeInvertsEscape(v: seq<Byte>)
    ensures FormDecode(Escape(v)) == v && WorkerDecode(Escape(v)) == v
    ensures AMP !in Escape(v) && EQUALS !in Escape(v)
  {
    if v == [] {
    } else {
      DecodeInvertsEscape(v[1..]);
      var s, rest := Escape(v), Escape(v[1..]);
      if Unreserved(v[0]) {
        assert s[0] == v[0] && s[1..] == rest;
      } else {
        assert s[0] == PERCENT && s[3..] == rest;
        assert TwoDigits(s[1], s[2]) == Some(v[0]);
      }
    }
    DecodersAgree(Escape(v));
  }

  datatype Pair = Pair(key: seq<Byte>, value: seq<Byte>)

  /** A query string over the pairs, values escaped. */
  function Build(pairs: seq<Pair>): seq<Byte> {
    if pairs == [] then []
    else
      var piece := pairs[0].key + [EQUALS] + Escape(pairs[0].value);
      if |pairs| == 1 then piece else piece + [AMP] + Build(pairs[1..])
  }

  function Lookup(pairs: seq<Pair>, key: seq<Byte>): Option<seq<Byte>> {
    if pairs == [] then None else if pairs[0].key == key then Some(pairs[0].value) else Lookup(pairs[1..], key)
  }

  lemma {:induction false} FindIn(s: seq<Byte>, b: Byte, n: nat)
    requires n <= |s| && b !in s[..n] && (n < |s| ==> s[n] == b)
    ensures Find(s, b) == n
  {
    if n == 0 {
    } else {
      assert s[0] == s[..n][0] && s[1..][..n - 1] == s[..n][1..];
      FindIn(s[1..], b, n - 1);
    }
  }

  /** The first piece of a query. */
  lemma {:induction false} FirstPiece(k: seq<Byte>, v: seq<Byte>, tail: seq<Byte>, key: seq<Byte>)
    requires AMP !in k && EQUALS !in k && AMP !in v && (tail == [] || tail[0] == AMP)
    ensures RawParam(k + [EQUALS] + v + tail, key) ==
            if k == key then Some(v) else if tail == [] then None else RawParam(tail[1..], key)
  {
    var pair := k + [EQUALS] + v;
    var query := pair + tail;
    assert query[..|pair|] == pair;
    FindIn(query, AMP, |pair|);
    assert pair[..|k|] == k && pair[|k| + 1..] == v;
    FindIn(pair, EQUALS, |k|);
    if tail != [] {
      assert query[|pair| + 1..] == tail[1..];
    }
  }

  /** The lookup in a built query, before the value is decoded. */
  lemma {:induction false} BuiltRaw(pairs: seq<Pair>, key: seq<Byte>)
    requires forall i :: 0 <= i < |pairs| ==> AMP !in pairs[i].key && EQUALS !in pairs[i].key
    ensures RawParam(Build(pairs), key) ==
            match Lookup(pairs, key) case None => None case Some(v) => Some(Escape(v))
  {
    if pairs == [] {
    } else {
      var k, v := pairs[0].key, Escape(pairs[0].value);
      DecodeInvertsEscape(pairs[0].value);
      if |pairs| == 1 {
        assert k + [EQUALS] + v + [] == Build(pairs);
        FirstPiece(k, v, [], key);
        assert Lookup(pairs[1..], key) == None;
      } else {
        var rest := Build(pairs[1..]);
        assert k + [EQUALS] + v + ([AMP] + rest) == Build(pairs);
        FirstPiece(k, v, [AMP] + rest, key);
        BuiltRaw(pairs[1..], key);
        assert ([AMP] + rest)[1..] == rest;
      }
    }
  }

  /** Looking a name up in a query built from pairs gives the first value stored under it, on
      either server, whatever bytes the values hold. */
  lemma {:induction false} BuiltQueryRoundTrip(pairs: seq<Pair>, key: seq<Byte>)
    requires forall i :: 0 <= i < |pairs| ==> AMP !in pairs[i].key && EQUALS !in pairs[i].key
    ensures EmbeddedParam(Build(pairs), key) == Lookup(pairs, key)
    ensures WorkerParam(Build(pairs), key) == Lookup(pairs, key)
  {
    BuiltRaw(pairs, key);
    var found := Lookup(pairs, key);
    if found.Some? {
      DecodeInvertsEscape(found.value);
    }
  }

  // ---- what counts as an escape ----

  function LowerHexDigit(n: nat): Byte
    requires n < 16
  {
    if n < 10 then 48 + n else 87 + n
  }

  /** Exactly the sixteen digits in either case have a value. */
  lemma HexValueIff(b: Byte, n: nat)
    ensures HexValue(b) == Some(n) <==> n < 16 && (b == HexDigit(n) || b == LowerHexDigit(n))
  {
  }

  /** `e` writes `v` byte by byte, each as itself or as an escape, with digits in either case. A byte
      that would be read as something else has to be escaped. */
  ghost predicate Writes(e: seq<Byte>, v: seq<Byte>)
    decreases |v|
  {
    if v == [] then e == []
    else
      || (e != [] && e[0] == v[0] && e[0] != PERCENT && e[0] != PLUS && Writes(e[1..], v[1..]))
      || (v[0] == SPACE && e != [] && e[0] == PLUS && Writes(e[1..], v[1..]))
      || (3 <= |e| && e[0] == PERCENT && IsDigit(e[1], v[0] / 16) && IsDigit(e[2], v[0] % 16) && Writes(e[3..], v[1..]))
  }

  predicate IsDigit(b: Byte, n: nat)
    requires n < 16
  {
    b == HexDigit(n) || b == LowerHexDigit(n)
  }

  /** However a value is written, both decoders read it back. */
  lemma {:induction false} DecodeReadsAnyWriting(e: seq<Byte>, v: seq<Byte>)
    requires Writes(e, v)
    ensures FormDecode(e) == v && WorkerDecode(e) == v
    decreases |v|
  {
    DecodersAgree(e);
    if v == [] {
    } else if 3 <= |e| && e[0] == PERCENT {
      HexValueIff(e[1], v[0] / 16);
      HexValueIff(e[2], v[0] % 16);
      DecodeReadsAnyWriting(e[3..], v[1..]);
    } else {
      DecodeReadsAnyWriting(e[1..], v[1..]);
    }
  }

  /** Percent signs that no two digits follow. */
  predicate NoEscapes(s: seq<Byte>) {
    forall i :: 0 <= i < |s| - 2 && s[i] == PERCENT ==> HexValue(s[i + 1]).None? || HexValue(s[i + 2]).None?
  }

  /** Text without a valid escape is left as written, stray percent signs included, except that '+'
      is a space. */
  lemma {:induction false} StrayPercentStays(s: seq<Byte>)
    requires NoEscapes(s)
    ensures FormDecode(s) == Replace(s) && WorkerDecode(s) == Replace(s)
  {
    DecodersAgree(s);
    if s == [] {
    } else {
      assert NoEscapes(s[1..]) by {
        assert forall i :: 0 <= i < |s| - 1 ==> s[1..][i] == s[i + 1];
      }
      StrayPercentStays(s[1..]);
    }
  }

  /** A piece without '=' is passed over, wherever its name would stand. */
  lemma {:induction false} BarePieceIsSkipped(piece: seq<Byte>, rest: seq<Byte>, key: seq<Byte>)
    requires AMP !in piece && EQUALS !in piece
    ensures RawParam(piece + [AMP] + rest, key) == RawParam(rest, key)
    ensures RawParam(piece, key) == None
  {
    var query := piece + [AMP] + rest;
    assert query[..|piece|] == piece && query[|piece| + 1..] == rest;
    FindIn(query, AMP, |piece|);
    assert piece[..|piece|] == piece;
    FindIn(piece, EQUALS, |piece|);
    FindIn(piece, AMP, |piece|);
  }
}

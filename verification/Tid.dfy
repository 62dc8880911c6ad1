/** TID record keys: 13 base-32 digits of a 64-bit word, sortable as text. */
module Tid {
  import opened Lex

  const ALPHABET := "234567abcdefghijklmnopqrstuvwxyz"
  const WORD: nat := 0x1_0000_0000_0000_0000
  const MICROS_LIMIT: nat := 0x40_0000_0000_0000

  function Pow32(k: nat): nat { if k == 0 then 1 else 32 * Pow32(k - 1) }

  /** The low `k` base-32 digits of `n`, most significant first, as text. */
  function Digits(n: nat, k: nat): (s: string)
    ensures |s| == k
  {
    if k == 0 then "" else Digits(n / 32, k - 1) + [ALPHABET[n % 32]]
  }

  /** `us << 10` in 64 bits: the high bits are dropped. */
  function Packed(us: nat): nat { (us * 1024) % WORD }

  function TidOf(us: nat): string { Digits(Packed(us), 13) }

  /** `tid_from_micros`: fills the buffer from the last digit to the first. */
  method TidFromMicros(us: nat) returns (tid: string)
    requires us < WORD
    ensures tid == TidOf(us)
  {
    var result := new char[13](_ => '2');
    var val := Packed(us);
    var i := 13;
    while 0 < i
      invariant 0 <= i <= 13
      invariant Digits(Packed(us), 13) == Digits(val, i) + result[i..]
    {
      i := i - 1;
      result[i] := ALPHABET[val % 32];
      assert result[i..] == [ALPHABET[val % 32]] + result[i + 1..];
      val := val / 32;
    }
    assert result[0..] == result[..];
    tid := result[..];
  }

  // ---- order ----

  lemma {:induction false} AlphabetAscends(i: nat, j: nat)
    requires i < j < 32
    ensures ALPHABET[i] < ALPHABET[j]
  {
  }

  /** Digit strings of equal length compare as their numbers do. */
  lemma {:induction false} DigitsAscend(a: nat, b: nat, k: nat)
    requires a < b < Pow32(k)
    ensures Less(Digits(a, k), Digits(b, k))
  {
    if k == 0 {
    } else {
      var x, y := Digits(a / 32, k - 1), Digits(b / 32, k - 1);
      if a / 32 < b / 32 {
        DigitsAscend(a / 32, b / 32, k - 1);
      } else {
        AlphabetAscends(a % 32, b % 32);
      }
      SnocLess(x, ALPHABET[a % 32], y, ALPHABET[b % 32]);
    }
  }

  lemma WordFits()
    ensures WORD <= Pow32(13)
  {
    assert Pow32(3) == 32768;
    assert Pow32(6) == 32768 * Pow32(3);
    assert Pow32(9) == 32768 * Pow32(6);
    assert Pow32(12) == 32768 * Pow32(9);
    assert Pow32(13) == 32 * Pow32(12);
  }

  /** Later timestamps give lexicographically later keys. */
  lemma {:induction false} TidPreservesOrder(a: nat, b: nat)
    requires a < b < MICROS_LIMIT
    ensures Less(TidOf(a), TidOf(b))
  {
    WordFits();
    DigitsAscend(Packed(a), Packed(b), 13);
  }

  // ---- decoding ----

  function DigitOf(c: char): nat {
    if '2' <= c <= '7' then (c - '2') as nat
    else if 'a' <= c <= 'z' then (c - 'a') as nat + 6
    else 0
  }

  function Decode(s: string): nat {
    if s == "" then 0 else 32 * Decode(s[..|s| - 1]) + DigitOf(s[|s| - 1])
  }

  lemma {:induction false} DigitRoundTrip(d: nat)
    requires d < 32
    ensures DigitOf(ALPHABET[d]) == d
  {
  }

  lemma {:induction false} DecodeDigits(n: nat, k: nat)
    requires n < Pow32(k)
    ensures Decode(Digits(n, k)) == n
  {
    if k == 0 {
    } else {
      DecodeDigits(n / 32, k - 1);
      DigitRoundTrip(n % 32);
      assert Digits(n, k)[..k - 1] == Digits(n / 32, k - 1);
    }
  }

  lemma PackedExactIff(us: nat)
    ensures Packed(us) == us * 1024 <==> us < MICROS_LIMIT
  {
    assert MICROS_LIMIT * 1024 == WORD;
  }

  /** Decoding returns the shifted timestamp exactly when no bit was shifted out, which is to
      say for timestamps below 2^54. */
  lemma {:induction false} TidDecodesIff(us: nat)
    requires us < WORD
    ensures Decode(TidOf(us)) == us * 1024 <==> us < MICROS_LIMIT
  {
    WordFits();
    DecodeDigits(Packed(us), 13);
    PackedExactIff(us);
  }

  // ---- validity ----

  /** `validate_rkey`: 1 to 512 printable ASCII characters, no '/' and no NUL. */
  predicate ValidRkey(s: string) {
    && 1 <= |s| <= 512
    && '/' !in s && '\0' !in s
    && forall i :: 0 <= i < |s| ==> '!' <= s[i] <= '~'
  }

  predicate Allowed(c: char) { '!' <= c <= '~' && c != '/' }

  lemma {:induction false} LetterAllowed(d: nat)
    requires d < 32
    ensures Allowed(ALPHABET[d])
  {
  }

  lemma {:induction false} DigitsAllowed(n: nat, k: nat)
    ensures forall i :: 0 <= i < k ==> Allowed(Digits(n, k)[i])
  {
    if k == 0 {
    } else {
      LetterAllowed(n % 32);
      DigitsAllowed(n / 32, k - 1);
    }
  }

  lemma {:induction false} AllowedIsValid(s: string)
    requires 1 <= |s| <= 512 && forall i :: 0 <= i < |s| ==> Allowed(s[i])
    ensures ValidRkey(s)
  {
  }

  /** Every generated key passes the record key check. */
  lemma {:induction false} TidIsValidRkey(us: nat)
    requires us < WORD
    ensures ValidRkey(TidOf(us))
  {
    DigitsAllowed(Packed(us), 13);
    AllowedIsValid(TidOf(us));
  }

  datatype RkeyCheck = Accepted | BadLength | BadSeparator | NotPrintable

  /** The checks in the order the code makes them. */
  method ValidateRkey(s: string) returns (r: RkeyCheck)
    ensures r == Accepted <==> ValidRkey(s)
    ensures r == BadLength <==> |s| == 0 || 512 < |s|
    ensures r == BadSeparator <==> 1 <= |s| <= 512 && ('/' in s || '\0' in s)
  {
    if |s| == 0 || |s| > 512 {
      return BadLength;
    }
    if '/' in s || '\0' in s {
      return BadSeparator;
    }
    for i := 0 to |s|
      invariant forall k :: 0 <= k < i ==> '!' <= s[k] <= '~'
    {
      if !('!' <= s[i] <= '~') {
        return NotPrintable;
      }
    }
    r := Accepted;
  }

  /** What the check is for: under a collection without a slash, different record keys that pass it
      have different repo keys, and the collection and the record key can be told apart again. */
  lemma {:induction false} RkeyKeepsKeysApart(c: string, r: string, d: string, q: string)
    requires '/' !in c && '/' !in d && ValidRkey(r) && ValidRkey(q) && c + "/" + r == d + "/" + q
    ensures c == d && r == q
  {
    var key := c + "/" + r;
    assert key[|c|] == '/' && key[|d|] == '/';
    assert |d| <= |c| && |c| <= |d|;
    assert key[..|c|] == c && key[..|d|] == d && key[|c| + 1..] == r && key[|d| + 1..] == q;
  }

  /** The ten shifted-in bits are the two last digits, always zero. */
  lemma {:induction false} TidEndsInZeros(us: nat)
    requires us < MICROS_LIMIT
    ensures TidOf(us) == Digits(us, 11) + "22"
  {
    var n := us * 1024;
    PackedExactIff(us);
    assert n % 32 == 0 && (n / 32) % 32 == 0 && n / 32 / 32 == us;
    assert Digits(n, 13) == Digits(n / 32, 12) + [ALPHABET[0]];
    assert Digits(n / 32, 12) == Digits(us, 11) + [ALPHABET[0]];
  }
}

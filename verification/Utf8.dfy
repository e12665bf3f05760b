/**
 * Byte strings carried as JSON strings: what the encoder does to bytes that are not UTF-8, and where
 * a valid text may be cut. A char stands for a byte.
 */
module Utf8 {
  predicate Between(c: char, lo: int, hi: int) {
    lo <= c as int <= hi
  }

  predicate IsContinuation(c: char) {
    Between(c, 0x80, 0xBF)
  }

  /** Allowed second bytes: overlong forms, surrogates and values past U+10FFFF are excluded. */
  predicate SecondByteOK(first: char, second: char) {
    if first as int == 0xE0 then Between(second, 0xA0, 0xBF)
    else if first as int == 0xED then Between(second, 0x80, 0x9F)
    else if first as int == 0xF0 then Between(second, 0x90, 0xBF)
    else if first as int == 0xF4 then Between(second, 0x80, 0x8F)
    else IsContinuation(second)
  }

  /** Length of the encoded code point at the front, or 0 when the front is not valid UTF-8. */
  function RuneLen(s: string): (n: nat)
    requires s != ""
    ensures n <= 4 && n <= |s|
  {
    var c := s[0] as int;
    if c < 0x80 then 1
    else if 0xC2 <= c <= 0xDF && |s| >= 2 && IsContinuation(s[1]) then 2
    else if 0xE0 <= c <= 0xEF && |s| >= 3 && SecondByteOK(s[0], s[1]) && IsContinuation(s[2]) then 3
    else if 0xF0 <= c <= 0xF4 && |s| >= 4 && SecondByteOK(s[0], s[1]) && IsContinuation(s[2]) && IsContinuation(s[3]) then 4
    else 0
  }

  const REPLACEMENT: string := "\U{EF}\U{BF}\U{BD}"

  /** A byte string after being written and read as a JSON string: each bad byte becomes U+FFFD. */
  function ViaJson(s: string): string {
    if s == "" then ""
    else if RuneLen(s) == 0 then REPLACEMENT + ViaJson(s[1..])
    else s[..RuneLen(s)] + ViaJson(s[RuneLen(s)..])
  }

  predicate ValidUtf8(s: string) {
    s == "" || (RuneLen(s) > 0 && ValidUtf8(s[RuneLen(s)..]))
  }

  /** Position k falls between two code points. */
  predicate AtBoundary(s: string, k: nat) {
    k == 0 || (s != "" && 0 < RuneLen(s) <= k && AtBoundary(s[RuneLen(s)..], k - RuneLen(s)))
  }

  predicate Ascii(s: string) {
    forall i :: 0 <= i < |s| ==> s[i] as int < 0x80
  }

  /** JSON keeps exactly the valid texts; anything else gets longer. */
  lemma {:induction false} JsonExactIffValid(s: string)
    ensures ValidUtf8(s) ==> ViaJson(s) == s
    ensures !ValidUtf8(s) ==> |ViaJson(s)| > |s|
    ensures s != "" ==> ViaJson(s) != ""
  {
    if s != "" {
      var n := if RuneLen(s) == 0 then 1 else RuneLen(s);
      JsonExactIffValid(s[n..]);
      assert s == s[..n] + s[n..];
    }
  }

  lemma RuneLenOfPrefix(s: string, k: nat)
    requires 0 < k <= |s| && RuneLen(s) > 0
    ensures RuneLen(s[..k]) == if k >= RuneLen(s) then RuneLen(s) else 0
  {
  }

  /** A valid text cut at k has a valid first half exactly when k is a boundary. */
  lemma {:induction false} CutValidIffBoundary(s: string, k: nat)
    requires ValidUtf8(s) && k <= |s|
    ensures ValidUtf8(s[..k]) <==> AtBoundary(s, k)
    ensures AtBoundary(s, k) ==> ValidUtf8(s[k..])
  {
    if k == 0 {
      assert s[..0] == "" && s[0..] == s;
    } else {
      var n := RuneLen(s);
      RuneLenOfPrefix(s, k);
      if k >= n {
        CutValidIffBoundary(s[n..], k - n);
        assert s[..k][n..] == s[n..][..k - n];
        assert s[n..][k - n..] == s[k..];
      }
    }
  }

  lemma {:induction false} BoundaryShift(s: string, a: nat, b: nat)
    requires a <= |s| && AtBoundary(s, a)
    ensures AtBoundary(s, a + b) <==> AtBoundary(s[a..], b)
  {
    if a == 0 {
      assert s[0..] == s;
    } else {
      var n := RuneLen(s);
      BoundaryShift(s[n..], a - n, b);
      assert s[n..][a - n..] == s[a..];
    }
  }

  lemma {:induction false} AsciiIsValid(s: string, k: nat)
    requires Ascii(s) && k <= |s|
    ensures ValidUtf8(s) && AtBoundary(s, k)
  {
    if s != "" {
      AsciiIsValid(s[1..], if k == 0 then 0 else k - 1);
    }
  }

  // ---------------------------------------------------------------- what valid means

  /** The values UTF-8 encodes: Unicode's code points without the surrogates. */
  predicate IsScalar(n: int) {
    0 <= n < 0xD800 || 0xE000 <= n <= 0x10FFFF
  }

  /** The encoding of one value, by section 3 of RFC 3629. */
  function EncodedRune(n: int): string
    requires IsScalar(n)
  {
    if n < 0x80 then [n as char]
    else if n < 0x800 then [(0xC0 + n / 64) as char, (0x80 + n % 64) as char]
    else if n < 0x10000 then [(0xE0 + n / 4096) as char, (0x80 + n / 64 % 64) as char, (0x80 + n % 64) as char]
    else [(0xF0 + n / 262144) as char, (0x80 + n / 4096 % 64) as char, (0x80 + n / 64 % 64) as char, (0x80 + n % 64) as char]
  }

  predicate AllScalars(ns: seq<int>) {
    forall i :: 0 <= i < |ns| ==> IsScalar(ns[i])
  }

  function EncodedText(ns: seq<int>): string
    requires AllScalars(ns)
  {
    if ns == [] then "" else EncodedRune(ns[0]) + EncodedText(ns[1..])
  }

  lemma EncodedIsOneRune(n: int, rest: string)
    requires IsScalar(n)
    ensures RuneLen(EncodedRune(n) + rest) == |EncodedRune(n)|
  {
    var s := EncodedRune(n) + rest;
    if 0x80 <= n < 0x800 {
      assert s[0] as int == 0xC0 + n / 64 && s[1] as int == 0x80 + n % 64;
    } else if 0x800 <= n < 0x10000 {
      ThreeEncoded(n, rest);
    } else if 0x10000 <= n {
      FourEncoded(n, rest);
    }
  }

  lemma ThreeEncoded(n: int, rest: string)
    requires IsScalar(n) && 0x800 <= n < 0x10000
    ensures RuneLen(EncodedRune(n) + rest) == 3
  {
    var s := EncodedRune(n) + rest;
    var a, b, c := n / 4096, n / 64 % 64, n % 64;
    assert n == a * 4096 + b * 64 + c;
    assert s[0] as int == 0xE0 + a && s[1] as int == 0x80 + b && s[2] as int == 0x80 + c;
  }

  lemma FourEncoded(n: int, rest: string)
    requires IsScalar(n) && 0x10000 <= n
    ensures RuneLen(EncodedRune(n) + rest) == 4
  {
    var s := EncodedRune(n) + rest;
    FourDigits(n);
    assert s[..4] == EncodedRune(n);
    assert s[0] as int == 0xF0 + n / 262144 && s[1] as int == 0x80 + n / 4096 % 64;
    assert IsContinuation(s[2]) && IsContinuation(s[3]);
  }

  lemma FourDigits(n: int)
    requires 0x10000 <= n <= 0x10FFFF
    ensures 0 <= n / 262144 <= 4 && 0 <= n / 4096 % 64 < 64 && 0 <= n / 64 % 64 < 64 && 0 <= n % 64 < 64
    ensures (n / 262144 == 0 ==> n / 4096 % 64 >= 16) && (n / 262144 == 4 ==> n / 4096 % 64 < 16)
  {
    var high := n / 4096;
    assert high / 64 == n / 262144 && 16 <= high < 272;
  }

  /** What RuneLen accepts at the front is the encoding of some value. */
  lemma FrontIsEncoded(s: string) returns (n: int)
    requires s != "" && RuneLen(s) > 0
    ensures IsScalar(n) && s[..RuneLen(s)] == EncodedRune(n)
  {
    var c := s[0] as int;
    if RuneLen(s) == 1 {
      n := c;
    } else if RuneLen(s) == 2 {
      n := (c - 0xC0) * 64 + (s[1] as int - 0x80);
    } else if RuneLen(s) == 3 {
      n := ThreeBytes(s);
    } else {
      n := FourBytes(s);
    }
  }

  lemma ThreeBytes(s: string) returns (n: int)
    requires s != "" && RuneLen(s) == 3
    ensures IsScalar(n) && s[..3] == EncodedRune(n)
  {
    var a, b, c := s[0] as int - 0xE0, s[1] as int - 0x80, s[2] as int - 0x80;
    n := a * 4096 + b * 64 + c;
    Digits(a, b, c);
  }

  lemma FourBytes(s: string) returns (n: int)
    requires s != "" && RuneLen(s) == 4
    ensures IsScalar(n) && s[..4] == EncodedRune(n)
  {
    var a, b, c, d := s[0] as int - 0xF0, s[1] as int - 0x80, s[2] as int - 0x80, s[3] as int - 0x80;
    n := a * 262144 + b * 4096 + c * 64 + d;
    Digits(a * 64 + b, c, d);
    assert n / 262144 == a && n / 4096 % 64 == b;
  }

  /** The digits to base 64 of a number built from them. */
  lemma Digits(a: int, b: int, c: int)
    requires 0 <= a && 0 <= b < 64 && 0 <= c < 64
    ensures var n := a * 4096 + b * 64 + c; n / 4096 == a && n / 64 == a * 64 + b && n / 64 % 64 == b && n % 64 == c
  {
  }

  lemma {:induction false} ValidIsEncoded(s: string) returns (ns: seq<int>)
    requires ValidUtf8(s)
    ensures AllScalars(ns) && EncodedText(ns) == s
  {
    hide RuneLen, EncodedRune;
    if s == "" {
      ns := [];
    } else {
      var n := FrontIsEncoded(s);
      var rest := ValidIsEncoded(s[RuneLen(s)..]);
      ns := [n] + rest;
      assert ns[1..] == rest;
      assert s == s[..RuneLen(s)] + s[RuneLen(s)..];
    }
  }

  lemma {:induction false} EncodedIsValid(ns: seq<int>)
    requires AllScalars(ns)
    ensures ValidUtf8(EncodedText(ns))
  {
    hide RuneLen, EncodedRune, IsScalar;
    if ns != [] {
      EncodedIsValid(ns[1..]);
      var rest := EncodedText(ns[1..]);
      EncodedIsOneRune(ns[0], rest);
      NotEmpty(ns[0]);
      assert (EncodedRune(ns[0]) + rest)[|EncodedRune(ns[0])|..] == rest;
    }
  }

  lemma NotEmpty(n: int)
    requires IsScalar(n)
    ensures EncodedRune(n) != ""
  {
  }

  /** Main result: the valid byte strings are exactly the encodings of sequences of Unicode values. */
  lemma ValidIffEncoding(s: string)
    ensures ValidUtf8(s) <==> exists ns :: AllScalars(ns) && EncodedText(ns) == s
  {
    hide ValidUtf8, EncodedText, AllScalars;
    if ValidUtf8(s) {
      var ns := ValidIsEncoded(s);
    }
    if ns :| AllScalars(ns) && EncodedText(ns) == s {
      EncodedIsValid(ns);
    }
  }
}

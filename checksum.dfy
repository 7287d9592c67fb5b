/** The checksum engine of js/anti-cheat.js: a 32-bit rolling hash over the
    UTF-16 code units of a serialized value, rendered in radix 36. */
module Checksum {

  /** A UTF-16 code unit, the value `String.prototype.charCodeAt` returns. */
  type CodeUnit = c: int | 0 <= c < 0x1_0000

  const TwoTo32: int := 0x1_0000_0000
  const TwoTo31: int := 0x8000_0000

  predicate IsInt32(x: int) {
    -TwoTo31 <= x < TwoTo31
  }

  /** ECMAScript's ToInt32 on an integral number: reduce modulo 2^32 into the signed range. */
  function ToInt32(x: int): (r: int)
    ensures IsInt32(r)
    ensures (x - r) % TwoTo32 == 0
    ensures IsInt32(x) ==> r == x
  {
    (x + TwoTo31) % TwoTo32 - TwoTo31
  }

  /** `hash << 5`: the operand is converted by ToInt32, shifted, and the result wrapped to 32 bits. */
  function ShiftLeft5(h: int): int {
    ToInt32(ToInt32(h) * 32)
  }

  /** One round of the checksum loop as written: `hash = ((hash << 5) - hash) + char`,
      then `hash = hash & hash`, which is ToInt32 of the sum. */
  function Step(h: int, c: CodeUnit): int {
    ToInt32(ShiftLeft5(h) - h + c)
  }

  /** The accumulator after the loop has consumed all of `s`, starting from 0. */
  function Hash(s: seq<CodeUnit>): (h: int)
    ensures IsInt32(h)
  {
    if s == [] then 0 else Step(Hash(s[..|s| - 1]), s[|s| - 1])
  }

  /** The shift-and-subtract round is the multiply-by-31 rolling hash wrapped to 32 bits. */
  lemma StepIsTimes31(h: int, c: CodeUnit)
    requires IsInt32(h)
    ensures Step(h, c) == ToInt32(31 * h + c)
  {
    var shifted := ToInt32(h * 32);
    var k := (h * 32 - shifted) / TwoTo32;
    assert h * 32 - shifted == k * TwoTo32;
    assert shifted - h + c == (31 * h + c) - k * TwoTo32;
    Periodic(31 * h + c, -k);
  }

  lemma Periodic(x: int, k: int)
    ensures ToInt32(x + k * TwoTo32) == ToInt32(x)
  {
  }

  /** Appending one code unit to the input extends the hash by one multiply-by-31 round. */
  lemma HashAppend(s: seq<CodeUnit>, c: CodeUnit)
    ensures Hash(s + [c]) == ToInt32(31 * Hash(s) + c)
  {
    assert (s + [c])[..|s + [c]| - 1] == s;
    StepIsTimes31(Hash(s), c);
  }

  /** Since 31 is odd, multiplying by 31 modulo 2^32 is a bijection: a round never merges two accumulators. */
  lemma StepInjective(a: int, b: int, c: CodeUnit)
    requires IsInt32(a) && IsInt32(b)
    requires Step(a, c) == Step(b, c)
    ensures a == b
  {
    StepIsTimes31(a, c);
    StepIsTimes31(b, c);
    Times31Injective(a, b, c);
  }

  lemma Times31Injective(a: int, b: int, c: int)
    requires IsInt32(a) && IsInt32(b)
    requires (31 * a + c + TwoTo31) % TwoTo32 == (31 * b + c + TwoTo31) % TwoTo32
    ensures a == b
  {
    var x, y := 31 * a + c + TwoTo31, 31 * b + c + TwoTo31;
    var k := x / TwoTo32 - y / TwoTo32;
    assert 31 * (a - b) == k * TwoTo32;
    // 31 * 3186588639 == 23 * 2^32 + 1: 3186588639 is the inverse of 31 modulo 2^32.
    var d := a - b;
    var m := k * 3186588639 - 23 * d;
    assert d == m * TwoTo32;
  }

  /** Two different code units fed to the same accumulator give different accumulators. */
  lemma StepSeparates(h: int, c: CodeUnit, d: CodeUnit)
    requires IsInt32(h) && c != d
    ensures Step(h, c) != Step(h, d)
  {
    StepIsTimes31(h, c);
    StepIsTimes31(h, d);
    WrapSeparates(31 * h + c, 31 * h + d);
  }

  /** Numbers closer than 2^32 but not equal stay apart under ToInt32. */
  lemma WrapSeparates(x: int, y: int)
    requires x != y && -TwoTo32 < x - y < TwoTo32
    ensures ToInt32(x) != ToInt32(y)
  {
    var k1 := (x - ToInt32(x)) / TwoTo32;
    var k2 := (y - ToInt32(y)) / TwoTo32;
    assert x - ToInt32(x) == k1 * TwoTo32;
    assert y - ToInt32(y) == k2 * TwoTo32;
  }

  /** Once the prefixes of two inputs hash apart at position `i`, and the inputs agree
      after `i`, every longer prefix hashes apart too. */
  lemma {:induction false} PrefixesHashApart(s: seq<CodeUnit>, t: seq<CodeUnit>, i: nat, n: nat)
    requires |s| == |t| && i < n <= |s|
    requires s[i] != t[i]
    requires forall j :: 0 <= j < |s| && j != i ==> s[j] == t[j]
    ensures Hash(s[..n]) != Hash(t[..n])
    decreases n
  {
    var a, b := s[..n - 1], t[..n - 1];
    assert s[..n][..n - 1] == a && t[..n][..n - 1] == b;
    HashLast(s[..n]);
    HashLast(t[..n]);
    if n == i + 1 {
      assert a == b;
      StepSeparates(Hash(a), s[i], t[i]);
    } else {
      PrefixesHashApart(s, t, i, n - 1);
      if Step(Hash(a), s[n - 1]) == Step(Hash(b), t[n - 1]) {
        StepInjective(Hash(a), Hash(b), s[n - 1]);
      }
    }
  }

  lemma HashLast(s: seq<CodeUnit>)
    requires s != []
    ensures Hash(s) == Step(Hash(s[..|s| - 1]), s[|s| - 1])
  {
  }

  /** Tamper evidence: changing any single code unit of the serialized value, keeping
      its length, always changes the hash. */
  lemma HashDetectsSingleEdit(s: seq<CodeUnit>, t: seq<CodeUnit>, i: nat)
    requires |s| == |t| && i < |s|
    requires s[i] != t[i]
    requires forall j :: 0 <= j < |s| && j != i ==> s[j] == t[j]
    ensures Hash(s) != Hash(t)
  {
    PrefixesHashApart(s, t, i, |s|);
    assert s[..|s|] == s && t[..|t|] == t;
  }

  // Rendering with Number.prototype.toString(36).

  predicate IsDigitChar(ch: char) {
    '0' <= ch <= '9' || 'a' <= ch <= 'z'
  }

  /** The radix-36 digit for 0 <= d < 36, lower-case letters above 9. */
  function DigitChar(d: int): (ch: char)
    requires 0 <= d < 36
    ensures IsDigitChar(ch)
  {
    if d < 10 then ('0' as int + d) as char else ('a' as int + d - 10) as char
  }

  /** The value of a radix-36 digit. */
  function DigitValue(ch: char): int {
    if '0' <= ch <= '9' then ch as int - '0' as int
    else if 'a' <= ch <= 'z' then ch as int - 'a' as int + 10
    else 0
  }

  /** The digits of `n`, most significant first, without leading zeros. */
  function Digits(n: nat): (r: string)
    ensures |r| >= 1
    ensures forall k :: 0 <= k < |r| ==> IsDigitChar(r[k])
    decreases n
  {
    if n < 36 then [DigitChar(n)] else Digits(n / 36) + [DigitChar(n % 36)]
  }

  /** `x.toString(36)` for an integral number: a minus sign, then the digits of |x|. */
  function ToRadix36(x: int): string {
    if x < 0 then "-" + Digits(-x) else Digits(x)
  }

  function ParseDigits(s: string): int {
    if s == [] then 0 else ParseDigits(s[..|s| - 1]) * 36 + DigitValue(s[|s| - 1])
  }

  /** Reads back a radix-36 rendering. */
  function ParseRadix36(s: string): int {
    if |s| > 0 && s[0] == '-' then -ParseDigits(s[1..]) else ParseDigits(s)
  }

  lemma {:induction false} ParseDigitsOfDigits(n: nat)
    ensures ParseDigits(Digits(n)) == n
    decreases n
  {
    if n >= 36 {
      ParseDigitsOfDigits(n / 36);
      var d := Digits(n);
      assert d[..|d| - 1] == Digits(n / 36);
    }
  }

  /** Reading back a rendering gives the number that was rendered. */
  lemma Radix36RoundTrip(x: int)
    ensures ParseRadix36(ToRadix36(x)) == x
  {
    if x < 0 {
      ParseDigitsOfDigits(-x);
      assert ToRadix36(x)[1..] == Digits(-x);
    } else {
      ParseDigitsOfDigits(x);
    }
  }

  /** Different numbers render differently. */
  lemma Radix36Injective(x: int, y: int)
    requires ToRadix36(x) == ToRadix36(y)
    ensures x == y
  {
    Radix36RoundTrip(x);
    Radix36RoundTrip(y);
  }

  /** The digest `calculateChecksum` returns for a serialized value. */
  function Digest(s: seq<CodeUnit>): (d: string)
    ensures d != []
    ensures ParseRadix36(d) == Hash(s)
  {
    Radix36RoundTrip(Hash(s));
    ToRadix36(Hash(s))
  }

  /** calculateChecksum once serialization is done: the loop over the code units. */
  method CalculateChecksum(s: seq<CodeUnit>) returns (digest: string)
    ensures digest == Digest(s)
    ensures ParseRadix36(digest) == Hash(s)
  {
    var hash := 0;
    var i := 0;
    while i < |s|
      invariant 0 <= i <= |s|
      invariant hash == Hash(s[..i])
    {
      assert s[..i + 1][..i] == s[..i];
      hash := Step(hash, s[i]);
      i := i + 1;
    }
    assert s[..i] == s;
    Radix36RoundTrip(hash);
    digest := ToRadix36(hash);
  }

  /** verifyChecksum: recompute the digest and compare the strings. A digest that
      verifies determines the hash exactly; the freshly computed digest always verifies. */
  function VerifyChecksum(s: seq<CodeUnit>, expected: string): (r: bool)
    ensures r ==> ParseRadix36(expected) == Hash(s)
    ensures expected == Digest(s) ==> r
  {
    Radix36RoundTrip(Hash(s));
    Digest(s) == expected
  }

  /** A one-unit edit of the serialized value makes the old digest fail to verify. */
  lemma ChecksumDetectsSingleEdit(s: seq<CodeUnit>, t: seq<CodeUnit>, i: nat)
    requires |s| == |t| && i < |s|
    requires s[i] != t[i]
    requires forall j :: 0 <= j < |s| && j != i ==> s[j] == t[j]
    ensures Digest(s) != Digest(t)
    ensures !VerifyChecksum(t, Digest(s))
  {
    HashDetectsSingleEdit(s, t, i);
    if Digest(s) == Digest(t) {
      Radix36Injective(Hash(s), Hash(t));
    }
  }
}

/**
 * Identifier minting (packages/schema/src/Ulid.ts).
 *
 * An id is ten base-32 digits of a time stamp followed by sixteen base-32 digits of
 * randomness.  The whole delivery stack compares ids as strings; this module proves that
 * comparing the strings is comparing numbers, and that one factory's ids only go up.
 */
module Ulid {
  import opened Wrappers

  const ALPHABET := "0123456789ABCDEFGHJKMNPQRSTVWXYZ"

  type Digit = d: nat | d < 32

  // ----- base-32 numerals ---------------------------------------------------------

  function Pow32(k: nat): (p: nat)
    ensures p > 0
  {
    if k == 0 then 1 else 32 * Pow32(k - 1)
  }

  /** One more than the largest stamp ten digits can spell. */
  const STAMP_LIMIT: nat := 0x4_0000_0000_0000

  /** The number of values the sixteen random digits can take. */
  const RANDOM_LIMIT: nat := 0x1_0000_0000_0000_0000_0000

  /** The `width` least significant base-32 digits of `n`, most significant first. */
  function Digits(n: nat, width: nat): (ds: seq<Digit>)
    ensures |ds| == width
  {
    if width == 0 then [] else Digits(n / 32, width - 1) + [n % 32]
  }

  /** The number a digit string spells. */
  function Number(ds: seq<Digit>): nat {
    if |ds| == 0 then 0 else Number(ds[..|ds| - 1]) * 32 + ds[|ds| - 1]
  }

  function Text(ds: seq<Digit>): (s: string)
    ensures |s| == |ds|
  {
    seq(|ds|, i requires 0 <= i < |ds| => ALPHABET[ds[i]])
  }

  lemma ModUnique(n: int, q: int, m: int, r: int)
    requires m > 0 && 0 <= r < m && n == q * m + r
    ensures n % m == r && n / m == q
  {
    if n / m < q {
      assert (q - n / m) * m >= m by { MulGrows(q - n / m, m); }
    } else if n / m > q {
      assert (n / m - q) * m >= m by { MulGrows(n / m - q, m); }
    }
  }

  lemma MulGrows(k: int, m: int)
    requires k >= 1 && m >= 0
    ensures k * m >= m
  {
    assert k * m == (k - 1) * m + m;
  }

  /** One more digit: the remainder modulo 32m from the quotient's remainder modulo m. */
  lemma ModSplits(n: nat, v: nat, d: nat, m: nat)
    requires m > 0 && d < 32 && n == 32 * v + d
    ensures n % (32 * m) == 32 * (v % m) + d
  {
    var q, r := v / m, v % m;
    assert v == q * m + r;
    assert 32 * (q * m) == q * (32 * m);
    ModUnique(n, q, 32 * m, 32 * r + d);
  }

  lemma {:induction false} NumberOfDigits(n: nat, width: nat)
    ensures Number(Digits(n, width)) == n % Pow32(width)
  {
    if width > 0 {
      NumberOfDigits(n / 32, width - 1);
      ModSplits(n, n / 32, n % 32, Pow32(width - 1));
    } else {
      ModUnique(n, n, 1, 0);
    }
  }

  lemma {:induction false} NumberBelow(ds: seq<Digit>)
    ensures Number(ds) < Pow32(|ds|)
  {
    if |ds| > 0 { NumberBelow(ds[..|ds| - 1]); }
  }

  lemma {:induction false} NumberOfConcat(a: seq<Digit>, b: seq<Digit>)
    ensures Number(a + b) == Number(a) * Pow32(|b|) + Number(b)
  {
    if |b| == 0 {
      assert a + b == a;
    } else {
      var b' := b[..|b| - 1];
      NumberOfConcat(a, b');
      assert (a + b)[..|a + b| - 1] == a + b';
      assert Number(a) * Pow32(|b'|) * 32 == Number(a) * Pow32(|b|);
    }
  }

  lemma {:induction false} NumberInjective(a: seq<Digit>, b: seq<Digit>)
    requires |a| == |b| && Number(a) == Number(b)
    ensures a == b
  {
    if |a| > 0 {
      NumberInjective(a[..|a| - 1], b[..|b| - 1]);
      assert a == a[..|a| - 1] + [a[|a| - 1]];
      assert b == b[..|b| - 1] + [b[|b| - 1]];
    }
  }

  // ----- string order is number order ---------------------------------------------

  /** JavaScript's `<` on strings: code unit by code unit, a proper prefix first. */
  predicate LexLess(a: string, b: string) {
    |b| > 0 && (|a| == 0 || a[0] < b[0] || (a[0] == b[0] && LexLess(a[1..], b[1..])))
  }

  lemma AlphabetAscends(i: nat, j: nat)
    requires i < j < 32
    ensures ALPHABET[i] < ALPHABET[j]
    decreases j
  {
    if i + 1 < j {
      AlphabetAscends(i, j - 1);
    }
  }

  lemma NumberOfHead(ds: seq<Digit>)
    requires |ds| > 0
    ensures Number(ds) == ds[0] * Pow32(|ds| - 1) + Number(ds[1..])
    ensures Number(ds[1..]) < Pow32(|ds| - 1)
  {
    assert ds == [ds[0]] + ds[1..];
    NumberOfConcat([ds[0]], ds[1..]);
    assert Number([ds[0]]) == ds[0];
    NumberBelow(ds[1..]);
  }

  lemma HeadDecides(x: nat, y: nat, p: nat, u: nat, v: nat)
    requires x < y && u < p
    ensures x * p + u < y * p + v
  {
    MulGrows(y - x, p);
    assert (y - x) * p == y * p - x * p;
  }

  /** Equally long numerals compare as strings exactly as the numbers they spell. */
  lemma {:induction false} TextOrder(a: seq<Digit>, b: seq<Digit>)
    requires |a| == |b|
    ensures LexLess(Text(a), Text(b)) <==> Number(a) < Number(b)
  {
    if |a| > 0 {
      assert Text(a)[1..] == Text(a[1..]) && Text(b)[1..] == Text(b[1..]);
      TextOrder(a[1..], b[1..]);
      NumberOfHead(a);
      NumberOfHead(b);
      var p := Pow32(|a| - 1);
      var u, v := Number(a[1..]), Number(b[1..]);
      if a[0] < b[0] {
        AlphabetAscends(a[0], b[0]);
        HeadDecides(a[0], b[0], p, u, v);
      } else if b[0] < a[0] {
        AlphabetAscends(b[0], a[0]);
        HeadDecides(b[0], a[0], p, v, u);
      }
    }
  }

  // ----- reading an id back -------------------------------------------------------

  /** The digit a character stands for, the first match at or after `from`. */
  function Rank(c: char, from: nat := 0): Digit
    requires from <= 32
    decreases 32 - from
  {
    if from == 32 then 0 else if ALPHABET[from] == c then from else Rank(c, from + 1)
  }

  lemma {:induction false} RankOfLetter(d: Digit, from: nat)
    requires from <= d
    ensures Rank(ALPHABET[d], from) == d
    decreases d - from
  {
    if from < d {
      AlphabetAscends(from, d);
      RankOfLetter(d, from + 1);
    }
  }

  function Ranks(s: string): (ds: seq<Digit>)
    ensures |ds| == |s|
  {
    seq(|s|, i requires 0 <= i < |s| => Rank(s[i]))
  }

  lemma RanksOfText(ds: seq<Digit>)
    ensures Ranks(Text(ds)) == ds
  {
    forall i | 0 <= i < |ds| ensures Ranks(Text(ds))[i] == ds[i] {
      RankOfLetter(ds[i], 0);
    }
  }

  /** The pattern of packages/schema/src/Ids.ts: twenty-six letters of the alphabet. */
  /** `[0-9A-HJKMNP-TV-Z]` of packages/schema/src/Ids.ts. */
  predicate InPattern(c: char) {
    || '0' <= c <= '9' || 'A' <= c <= 'H' || c == 'J' || c == 'K' || c == 'M' || c == 'N'
    || 'P' <= c <= 'T' || 'V' <= c <= 'Z'
  }

  /** The pattern admits the letters of the alphabet and no others. */
  lemma PatternIsAlphabet(c: char)
    ensures InPattern(c) <==> c in ALPHABET
  {
    if InPattern(c) {
      assert ALPHABET[PatternRank(c)] == c;
    }
    if c in ALPHABET {
      var k :| 0 <= k < 32 && ALPHABET[k] == c;
      LetterInPattern(k);
    }
  }

  /** Where a character of the pattern stands in the alphabet. */
  function PatternRank(c: char): Digit
    requires InPattern(c)
  {
    var n := c as int;
    if c <= '9' then n - '0' as int
    else if c <= 'H' then n - 'A' as int + 10
    else if c <= 'K' then n - 'J' as int + 18
    else if c <= 'N' then n - 'M' as int + 20
    else if c <= 'T' then n - 'P' as int + 22
    else n - 'V' as int + 27
  }

  lemma LetterInPattern(d: Digit)
    ensures InPattern(ALPHABET[d])
  {
  }

  predicate IsEventId(s: string) {
    |s| == 26 && forall i :: 0 <= i < 26 ==> InPattern(s[i])
  }

  /** Where an id stands in the id order; the store modules use this number as the id. */
  function IdOrder(s: string): nat {
    Number(Ranks(s))
  }

  lemma {:induction false} LetterOfRank(c: char, from: nat, k: nat)
    requires from <= k < 32 && ALPHABET[k] == c
    ensures ALPHABET[Rank(c, from)] == c
    decreases 32 - from
  {
    if ALPHABET[from] != c { LetterOfRank(c, from + 1, k); }
  }

  lemma TextOfRanks(s: string)
    requires IsEventId(s)
    ensures Text(Ranks(s)) == s
  {
    forall i | 0 <= i < 26 ensures Text(Ranks(s))[i] == s[i] {
      PatternIsAlphabet(s[i]);
      var k :| 0 <= k < 32 && ALPHABET[k] == s[i];
      LetterOfRank(s[i], 0, k);
    }
  }

  /**
   * The string comparisons `e.id > cursor` of the stores and the number comparisons of
   * this model agree on every pair of well-formed ids, and so do the equalities.
   */
  lemma StringOrderIsIdOrder(a: string, b: string)
    requires IsEventId(a) && IsEventId(b)
    ensures LexLess(a, b) <==> IdOrder(a) < IdOrder(b)
    ensures a == b <==> IdOrder(a) == IdOrder(b)
  {
    TextOfRanks(a);
    TextOfRanks(b);
    TextOrder(Ranks(a), Ranks(b));
    if IdOrder(a) == IdOrder(b) {
      NumberInjective(Ranks(a), Ranks(b));
    }
  }

  // ----- encodeTime ---------------------------------------------------------------

  method EncodeTime(ms: real) returns (s: string)
    requires ms >= 0.0
    ensures s == Text(Digits(ms.Floor, 10))
  {
    var remaining: nat := ms.Floor;
    var out := new char[10];
    var i := 9;
    while i >= 0
      invariant -1 <= i <= 9
      invariant Text(Digits(ms.Floor, 10)) == Text(Digits(remaining, i + 1)) + out[i + 1..]
    {
      ghost var rest := out[i + 1..];
      out[i] := ALPHABET[remaining % 32];
      assert out[i..] == [ALPHABET[remaining % 32]] + rest;
      assert Text(Digits(remaining, i + 1)) == Text(Digits(remaining / 32, i)) + [ALPHABET[remaining % 32]];
      remaining := remaining / 32;
      i := i - 1;
    }
    s := out[..];
  }

  /** Ten digits compare like the stamps modulo 32^10, so like the stamps below that bound. */
  lemma TimeOrder(a: nat, b: nat)
    ensures LexLess(Text(Digits(a, 10)), Text(Digits(b, 10))) <==> a % STAMP_LIMIT < b % STAMP_LIMIT
  {
    TextOrder(Digits(a, 10), Digits(b, 10));
    NumberOfDigits(a, 10);
    NumberOfDigits(b, 10);
    Limits();
  }

  // ----- encodeRandom -------------------------------------------------------------

  /** The bytes read as one big-endian number. */
  function BytesNumber(bytes: seq<Byte>): nat {
    if |bytes| == 0 then 0 else BytesNumber(bytes[..|bytes| - 1]) * 256 + bytes[|bytes| - 1]
  }

  /** JavaScript's `x >> k`: halve and round down, k times. */
  function Shr(x: int, k: nat): (r: int)
    ensures x >= 0 ==> r >= 0
    decreases k
  {
    if k == 0 then x else Shr(x / 2, k - 1)
  }

  /** The result of a JavaScript bit operation: a signed 32-bit integer. */
  function ToInt32(x: int): int {
    var m := x % 0x1_0000_0000;
    if m >= 0x8000_0000 then m - 0x1_0000_0000 else m
  }

  /**
   * The big-endian bits of `bytes` cut into 5-bit digits from the front, the
   * 8n mod 5 bits left over at the end dropped.
   */
  function Regrouped(bytes: seq<Byte>): seq<Digit> {
    Digits(Shr(BytesNumber(bytes), 8 * |bytes| % 5), 8 * |bytes| / 5)
  }

  lemma {:induction false} ShrTwice(x: int, a: nat, b: nat)
    ensures Shr(Shr(x, a), b) == Shr(x, a + b)
    decreases a
  {
    if a > 0 { ShrTwice(x / 2, a - 1, b); }
  }

  function Pow2(k: nat): nat {
    if k == 0 then 1 else 2 * Pow2(k - 1)
  }

  lemma TwiceTimes(q: int, m: int)
    ensures q * (2 * m) == 2 * (q * m)
  {
  }

  lemma {:induction false} ShrPlus(x: int, q: int, bits: nat)
    ensures Shr(x + q * Pow2(bits), bits) == Shr(x, bits) + q
    decreases bits
  {
    if bits > 0 {
      TwiceTimes(q, Pow2(bits - 1));
      ShrPlus(x / 2, q, bits - 1);
    }
  }

  lemma WordSplits(k: int, bits: nat) returns (q: int)
    requires bits < 8
    ensures k * 0x1_0000_0000 == q * 32 * Pow2(bits)
  {
    q := k * Pow2(27 - bits);
    assert Pow2(0) == 1 && Pow2(1) == 2 && Pow2(2) == 4 && Pow2(3) == 8;
    assert Pow2(4) == 16 && Pow2(5) == 32 && Pow2(6) == 64 && Pow2(7) == 128;
    assert Pow2(20) == 0x10_0000 && Pow2(24) == 16 * Pow2(20) && Pow2(27) == 8 * Pow2(24);
    assert Pow2(21) == 2 * Pow2(20) && Pow2(22) == 4 * Pow2(20) && Pow2(23) == 8 * Pow2(20);
    assert Pow2(25) == 2 * Pow2(24) && Pow2(26) == 4 * Pow2(24);
  }

  lemma WordsLost(number: int) returns (k: int)
    ensures number == ToInt32(number) + k * 0x1_0000_0000
  {
    k := (number - ToInt32(number)) / 0x1_0000_0000;
  }

  lemma ModPlus(x: int, q: int)
    ensures (x + q * 32) % 32 == x % 32
  {
  }

  /** `buf >> bits & 31` is right although `buf` has lost every bit above the 32nd. */
  lemma WrappedDigit(number: nat, bits: nat)
    requires bits < 8
    ensures Shr(ToInt32(number), bits) % 32 == Shr(number, bits) % 32
  {
    var k := WordsLost(number);
    var q := WordSplits(k, bits);
    ShrPlus(ToInt32(number), q * 32, bits);
    ModPlus(Shr(ToInt32(number), bits), q);
  }

  /** A new byte only appends its eight bits: what was cut before stays cut as it was. */
  lemma ByteArrives(n: nat, byte: Byte, bits: nat)
    ensures Shr(n * 256 + byte, bits + 8) == Shr(n, bits)
  {
    ShrTwice(n * 256 + byte, 8, bits);
    assert Shr(n * 256 + byte, 8) == n by {
      assert Shr(n * 256 + byte, 8) == Shr((n * 256 + byte) / 16, 4);
    }
  }

  /** Five bits leave the buffer as one digit. */
  lemma DigitLeaves(n: nat, bits: nat, count: nat)
    ensures Digits(Shr(n, bits), count + 1) == Digits(Shr(n, bits + 5), count) + [Shr(n, bits) % 32]
  {
    ShrTwice(n, bits, 5);
    var v := Shr(n, bits);
    assert Shr(v, 5) == v / 32;
  }

  /** Wrapping is settled by the remainder of the word. */
  lemma ToInt32Is(x: int, q: int, r: nat)
    requires r < 0x1_0000_0000 && x == q * 0x1_0000_0000 + r
    ensures ToInt32(x) == if r >= 0x8000_0000 then r - 0x1_0000_0000 else r
  {
    ModUnique(x, q, 0x1_0000_0000, r);
  }

  /** Shifting a wrapped buffer by one byte wraps like shifting the whole number. */
  lemma WrapTwice(n: nat, byte: Byte)
    ensures ToInt32(ToInt32(n) * 256) + byte == ToInt32(n * 256 + byte)
  {
    var k := WordsLost(n);
    var y := ToInt32(n);
    var q, z := y / 0x100_0000, y % 0x100_0000;
    ToInt32Is(y * 256, q, z * 256);
    ToInt32Is(n * 256 + byte, q + 256 * k, z * 256 + byte);
  }

  /** One byte into the buffer. */
  lemma ByteIn(bytes: seq<Byte>, i: nat, bits: nat)
    requires i < |bytes|
    ensures var before, after := BytesNumber(bytes[..i]), BytesNumber(bytes[..i + 1]);
      && ToInt32(ToInt32(before) * 256) + bytes[i] == ToInt32(after)
      && Shr(after, bits + 8) == Shr(before, bits)
  {
    assert bytes[..i + 1][..i] == bytes[..i];
    ByteArrives(BytesNumber(bytes[..i]), bytes[i], bits);
    WrapTwice(BytesNumber(bytes[..i]), bytes[i]);
  }

  /** One digit out of the buffer. */
  lemma DigitOut(n: nat, buf: int, bits: nat, out: seq<Digit>)
    requires bits < 8 && buf == ToInt32(n) && out == Digits(Shr(n, bits + 5), |out|)
    ensures out + [Shr(buf, bits) % 32] == Digits(Shr(n, bits), |out| + 1)
  {
    WrappedDigit(n, bits);
    DigitLeaves(n, bits, |out|);
  }

  method EncodeRandom(bytes: seq<Byte>) returns (s: string)
    ensures s == Text(Regrouped(bytes))[..if 8 * |bytes| / 5 < 16 then 8 * |bytes| / 5 else 16]
  {
    var bits: nat, buf: int := 0, 0;
    var out: seq<Digit> := [];
    for i := 0 to |bytes|
      invariant bits < 5 && 5 * |out| + bits == 8 * i
      invariant buf == ToInt32(BytesNumber(bytes[..i]))
      invariant out == Digits(Shr(BytesNumber(bytes[..i]), bits), |out|)
    {
      ghost var n := BytesNumber(bytes[..i + 1]);
      ByteIn(bytes, i, bits);
      buf := ToInt32(buf * 256) + bytes[i];
      bits := bits + 8;
      while bits >= 5
        invariant bits < 13 && 5 * |out| + bits == 8 * (i + 1)
        invariant buf == ToInt32(n)
        invariant out == Digits(Shr(n, bits), |out|)
      {
        bits := bits - 5;
        DigitOut(n, buf, bits, out);
        out := out + [Shr(buf, bits) % 32];
      }
    }
    assert bytes[..|bytes|] == bytes;
    ModUnique(8 * |bytes|, |out|, 5, bits);
    s := Text(out);
    s := s[..if |s| < 16 then |s| else 16];
  }

  lemma {:induction false} BytesInjective(a: seq<Byte>, b: seq<Byte>)
    requires |a| == |b| && BytesNumber(a) == BytesNumber(b)
    ensures a == b
  {
    if |a| > 0 {
      BytesInjective(a[..|a| - 1], b[..|b| - 1]);
      assert a == a[..|a| - 1] + [a[|a| - 1]];
      assert b == b[..|b| - 1] + [b[|b| - 1]];
    }
  }

  function Pow256(k: nat): (p: nat)
    ensures p > 0
  {
    if k == 0 then 1 else 256 * Pow256(k - 1)
  }

  lemma {:induction false} BytesBelow(bytes: seq<Byte>)
    ensures BytesNumber(bytes) < Pow256(|bytes|)
  {
    if |bytes| > 0 { BytesBelow(bytes[..|bytes| - 1]); }
  }

  lemma Limits()
    ensures Pow32(10) == STAMP_LIMIT && Pow32(16) == RANDOM_LIMIT && Pow256(10) == RANDOM_LIMIT
  {
    assert Pow32(5) == 0x200_0000;
    assert Pow32(10) == 32 * 32 * 32 * 32 * 32 * Pow32(5);
    assert Pow32(16) == 32 * 32 * 32 * 32 * 32 * 32 * Pow32(10);
    assert Pow256(5) == 0x100_0000_0000;
    assert Pow256(10) == 256 * 256 * 256 * 256 * 256 * Pow256(5);
  }

  /** Ten bytes, the length `next` draws: sixteen characters spelling exactly those bytes. */
  lemma TenBytes(bytes: seq<Byte>)
    requires |bytes| == 10
    ensures |Regrouped(bytes)| == 16 && Number(Regrouped(bytes)) == BytesNumber(bytes) < RANDOM_LIMIT
  {
    var n := BytesNumber(bytes);
    assert Regrouped(bytes) == Digits(n, 16) by { assert Shr(n, 0) == n; }
    Limits();
    BytesBelow(bytes);
    NumberOfDigits(n, 16);
    ModUnique(n, 0, RANDOM_LIMIT, n);
  }

  /** The random part keeps every one of the eighty bits. */
  lemma RandomPartInjective(a: seq<Byte>, b: seq<Byte>)
    requires |a| == |b| == 10
    ensures Text(Regrouped(a)) == Text(Regrouped(b)) <==> a == b
  {
    TenBytes(a);
    TenBytes(b);
    RanksOfText(Regrouped(a));
    RanksOfText(Regrouped(b));
    if Text(Regrouped(a)) == Text(Regrouped(b)) {
      BytesInjective(a, b);
    }
  }

  // ----- the factory --------------------------------------------------------------

  /** The stamp after a clock reading: never repeated, whatever the clock does. */
  function NextStamp(last: real, now: real): real {
    if last + 1.0 >= now then last + 1.0 else now
  }

  function IdText(stamp: nat, rand: seq<Byte>): string {
    Text(Digits(stamp, 10)) + Text(Regrouped(rand))
  }

  /** An id's place in the order: its stamp first, its random bytes second. */
  lemma IdOrderOfText(stamp: nat, rand: seq<Byte>)
    requires |rand| == 10
    ensures IdOrder(IdText(stamp, rand)) == stamp % STAMP_LIMIT * RANDOM_LIMIT + BytesNumber(rand)
    ensures BytesNumber(rand) < RANDOM_LIMIT
  {
    var t, r := Digits(stamp, 10), Regrouped(rand);
    TenBytes(rand);
    assert IdText(stamp, rand) == Text(t + r);
    RanksOfText(t + r);
    NumberOfConcat(t, r);
    NumberOfDigits(stamp, 10);
    Limits();
  }

  /** The least stamp that neither repeats nor goes back, and is not behind the clock. */
  ghost predicate IsNextStamp(last: real, now: real, stamp: real) {
    && stamp >= now && stamp >= last + 1.0
    && (stamp == now || stamp == last + 1.0)
  }

  /** Every minted text is an id the schema accepts. */
  lemma IdTextIsEventId(stamp: nat, rand: seq<Byte>)
    requires |rand| == 10
    ensures IsEventId(IdText(stamp, rand))
  {
    TenBytes(rand);
    var ds := Digits(stamp, 10) + Regrouped(rand);
    forall i | 0 <= i < 26 ensures InPattern(IdText(stamp, rand)[i]) {
      assert IdText(stamp, rand)[i] == ALPHABET[ds[i]];
      LetterInPattern(ds[i]);
    }
  }

  class Factory {
    var last: real

    ghost predicate Valid() reads this { last >= 0.0 }

    constructor ()
      ensures Valid() && last == 0.0
    {
      last := 0.0;
    }

    /** `now` is the clock reading, `rand` the ten random bytes. */
    method Next(now: real, rand: seq<Byte>) returns (id: string)
      requires Valid() && |rand| == 10
      modifies this
      ensures Valid() && last == NextStamp(old(last), now) && IsNextStamp(old(last), now, last)
      ensures id == IdText(last.Floor, rand) && IsEventId(id)
    {
      var clamped := if last + 1.0 >= now then last + 1.0 else now;
      last := clamped;
      var time := EncodeTime(clamped);
      var random := EncodeRandom(rand);
      TenBytes(rand);
      id := time + random;
      IdTextIsEventId(last.Floor, rand);
    }
  }

  /** One call of `next`: what the clock said and what the random source gave. */
  datatype Draw = Draw(now: real, rand: seq<Byte>)

  /** The stamp after a run of calls. */
  function Stamp(draws: seq<Draw>): (r: real)
    ensures r >= 0.0
  {
    if |draws| == 0 then 0.0 else NextStamp(Stamp(draws[..|draws| - 1]), draws[|draws| - 1].now)
  }

  /**
   * What a run of calls leaves the stamp at, read off the clock: past every reading by the number
   * of calls made since, and no further than one of the readings or the calls themselves ask for.
   */
  lemma {:induction false} StampFollowsClock(draws: seq<Draw>)
    ensures Stamp(draws) >= |draws| as real
    ensures forall k :: 0 <= k < |draws| ==> Stamp(draws) >= draws[k].now + (|draws| - 1 - k) as real
    ensures Stamp(draws) == |draws| as real
            || exists k :: 0 <= k < |draws| && Stamp(draws) == draws[k].now + (|draws| - 1 - k) as real
  {
    if |draws| > 0 {
      var init, n := draws[..|draws| - 1], |draws| - 1;
      StampFollowsClock(init);
      forall k | 0 <= k < |draws| ensures Stamp(draws) >= draws[k].now + (n - k) as real {
        if k < n { assert init[k] == draws[k]; }
      }
      if Stamp(draws) == draws[n].now {
        assert Stamp(draws) == draws[n].now + (n - n) as real;
      } else if Stamp(init) != n as real {
        var k :| 0 <= k < n && Stamp(init) == init[k].now + (n - 1 - k) as real;
        assert Stamp(draws) == draws[k].now + (n - k) as real;
      }
    }
  }

  /** The id the k-th call of a run returns. */
  function MintedId(draws: seq<Draw>, k: nat): string
    requires k < |draws|
  {
    IdText(Stamp(draws[..k + 1]).Floor, draws[k].rand)
  }

  lemma {:induction false} StampsClimb(draws: seq<Draw>, i: nat)
    requires i < |draws|
    ensures Stamp(draws[..i]).Floor < Stamp(draws).Floor
  {
    var rest := draws[..|draws| - 1];
    assert draws[..i] == rest[..i];
    if i < |rest| {
      StampsClimb(rest, i);
    } else {
      assert rest[..i] == rest;
    }
  }

  lemma StampsOrdered(draws: seq<Draw>, i: nat, j: nat)
    requires i < j < |draws|
    ensures Stamp(draws[..i + 1]).Floor < Stamp(draws[..j + 1]).Floor <= Stamp(draws).Floor
  {
    assert draws[..j + 1][..i + 1] == draws[..i + 1];
    StampsClimb(draws[..j + 1], i + 1);
    if j + 1 < |draws| { StampsClimb(draws, j + 1); } else { assert draws[..j + 1] == draws; }
  }

  /** Two ids compare by stamp modulo 32^10, ties broken by the random bytes. */
  lemma IdTextOrder(s1: nat, r1: seq<Byte>, s2: nat, r2: seq<Byte>)
    requires |r1| == |r2| == 10
    ensures LexLess(IdText(s1, r1), IdText(s2, r2)) <==>
            s1 % STAMP_LIMIT < s2 % STAMP_LIMIT ||
            (s1 % STAMP_LIMIT == s2 % STAMP_LIMIT && BytesNumber(r1) < BytesNumber(r2))
  {
    IdOrderOfText(s1, r1);
    IdOrderOfText(s2, r2);
    IdTextIsEventId(s1, r1);
    IdTextIsEventId(s2, r2);
    StringOrderIsIdOrder(IdText(s1, r1), IdText(s2, r2));
  }

  lemma LaterStampSortsLater(s1: nat, r1: seq<Byte>, s2: nat, r2: seq<Byte>)
    requires |r1| == |r2| == 10 && s1 < s2 < STAMP_LIMIT
    ensures LexLess(IdText(s1, r1), IdText(s2, r2))
  {
    IdTextOrder(s1, r1, s2, r2);
    ModUnique(s1, 0, STAMP_LIMIT, s1);
    ModUnique(s2, 0, STAMP_LIMIT, s2);
  }

  /**
   * Ids from one factory strictly increase as strings over every run of clock readings,
   * stuck or running backwards, as long as the last stamp fits ten digits.
   */
  lemma MintedIdsIncrease(draws: seq<Draw>, i: nat, j: nat)
    requires forall k :: 0 <= k < |draws| ==> |draws[k].rand| == 10
    requires i < j < |draws| && Stamp(draws).Floor < STAMP_LIMIT
    ensures LexLess(MintedId(draws, i), MintedId(draws, j))
  {
    StampsOrdered(draws, i, j);
    LaterStampSortsLater(Stamp(draws[..i + 1]).Floor, draws[i].rand, Stamp(draws[..j + 1]).Floor, draws[j].rand);
  }

  /**
   * Across a restart: an id a second factory mints at a clock reading past the first one's last
   * stamp sorts after every id of the first, whatever happened in between.
   */
  lemma LaterFactorySortsAfter(first: seq<Draw>, second: seq<Draw>, i: nat, j: nat)
    requires i < |first| && j < |second| && |first[i].rand| == 10 && |second[j].rand| == 10
    requires second[j].now.Floor > Stamp(first).Floor && Stamp(second).Floor < STAMP_LIMIT
    ensures LexLess(MintedId(first, i), MintedId(second, j))
  {
    StampWithin(first, i);
    StampWithin(second, j);
    LaterStampSortsLater(Stamp(first[..i + 1]).Floor, first[i].rand, Stamp(second[..j + 1]).Floor, second[j].rand);
  }

  /** A call's own stamp lies between its clock reading and the last stamp. */
  lemma StampWithin(draws: seq<Draw>, i: nat)
    requires i < |draws|
    ensures draws[i].now.Floor <= Stamp(draws[..i + 1]).Floor <= Stamp(draws).Floor
  {
    var a := draws[..i + 1];
    assert a[|a| - 1] == draws[i] && Stamp(a) >= draws[i].now;
    if i + 1 < |draws| { StampsClimb(draws, i + 1); } else { assert a == draws; }
  }

  /** The bound is sharp: the stamp that needs an eleventh digit sorts before its predecessor. */
  lemma StampLimitIsSharp(rand: seq<Byte>)
    requires |rand| == 10
    ensures LexLess(IdText(STAMP_LIMIT, rand), IdText(STAMP_LIMIT - 1, rand))
  {
    ModUnique(STAMP_LIMIT, 1, STAMP_LIMIT, 0);
    ModUnique(STAMP_LIMIT - 1, 0, STAMP_LIMIT, STAMP_LIMIT - 1);
    IdTextOrder(STAMP_LIMIT, rand, STAMP_LIMIT - 1, rand);
  }
}

/**
  What the word operations of MD5 do, as sections 2 and 3.4 of RFC 1321 describe them: bit by bit for
  the round functions, as numbers for rotation and byte order.  A lemma on plain words comes before
  each, so that the solver sees no function in it.
 */
module Md5Words {
  import opened Md5Rounds
  import opened Md5Spec
  import Md5

  // ---- the round functions, bit by bit ------------------------------------------------

  predicate OneBit(b: Word) { b != 0 && b & (b - 1) == 0 }

  // If x then y else z.
  lemma FBit(f: Word, x: Word, y: Word, z: Word, b: Word)
    requires OneBit(b) && f == (x & y) | (!x & z)
    ensures f & b != 0 <==> if x & b != 0 then y & b != 0 else z & b != 0
  {
  }

  lemma FChooses(x: Word, y: Word, z: Word, b: Word)
    requires OneBit(b)
    ensures F(x, y, z) & b != 0 <==> if x & b != 0 then y & b != 0 else z & b != 0
  {
    hide OneBit;
    FBit(F(x, y, z), x, y, z, b);
  }

  // If z then x else y.
  lemma GBit(g: Word, x: Word, y: Word, z: Word, b: Word)
    requires OneBit(b) && g == (x & z) | (y & !z)
    ensures g & b != 0 <==> if z & b != 0 then x & b != 0 else y & b != 0
  {
  }

  lemma GChooses(x: Word, y: Word, z: Word, b: Word)
    requires OneBit(b)
    ensures G(x, y, z) & b != 0 <==> if z & b != 0 then x & b != 0 else y & b != 0
  {
    hide OneBit;
    GBit(G(x, y, z), x, y, z, b);
  }

  // Parity.
  lemma XorBit(w: Word, x: Word, y: Word, b: Word)
    requires OneBit(b) && w == x ^ y
    ensures w & b != 0 <==> ((x & b != 0) != (y & b != 0))
  {
  }

  lemma HBit(h: Word, w: Word, x: Word, y: Word, z: Word, b: Word)
    requires OneBit(b) && w == x ^ y && h == w ^ z
    ensures h & b != 0 <==> ((x & b != 0) != ((y & b != 0) != (z & b != 0)))
  {
    hide OneBit;
    XorBit(w, x, y, b);
    XorBit(h, w, z, b);
  }

  lemma HIsParity(x: Word, y: Word, z: Word, b: Word)
    requires OneBit(b)
    ensures H(x, y, z) & b != 0 <==> ((x & b != 0) != ((y & b != 0) != (z & b != 0)))
  {
    hide OneBit;
    HBit(H(x, y, z), x ^ y, x, y, z, b);
  }

  // The bit of y, turned over where x has it or z has not.
  lemma IBit(i: Word, x: Word, y: Word, z: Word, b: Word)
    requires OneBit(b) && i == y ^ (x | !z)
    ensures (i & b != 0) != (y & b != 0) <==> x & b != 0 || z & b == 0
  {
  }

  lemma IFlips(x: Word, y: Word, z: Word, b: Word)
    requires OneBit(b)
    ensures (I(x, y, z) & b != 0) != (y & b != 0) <==> x & b != 0 || z & b == 0
  {
    hide OneBit;
    IBit(I(x, y, z), x, y, z, b);
  }

  // ---- rotation ------------------------------------------------------------------------

  function Pow2(n: nat): (p: nat)
    ensures p > 0
  {
    if n == 0 then 1 else 2 * Pow2(n - 1)
  }

  predicate IsTurned(r: Word, x: Word, k: bv6)
    requires k <= 32
  {
    r == (x << k) | (x >> (32 - k))
  }

  lemma RotatedIs(x: Word, k: bv6)
    requires k <= 32
    ensures IsTurned(Rotated(x, k), x, k)
  {
  }

  // One place more is one place after the others.
  lemma TurnedOnce(x: Word, k: bv6, r: Word, s: Word, t: Word)
    requires 1 <= k <= 30 && IsTurned(r, x, k) && IsTurned(s, x, k + 1) && IsTurned(t, r, 1)
    ensures s == t
  {
  }

  lemma RotatedMore(x: Word, k: bv6)
    requires 1 <= k <= 30
    ensures Rotated(x, k + 1) == Rotated(Rotated(x, k), 1)
  {
    hide Rotated, IsTurned;
    var r := Rotated(x, k);
    RotatedIs(x, k);
    RotatedIs(x, k + 1);
    RotatedIs(r, 1);
    TurnedOnce(x, k, r, Rotated(x, k + 1), Rotated(r, 1));
  }

  lemma AsBits(n: nat)
    requires 0 < n < 31
    ensures 1 <= n as bv6 <= 30 && (n + 1) as bv6 == n as bv6 + 1
  {
    if n < 16 { AsBitsLow(n); } else { AsBitsHigh(n); }
  }

  lemma AsBitsLow(n: nat)
    requires 0 < n < 16
    ensures 1 <= n as bv6 <= 30 && (n + 1) as bv6 == n as bv6 + 1
  {
    match n
    case 1 => case 2 => case 3 => case 4 => case 5 => case 6 => case 7 => case 8 => case 9 => case 10 =>
    case 11 => case 12 => case 13 => case 14 => case _ =>
  }

  lemma AsBitsHigh(n: nat)
    requires 16 <= n < 31
    ensures 1 <= n as bv6 <= 30 && (n + 1) as bv6 == n as bv6 + 1
  {
    match n
    case 16 => case 17 => case 18 => case 19 => case 20 => case 21 => case 22 => case 23 => case 24 => case 25 =>
    case 26 => case 27 => case 28 => case 29 => case _ =>
  }

  function Number(x: Word): (n: nat)
    ensures n < WORD_MOD
  {
    x as nat
  }

  // The top bit and the others, either way round.
  function TopFirst(hi: bv1, lo: bv31): Word { ((hi as Word) << 31) | (lo as Word) }

  function TopLast(hi: bv1, lo: bv31): Word { ((lo as Word) << 1) | (hi as Word) }

  lemma TopBit(x: Word)
    ensures x >> 31 <= 1 && x & 0x7fff_ffff <= 0x7fff_ffff
    ensures x == TopFirst((x >> 31) as bv1, (x & 0x7fff_ffff) as bv31)
  {
  }

  lemma Split(x: Word) returns (hi: bv1, lo: bv31)
    ensures x == TopFirst(hi, lo)
  {
    hide TopFirst;
    TopBit(x);
    hi, lo := (x >> 31) as bv1, (x & 0x7fff_ffff) as bv31;
  }

  lemma TurnedTop(x: Word, r: Word, hi: bv1, lo: bv31)
    requires x == TopFirst(hi, lo) && IsTurned(r, x, 1)
    ensures r == TopLast(hi, lo)
  {
  }

  lemma FirstNumber(hi: bv1, lo: bv31)
    ensures (((hi as Word) << 31) | (lo as Word)) as nat == 0x8000_0000 * (hi as nat) + lo as nat
  {
  }

  lemma LastNumber(hi: bv1, lo: bv31)
    ensures (((lo as Word) << 1) | (hi as Word)) as nat == 2 * (lo as nat) + hi as nat
  {
  }

  lemma TopNumber(hi: bv1, lo: bv31)
    ensures TopFirst(hi, lo) as nat == 0x8000_0000 * (hi as nat) + lo as nat
    ensures TopLast(hi, lo) as nat == 2 * (lo as nat) + hi as nat
  {
    FirstNumber(hi, lo);
    LastNumber(hi, lo);
  }

  lemma RotateOne(x: Word) returns (hi: nat, lo: nat)
    ensures hi < 2 && lo < 0x8000_0000 && Number(x) == 0x8000_0000 * hi + lo
    ensures Number(Rotated(x, 1)) == 2 * lo + hi
  {
    hide Rotated, IsTurned, TopFirst, TopLast;
    var h, l := Split(x);
    RotatedIs(x, 1);
    TurnedTop(x, Rotated(x, 1), h, l);
    TopNumber(h, l);
    hi, lo := h as nat, l as nat;
  }

  lemma RotateMore(x: Word, n: nat)
    requires 1 < n < 32
    ensures RotateLeft(x, n) == Rotated(RotateLeft(x, n - 1), 1)
  {
    hide Rotated;
    AsBits(n - 1);
    RotatedMore(x, (n - 1) as bv6);
  }

  lemma RotateFirst(x: Word)
    ensures RotateLeft(x, 1) == Rotated(x, 1)
  {
    hide Rotated;
  }

  lemma {:induction false} Pow2Add(a: nat, b: nat)
    ensures Pow2(a + b) == Pow2(a) * Pow2(b)
  {
    if a > 0 {
      Pow2Add(a - 1, b);
      assert Pow2(a) * Pow2(b) == 2 * (Pow2(a - 1) * Pow2(b));
    }
  }

  lemma Pow2Of32()
    ensures Pow2(32) == WORD_MOD
  {
    assert Pow2(4) == 16;
    Pow2Add(4, 4);
    Pow2Add(8, 8);
    Pow2Add(16, 16);
    hide Pow2;
  }

  lemma Pow2Word(n: nat)
    requires n <= 32
    ensures Pow2(n) * Pow2(32 - n) == WORD_MOD
  {
    hide Pow2;
    Pow2Add(n, 32 - n);
    Pow2Of32();
  }

  lemma Pow2Parts(n: nat) returns (m: nat, p: nat)
    requires 1 < n < 32
    ensures m == Pow2(32 - n) && p == Pow2(n - 1) && Pow2(32 - (n - 1)) == 2 * m && Pow2(n) == 2 * p
    ensures m * p == 0x8000_0000
  {
    m, p := Pow2(32 - n), Pow2(n - 1);
    Pow2Word(n);
    assert 2 * p * m == 2 * (m * p);
  }

  // The top n bits of x and the others change places.
  lemma {:induction false} RotateSplit(x: Word, n: nat, hi: nat, lo: nat)
    requires 0 < n < 32 && Number(x) == hi * Pow2(32 - n) + lo && lo < Pow2(32 - n)
    ensures Number(RotateLeft(x, n)) == lo * Pow2(n) + hi
  {
    hide Rotated, RotateLeft, Number;
    if n == 1 {
      Pow2Word(1);
      RotateFirst(x);
      var h, l := RotateOne(x);
    } else {
      // the lowest bit of hi is the top bit of the word turned by n - 1
      var m, p := Pow2Parts(n);
      hide Pow2;
      var h, b := hi / 2, hi % 2;
      MovedBit(hi, m, lo);
      RotateSplit(x, n - 1, h, b * m + lo);
      RotateMore(x, n);
      var h1, l1 := RotateOne(RotateLeft(x, n - 1));
      TopBelow(Number(x), hi, m, lo, p);
      Carried(b, h, m, p, lo, h1, l1);
    }
  }

  lemma TopBelow(x: nat, hi: nat, m: nat, lo: nat, p: nat)
    requires x == hi * m + lo && x < WORD_MOD && m * p == 0x8000_0000
    ensures hi / 2 < p
  {
    var q := hi / 2;
    assert hi >= 2 * q && hi * m >= 2 * q * m == 2 * (m * q);
    assert q >= p ==> m * q >= m * p;
  }

  lemma MovedBit(hi: nat, m: nat, lo: nat)
    requires lo < m
    ensures hi * m + lo == hi / 2 * (2 * m) + (hi % 2 * m + lo)
    ensures hi % 2 * m + lo < 2 * m
  {
    var h, b := hi / 2, hi % 2;
    assert hi == 2 * h + b;
    assert (2 * h + b) * m == h * (2 * m) + b * m;
    assert b == 0 || b == 1;
  }

  lemma Carried(b: nat, h: nat, m: nat, p: nat, lo: nat, h1: nat, l1: nat)
    requires b < 2 && h < p && lo < m && m * p == 0x8000_0000 && l1 < 0x8000_0000
    requires (b * m + lo) * p + h == 0x8000_0000 * h1 + l1
    ensures 2 * l1 + h1 == lo * (2 * p) + (2 * h + b)
  {
    assert (b * m + lo) * p == b * (m * p) + lo * p;
    assert lo * p + p <= m * p by { assert (lo + 1) * p <= m * p; }
  }

  // RotateLeft as a number.
  lemma RotateNumber(x: Word, n: nat)
    requires 0 < n < 32
    ensures Number(RotateLeft(x, n)) == Number(x) * Pow2(n) % WORD_MOD + Number(x) / Pow2(32 - n)
  {
    hide RotateLeft, Number;
    var m := Pow2(32 - n);
    var hi, lo := Number(x) / m, Number(x) % m;
    Pow2Word(n);
    assert Number(x) == hi * m + lo;
    RotateSplit(x, n, hi, lo);
    hide Pow2;
    Shifted(hi, lo, m, Pow2(n));
  }

  lemma Shifted(hi: nat, lo: nat, m: nat, p: nat)
    requires lo < m && m * p == WORD_MOD && p > 0
    ensures (hi * m + lo) * p % WORD_MOD == lo * p
  {
    assert (hi * m + lo) * p == hi * (m * p) + lo * p;
    assert (lo + 1) * p <= m * p;
  }

  // ---- byte order -----------------------------------------------------------------------

  lemma BytesNumber(a: Byte, b: Byte, c: Byte, d: Byte)
    ensures ((a as Word) | ((b as Word) << 8) | ((c as Word) << 16) | ((d as Word) << 24)) as nat ==
      a as nat + 0x100 * (b as nat) + 0x1_0000 * (c as nat) + 0x100_0000 * (d as nat)
  {
  }

  lemma WordNumber(b: seq<Byte>)
    requires |b| == 4
    ensures WordOf(b) as nat ==
      b[0] as nat + 0x100 * (b[1] as nat) + 0x1_0000 * (b[2] as nat) + 0x100_0000 * (b[3] as nat)
  {
    BytesNumber(b[0], b[1], b[2], b[3]);
  }

  // The eight length bytes are the bit count modulo 2^64, low-order word first.
  lemma LengthWords(n: nat) returns (lo: nat, hi: nat)
    ensures lo < WORD_MOD && hi < WORD_MOD && Decode(LengthBytes(n)) == [lo as Word, hi as Word]
    ensures lo + WORD_MOD * hi == 8 * n % (WORD_MOD * WORD_MOD)
  {
    hide Encode, Decode;
    lo, hi := 8 * n % WORD_MOD, 8 * n / WORD_MOD % WORD_MOD;
    DecodeEncode([lo as Word, hi as Word]);
    TwoWords(8 * n);
  }

  lemma TwoWords(v: nat)
    ensures v % WORD_MOD + WORD_MOD * (v / WORD_MOD % WORD_MOD) == v % (WORD_MOD * WORD_MOD)
  {
    var q, r := v / WORD_MOD, v % WORD_MOD;
    var h, l := q / WORD_MOD, q % WORD_MOD;
    assert v == WORD_MOD * q + r && q == WORD_MOD * h + l;
    assert v == (WORD_MOD * WORD_MOD) * h + (WORD_MOD * l + r);
  }

  // ---- hexadecimal -----------------------------------------------------------------------

  function HexValue(c: char): nat {
    if '0' <= c <= '9' then c as nat - '0' as nat else if 'a' <= c <= 'f' then c as nat - 'a' as nat + 10 else 16
  }

  lemma HexDigit(d: nat)
    requires d < 16
    ensures HexValue(Md5.HEX[d]) == d
  {
  }

  lemma Nibbles(x: Byte)
    ensures 0x10 * ((x >> 4) as nat) + (x & 0x0f) as nat == x as nat
    ensures (x >> 4) as nat < 16 && (x & 0x0f) as nat < 16
  {
  }

  // Two digits read as their byte.
  lemma {:induction false} HexReads(b: seq<Byte>, i: nat)
    requires i < |b|
    ensures var s := Md5.HexOf(b); 0x10 * HexValue(s[2 * i]) + HexValue(s[2 * i + 1]) == b[i] as nat
  {
    if i > 0 {
      HexReads(b[1..], i - 1);
    } else {
      Nibbles(b[0]);
      HexDigit((b[0] >> 4) as nat);
      HexDigit((b[0] & 0x0f) as nat);
    }
  }
}

/**
  MD5 as RFC 1321 defines it, on byte sequences: padding and length (sections
  3.1 and 3.2), the block function folded over the blocks (section 3.4, see
  Md5Rounds), and the little-endian output (section 3.5).
 */
module Md5Spec {
  import opened Md5Rounds

  type Byte = bv8
  type Word = bv32

  const INITIAL: Registers<Word> := Regs(0x67452301, 0xefcdab89, 0x98badcfe, 0x10325476)

  function F(x: Word, y: Word, z: Word): Word { (x & y) | (!x & z) }
  function G(x: Word, y: Word, z: Word): Word { (x & z) | (y & !z) }
  function H(x: Word, y: Word, z: Word): Word { x ^ y ^ z }
  function I(x: Word, y: Word, z: Word): Word { y ^ (x | !z) }

  function Rotated(x: Word, n: bv6): Word
    requires n <= 32
  {
    (x << n) | (x >> (32 - n))
  }

  function RotateLeft(x: Word, n: nat): Word {
    if 0 < n < 32 then assert n as bv6 <= 32; Rotated(x, n as bv6) else x
  }

  function Call(n: Fun, x: Word, y: Word, z: Word): Word {
    match n
    case FunF => F(x, y, z)
    case FunG => G(x, y, z)
    case FunH => H(x, y, z)
    case FunI => I(x, y, z)
  }

  function Add(x: Word, y: Word): Word { x + y }

  function Constant(n: nat): Word { if n < WORD_MOD then n as Word else 0 }

  const ALU: Alu<Word> := Alu(Add, RotateLeft, Call, Constant)

  // ---- bytes and words, low-order byte first --------------------------------------

  function WordOf(b: seq<Byte>): Word
    requires |b| == 4
  {
    (b[0] as Word) | ((b[1] as Word) << 8) | ((b[2] as Word) << 16) | ((b[3] as Word) << 24)
  }

  function BytesOf(w: Word): (b: seq<Byte>)
    ensures |b| == 4
  {
    [(w & 0xff) as Byte, ((w >> 8) & 0xff) as Byte, ((w >> 16) & 0xff) as Byte, ((w >> 24) & 0xff) as Byte]
  }

  function Decode(b: seq<Byte>): (x: seq<Word>)
    requires |b| % 4 == 0
    ensures |x| == |b| / 4
  {
    if b == [] then [] else [WordOf(b[..4])] + Decode(b[4..])
  }

  function Encode(x: seq<Word>): (b: seq<Byte>)
    ensures |b| == 4 * |x|
  {
    if x == [] then [] else BytesOf(x[0]) + Encode(x[1..])
  }

  lemma WordRoundTrip(w: Word)
    ensures WordOf(BytesOf(w)) == w
  {
  }

  lemma {:induction false} DecodeEncode(x: seq<Word>)
    ensures Decode(Encode(x)) == x
  {
    if x != [] {
      var b := Encode(x);
      assert b[..4] == BytesOf(x[0]) && b[4..] == Encode(x[1..]);
      WordRoundTrip(x[0]);
      DecodeEncode(x[1..]);
    }
  }

  // ---- the block function, folded over the padded message ---------------------------

  function AddRegisters(r: Registers<Word>, s: Registers<Word>): Registers<Word> {
    Regs(r.a + s.a, r.b + s.b, r.c + s.c, r.d + s.d)
  }

  function Compress(r: Registers<Word>, block: seq<Byte>): Registers<Word> {
    if |block| == 64 then AddRegisters(r, AllSteps(ALU, r, Decode(block))) else r
  }

  // f folded over the whole blocks of m, in order; a rest shorter than 64 does not count.
  function Fold<S, B>(f: (S, seq<B>) -> S, r: S, m: seq<B>): S
    decreases |m|
  {
    if |m| < 64 then r else Fold(f, f(r, m[..64]), m[64..])
  }

  function Zeros(n: nat): (z: seq<Byte>)
    ensures |z| == n
  {
    seq(n, _ => 0)
  }

  // Section 3.2: the bit count modulo 2^64, as two words, low-order word first.
  function LengthBytes(n: nat): (b: seq<Byte>)
    ensures |b| == 8
  {
    Encode([(8 * n % WORD_MOD) as Word, (8 * n / WORD_MOD % WORD_MOD) as Word])
  }

  // Section 3.1: one 0x80 byte, then zeros up to 56 modulo 64.
  function PadLength(n: nat): (k: nat)
    ensures 1 <= k <= 64 && (n + k) % 64 == 56
  {
    if n % 64 < 56 then 56 - n % 64 else 120 - n % 64
  }

  function Pad(n: nat): seq<Byte> {
    [0x80] + Zeros(PadLength(n) - 1)
  }

  function Digest(m: seq<Byte>): seq<Byte> {
    var r := Fold(Compress, INITIAL, m + Pad(|m|) + LengthBytes(|m|));
    Encode([r.a, r.b, r.c, r.d])
  }
}

/**
  The block function of MD5: RFC 1321, section 3.4, as a loop of 64 steps.

  It is stated over any type of words; Md5Spec instantiates it with 32-bit ones.
 */
module Md5Rounds {

  datatype Fun = FunF | FunG | FunH | FunI

  // The word arithmetic: addition, left rotation, the four round functions, constants.
  datatype Alu<!W> = Alu(add: (W, W) -> W, rotl: (W, nat) -> W, call: (Fun, W, W, W) -> W, constant: nat -> W)

  datatype Registers<W> = Regs(a: W, b: W, c: W, d: W)

  const WORD_MOD: nat := 0x1_0000_0000

  function FunOf(k: nat): Fun {
    if k < 16 then FunF else if k < 32 then FunG else if k < 48 then FunH else FunI
  }

  function WordIndex(k: nat): nat {
    if k < 16 then k
    else if k < 32 then (5 * k + 1) % 16
    else if k < 48 then (3 * k + 5) % 16
    else (7 * k) % 16
  }

  function Shift(k: nat): nat {
    var c := k % 4;
    if k < 16 then if c == 0 then 7 else if c == 1 then 12 else if c == 2 then 17 else 22
    else if k < 32 then if c == 0 then 5 else if c == 1 then 9 else if c == 2 then 14 else 20
    else if k < 48 then if c == 0 then 4 else if c == 1 then 11 else if c == 2 then 16 else 23
    else if c == 0 then 6 else if c == 1 then 10 else if c == 2 then 15 else 21
  }

  // T[k + 1]: the integer part of 2^32 times |sin(k + 1)|.
  function T(k: nat): (r: nat)
    ensures r < WORD_MOD
  {
    match k
    case 0 => 0xd76aa478
    case 1 => 0xe8c7b756
    case 2 => 0x242070db
    case 3 => 0xc1bdceee
    case 4 => 0xf57c0faf
    case 5 => 0x4787c62a
    case 6 => 0xa8304613
    case 7 => 0xfd469501
    case 8 => 0x698098d8
    case 9 => 0x8b44f7af
    case 10 => 0xffff5bb1
    case 11 => 0x895cd7be
    case 12 => 0x6b901122
    case 13 => 0xfd987193
    case 14 => 0xa679438e
    case 15 => 0x49b40821
    case 16 => 0xf61e2562
    case 17 => 0xc040b340
    case 18 => 0x265e5a51
    case 19 => 0xe9b6c7aa
    case 20 => 0xd62f105d
    case 21 => 0x2441453
    case 22 => 0xd8a1e681
    case 23 => 0xe7d3fbc8
    case 24 => 0x21e1cde6
    case 25 => 0xc33707d6
    case 26 => 0xf4d50d87
    case 27 => 0x455a14ed
    case 28 => 0xa9e3e905
    case 29 => 0xfcefa3f8
    case 30 => 0x676f02d9
    case 31 => 0x8d2a4c8a
    case 32 => 0xfffa3942
    case 33 => 0x8771f681
    case 34 => 0x6d9d6122
    case 35 => 0xfde5380c
    case 36 => 0xa4beea44
    case 37 => 0x4bdecfa9
    case 38 => 0xf6bb4b60
    case 39 => 0xbebfbc70
    case 40 => 0x289b7ec6
    case 41 => 0xeaa127fa
    case 42 => 0xd4ef3085
    case 43 => 0x4881d05
    case 44 => 0xd9d4d039
    case 45 => 0xe6db99e5
    case 46 => 0x1fa27cf8
    case 47 => 0xc4ac5665
    case 48 => 0xf4292244
    case 49 => 0x432aff97
    case 50 => 0xab9423a7
    case 51 => 0xfc93a039
    case 52 => 0x655b59c3
    case 53 => 0x8f0ccc92
    case 54 => 0xffeff47d
    case 55 => 0x85845dd1
    case 56 => 0x6fa87e4f
    case 57 => 0xfe2ce6e0
    case 58 => 0xa3014314
    case 59 => 0x4e0811a1
    case 60 => 0xf7537e82
    case 61 => 0xbd3af235
    case 62 => 0x2ad7d2bb
    case _ => 0xeb86d391
  }

  // The operation [abcd k s i]: a = b + ((a + f + x + t) <<< s).
  function Mix<W>(u: Alu<W>, a: W, b: W, f: W, x: W, t: W, s: nat): W {
    u.add(u.rotl(u.add(a, u.add(u.add(f, x), t)), s), b)
  }

  function Step<W>(u: Alu<W>, k: nat, r: Registers<W>, x: seq<W>): Registers<W>
    requires k < 64 && |x| == 16
  {
    Regs(r.d, Mix(u, r.a, r.b, u.call(FunOf(k), r.b, r.c, r.d), x[WordIndex(k)], u.constant(T(k)), Shift(k)), r.b, r.c)
  }

  function Steps<W>(u: Alu<W>, k: nat, r: Registers<W>, x: seq<W>): Registers<W>
    requires k <= 64 && |x| == 16
  {
    if k == 0 then r else Step(u, k - 1, Steps(u, k - 1, r, x), x)
  }

  // ---- the unrolled lines ------------------------------------------------------------

  // The word each line names, agreeing with the formulas above.
  function WordOfLine(k: nat): (r: nat)
    requires k < 64
    ensures r == WordIndex(k)
  {
    match k
    case 16 => 1
    case 17 => 6
    case 18 => 11
    case 19 => 0
    case 20 => 5
    case 21 => 10
    case 22 => 15
    case 23 => 4
    case 24 => 9
    case 25 => 14
    case 26 => 3
    case 27 => 8
    case 28 => 13
    case 29 => 2
    case 30 => 7
    case 31 => 12
    case 32 => 5
    case 33 => 8
    case 34 => 11
    case 35 => 14
    case 36 => 1
    case 37 => 4
    case 38 => 7
    case 39 => 10
    case 40 => 13
    case 41 => 0
    case 42 => 3
    case 43 => 6
    case 44 => 9
    case 45 => 12
    case 46 => 15
    case 47 => 2
    case 48 => 0
    case 49 => 7
    case 50 => 14
    case 51 => 5
    case 52 => 12
    case 53 => 3
    case 54 => 10
    case 55 => 1
    case 56 => 8
    case 57 => 15
    case 58 => 6
    case 59 => 13
    case 60 => 4
    case 61 => 11
    case 62 => 2
    case 63 => 9
    case _ => k
  }

  // The TRANSFORM macro.  k is the number of its line and r the registers in the loop's order;
  // the line does what step k does.
  method TRANSFORM<W>(u: Alu<W>, n: Fun, a: W, b: W, c: W, d: W, x: W, s: nat, ac: nat,
                      ghost k: nat, ghost r: Registers<W>, ghost r0: Registers<W>, ghost xs: seq<W>)
    returns (v: W, ghost j: nat, ghost t: Registers<W>)
    requires k < 64 && |xs| == 16
    requires r == Steps(u, k, r0, xs) == Regs(a, b, c, d)
    requires n == FunOf(k) && x == xs[WordOfLine(k)] && s == Shift(k) && ac == T(k)
    ensures v == Mix(u, a, b, u.call(n, b, c, d), x, u.constant(ac), s)
    ensures j == k + 1 && t == Steps(u, j, r0, xs) == Regs(d, v, b, c)
  {
    v := u.add(a, u.add(u.add(u.call(n, b, c, d), x), u.constant(ac)));
    v := u.rotl(v, s);
    v := u.add(v, b);
    j, t := k + 1, Regs(d, v, b, c);
  }

  method Round1<W>(u: Alu<W>, p: Registers<W>, x: seq<W>, ghost r0: Registers<W>, ghost k0: nat)
    returns (q: Registers<W>)
    requires |x| == 16 && k0 == 0 && p == Steps(u, k0, r0, x)
    ensures q == Steps(u, k0 + 16, r0, x)
  {
    var a, b, c, d := p.a, p.b, p.c, p.d;
    ghost var r, k := p, k0;
    a, k, r := TRANSFORM(u, FunF, a, b, c, d, x[0], 7, 0xd76aa478, k, r, r0, x);
    d, k, r := TRANSFORM(u, FunF, d, a, b, c, x[1], 12, 0xe8c7b756, k, r, r0, x);
    c, k, r := TRANSFORM(u, FunF, c, d, a, b, x[2], 17, 0x242070db, k, r, r0, x);
    b, k, r := TRANSFORM(u, FunF, b, c, d, a, x[3], 22, 0xc1bdceee, k, r, r0, x);
    a, k, r := TRANSFORM(u, FunF, a, b, c, d, x[4], 7, 0xf57c0faf, k, r, r0, x);
    d, k, r := TRANSFORM(u, FunF, d, a, b, c, x[5], 12, 0x4787c62a, k, r, r0, x);
    c, k, r := TRANSFORM(u, FunF, c, d, a, b, x[6], 17, 0xa8304613, k, r, r0, x);
    b, k, r := TRANSFORM(u, FunF, b, c, d, a, x[7], 22, 0xfd469501, k, r, r0, x);
    a, k, r := TRANSFORM(u, FunF, a, b, c, d, x[8], 7, 0x698098d8, k, r, r0, x);
    d, k, r := TRANSFORM(u, FunF, d, a, b, c, x[9], 12, 0x8b44f7af, k, r, r0, x);
    c, k, r := TRANSFORM(u, FunF, c, d, a, b, x[10], 17, 0xffff5bb1, k, r, r0, x);
    b, k, r := TRANSFORM(u, FunF, b, c, d, a, x[11], 22, 0x895cd7be, k, r, r0, x);
    a, k, r := TRANSFORM(u, FunF, a, b, c, d, x[12], 7, 0x6b901122, k, r, r0, x);
    d, k, r := TRANSFORM(u, FunF, d, a, b, c, x[13], 12, 0xfd987193, k, r, r0, x);
    c, k, r := TRANSFORM(u, FunF, c, d, a, b, x[14], 17, 0xa679438e, k, r, r0, x);
    b, k, r := TRANSFORM(u, FunF, b, c, d, a, x[15], 22, 0x49b40821, k, r, r0, x);
    q := Regs(a, b, c, d);
  }

  method Round2<W>(u: Alu<W>, p: Registers<W>, x: seq<W>, ghost r0: Registers<W>, ghost k0: nat)
    returns (q: Registers<W>)
    requires |x| == 16 && k0 == 16 && p == Steps(u, k0, r0, x)
    ensures q == Steps(u, k0 + 16, r0, x)
  {
    var a, b, c, d := p.a, p.b, p.c, p.d;
    ghost var r, k := p, k0;
    a, k, r := TRANSFORM(u, FunG, a, b, c, d, x[1], 5, 0xf61e2562, k, r, r0, x);
    d, k, r := TRANSFORM(u, FunG, d, a, b, c, x[6], 9, 0xc040b340, k, r, r0, x);
    c, k, r := TRANSFORM(u, FunG, c, d, a, b, x[11], 14, 0x265e5a51, k, r, r0, x);
    b, k, r := TRANSFORM(u, FunG, b, c, d, a, x[0], 20, 0xe9b6c7aa, k, r, r0, x);
    a, k, r := TRANSFORM(u, FunG, a, b, c, d, x[5], 5, 0xd62f105d, k, r, r0, x);
    d, k, r := TRANSFORM(u, FunG, d, a, b, c, x[10], 9, 0x2441453, k, r, r0, x);
    c, k, r := TRANSFORM(u, FunG, c, d, a, b, x[15], 14, 0xd8a1e681, k, r, r0, x);
    b, k, r := TRANSFORM(u, FunG, b, c, d, a, x[4], 20, 0xe7d3fbc8, k, r, r0, x);
    a, k, r := TRANSFORM(u, FunG, a, b, c, d, x[9], 5, 0x21e1cde6, k, r, r0, x);
    d, k, r := TRANSFORM(u, FunG, d, a, b, c, x[14], 9, 0xc33707d6, k, r, r0, x);
    c, k, r := TRANSFORM(u, FunG, c, d, a, b, x[3], 14, 0xf4d50d87, k, r, r0, x);
    b, k, r := TRANSFORM(u, FunG, b, c, d, a, x[8], 20, 0x455a14ed, k, r, r0, x);
    a, k, r := TRANSFORM(u, FunG, a, b, c, d, x[13], 5, 0xa9e3e905, k, r, r0, x);
    d, k, r := TRANSFORM(u, FunG, d, a, b, c, x[2], 9, 0xfcefa3f8, k, r, r0, x);
    c, k, r := TRANSFORM(u, FunG, c, d, a, b, x[7], 14, 0x676f02d9, k, r, r0, x);
    b, k, r := TRANSFORM(u, FunG, b, c, d, a, x[12], 20, 0x8d2a4c8a, k, r, r0, x);
    q := Regs(a, b, c, d);
  }

  method Round3<W>(u: Alu<W>, p: Registers<W>, x: seq<W>, ghost r0: Registers<W>, ghost k0: nat)
    returns (q: Registers<W>)
    requires |x| == 16 && k0 == 32 && p == Steps(u, k0, r0, x)
    ensures q == Steps(u, k0 + 16, r0, x)
  {
    var a, b, c, d := p.a, p.b, p.c, p.d;
    ghost var r, k := p, k0;
    a, k, r := TRANSFORM(u, FunH, a, b, c, d, x[5], 4, 0xfffa3942, k, r, r0, x);
    d, k, r := TRANSFORM(u, FunH, d, a, b, c, x[8], 11, 0x8771f681, k, r, r0, x);
    c, k, r := TRANSFORM(u, FunH, c, d, a, b, x[11], 16, 0x6d9d6122, k, r, r0, x);
    b, k, r := TRANSFORM(u, FunH, b, c, d, a, x[14], 23, 0xfde5380c, k, r, r0, x);
    a, k, r := TRANSFORM(u, FunH, a, b, c, d, x[1], 4, 0xa4beea44, k, r, r0, x);
    d, k, r := TRANSFORM(u, FunH, d, a, b, c, x[4], 11, 0x4bdecfa9, k, r, r0, x);
    c, k, r := TRANSFORM(u, FunH, c, d, a, b, x[7], 16, 0xf6bb4b60, k, r, r0, x);
    b, k, r := TRANSFORM(u, FunH, b, c, d, a, x[10], 23, 0xbebfbc70, k, r, r0, x);
    a, k, r := TRANSFORM(u, FunH, a, b, c, d, x[13], 4, 0x289b7ec6, k, r, r0, x);
    d, k, r := TRANSFORM(u, FunH, d, a, b, c, x[0], 11, 0xeaa127fa, k, r, r0, x);
    c, k, r := TRANSFORM(u, FunH, c, d, a, b, x[3], 16, 0xd4ef3085, k, r, r0, x);
    b, k, r := TRANSFORM(u, FunH, b, c, d, a, x[6], 23, 0x4881d05, k, r, r0, x);
    a, k, r := TRANSFORM(u, FunH, a, b, c, d, x[9], 4, 0xd9d4d039, k, r, r0, x);
    d, k, r := TRANSFORM(u, FunH, d, a, b, c, x[12], 11, 0xe6db99e5, k, r, r0, x);
    c, k, r := TRANSFORM(u, FunH, c, d, a, b, x[15], 16, 0x1fa27cf8, k, r, r0, x);
    b, k, r := TRANSFORM(u, FunH, b, c, d, a, x[2], 23, 0xc4ac5665, k, r, r0, x);
    q := Regs(a, b, c, d);
  }

  method Round4<W>(u: Alu<W>, p: Registers<W>, x: seq<W>, ghost r0: Registers<W>, ghost k0: nat)
    returns (q: Registers<W>)
    requires |x| == 16 && k0 == 48 && p == Steps(u, k0, r0, x)
    ensures q == Steps(u, k0 + 16, r0, x)
  {
    var a, b, c, d := p.a, p.b, p.c, p.d;
    ghost var r, k := p, k0;
    a, k, r := TRANSFORM(u, FunI, a, b, c, d, x[0], 6, 0xf4292244, k, r, r0, x);
    d, k, r := TRANSFORM(u, FunI, d, a, b, c, x[7], 10, 0x432aff97, k, r, r0, x);
    c, k, r := TRANSFORM(u, FunI, c, d, a, b, x[14], 15, 0xab9423a7, k, r, r0, x);
    b, k, r := TRANSFORM(u, FunI, b, c, d, a, x[5], 21, 0xfc93a039, k, r, r0, x);
    a, k, r := TRANSFORM(u, FunI, a, b, c, d, x[12], 6, 0x655b59c3, k, r, r0, x);
    d, k, r := TRANSFORM(u, FunI, d, a, b, c, x[3], 10, 0x8f0ccc92, k, r, r0, x);
    c, k, r := TRANSFORM(u, FunI, c, d, a, b, x[10], 15, 0xffeff47d, k, r, r0, x);
    b, k, r := TRANSFORM(u, FunI, b, c, d, a, x[1], 21, 0x85845dd1, k, r, r0, x);
    a, k, r := TRANSFORM(u, FunI, a, b, c, d, x[8], 6, 0x6fa87e4f, k, r, r0, x);
    d, k, r := TRANSFORM(u, FunI, d, a, b, c, x[15], 10, 0xfe2ce6e0, k, r, r0, x);
    c, k, r := TRANSFORM(u, FunI, c, d, a, b, x[6], 15, 0xa3014314, k, r, r0, x);
    b, k, r := TRANSFORM(u, FunI, b, c, d, a, x[13], 21, 0x4e0811a1, k, r, r0, x);
    a, k, r := TRANSFORM(u, FunI, a, b, c, d, x[4], 6, 0xf7537e82, k, r, r0, x);
    d, k, r := TRANSFORM(u, FunI, d, a, b, c, x[11], 10, 0xbd3af235, k, r, r0, x);
    c, k, r := TRANSFORM(u, FunI, c, d, a, b, x[2], 15, 0x2ad7d2bb, k, r, r0, x);
    b, k, r := TRANSFORM(u, FunI, b, c, d, a, x[9], 21, 0xeb86d391, k, r, r0, x);
    q := Regs(a, b, c, d);
  }

  // Four rounds over the sixteen words.
  function AllSteps<W>(u: Alu<W>, r: Registers<W>, x: seq<W>): Registers<W>
    requires |x| == 16
  {
    Steps(u, 4 * |x|, r, x)
  }

  lemma NoSteps<W>(u: Alu<W>, p: Registers<W>, x: seq<W>)
    requires |x| == 16
    ensures Steps(u, 0, p, x) == p
  {
  }

  // The 64 lines together compute the 64 steps.
  method AllRounds<W>(u: Alu<W>, p: Registers<W>, x: seq<W>) returns (q: Registers<W>)
    requires |x| == 16
    ensures q == AllSteps(u, p, x)
  {
    NoSteps(u, p, x);
    hide Steps;
    q := Round1(u, p, x, p, 0);
    q := Round2(u, q, x, p, 16);
    q := Round3(u, q, x, p, 32);
    q := Round4(u, q, x, p, 48);
  }
}

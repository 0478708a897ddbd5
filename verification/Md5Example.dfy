/**
  The digest of the message "abc" as appendix A.5 of RFC 1321 gives it, and with it the whole of
  Md5Spec: tables, round functions, byte order, padding.
 */
module Md5Example {
  import opened Md5Rounds
  import opened Md5Spec

  // The padded message as words.
  const X: seq<Word> := [0x80636261, 0, 0, 0, 0, 0, 0, 0, 0, 0, 0, 0, 0, 0, 0x18, 0]

  lemma XIs()
    ensures |X| == 16 && X[0] == 0x80636261 && X[14] == 0x18
    ensures forall i :: 0 < i < 16 && i != 14 ==> X[i] == 0
  {
  }

  // What step k works with.
  predicate Row(k: nat, f: Fun, i: nat, t: nat, s: nat) {
    k < 64 && FunOf(k) == f && WordIndex(k) == i && T(k) == t && Shift(k) == s
  }

  function Line(f: Fun, r: Registers<Word>, x: Word, t: nat, s: nat): Word {
    Add(RotateLeft(Add(r.a, Add(Add(Call(f, r.b, r.c, r.d), x), Constant(t))), s), r.b)
  }

  lemma MixIs(f: Fun, r: Registers<Word>, x: Word, t: nat, s: nat)
    ensures Mix(ALU, r.a, r.b, ALU.call(f, r.b, r.c, r.d), x, ALU.constant(t), s) == Line(f, r, x, t, s)
  {
    hide Add, RotateLeft, Call, Constant;
  }

  lemma OneStep(k: nat)
    requires k < 64 && |X| == 16
    ensures WordIndex(k) < 16
    ensures var r := Steps(ALU, k, INITIAL, X);
      Steps(ALU, k + 1, INITIAL, X) == Regs(r.d, Line(FunOf(k), r, X[WordIndex(k)], T(k), Shift(k)), r.b, r.c)
  {
    hide Mix, Line, T, Shift, FunOf, X;
    var r := Steps(ALU, k, INITIAL, X);
    MixIs(FunOf(k), r, X[WordIndex(k)], T(k), Shift(k));
  }

  lemma Rows0()
    ensures Row(0, FunF, 0, 0xd76aa478, 7) && Row(1, FunF, 1, 0xe8c7b756, 12)
    ensures Row(2, FunF, 2, 0x242070db, 17) && Row(3, FunF, 3, 0xc1bdceee, 22)
    ensures Row(4, FunF, 4, 0xf57c0faf, 7) && Row(5, FunF, 5, 0x4787c62a, 12)
    ensures Row(6, FunF, 6, 0xa8304613, 17) && Row(7, FunF, 7, 0xfd469501, 22)
  {
  }

  lemma Rows8()
    ensures Row(8, FunF, 8, 0x698098d8, 7) && Row(9, FunF, 9, 0x8b44f7af, 12)
    ensures Row(10, FunF, 10, 0xffff5bb1, 17) && Row(11, FunF, 11, 0x895cd7be, 22)
    ensures Row(12, FunF, 12, 0x6b901122, 7) && Row(13, FunF, 13, 0xfd987193, 12)
    ensures Row(14, FunF, 14, 0xa679438e, 17) && Row(15, FunF, 15, 0x49b40821, 22)
  {
  }

  lemma Rows16()
    ensures Row(16, FunG, 1, 0xf61e2562, 5) && Row(17, FunG, 6, 0xc040b340, 9)
    ensures Row(18, FunG, 11, 0x265e5a51, 14) && Row(19, FunG, 0, 0xe9b6c7aa, 20)
    ensures Row(20, FunG, 5, 0xd62f105d, 5) && Row(21, FunG, 10, 0x02441453, 9)
    ensures Row(22, FunG, 15, 0xd8a1e681, 14) && Row(23, FunG, 4, 0xe7d3fbc8, 20)
  {
  }

  lemma Rows24()
    ensures Row(24, FunG, 9, 0x21e1cde6, 5) && Row(25, FunG, 14, 0xc33707d6, 9)
    ensures Row(26, FunG, 3, 0xf4d50d87, 14) && Row(27, FunG, 8, 0x455a14ed, 20)
    ensures Row(28, FunG, 13, 0xa9e3e905, 5) && Row(29, FunG, 2, 0xfcefa3f8, 9)
    ensures Row(30, FunG, 7, 0x676f02d9, 14) && Row(31, FunG, 12, 0x8d2a4c8a, 20)
  {
  }

  lemma Rows32()
    ensures Row(32, FunH, 5, 0xfffa3942, 4) && Row(33, FunH, 8, 0x8771f681, 11)
    ensures Row(34, FunH, 11, 0x6d9d6122, 16) && Row(35, FunH, 14, 0xfde5380c, 23)
  {
  }

  lemma Rows36()
    ensures Row(36, FunH, 1, 0xa4beea44, 4) && Row(37, FunH, 4, 0x4bdecfa9, 11)
    ensures Row(38, FunH, 7, 0xf6bb4b60, 16) && Row(39, FunH, 10, 0xbebfbc70, 23)
  {
  }

  lemma Rows40()
    ensures Row(40, FunH, 13, 0x289b7ec6, 4) && Row(41, FunH, 0, 0xeaa127fa, 11)
    ensures Row(42, FunH, 3, 0xd4ef3085, 16) && Row(43, FunH, 6, 0x04881d05, 23)
  {
  }

  lemma Rows44()
    ensures Row(44, FunH, 9, 0xd9d4d039, 4) && Row(45, FunH, 12, 0xe6db99e5, 11)
    ensures Row(46, FunH, 15, 0x1fa27cf8, 16) && Row(47, FunH, 2, 0xc4ac5665, 23)
  {
  }

  lemma Rows48()
    ensures Row(48, FunI, 0, 0xf4292244, 6) && Row(49, FunI, 7, 0x432aff97, 10)
    ensures Row(50, FunI, 14, 0xab9423a7, 15) && Row(51, FunI, 5, 0xfc93a039, 21)
  {
  }

  lemma Rows52()
    ensures Row(52, FunI, 12, 0x655b59c3, 6) && Row(53, FunI, 3, 0x8f0ccc92, 10)
    ensures Row(54, FunI, 10, 0xffeff47d, 15) && Row(55, FunI, 1, 0x85845dd1, 21)
  {
  }

  lemma Rows56()
    ensures Row(56, FunI, 8, 0x6fa87e4f, 6) && Row(57, FunI, 15, 0xfe2ce6e0, 10)
    ensures Row(58, FunI, 6, 0xa3014314, 15) && Row(59, FunI, 13, 0x4e0811a1, 21)
  {
  }

  lemma Rows60()
    ensures Row(60, FunI, 4, 0xf7537e82, 6) && Row(61, FunI, 11, 0xbd3af235, 10)
    ensures Row(62, FunI, 2, 0x2ad7d2bb, 15) && Row(63, FunI, 9, 0xeb86d391, 21)
  {
  }

  // The 64 lines on these words, each computed on its own.

  lemma Lines0()
    ensures Line(FunF, Regs(0x67452301, 0xefcdab89, 0x98badcfe, 0x10325476), 0x80636261, 0xd76aa478, 7) == 0xd6d117b4
    ensures Line(FunF, Regs(0x10325476, 0xd6d117b4, 0xefcdab89, 0x98badcfe), 0, 0xe8c7b756, 12) == 0x344a8432
    ensures Line(FunF, Regs(0x98badcfe, 0x344a8432, 0xd6d117b4, 0xefcdab89), 0, 0x242070db, 17) == 0x2f6fbd72
    ensures Line(FunF, Regs(0xefcdab89, 0x2f6fbd72, 0x344a8432, 0xd6d117b4), 0, 0xc1bdceee, 22) == 0x7ad956f2
    ensures Line(FunF, Regs(0xd6d117b4, 0x7ad956f2, 0x2f6fbd72, 0x344a8432), 0, 0xf57c0faf, 7) == 0xc73741ef
    ensures Line(FunF, Regs(0x344a8432, 0xc73741ef, 0x7ad956f2, 0x2f6fbd72), 0, 0x4787c62a, 12) == 0x8bac3051
    ensures Line(FunF, Regs(0x2f6fbd72, 0x8bac3051, 0xc73741ef, 0x7ad956f2), 0, 0xa8304613, 17) == 0x207dc67b
    ensures Line(FunF, Regs(0x7ad956f2, 0x207dc67b, 0x8bac3051, 0xc73741ef), 0, 0xfd469501, 22) == 0x928d99f6
    ensures Line(FunF, Regs(0xc73741ef, 0x928d99f6, 0x207dc67b, 0x8bac3051), 0, 0x698098d8, 7) == 0x854b3712
    ensures Line(FunF, Regs(0x8bac3051, 0x854b3712, 0x928d99f6, 0x207dc67b), 0, 0x8b44f7af, 12) == 0x74e2f284
    ensures Line(FunF, Regs(0x207dc67b, 0x74e2f284, 0x854b3712, 0x928d99f6), 0, 0xffff5bb1, 17) == 0x3020401c
    ensures Line(FunF, Regs(0x928d99f6, 0x3020401c, 0x74e2f284, 0x854b3712), 0, 0x895cd7be, 22) == 0x5ed49596
    ensures Line(FunF, Regs(0x854b3712, 0x5ed49596, 0x3020401c, 0x74e2f284), 0, 0x6b901122, 7) == 0xdda9b9a6
    ensures Line(FunF, Regs(0x74e2f284, 0xdda9b9a6, 0x5ed49596, 0x3020401c), 0, 0xfd987193, 12) == 0xa1051895
    ensures Line(FunF, Regs(0x3020401c, 0xa1051895, 0xdda9b9a6, 0x5ed49596), 0x18, 0xa679438e, 17) == 0xe396856b
    ensures Line(FunF, Regs(0x5ed49596, 0xe396856b, 0xa1051895, 0xdda9b9a6), 0, 0x49b40821, 22) == 0x72aff2e0
  {
  }

  lemma Lines16()
    ensures Line(FunG, Regs(0xdda9b9a6, 0x72aff2e0, 0xe396856b, 0xa1051895), 0, 0xf61e2562, 5) == 0x3e9e9126
    ensures Line(FunG, Regs(0xa1051895, 0x3e9e9126, 0x72aff2e0, 0xe396856b), 0, 0xc040b340, 9) == 0x4a1d804e
    ensures Line(FunG, Regs(0xe396856b, 0x4a1d804e, 0x3e9e9126, 0x72aff2e0), 0, 0x265e5a51, 14) == 0xe25e1652
    ensures Line(FunG, Regs(0x72aff2e0, 0xe25e1652, 0x4a1d804e, 0x3e9e9126), 0x80636261, 0xe9b6c7aa, 20) == 0xb5b204e4
    ensures Line(FunG, Regs(0x3e9e9126, 0xb5b204e4, 0xe25e1652, 0x4a1d804e), 0, 0xd62f105d, 5) == 0x59a8ffda
    ensures Line(FunG, Regs(0x4a1d804e, 0x59a8ffda, 0xb5b204e4, 0xe25e1652), 0, 0x02441453, 9) == 0x6d002f1e
    ensures Line(FunG, Regs(0xe25e1652, 0x6d002f1e, 0x59a8ffda, 0xb5b204e4), 0, 0xd8a1e681, 14) == 0xabfc7920
    ensures Line(FunG, Regs(0xb5b204e4, 0xabfc7920, 0x6d002f1e, 0x59a8ffda), 0, 0xe7d3fbc8, 20) == 0x47092c07
    ensures Line(FunG, Regs(0x59a8ffda, 0x47092c07, 0xabfc7920, 0x6d002f1e), 0, 0x21e1cde6, 5) == 0xb7f268cf
    ensures Line(FunG, Regs(0x6d002f1e, 0xb7f268cf, 0x47092c07, 0xabfc7920), 0x18, 0xc33707d6, 9) == 0x09388eff
    ensures Line(FunG, Regs(0xabfc7920, 0x09388eff, 0xb7f268cf, 0x47092c07), 0, 0xf4d50d87, 14) == 0xfe1623b1
    ensures Line(FunG, Regs(0x47092c07, 0xfe1623b1, 0x09388eff, 0xb7f268cf), 0, 0x455a14ed, 20) == 0x786acb8f
    ensures Line(FunG, Regs(0xb7f268cf, 0x786acb8f, 0xfe1623b1, 0x09388eff), 0, 0xa9e3e905, 5) == 0x790a77fb
    ensures Line(FunG, Regs(0x09388eff, 0x790a77fb, 0x786acb8f, 0xfe1623b1), 0, 0xfcefa3f8, 9) == 0x9f47e4f8
    ensures Line(FunG, Regs(0xfe1623b1, 0x9f47e4f8, 0x790a77fb, 0x786acb8f), 0, 0x676f02d9, 14) == 0xa62884aa
    ensures Line(FunG, Regs(0x786acb8f, 0xa62884aa, 0x9f47e4f8, 0x790a77fb), 0, 0x8d2a4c8a, 20) == 0x726342d3
  {
  }

  lemma Lines32()
    ensures Line(FunH, Regs(0x790a77fb, 0x726342d3, 0xa62884aa, 0x9f47e4f8), 0, 0xfffa3942, 4) == 0xb3707ebf
    ensures Line(FunH, Regs(0x9f47e4f8, 0xb3707ebf, 0x726342d3, 0xa62884aa), 0, 0x8771f681, 11) == 0x60127b2e
    ensures Line(FunH, Regs(0xa62884aa, 0x60127b2e, 0xb3707ebf, 0x726342d3), 0, 0x6d9d6122, 16) == 0x8d212ff5
    ensures Line(FunH, Regs(0x726342d3, 0x8d212ff5, 0x60127b2e, 0xb3707ebf), 0x18, 0xfde5380c, 23) == 0x3b0875c7
    ensures Line(FunH, Regs(0xb3707ebf, 0x3b0875c7, 0x8d212ff5, 0x60127b2e), 0, 0xa4beea44, 4) == 0x21b117b9
    ensures Line(FunH, Regs(0x60127b2e, 0x21b117b9, 0x3b0875c7, 0x8d212ff5), 0, 0x4bdecfa9, 11) == 0x6e7429d5
    ensures Line(FunH, Regs(0x8d212ff5, 0x6e7429d5, 0x21b117b9, 0x3b0875c7), 0, 0xf6bb4b60, 16) == 0x3575227e
    ensures Line(FunH, Regs(0x3b0875c7, 0x3575227e, 0x6e7429d5, 0x21b117b9), 0, 0xbebfbc70, 23) == 0x5a2f5ea5
    ensures Line(FunH, Regs(0x21b117b9, 0x5a2f5ea5, 0x3575227e, 0x6e7429d5), 0, 0x289b7ec6, 4) == 0x11de1779
    ensures Line(FunH, Regs(0x6e7429d5, 0x11de1779, 0x5a2f5ea5, 0x3575227e), 0x80636261, 0xeaa127fa, 11) == 0xfadcaa38
    ensures Line(FunH, Regs(0x3575227e, 0xfadcaa38, 0x11de1779, 0x5a2f5ea5), 0, 0xd4ef3085, 16) == 0x31c465ca
    ensures Line(FunH, Regs(0x5a2f5ea5, 0x31c465ca, 0xfadcaa38, 0x11de1779), 0, 0x04881d05, 23) == 0x4c6124f4
    ensures Line(FunH, Regs(0x11de1779, 0x4c6124f4, 0x31c465ca, 0xfadcaa38), 0, 0xd9d4d039, 4) == 0x7f2e507b
    ensures Line(FunH, Regs(0xfadcaa38, 0x7f2e507b, 0x4c6124f4, 0x31c465ca), 0, 0xe6db99e5, 11) == 0x99d9679d
    ensures Line(FunH, Regs(0x31c465ca, 0x99d9679d, 0x7f2e507b, 0x4c6124f4), 0, 0x1fa27cf8, 16) == 0x8fae6399
    ensures Line(FunH, Regs(0x4c6124f4, 0x8fae6399, 0x99d9679d, 0x7f2e507b), 0, 0xc4ac5665, 23) == 0x7beb9700
  {
  }

  lemma Lines48()
    ensures Line(FunI, Regs(0x7f2e507b, 0x7beb9700, 0x8fae6399, 0x99d9679d), 0x80636261, 0xf4292244, 6) == 0x7b201df8
    ensures Line(FunI, Regs(0x99d9679d, 0x7b201df8, 0x7beb9700, 0x8fae6399), 0, 0x432aff97, 10) == 0xf4e8e96e
    ensures Line(FunI, Regs(0x8fae6399, 0xf4e8e96e, 0x7b201df8, 0x7beb9700), 0x18, 0xab9423a7, 15) == 0xb298cefd
    ensures Line(FunI, Regs(0x7beb9700, 0xb298cefd, 0xf4e8e96e, 0x7b201df8), 0, 0xfc93a039, 21) == 0x8bf025c4
    ensures Line(FunI, Regs(0x7b201df8, 0x8bf025c4, 0xb298cefd, 0xf4e8e96e), 0, 0x655b59c3, 6) == 0x06cc5e8a
    ensures Line(FunI, Regs(0xf4e8e96e, 0x06cc5e8a, 0x8bf025c4, 0xb298cefd), 0, 0x8f0ccc92, 10) == 0x5b0d97aa
    ensures Line(FunI, Regs(0xb298cefd, 0x5b0d97aa, 0x06cc5e8a, 0x8bf025c4), 0, 0xffeff47d, 15) == 0x7d632dd0
    ensures Line(FunI, Regs(0x8bf025c4, 0x7d632dd0, 0x5b0d97aa, 0x06cc5e8a), 0, 0x85845dd1, 21) == 0x3bfa2c27
    ensures Line(FunI, Regs(0x06cc5e8a, 0x3bfa2c27, 0x7d632dd0, 0x5b0d97aa), 0, 0x6fa87e4f, 6) == 0x7f81cc35
    ensures Line(FunI, Regs(0x5b0d97aa, 0x7f81cc35, 0x3bfa2c27, 0x7d632dd0), 0, 0xfe2ce6e0, 10) == 0x094454ab
    ensures Line(FunI, Regs(0x7d632dd0, 0x094454ab, 0x7f81cc35, 0x3bfa2c27), 0, 0xa3014314, 15) == 0x4f9dbe3f
    ensures Line(FunI, Regs(0x3bfa2c27, 0x4f9dbe3f, 0x094454ab, 0x7f81cc35), 0, 0x4e0811a1, 21) == 0x7327d604
    ensures Line(FunI, Regs(0x7f81cc35, 0x7327d604, 0x4f9dbe3f, 0x094454ab), 0, 0xf7537e82, 6) == 0x310ade8f
    ensures Line(FunI, Regs(0x094454ab, 0x310ade8f, 0x7327d604, 0x4f9dbe3f), 0, 0xbd3af235, 10) == 0x624d8cb2
    ensures Line(FunI, Regs(0x4f9dbe3f, 0x624d8cb2, 0x310ade8f, 0x7327d604), 0, 0x2ad7d2bb, 15) == 0xe484b9d8
    ensures Line(FunI, Regs(0x7327d604, 0xe484b9d8, 0x624d8cb2, 0x310ade8f), 0, 0xeb86d391, 21) == 0xc08226b3
  {
  }

  lemma Trace0()
    requires |X| == 16 && Steps(ALU, 0, INITIAL, X) == Regs(0x67452301, 0xefcdab89, 0x98badcfe, 0x10325476)
    ensures Steps(ALU, 16, INITIAL, X) == Regs(0xdda9b9a6, 0x72aff2e0, 0xe396856b, 0xa1051895)
  {
    hide Steps, Line, T, Shift, FunOf, WordIndex, X;
    XIs();
    Rows0(); Rows8();
    Lines0();
    OneStep(0); OneStep(1); OneStep(2); OneStep(3); OneStep(4); OneStep(5); OneStep(6); OneStep(7);
    OneStep(8); OneStep(9); OneStep(10); OneStep(11); OneStep(12); OneStep(13); OneStep(14); OneStep(15);
  }

  lemma Trace16()
    requires |X| == 16 && Steps(ALU, 16, INITIAL, X) == Regs(0xdda9b9a6, 0x72aff2e0, 0xe396856b, 0xa1051895)
    ensures Steps(ALU, 32, INITIAL, X) == Regs(0x790a77fb, 0x726342d3, 0xa62884aa, 0x9f47e4f8)
  {
    hide Steps, Line, T, Shift, FunOf, WordIndex, X;
    XIs();
    Rows16(); Rows24();
    Lines16();
    OneStep(16); OneStep(17); OneStep(18); OneStep(19); OneStep(20); OneStep(21); OneStep(22); OneStep(23);
    OneStep(24); OneStep(25); OneStep(26); OneStep(27); OneStep(28); OneStep(29); OneStep(30); OneStep(31);
  }

  lemma Trace32()
    requires |X| == 16 && Steps(ALU, 32, INITIAL, X) == Regs(0x790a77fb, 0x726342d3, 0xa62884aa, 0x9f47e4f8)
    ensures Steps(ALU, 48, INITIAL, X) == Regs(0x7f2e507b, 0x7beb9700, 0x8fae6399, 0x99d9679d)
  {
    hide Steps, Line, T, Shift, FunOf, WordIndex, X;
    XIs();
    Rows32(); Rows36(); Rows40(); Rows44();
    Lines32();
    OneStep(32); OneStep(33); OneStep(34); OneStep(35); OneStep(36); OneStep(37); OneStep(38); OneStep(39);
    OneStep(40); OneStep(41); OneStep(42); OneStep(43); OneStep(44); OneStep(45); OneStep(46); OneStep(47);
  }

  lemma Trace48()
    requires |X| == 16 && Steps(ALU, 48, INITIAL, X) == Regs(0x7f2e507b, 0x7beb9700, 0x8fae6399, 0x99d9679d)
    ensures Steps(ALU, 64, INITIAL, X) == Regs(0x310ade8f, 0xc08226b3, 0xe484b9d8, 0x624d8cb2)
  {
    hide Steps, Line, T, Shift, FunOf, WordIndex, X;
    XIs();
    Rows48(); Rows52(); Rows56(); Rows60();
    Lines48();
    OneStep(48); OneStep(49); OneStep(50); OneStep(51); OneStep(52); OneStep(53); OneStep(54); OneStep(55);
    OneStep(56); OneStep(57); OneStep(58); OneStep(59); OneStep(60); OneStep(61); OneStep(62); OneStep(63);
  }

  lemma Finish()
    ensures AddRegisters(INITIAL, Regs(0x310ade8f, 0xc08226b3, 0xe484b9d8, 0x624d8cb2)) ==
      Regs(0x98500190, 0xb04fd23c, 0x7d3f96d6, 0x727fe128)
  {
  }

  lemma Compressed(block: seq<Byte>)
    requires |block| == 64 && Decode(block) == X
    ensures Compress(INITIAL, block) == Regs(0x98500190, 0xb04fd23c, 0x7d3f96d6, 0x727fe128)
  {
    hide Steps, Decode, X, Step, AddRegisters;
    XIs();
    NoSteps(ALU, INITIAL, X);
    Trace0();
    Trace16();
    Trace32();
    Trace48();
    Finish();
  }

  lemma {:induction false} EncodeZeros(n: nat, rest: seq<Word>)
    ensures Encode(seq(n, _ => 0) + rest) == Zeros(4 * n) + Encode(rest)
  {
    var z: seq<Word> := seq(n, _ => 0);
    if n == 0 {
      assert z + rest == rest;
    } else {
      assert (z + rest)[1..] == seq(n - 1, _ => 0) + rest;
      EncodeZeros(n - 1, rest);
      assert BytesOf(0) == Zeros(4);
      assert Zeros(4) + Zeros(4 * (n - 1)) == Zeros(4 * n);
      assert Zeros(4) + (Zeros(4 * (n - 1)) + Encode(rest)) == Zeros(4 * n) + Encode(rest);
    }
  }

  const ABC: seq<Byte> := [0x61, 0x62, 0x63]

  lemma FirstBytes()
    ensures BytesOf(0x80636261) == [0x61, 0x62, 0x63, 0x80]
  {
  }

  lemma Front()
    ensures ABC + Pad(3) == BytesOf(0x80636261) + Zeros(52)
  {
    FirstBytes();
    hide BytesOf;
    assert [0x61, 0x62, 0x63] + ([0x80] + Zeros(52)) == [0x61, 0x62, 0x63, 0x80] + Zeros(52);
  }

  lemma LengthOf()
    ensures LengthBytes(3) == Encode([0x18, 0])
  {
    hide Encode;
    assert 8 * 3 % WORD_MOD == 0x18 && 8 * 3 / WORD_MOD % WORD_MOD == 0;
    assert (0x18 as Word) == 0x18 && (0 as Word) == 0;
  }

  lemma EncodeFour(a: Word, b: Word, c: Word, d: Word)
    ensures Encode([a, b, c, d]) == BytesOf(a) + BytesOf(b) + BytesOf(c) + BytesOf(d)
  {
    hide BytesOf;
    assert [a, b, c, d][1..] == [b, c, d] && [b, c, d][1..] == [c, d] && [c, d][1..] == [d] && [d][1..] == [];
    assert Encode([d]) == BytesOf(d) + [] == BytesOf(d);
    assert Encode([c, d]) == BytesOf(c) + BytesOf(d);
    assert Encode([b, c, d]) == BytesOf(b) + (BytesOf(c) + BytesOf(d));
  }

  lemma EncodedX()
    ensures Encode(X) == BytesOf(0x80636261) + (Zeros(52) + Encode([0x18, 0]))
  {
    hide BytesOf, X;
    XIs();
    var rest: seq<Word> := seq(13, _ => 0) + [0x18, 0];
    assert X == [X[0]] + rest && X[1..] == rest;
    EncodeZeros(13, [0x18, 0]);
    hide Zeros;
  }

  lemma PaddedIs()
    ensures var block := ABC + Pad(3) + LengthBytes(3); |block| == 64 && Decode(block) == X
  {
    Front();
    LengthOf();
    EncodedX();
    DecodeEncode(X);
    hide Encode, Decode, BytesOf, Zeros, Pad, LengthBytes, X, ABC;
    assert BytesOf(0x80636261) + Zeros(52) + Encode([0x18, 0]) == BytesOf(0x80636261) + (Zeros(52) + Encode([0x18, 0]));
    XIs();
  }

  lemma OneBlock(block: seq<Byte>)
    requires |block| == 64
    ensures Fold(Compress, INITIAL, block) == Compress(INITIAL, block)
  {
    hide Compress;
    assert block[..64] == block && block[64..] == [];
  }

  lemma ResultBytes()
    ensures BytesOf(0x98500190) == [0x90, 0x01, 0x50, 0x98] && BytesOf(0xb04fd23c) == [0x3c, 0xd2, 0x4f, 0xb0]
    ensures BytesOf(0x7d3f96d6) == [0xd6, 0x96, 0x3f, 0x7d] && BytesOf(0x727fe128) == [0x28, 0xe1, 0x7f, 0x72]
  {
  }

  const DIGEST: seq<Byte> := [
    0x90, 0x01, 0x50, 0x98, 0x3c, 0xd2, 0x4f, 0xb0, 0xd6, 0x96, 0x3f, 0x7d, 0x28, 0xe1, 0x7f, 0x72]

  lemma ResultIs()
    ensures Encode([0x98500190, 0xb04fd23c, 0x7d3f96d6, 0x727fe128]) == DIGEST
  {
    EncodeFour(0x98500190, 0xb04fd23c, 0x7d3f96d6, 0x727fe128);
    ResultBytes();
    hide Encode, BytesOf;
  }

  // MD5 of "abc".
  lemma DigestOfAbc()
    ensures Digest(ABC) == DIGEST
  {
    var block := ABC + Pad(|ABC|) + LengthBytes(|ABC|);
    assert |ABC| == 3;
    PaddedIs();
    OneBlock(block);
    Compressed(block);
    ResultIs();
    hide Compress, Pad, LengthBytes, Fold, Decode, Encode, ABC, DIGEST;
  }
}

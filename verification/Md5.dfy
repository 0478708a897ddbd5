/**
  class md5: a streaming context updated in place.

  Represents(m) says the context is what RFC 1321 prescribes after the bytes m:
  the chaining state of the whole blocks, the rest in the buffer, and the bit
  count modulo 2^64 in two words.
 */
module Md5 {
  import opened Md5Rounds
  import opened Md5Spec

  // update on n bytes so far, given `length` more: a block at the index the input's whole blocks end at
  // would still end within 2^32.
  predicate BlocksFit(n: nat, length: nat) {
    length - (n + length) % 64 + 64 <= WORD_MOD
  }

  // The same of a block loop that begins at `start`.
  predicate LoopFits(start: nat, length: nat) {
    length - (length - start) % 64 + 64 <= WORD_MOD
  }

  // The guard of update's block loop, in 32 bits.
  predicate GoesOn(i: nat, length: nat) {
    (i + 63) % WORD_MOD < length
  }

  // With index bytes in the buffer, in the terms of the loop that starts behind the first block.
  lemma FitFacts(n: nat, index: nat, length: nat)
    requires BlocksFit(n, length) && index == n % 64
    ensures BlocksFit(index, length) && length < WORD_MOD
    ensures index + length >= 64 ==> LoopFits(64 - index, length)
  {
    assert (n + length) % 64 == (index + length) % 64;
  }

  // From `start`, no index of the loop and no guard wraps.
  lemma NoWrap(start: nat, i: nat, length: nat)
    requires start <= i <= length && (i - start) % 64 == 0
    requires LoopFits(start, length)
    ensures i < WORD_MOD && (GoesOn(i, length) <==> i + 63 < length)
  {
    var u, v, w := (i - start) / 64, (length - start) / 64, (length - start) % 64;
    assert i == start + 64 * u && length == start + 64 * v + w;
    assert i + 63 < WORD_MOD;
  }

  // The bytes after the last whole block.
  function Rest(m: seq<Byte>): (r: seq<Byte>)
    ensures |r| == |m| % 64
  {
    m[|m| - |m| % 64..]
  }

  function Whole(m: seq<Byte>): (w: seq<Byte>)
    ensures |w| % 64 == 0 && w + Rest(m) == m
  {
    m[..|m| - |m| % 64]
  }

  lemma RestOf(whole: seq<Byte>, rest: seq<Byte>)
    requires |whole| % 64 == 0 && |rest| < 64
    ensures Rest(whole + rest) == rest && Whole(whole + rest) == whole
  {
    assert |whole + rest| % 64 == |rest|;
  }

  // PADDING: 0x80, then zeros.
  const PADDING: seq<Byte> := [0x80] + Zeros(63)

  lemma {:induction false} FoldAppend<S, B>(f: (S, seq<B>) -> S, r: S, a: seq<B>, b: seq<B>)
    requires |a| % 64 == 0
    ensures Fold(f, r, a + b) == Fold(f, Fold(f, r, a), b)
    decreases |a|
  {
    if a == [] {
      assert a + b == b;
    } else {
      assert (a + b)[..64] == a[..64] && (a + b)[64..] == a[64..] + b;
      FoldAppend(f, f(r, a[..64]), a[64..], b);
    }
  }

  lemma FoldBlock<S, B>(f: (S, seq<B>) -> S, r: S, whole: seq<B>, block: seq<B>)
    requires |whole| % 64 == 0 && |block| == 64
    ensures Fold(f, r, whole + block) == f(Fold(f, r, whole), block)
  {
    FoldAppend(f, r, whole, block);
    assert block[..64] == block && block[64..] == [];
  }

  // What the buffer holds after `input` is added behind its first `idx` bytes.
  function Buffered(was: seq<Byte>, idx: nat, input: seq<Byte>): (r: seq<Byte>)
    requires |was| == 64 && idx < 64
    ensures |r| == 64
  {
    if idx + |input| < 64 then was[..idx] + input + was[idx + |input|..]
    else
      var tail := Rest(was[..idx] + input);
      tail + (was[..idx] + input[..64 - idx])[|tail|..]
  }

  lemma BufferedIs(was: seq<Byte>, m: seq<Byte>, input: seq<Byte>, done: seq<Byte>, left: seq<Byte>)
    requires |was| == 64 && was[..|Rest(m)|] == Rest(m)
    requires done + left == m + input && |done| % 64 == 0 && |left| < 64
    ensures |Rest(m)| + |input| < 64 ==>
      Buffered(was, |m| % 64, input) == Rest(m) + input + was[|Rest(m)| + |input|..]
    ensures |Rest(m)| + |input| >= 64 ==>
      Buffered(was, |m| % 64, input) == left + (Rest(m) + input[..64 - |Rest(m)|])[|left|..]
  {
    var rest, whole := Rest(m), Whole(m);
    assert |whole| + |rest| == |m|;
    SameRest(|whole|, |done|, |rest + input|, |left|);
    hide Rest, Whole;
    assert m + input == whole + (rest + input);
    var k := |rest + input| - |left|;
    assert (rest + input)[k..] == (m + input)[|done|..] == left;
    TailOf(rest + input);
  }

  lemma TailOf(m: seq<Byte>)
    ensures Rest(m) == m[|m| - |m| % 64..]
  {
  }

  lemma SameRest(a: nat, b: nat, n: nat, l: nat)
    requires a % 64 == 0 && b % 64 == 0 && a + n == b + l && l < 64
    ensures n % 64 == l && n >= l
  {
    assert n == (b / 64 - a / 64) * 64 + l;
  }

  // Adding the bit count of a chunk to the low word, with the carry test of update.
  lemma CarryIsExact(n: nat, len: nat)
    requires len < WORD_MOD
    ensures var lo, hi := 8 * n % WORD_MOD, 8 * n / WORD_MOD % WORD_MOD;
      var add := 8 * len % WORD_MOD;
      var lo' := (lo + add) % WORD_MOD;
      var hi' := if lo' < add then (hi + 1) % WORD_MOD else hi;
      lo' == 8 * (n + len) % WORD_MOD && (hi' + len / 0x2000_0000) % WORD_MOD == 8 * (n + len) / WORD_MOD % WORD_MOD
  {
    var q, p := 8 * n / WORD_MOD, 8 * len / WORD_MOD;
    var lo, add := 8 * n % WORD_MOD, 8 * len % WORD_MOD;
    assert p == len / 0x2000_0000;
    assert 8 * n == q * WORD_MOD + lo && 8 * len == p * WORD_MOD + add;
    var carry := if lo + add >= WORD_MOD then 1 else 0;
    assert 8 * (n + len) == (q + p + carry) * WORD_MOD + (lo + add - carry * WORD_MOD);
    assert 8 * (n + len) / WORD_MOD == q + p + carry;
    SumMod(q, carry, p);
  }

  lemma IndexIsRest(n: nat)
    ensures 8 * n % WORD_MOD / 8 % 64 == n % 64
  {
    var q, lo := 8 * n / WORD_MOD, 8 * n % WORD_MOD;
    assert 8 * n == q * WORD_MOD + lo;
    assert n == q * (WORD_MOD / 8) + lo / 8;
  }

  lemma SumMod(q: nat, c: nat, p: nat)
    requires c <= 1
    ensures ((if c == 1 then (q % WORD_MOD + 1) % WORD_MOD else q % WORD_MOD) + p) % WORD_MOD ==
      (q + c + p) % WORD_MOD
  {
  }

  lemma {:induction false} EncodeAppend(x: seq<Word>, w: Word)
    ensures Encode(x + [w]) == Encode(x) + BytesOf(w)
  {
    if x != [] {
      assert (x + [w])[1..] == x[1..] + [w];
      EncodeAppend(x[1..], w);
    }
  }

  lemma {:induction false} DecodeAppend(b: seq<Byte>, c: seq<Byte>)
    requires |b| % 4 == 0 && |c| == 4
    ensures Decode(b + c) == Decode(b) + [WordOf(c)]
  {
    if b == [] {
      assert b + c == c && c[..4] == c && c[4..] == [];
    } else {
      assert (b + c)[..4] == b[..4] && (b + c)[4..] == b[4..] + c;
      DecodeAppend(b[4..], c);
    }
  }

  // The context final leaves behind: for a rest of 56 to 63 bytes, the zeros and the length
  // that padding wrote over it take its place.
  function Overwritten(m: seq<Byte>): (r: seq<Byte>)
    ensures |r| == |m| % 64
  {
    if |m| % 64 < 56 then Rest(m) else (Zeros(56) + LengthBytes(|m|))[..|m| % 64]
  }

  function AfterFinal(m: seq<Byte>): (r: seq<Byte>)
    ensures |r| == |m|
  {
    Whole(m) + Overwritten(m)
  }

  // final keeps the message exactly when its rest is short or happens to equal the overwriting bytes.
  lemma FinalKeepsMessage(m: seq<Byte>)
    ensures AfterFinal(m) == m <==> |m| % 64 < 56 || Rest(m) == (Zeros(56) + LengthBytes(|m|))[..|m| % 64]
  {
    assert AfterFinal(m)[|Whole(m)|..] == Overwritten(m) && m[|Whole(m)|..] == Rest(m);
  }

  lemma LengthBytesIs(n: nat)
    ensures LengthBytes(n) == Encode([(8 * n % WORD_MOD) as Word, (8 * n / WORD_MOD % WORD_MOD) as Word])
  {
  }

  lemma PaddingIs(n: nat)
    ensures PADDING[..PadLength(n)] == Pad(n) && |Pad(n)| == PadLength(n)
  {
  }

  lemma PadLengthFits(n: nat)
    ensures (n + |Pad(n)|) % 64 == 56 && (n + |Pad(n)| + |LengthBytes(n)|) % 64 == 0
  {
    hide PadLength, LengthBytes;
    assert |Pad(n)| == PadLength(n);
    NextBlock(n + PadLength(n));
  }

  lemma NextBlock(n: nat)
    requires n % 64 == 56
    ensures (n + 8) % 64 == 0
  {
  }

  lemma WholePadded(m: seq<Byte>)
    ensures |m + Pad(|m|)| % 64 == 56
    ensures Whole(m + Pad(|m|) + LengthBytes(|m|)) == m + Pad(|m|) + LengthBytes(|m|)
  {
    PadLengthFits(|m|);
    hide Pad, LengthBytes;
    var padded := m + Pad(|m|) + LengthBytes(|m|);
    RestOf(padded, []);
    assert padded + [] == padded;
  }

  // What the two updates of final leave in front of the buffer.
  lemma FinalBuffer(was: seq<Byte>, m: seq<Byte>)
    requires |was| == 64 && was[..|m| % 64] == Rest(m)
    ensures |m + Pad(|m|)| % 64 == 56
    ensures Buffered(Buffered(was, |m| % 64, Pad(|m|)), 56, LengthBytes(|m|))[..|m| % 64] == Overwritten(m)
  {
    var n, i, pad := |m|, |m| % 64, Pad(|m|);
    var b := Buffered(was, i, pad);
    if i >= 56 {
      assert Rest(was[..i] + pad) == (was[..i] + pad)[64..] == pad[64 - i..] == Zeros(56);
    }
    assert b[..56] == if i < 56 then Rest(m) + pad else Zeros(56);
    var c := Buffered(b, 56, LengthBytes(n));
    assert Rest(b[..56] + LengthBytes(n)) == [];
    assert c == b[..56] + LengthBytes(n);
  }

  lemma Rejoined(whole: seq<Byte>, rest: seq<Byte>, input: seq<Byte>, k: nat, i: nat)
    requires k <= i <= |input|
    ensures whole + (rest + input[..k]) + input[k..i] + input[i..] == whole + (rest + input)
  {
    assert input[..k] + input[k..i] + input[i..] == input;
    assert whole + (rest + input[..k]) + input[k..i] + input[i..] ==
      whole + (rest + (input[..k] + input[k..i] + input[i..]));
  }

  const HEX: string := "0123456789abcdef"

  function HexOf(b: seq<Byte>): (s: string)
    ensures |s| == 2 * |b|
  {
    if b == [] then "" else [HEX[(b[0] >> 4) as nat], HEX[(b[0] & 0x0f) as nat]] + HexOf(b[1..])
  }

  class Md5 {
    const state: array<Word>
    const count: array<nat>
    const buffer: array<Byte>
    const digestBytes: array<Byte>
    var finished: bool
    var result: string

    ghost predicate Shape()
      reads this, count
    {
      && state.Length == 4 && count.Length == 2 && buffer.Length == 64 && digestBytes.Length == 16
      && buffer != digestBytes && count[0] < WORD_MOD && count[1] < WORD_MOD
    }

    function Registers(): Registers<Word>
      requires state.Length == 4
      reads state
    {
      Regs(state[0], state[1], state[2], state[3])
    }

    // The context after the whole blocks `whole` and the `rest` of a message.
    ghost predicate Holds(whole: seq<Byte>, rest: seq<Byte>)
      reads this, state, count, buffer
    {
      && Shape() && |whole| % 64 == 0 && |rest| < 64
      && Registers() == Fold(Compress, INITIAL, whole)
      && buffer[..|rest|] == rest
      && CountIs(|whole| + |rest|)
    }

    ghost predicate Represents(m: seq<Byte>)
      reads this, state, count, buffer
    {
      Holds(Whole(m), Rest(m))
    }

    // The bit count of n bytes modulo 2^64, low-order word first.
    ghost predicate CountIs(n: nat)
      requires count.Length == 2
      reads count
    {
      count[0] == 8 * n % WORD_MOD && count[1] == 8 * n / WORD_MOD % WORD_MOD
    }

    constructor ()
      ensures Represents([]) && !finished
      ensures fresh(state) && fresh(count) && fresh(buffer) && fresh(digestBytes)
    {
      state, count := new Word[4], new nat[2];
      buffer, digestBytes := new Byte[64], new Byte[16];
      result := "";
      new;
      Reset();
    }

    method Reset()
      requires state.Length == 4 && count.Length == 2 && buffer.Length == 64 && digestBytes.Length == 16
      requires buffer != digestBytes
      modifies this`finished, state, count
      ensures Represents([]) && !finished
    {
      hide Compress;
      finished := false;
      count[0], count[1] := 0, 0;
      state[0], state[1], state[2], state[3] := 0x67452301, 0xefcdab89, 0x98badcfe, 0x10325476;
      assert CountIs(0);
    }

    static method DecodeWords(input: seq<Byte>, output: array<Word>)
      requires |input| % 4 == 0 && output.Length == |input| / 4
      modifies output
      ensures output[..] == Decode(input)
    {
      var i, j := 0, 0;
      while j < |input|
        invariant j == 4 * i <= |input|
        invariant output[..i] == Decode(input[..j])
      {
        output[i] := (input[j] as Word) | ((input[j + 1] as Word) << 8) | ((input[j + 2] as Word) << 16)
          | ((input[j + 3] as Word) << 24);
        assert input[..j + 4] == input[..j] + input[j..j + 4];
        DecodeAppend(input[..j], input[j..j + 4]);
        i, j := i + 1, j + 4;
      }
      assert input[..j] == input && output[..i] == output[..];
    }

    static method EncodeWords(input: seq<Word>, output: array<Byte>)
      requires output.Length == 4 * |input|
      modifies output
      ensures output[..] == Encode(input)
    {
      var i, j := 0, 0;
      while j < output.Length
        invariant j == 4 * i <= output.Length
        invariant output[..j] == Encode(input[..i])
      {
        output[j] := (input[i] & 0xff) as Byte;
        output[j + 1] := ((input[i] >> 8) & 0xff) as Byte;
        output[j + 2] := ((input[i] >> 16) & 0xff) as Byte;
        output[j + 3] := ((input[i] >> 24) & 0xff) as Byte;
        assert input[..i + 1] == input[..i] + [input[i]];
        EncodeAppend(input[..i], input[i]);
        assert output[..j + 4] == output[..j] + BytesOf(input[i]);
        i, j := i + 1, j + 4;
      }
      assert input[..i] == input && output[..j] == output[..];
    }

    // transform: one block into the state.
    method Transform(block: seq<Byte>)
      requires Shape() && |block| == 64
      modifies state
      ensures Registers() == Compress(old(Registers()), block)
    {
      hide AllSteps, AddRegisters;
      var x := new Word[16];
      DecodeWords(block, x);
      var r := Registers();
      var s := AllRounds(ALU, r, x[..]);
      var q := AddRegisters(r, s);
      state[0], state[1], state[2], state[3] := q.a, q.b, q.c, q.d;
    }

    // memcpy(&_buffer[at], data, |data|)
    method Copy(at: nat, data: seq<Byte>)
      requires Shape() && at + |data| <= 64
      modifies buffer
      ensures buffer[..] == old(buffer[..at]) + data + old(buffer[at + |data|..])
    {
      forall k | 0 <= k < |data| {
        buffer[at + k] := data[k];
      }
    }

    // (_count[0] >> 3) & 0x3f
    method Index(ghost n: nat) returns (index: nat)
      requires Shape() && CountIs(n)
      ensures index == n % 64
    {
      IndexIsRest(n);
      index := count[0] / 8 % 64;
    }

    // The bit count of update: two words, with the carry seen as a wrap of the low one.
    method Count(length: nat, ghost n: nat)
      requires Shape() && length < WORD_MOD && CountIs(n)
      modifies count
      ensures Shape() && CountIs(n + length)
    {
      CarryIsExact(n, length);
      var add := 8 * length % WORD_MOD;
      count[0] := (count[0] + add) % WORD_MOD;
      if count[0] < add {
        count[1] := (count[1] + 1) % WORD_MOD;
      }
      count[1] := (count[1] + length / 0x2000_0000) % WORD_MOD;
    }

    // update's loop: the whole blocks of the input from `start` on.
    method TransformBlocks(input: seq<Byte>, start: nat, ghost done: seq<Byte>) returns (i: nat)
      requires Shape() && start <= |input| && |done| % 64 == 0
      requires Registers() == Fold(Compress, INITIAL, done)
      requires LoopFits(start, |input|)
      modifies state
      ensures start <= i <= |input| < i + 64 && (i - start) % 64 == 0
      ensures Registers() == Fold(Compress, INITIAL, done + input[start..i])
    {
      hide Compress, GoesOn, LoopFits;
      i := start;
      assert done + input[start..i] == done;
      NoWrap(start, i, |input|);
      while GoesOn(i, |input|)
        decreases |input| - i
        invariant start <= i <= |input| && (i - start) % 64 == 0
        invariant Shape() && Registers() == Fold(Compress, INITIAL, done + input[start..i])
        invariant GoesOn(i, |input|) <==> i + 63 < |input|
      {
        Transform(input[i..i + 64]);
        FoldBlock(Compress, INITIAL, done + input[start..i], input[i..i + 64]);
        assert done + input[start..i] + input[i..i + 64] == done + input[start..i + 64];
        NoWrap(start, i + 64, |input|);
        i := (i + 64) % WORD_MOD;
      }
    }

    // update when the input fills the buffer: memcpy, transform, the block loop, memcpy.
    method Absorb(index: nat, input: seq<Byte>, ghost whole: seq<Byte>, ghost rest: seq<Byte>)
      returns (ghost done: seq<Byte>, ghost left: seq<Byte>)
      requires Shape() && |whole| % 64 == 0 && |rest| == index < 64 <= index + |input|
      requires BlocksFit(index, |input|)
      requires Registers() == Fold(Compress, INITIAL, whole) && buffer[..index] == rest
      modifies state, buffer
      ensures |done| % 64 == 0 && |left| < 64 && done + left == whole + (rest + input)
      ensures Registers() == Fold(Compress, INITIAL, done)
      ensures buffer[..] == left + (rest + input[..64 - index])[|left|..]
    {
      hide Compress, BlocksFit, LoopFits;
      FitFacts(index, index, |input|);
      var partLen := 64 - index;
      Copy(index, input[..partLen]);
      assert buffer[..] == rest + input[..partLen];
      Transform(buffer[..]);
      ghost var block := rest + input[..partLen];
      FoldBlock(Compress, INITIAL, whole, block);
      var i := TransformBlocks(input, partLen, whole + block);
      Copy(0, input[i..]);
      done, left := whole + block + input[partLen..i], input[i..];
      Rejoined(whole, rest, input, partLen, i);
    }

    // update: the context for m becomes the context for m + input, however m was cut up.
    method Update(input: seq<Byte>, ghost m: seq<Byte>)
      requires Represents(m) && BlocksFit(|m|, |input|)
      modifies this`finished, state, count, buffer
      ensures Represents(m + input) && !finished
      ensures buffer[..] == Buffered(old(buffer[..]), |m| % 64, input)
    {
      hide Compress;
      hide Buffered, CountIs, BlocksFit, LoopFits;
      FitFacts(|m|, |m| % 64, |input|);
      finished := false;
      ghost var was, whole, rest := buffer[..], Whole(m), Rest(m);
      assert |rest| == |m| % 64 && |m| == |whole| + |rest|;
      var index := Index(|m|);
      Count(|input|, |m|);
      ghost var done, left := whole, rest + input;
      if |input| >= 64 - index {
        done, left := Absorb(index, input, whole, rest);
      } else {
        Copy(index, input);
      }
      assert done + left == whole + (rest + input) == m + input;
      BufferedIs(was, m, input, done, left);
      assert Holds(done, left);
      RestOf(done, left);
    }

    // encode(_count, bits, 8)
    method EncodeCount(ghost n: nat) returns (bits: array<Byte>)
      requires Shape() && CountIs(n)
      ensures fresh(bits) && bits[..] == LengthBytes(n)
    {
      bits := new Byte[8];
      LengthBytesIs(n);
      EncodeWords([count[0] as Word, count[1] as Word], bits);
    }

    // The two updates of final: PADDING, then the saved bit count.
    method PadOut(bits: seq<Byte>, ghost m: seq<Byte>)
      requires Represents(m) && bits == LengthBytes(|m|)
      modifies this`finished, state, count, buffer
      ensures Shape() && Registers() == Fold(Compress, INITIAL, m + Pad(|m|) + bits)
      ensures buffer[..|m| % 64] == Overwritten(m) && !finished
    {
      hide Compress;
      hide Buffered, LengthBytes, Pad, Overwritten, CountIs;
      ghost var was := buffer[..];
      var index := Index(|m|);
      var padLen := if index < 56 then 56 - index else 120 - index;
      PaddingIs(|m|);
      FinalBuffer(was, m);
      WholePadded(m);
      Update(PADDING[..padLen], m);
      Update(bits, m + Pad(|m|));
    }

    // A context of AfterFinal(m) is one of m only if the two are the same message.
    lemma StillRepresents(m: seq<Byte>)
      requires Represents(AfterFinal(m))
      ensures Represents(m) <==> AfterFinal(m) == m
    {
      hide Compress, Overwritten;
      RestOf(Whole(m), Overwritten(m));
    }

    // final: the digest of m, and the context of AfterFinal(m), which is that of m or not.
    method Final(ghost m: seq<Byte>)
      requires Represents(m)
      modifies this`finished, state, count, buffer, digestBytes
      ensures digestBytes[..] == Digest(m)
      ensures Represents(AfterFinal(m)) && !finished
      ensures Represents(m) <==> AfterFinal(m) == m
    {
      hide Compress;
      hide LengthBytes, Pad, Overwritten, Encode;
      var a, b, c, d := state[0], state[1], state[2], state[3];
      var low, high := count[0], count[1];
      var bits := EncodeCount(|m|);
      PadOut(bits[..], m);
      EncodeWords([state[0], state[1], state[2], state[3]], digestBytes);
      state[0], state[1], state[2], state[3] := a, b, c, d;
      count[0], count[1] := low, high;
      RestOf(Whole(m), Overwritten(m));
      assert Holds(Whole(m), Overwritten(m));
      StillRepresents(m);
    }

    // digest: sets _finished, which final's updates clear again.
    method DigestOf(ghost m: seq<Byte>) returns (d: seq<Byte>)
      requires Represents(m)
      modifies this`finished, state, count, buffer, digestBytes
      ensures d == Digest(m) && Represents(AfterFinal(m)) && !finished
    {
      hide Digest, AfterFinal, Compress;
      finished := true;
      Final(m);
      d := digestBytes[..];
    }

    // c_str: the cached text is never used, since no call leaves _finished set.
    method CStr(ghost m: seq<Byte>) returns (s: string)
      requires Represents(m) && !finished
      modifies this, state, count, buffer, digestBytes
      ensures s == HexOf(Digest(m)) && Represents(AfterFinal(m)) && !finished
    {
      if finished {
        return result;
      }
      var d := DigestOf(m);
      result := HexOf(d);
      s := result;
    }
  }

  // The k-th index of update's block loop.
  function IndexAt(start: nat, k: nat): nat {
    if k == 0 then start else (IndexAt(start, k - 1) + 64) % WORD_MOD
  }

  ghost predicate LoopEnds(start: nat, length: nat) {
    exists k: nat :: !GoesOn(IndexAt(start, k), length)
  }

  // update on n bytes so far, given `length` more: no block loop, or one that ends.
  ghost predicate Returns(n: nat, length: nat) {
    length < 64 - n % 64 || LoopEnds(64 - n % 64, length)
  }

  lemma {:induction false} IndexAtIs(start: nat, k: nat)
    requires start < WORD_MOD
    ensures IndexAt(start, k) == (start + 64 * k) % WORD_MOD
  {
    if k > 0 {
      IndexAtIs(start, k - 1);
      var at := start + 64 * (k - 1);
      assert at == at / WORD_MOD * WORD_MOD + at % WORD_MOD;
    }
  }

  lemma FitEnds(start: nat, length: nat)
    requires start <= length && LoopFits(start, length)
    ensures LoopEnds(start, length)
  {
    var k := (length - start) / 64;
    assert start + 64 * k == length - (length - start) % 64;
    IndexAtIs(start, k);
    NoWrap(start, start + 64 * k, length);
    assert !GoesOn(IndexAt(start, k), length);
  }

  lemma UnfitRuns(start: nat, length: nat)
    requires start <= length && start < WORD_MOD && !LoopFits(start, length)
    ensures !LoopEnds(start, length)
  {
    var last := length - (length - start) % 64;
    assert last == start + (length - start) / 64 * 64;
    forall k: nat ensures GoesOn(IndexAt(start, k), length) {
      IndexAtIs(start, k);
      assert last - (start + 64 * k) == 64 * ((length - start) / 64 - k);
      KeepsGoing(start + 64 * k, last, length);
    }
  }

  lemma KeepsGoing(at: nat, last: nat, length: nat)
    requires last <= length && last + 64 > WORD_MOD && (last - at) % 64 == 0
    ensures GoesOn(at % WORD_MOD, length)
  {
    var q, i, u := at / WORD_MOD, at % WORD_MOD, (last - at) / 64;
    assert at == WORD_MOD * q + i && last - at == 64 * u;
    assert last - i == 64 * (u + 0x400_0000 * q);
  }

  // Where fewer than 64 bytes are left the guard must not wrap; else it holds at every index for ever.
  lemma ReturnsIff(n: nat, length: nat)
    ensures Returns(n, length) <==> BlocksFit(n, length)
  {
    hide LoopEnds;
    var index, start := n % 64, 64 - n % 64;
    assert (n + length) % 64 == (index + length) % 64;
    if length >= start {
      assert index + length == length - start + 64;
      if BlocksFit(n, length) {
        FitEnds(start, length);
      } else {
        UnfitRuns(start, length);
      }
    }
  }

  // 56 bytes 'a': after final the context is one of 56 zero bytes and no longer of the message.
  lemma FinalLosesMessage(context: Md5)
    requires context.Represents(AfterFinal(seq(56, _ => 0x61)))
    ensures context.Represents(Zeros(56)) && !context.Represents(seq(56, _ => 0x61))
  {
    hide Compress;
    var m: seq<Byte> := seq(56, _ => 0x61);
    assert AfterFinal(m) == (Zeros(56) + LengthBytes(56))[..56] == Zeros(56);
    assert m[0] != Zeros(56)[0];
    context.StillRepresents(m);
  }
}

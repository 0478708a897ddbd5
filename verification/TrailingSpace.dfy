/**
  skip_trailing_space: eight bytes at a time, by comparing one 64-bit word with a word of spaces.
 */
module TrailingSpace {

  type Byte = n: int | 0 <= n < 0x100

  const SPACE: Byte := 0x20

  function U32(n: nat): nat { n % 0x1_0000_0000 }

  function U64(n: nat): nat { n % 0x1_0000_0000_0000_0000 }

  // Four bytes, shifted and added as 32-bit values.
  function Half(b0: nat, b1: nat, b2: nat, b3: nat): nat {
    U32(U32(U32(b0 + U32(b1 * 0x100)) + U32(b2 * 0x1_0000)) + U32(b3 * 0x100_0000))
  }

  // uint8korr: two halves, the second shifted by 32.
  function Korr8(a: seq<Byte>): nat
    requires |a| == 8
  {
    U64(Half(a[0], a[1], a[2], a[3]) + U64(Half(a[4], a[5], a[6], a[7]) * 0x1_0000_0000))
  }

  // Nothing wraps.
  lemma HalfExact(b0: nat, b1: nat, b2: nat, b3: nat)
    requires b0 < 0x100 && b1 < 0x100 && b2 < 0x100 && b3 < 0x100
    ensures Half(b0, b1, b2, b3) == b0 + 0x100 * b1 + 0x1_0000 * b2 + 0x100_0000 * b3 < 0x1_0000_0000
  {
    hide U32;
    Fits(b1 * 0x100);
    Fits(b2 * 0x1_0000);
    Fits(b3 * 0x100_0000);
    Fits(b0 + b1 * 0x100);
    Fits(b0 + b1 * 0x100 + b2 * 0x1_0000);
    Fits(b0 + b1 * 0x100 + b2 * 0x1_0000 + b3 * 0x100_0000);
  }

  lemma Fits(n: nat)
    requires n < 0x1_0000_0000
    ensures U32(n) == n
  {
  }

  lemma HalvesExact(lo: nat, hi: nat)
    requires lo < 0x1_0000_0000 && hi < 0x1_0000_0000
    ensures U64(lo + U64(hi * 0x1_0000_0000)) == lo + hi * 0x1_0000_0000
  {
  }

  predicate Spaces(s: seq<Byte>) { forall i :: 0 <= i < |s| ==> s[i] == SPACE }

  lemma HalfOfSpaces(b0: nat, b1: nat, b2: nat, b3: nat)
    requires b0 < 0x100 && b1 < 0x100 && b2 < 0x100 && b3 < 0x100
    ensures Half(b0, b1, b2, b3) < 0x1_0000_0000
    ensures Half(b0, b1, b2, b3) == 0x2020_2020 <==> b0 == b1 == b2 == b3 == 0x20
  {
    HalfExact(b0, b1, b2, b3);
  }

  // The comparison of words sees exactly eight spaces.
  lemma WordOfSpaces(a: seq<Byte>)
    requires |a| == 8
    ensures Korr8(a) == 0x2020_2020_2020_2020 <==> Spaces(a)
  {
    hide Half, U32, U64;
    HalfOfSpaces(a[0], a[1], a[2], a[3]);
    HalfOfSpaces(a[4], a[5], a[6], a[7]);
    HalvesExact(Half(a[0], a[1], a[2], a[3]), Half(a[4], a[5], a[6], a[7]));
  }

  // The plain scan, one byte at a time from the end.
  function PlainEnd(s: seq<Byte>): (end: nat)
    ensures end <= |s| && Spaces(s[end..])
    ensures end > 0 ==> s[end - 1] != SPACE
  {
    if s != [] && s[|s| - 1] == SPACE then
      var end := PlainEnd(s[..|s| - 1]);
      assert s[end..] == s[..|s| - 1][end..] + [s[|s| - 1]];
      end
    else |s|
  }

  lemma {:induction false} PlainSkips(s: seq<Byte>, k: nat)
    requires k <= |s| && Spaces(s[k..])
    ensures PlainEnd(s) == PlainEnd(s[..k])
  {
    if k < |s| {
      var init := s[..|s| - 1];
      assert s[k..][|s| - 1 - k] == s[|s| - 1];
      assert init[k..] == s[k..][..|s| - 1 - k] && init[..k] == s[..k];
      PlainSkips(init, k);
    } else {
      assert s[..k] == s;
    }
  }

  method SkipTrailingSpace(ptr: array<Byte>, len: nat) returns (end: nat)
    requires len <= ptr.Length
    ensures end == PlainEnd(ptr[..len])
  {
    end := len;
    ghost var s := ptr[..len];
    assert s[..end] == s;
    while end >= 8
      invariant end <= len && PlainEnd(s) == PlainEnd(s[..end])
    {
      var word := Korr8(ptr[end - 8..end]);
      if word != 0x2020202020202020 {
        break;
      }
      WordOfSpaces(ptr[end - 8..end]);
      assert s[..end][end - 8..] == ptr[end - 8..end] && s[..end][..end - 8] == s[..end - 8];
      PlainSkips(s[..end], end - 8);
      end := end - 8;
    }
    while end > 0 && ptr[end - 1] == SPACE
      invariant end <= len && PlainEnd(s) == PlainEnd(s[..end])
    {
      assert s[..end][..end - 1] == s[..end - 1];
      end := end - 1;
    }
  }
}

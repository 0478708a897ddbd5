/**
  numeric_digit: the highest and lowest set bit by halving a mask.  A word is its bits, lowest first;
  the width is any power of two from 2 on.
 */
module NumericDigit {

  type Word = seq<bool>

  function Shl(w: Word, n: nat): (r: Word)
    ensures |r| == |w|
  {
    seq(|w|, i requires 0 <= i < |w| => i >= n && w[i - n])
  }

  function Shr(w: Word, n: nat): (r: Word)
    ensures |r| == |w|
  {
    seq(|w|, i requires 0 <= i < |w| => i + n < |w| && w[i + n])
  }

  function And(v: Word, w: Word): (r: Word)
    requires |v| == |w|
    ensures |r| == |w|
  {
    seq(|w|, i requires 0 <= i < |w| => v[i] && w[i])
  }

  function Not(w: Word): (r: Word)
    ensures |r| == |w|
  {
    seq(|w|, i requires 0 <= i < |w| => !w[i])
  }

  predicate NonZero(w: Word) { exists i :: 0 <= i < |w| && w[i] }

  // ---- the class template, one instance per mask ---------------------------------------------

  predicate Power(bit: nat) { bit == 2 || (bit > 2 && bit % 2 == 0 && Power(bit / 2)) }

  function Low(self: Word, half: nat): (r: Word)
    ensures |r| == |self|
  {
    And(Not(Shl(self, half)), self)
  }

  function High(self: Word, half: nat): (r: Word)
    ensures |r| == |self|
  {
    Shl(And(Shr(self, half), Low(self, half)), half)
  }

  function MaxIn(self: Word, bit: nat, param: Word): nat
    requires Power(bit) && |param| == |self|
    decreases bit
  {
    var half := bit / 2;
    var L, H := Low(self, half), High(self, half);
    if bit == 2 then if NonZero(And(param, H)) then 2 else if NonZero(And(param, L)) then 1 else 0
    else if NonZero(And(param, H)) then half + MaxIn(H, half, param)
    else MaxIn(L, half, param)
  }

  function MinIn(self: Word, bit: nat, param: Word): nat
    requires Power(bit) && |param| == |self|
    decreases bit
  {
    var half := bit / 2;
    var L, H := Low(self, half), High(self, half);
    if bit == 2 then if NonZero(And(param, L)) then 1 else if NonZero(And(param, H)) then 2 else 0
    else if NonZero(And(param, L)) then MinIn(L, half, param)
    else half + MinIn(H, half, param)
  }

  // numeric_limits<num_t>::max() of an unsigned type.
  function AllOnes(width: nat): (r: Word)
    ensures |r| == width
  {
    seq(width, i => true)
  }

  function Max(param: Word): nat
    requires Power(|param|)
  {
    MaxIn(AllOnes(|param|), |param|, param)
  }

  function Min(param: Word): nat
    requires Power(|param|)
  {
    MinIn(AllOnes(|param|), |param|, param)
  }

  // ---- masks are contiguous blocks ---------------------------------------------------------------

  ghost predicate Block(w: Word, at: nat, bit: nat) {
    at + bit <= |w| && forall i :: 0 <= i < |w| ==> (w[i] <==> at <= i < at + bit)
  }

  lemma LowHalf(self: Word, at: nat, bit: nat, half: nat)
    requires half <= bit && Block(self, at, bit)
    ensures Block(Low(self, half), at, half)
  {
    var up, low := Shl(self, half), Low(self, half);
    assert forall i :: 0 <= i < |self| ==> (up[i] <==> at + half <= i < at + half + bit);
    assert forall i :: 0 <= i < |self| ==> (low[i] <==> self[i] && !up[i]);
  }

  lemma HighHalf(self: Word, at: nat, half: nat)
    requires Block(self, at, 2 * half)
    ensures Block(High(self, half), at + half, half)
  {
    hide Low;
    LowHalf(self, at, 2 * half, half);
    var low := Low(self, half);
    var m := And(Shr(self, half), low);
    assert forall i :: 0 <= i < |self| ==> (m[i] <==> low[i] && i + half < |self| && self[i + half]);
    assert forall i :: 0 <= i < |self| ==> (Shl(m, half)[i] <==> i >= half && m[i - half]);
  }

  // The two derived masks are the lower and the upper half of their parent.
  lemma Halves(self: Word, at: nat, bit: nat)
    requires Power(bit) && Block(self, at, bit)
    ensures Block(Low(self, bit / 2), at, bit / 2)
    ensures Block(High(self, bit / 2), at + bit / 2, bit / 2)
  {
    hide Low, High, Block;
    LowHalf(self, at, bit, bit / 2);
    assert bit == 2 * (bit / 2);
    HighHalf(self, at, bit / 2);
  }

  predicate AnySet(param: Word, at: nat, bit: nat)
    requires at + bit <= |param|
  {
    exists i :: at <= i < at + bit && param[i]
  }

  lemma Masked(param: Word, mask: Word, at: nat, bit: nat)
    requires |param| == |mask| && Block(mask, at, bit)
    ensures NonZero(And(param, mask)) <==> AnySet(param, at, bit)
  {
    var a := And(param, mask);
    forall i | 0 <= i < |a| ensures a[i] <==> param[i] && at <= i < at + bit {}
    if AnySet(param, at, bit) {
      var i :| at <= i < at + bit && param[i];
      assert a[i];
    }
  }

  // ---- what max and min find ---------------------------------------------------------------------

  // r is the one-based position, in the block, of its highest set bit; 0 if none is set.
  ghost predicate IsHighest(param: Word, at: nat, bit: nat, r: nat)
    requires at + bit <= |param|
  {
    && r <= bit && (r > 0 ==> param[at + r - 1])
    && forall i :: at + r <= i < at + bit ==> !param[i]
  }

  ghost predicate IsLowest(param: Word, at: nat, bit: nat, r: nat)
    requires at + bit <= |param|
  {
    && 1 <= r <= bit && param[at + r - 1]
    && forall i :: at <= i < at + r - 1 ==> !param[i]
  }

  // The two halves of a block and the tests made on them.
  lemma Tests(self: Word, at: nat, bit: nat, param: Word)
    requires Power(bit) && Block(self, at, bit) && |param| == |self|
    ensures var half := bit / 2; var L, H := Low(self, half), High(self, half);
      && Block(L, at, half) && Block(H, at + half, half)
      && (NonZero(And(param, L)) <==> AnySet(param, at, half))
      && (NonZero(And(param, H)) <==> AnySet(param, at + half, half))
      && (AnySet(param, at, bit) <==> AnySet(param, at, half) || AnySet(param, at + half, half))
  {
    var half := bit / 2;
    Halves(self, at, bit);
    Masked(param, High(self, half), at + half, half);
    Masked(param, Low(self, half), at, half);
  }

  lemma {:induction false} MaxInFinds(self: Word, at: nat, bit: nat, param: Word)
    requires Power(bit) && Block(self, at, bit) && |param| == |self|
    ensures IsHighest(param, at, bit, MaxIn(self, bit, param))
    decreases bit
  {
    hide Low, High, And, NonZero;
    var half := bit / 2;
    Tests(self, at, bit, param);
    if bit > 2 {
      if AnySet(param, at + half, half) {
        MaxInFinds(High(self, half), at + half, half, param);
      } else {
        MaxInFinds(Low(self, half), at, half, param);
      }
    }
  }

  // A block without a set bit reads as its width less two.
  lemma {:induction false} MinInFinds(self: Word, at: nat, bit: nat, param: Word)
    requires Power(bit) && Block(self, at, bit) && |param| == |self|
    ensures var r := MinIn(self, bit, param);
      if AnySet(param, at, bit) then IsLowest(param, at, bit, r) else r == bit - 2
    decreases bit
  {
    hide Low, High, And, NonZero;
    var half := bit / 2;
    Tests(self, at, bit, param);
    if bit > 2 {
      if AnySet(param, at, half) {
        MinInFinds(Low(self, half), at, half, param);
      } else {
        MinInFinds(High(self, half), at + half, half, param);
      }
    }
  }

  lemma MaxIsHighestBit(param: Word)
    requires Power(|param|)
    ensures IsHighest(param, 0, |param|, Max(param))
    ensures Max(param) == 0 <==> !NonZero(param)
  {
    MaxInFinds(AllOnes(|param|), 0, |param|, param);
  }

  // Right for every non-zero value, and for zero no position at all but the width less two.
  lemma MinIsLowestBit(param: Word)
    requires Power(|param|)
    ensures IsLowest(param, 0, |param|, Min(param)) <==> NonZero(param)
    ensures !NonZero(param) ==> Min(param) == |param| - 2
  {
    MinInFinds(AllOnes(|param|), 0, |param|, param);
    assert AnySet(param, 0, |param|) <==> NonZero(param);
  }
}

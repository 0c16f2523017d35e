/** Words as sets of bits: their value, and spreading the bits of a number over a mask. */
module Bits {
  import opened Types

  function Pow2(n: nat): (r: nat)
    ensures r >= 1
  {
    if n == 0 then 1 else 2 * Pow2(n - 1)
  }

  lemma {:induction false} Pow2Monotone(m: nat, n: nat)
    requires m <= n
    ensures Pow2(m) <= Pow2(n)
    decreases n - m
  {
    if m < n {
      Pow2Monotone(m, n - 1);
    }
  }

  lemma {:induction false} Pow2Adds(m: nat, n: nat)
    ensures Pow2(m) * Pow2(n) == Pow2(m + n)
  {
    if m != 0 {
      Pow2Adds(m - 1, n);
    }
  }

  /** Value of the word whose one bits below `n` are those of `bb`. */
  function WordValue(bb: Bitboard, n: nat): nat
    requires n <= 64
  {
    if n == 0 then 0 else WordValue(bb, n - 1) + if n - 1 in bb then Pow2(n - 1) else 0
  }

  function Word(bb: Bitboard): nat { WordValue(bb, 64) }

  /** The bits of `x`, lowest first, put on the cells of `mask`, lowest first. */
  function Deposit(x: nat, mask: Bitboard): (r: Bitboard)
    ensures r <= mask
    decreases mask
  {
    if mask == {} then {}
    else
      var low := Lowest(mask);
      (if x % 2 == 1 then {low} else {}) + Deposit(x / 2, mask - {low})
  }

  /** The number whose deposit is `bb`. */
  function Extract(bb: Bitboard, mask: Bitboard): (x: nat)
    decreases mask
  {
    if mask == {} then 0
    else
      var low := Lowest(mask);
      (if low in bb then 1 else 0) + 2 * Extract(bb, mask - {low})
  }

  lemma DepositStep(bit: nat, rest: nat, mask: Bitboard)
    requires bit <= 1 && mask != {}
    ensures Deposit(bit + 2 * rest, mask) ==
      (if bit == 1 then {Lowest(mask)} else {}) + Deposit(rest, mask - {Lowest(mask)})
  {
    var x := bit + 2 * rest;
    assert x % 2 == bit && x / 2 == rest;
  }

  lemma {:induction false} ExtractBound(bb: Bitboard, mask: Bitboard)
    ensures Extract(bb, mask) < Pow2(|mask|)
    decreases mask
  {
    if mask != {} {
      ExtractBound(bb, mask - {Lowest(mask)});
      assert |mask - {Lowest(mask)}| == |mask| - 1;
    }
  }

  /** Each subset of the mask is the deposit of some number. */
  lemma {:induction false} DepositExtract(bb: Bitboard, mask: Bitboard)
    requires bb <= mask
    ensures Deposit(Extract(bb, mask), mask) == bb
    decreases mask
  {
    if mask != {} {
      var low := Lowest(mask);
      DepositExtract(bb - {low}, mask - {low});
      ExtractIgnores(bb, mask - {low}, low);
      DepositStep(if low in bb then 1 else 0, Extract(bb, mask - {low}), mask);
      hide Deposit;
    }
  }

  lemma {:induction false} ExtractIgnores(bb: Bitboard, mask: Bitboard, c: Coord)
    requires c !in mask
    ensures Extract(bb - {c}, mask) == Extract(bb, mask)
    decreases mask
  {
    if mask != {} {
      ExtractIgnores(bb, mask - {Lowest(mask)}, c);
    }
  }

  lemma {:induction false} ExtractDeposit(x: nat, mask: Bitboard)
    requires x < Pow2(|mask|)
    ensures Extract(Deposit(x, mask), mask) == x
    decreases mask
  {
    if mask != {} {
      var low := Lowest(mask);
      var rest := Deposit(x / 2, mask - {low});
      ExtractDeposit(x / 2, mask - {low});
      ExtractIgnores(Deposit(x, mask), mask - {low}, low);
      assert |mask - {low}| == |mask| - 1;
      assert Deposit(x, mask) - {low} == rest;
    }
  }

  method DepositBits(x: nat, mask: Bitboard) returns (res: Bitboard)
    ensures res == Deposit(x, mask)
  {
    var msk, y := mask, x;
    res := {};
    while msk != {}
      invariant res + Deposit(y, msk) == Deposit(x, mask)
      decreases msk
    {
      var bit := Lowest(msk);
      if y % 2 == 1 {
        res := res + {bit};
      }
      msk := msk - {bit};
      y := y / 2;
    }
  }
}

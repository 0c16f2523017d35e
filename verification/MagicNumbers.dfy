/** Magic numbers that can be seen to be free of collisions: the product with the magic number puts one shifted
    copy of the occupancy beside another, and a bit of each relevant cell reaches the top. */
module MagicNumbers {
  import opened Types
  import opened Geometry
  import opened Bits
  import opened MagicGeometry
  import opened MagicOffsets
  import opened MagicTables

  // ---- Words and their bits ----

  lemma {:induction false} WordBound(a: Bitboard, n: nat)
    requires n <= 64
    ensures WordValue(a, n) < Pow2(n)
  {
    if n > 0 {
      WordBound(a, n - 1);
    }
  }

  lemma {:induction false} WordOfUnion(a: Bitboard, b: Bitboard, n: nat)
    requires n <= 64 && a !! b
    ensures WordValue(a + b, n) == WordValue(a, n) + WordValue(b, n)
  {
    if n > 0 {
      WordOfUnion(a, b, n - 1);
    }
  }

  lemma {:induction false} WordOfNothing(n: nat)
    requires n <= 64
    ensures WordValue({}, n) == 0
  {
    if n > 0 {
      WordOfNothing(n - 1);
    }
  }

  lemma {:induction false} WordOfBit(c: Coord, n: nat)
    requires n <= 64
    ensures WordValue({c}, n) == if c < n then Pow2(c) else 0
  {
    if n > 0 {
      WordOfBit(c, n - 1);
    }
  }

  /** Shifting up by `k` multiplies; what leaves the word is lost modulo 2^64. */
  lemma {:induction false} ShiftedWord(a: Bitboard, k: nat, n: nat)
    requires n + k <= 64
    ensures WordValue(Shift(a, k), n + k) == WordValue(a, n) * Pow2(k)
  {
    if n == 0 {
      LowBitsAreFree(a, k, k);
    } else {
      ShiftedWord(a, k, n - 1);
      ShiftAt(a, k, n + k - 1);
      Pow2Adds(n - 1, k);
      Distribute(WordValue(a, n - 1), Pow2(n - 1), Pow2(k));
      hide Shift;
      hide Pow2;
    }
  }

  lemma Distribute(x: int, y: int, z: int)
    ensures (x + y) * z == x * z + y * z
  {}

  lemma {:induction false} LowBitsAreFree(a: Bitboard, k: nat, n: nat)
    requires n <= k <= 64
    ensures WordValue(Shift(a, k), n) == 0
  {
    if n > 0 {
      ShiftAt(a, k, n - 1);
      LowBitsAreFree(a, k, n - 1);
    }
  }

  /** The number that the bits from `m` on make up. */
  function TopValue(a: Bitboard, m: nat, n: nat): nat
    requires m <= n <= 64
  {
    if m == n then 0 else TopValue(a, m, n - 1) + if n - 1 in a then Pow2(n - 1 - m) else 0
  }

  lemma {:induction false} TopIsHigh(a: Bitboard, m: nat, n: nat)
    requires m <= n <= 64
    ensures WordValue(a, n) == WordValue(a, m) + TopValue(a, m, n) * Pow2(m)
  {
    if m < n {
      TopIsHigh(a, m, n - 1);
      Pow2Adds(n - 1 - m, m);
      Distribute(TopValue(a, m, n - 1), Pow2(n - 1 - m), Pow2(m));
      hide Pow2;
    }
  }

  lemma {:induction false} TopBound(a: Bitboard, m: nat, n: nat)
    requires m <= n <= 64
    ensures TopValue(a, m, n) < Pow2(n - m)
  {
    if m < n {
      TopBound(a, m, n - 1);
    }
  }

  /** The top number tells the top bits. */
  lemma {:induction false} TopTellsBits(a: Bitboard, b: Bitboard, m: nat, n: nat)
    requires m <= n <= 64 && TopValue(a, m, n) == TopValue(b, m, n)
    ensures forall c: Coord :: m <= c < n ==> (c in a <==> c in b)
  {
    if m < n {
      TopBound(a, m, n - 1);
      TopBound(b, m, n - 1);
      assert n - 1 in a <==> n - 1 in b;
      TopTellsBits(a, b, m, n - 1);
    }
  }

  /** A number is cut in one way only into a multiple and a rest. */
  lemma OneQuotient(i: nat, q: nat, rest: nat, d: nat)
    requires rest < d && i * d <= q * d + rest < (i + 1) * d
    ensures i == q
  {
    if i < q {
      ProductGrows(d, i + 1, q);
    } else if q < i {
      ProductGrows(d, q + 1, i);
    }
  }

  // ---- Shifted copies side by side ----

  /** The bit of some cell of `occupied` is shifted by `s` to `d`. */
  predicate Lands(occupied: Bitboard, s: Coord, d: Coord) {
    s <= d && d - s in occupied
  }

  predicate Covered(occupied: Bitboard, shifts: Bitboard, d: Coord) {
    exists s: Coord :: s in shifts && Lands(occupied, s, d)
  }

  /** The copies together. */
  function Spread(occupied: Bitboard, shifts: Bitboard): Bitboard {
    set d: Coord | Covered(occupied, shifts, d)
  }

  /** Two copies have no bit in common. */
  predicate Apart(mask: Bitboard, s: Coord, r: Coord) {
    forall d: Coord :: !(Lands(mask, s, d) && Lands(mask, r, d))
  }

  predicate NoOverlap(mask: Bitboard, shifts: Bitboard) {
    forall s: Coord, r: Coord :: s in shifts && r in shifts && s != r ==> Apart(mask, s, r)
  }

  /** Each cell has a copy among the highest bits. */
  predicate ReachesTop(mask: Bitboard, shifts: Bitboard, bits: nat) {
    forall c: Coord :: c in mask ==> exists d: Coord :: 64 - bits <= d && Lands(shifts, c, d)
  }

  /** One shifted copy. */
  lemma CopyIsProduct(a: Bitboard, s: Coord) returns (q: nat)
    ensures Word(a) * Pow2(s) == Word(Shift(a, s)) + q * Pow2(64)
  {
    TopIsHigh(a, 64 - s, 64);
    ShiftedWord(a, s, 64 - s);
    q := TopValue(a, 64 - s, 64);
    Distribute(WordValue(a, 64 - s), q * Pow2(64 - s), Pow2(s));
    Pow2Adds(64 - s, s);
    Regroup(q, Pow2(64 - s), Pow2(s));
    hide Pow2;
    hide WordValue;
    hide TopValue;
    hide Shift;
  }

  lemma Regroup(x: int, y: int, z: int)
    ensures x * y * z == x * (y * z)
  {}

  lemma LandsIsShift(a: Bitboard, s: Coord, d: Coord)
    ensures Lands(a, s, d) <==> d in Shift(a, s)
  {
    ShiftAt(a, s, d);
  }

  lemma SpreadStep(a: Bitboard, shifts: Bitboard, s: Coord)
    requires s in shifts && NoOverlap(a, shifts)
    ensures Spread(a, shifts) == Spread(a, shifts - {s}) + Shift(a, s) && Spread(a, shifts - {s}) !! Shift(a, s)
    ensures NoOverlap(a, shifts - {s})
  {
    hide Lands;
    hide Shift;
    forall d: Coord
      ensures d in Spread(a, shifts) <==> d in Spread(a, shifts - {s}) || d in Shift(a, s)
      ensures !(d in Spread(a, shifts - {s}) && d in Shift(a, s))
    {
      LandsIsShift(a, s, d);
    }
  }

  /** The product modulo 2^64 holds all the copies. */
  lemma {:induction false} SpreadIsProduct(a: Bitboard, shifts: Bitboard) returns (q: nat)
    requires NoOverlap(a, shifts)
    ensures Word(a) * Word(shifts) == Word(Spread(a, shifts)) + q * Pow2(64)
    decreases shifts
  {
    hide Pow2;
    hide NoOverlap;
    hide Shift;
    hide WordValue;
    if shifts == {} {
      assert Spread(a, shifts) == {};
      WordOfNothing(64);
      q := 0;
    } else {
      var s: Coord :| s in shifts;
      var rest := shifts - {s};
      SpreadStep(a, shifts, s);
      var q1 := SpreadIsProduct(a, rest);
      var q2 := CopyIsProduct(a, s);
      WordOfUnion(rest, {s}, 64);
      WordOfBit(s, 64);
      assert rest + {s} == shifts;
      hide Spread;
      WordOfUnion(Spread(a, rest), Shift(a, s), 64);
      q := q1 + q2;
      SumOfProducts(Word(a), Word(rest), Pow2(s), q1, q2, Pow2(64));
    }
  }

  lemma SumOfProducts(x: int, y: int, z: int, p: int, q: int, d: int)
    ensures x * (y + z) == x * y + x * z && (p + q) * d == p * d + q * d
  {}

  /** The place of an occupancy is the number that the top bits of the copies make up. */
  lemma IndexIsTop(t: MagicType, c: Coord, shifts: Bitboard, a: Bitboard)
    requires NoOverlap(a, shifts)
    ensures MaskBits(t, c) <= 64
    ensures Index(t, c, WordAsMagic(shifts), a) == TopValue(Spread(a, shifts), 64 - MaskBits(t, c), 64)
  {
    MaskBitsBound(t, c);
    hide MaskBits;
    PlaceIsTop(shifts, a, MaskBits(t, c));
    hide Spread;
    hide NoOverlap;
    hide Word;
    hide TopValue;
    hide HighBits;
  }

  lemma PlaceIsTop(shifts: Bitboard, a: Bitboard, bits: nat)
    requires NoOverlap(a, shifts) && bits <= 64
    ensures HighBits(Word(a) * Word(shifts), bits) == TopValue(Spread(a, shifts), 64 - bits, 64)
  {
    hide Pow2;
    hide Spread;
    hide NoOverlap;
    hide WordValue;
    hide TopValue;
    hide HighBits;
    hide Low64;
    var copies := Spread(a, shifts);
    var q := SpreadIsProduct(a, shifts);
    WordBound(copies, 64);
    TopIsHigh(copies, 64 - bits, 64);
    WordBound(copies, 64 - bits);
    var x := Word(copies);
    var product := Word(a) * Word(shifts);
    hide Word;
    HighBitsAre(product, x, q, bits, TopValue(copies, 64 - bits, 64), WordValue(copies, 64 - bits));
  }

  lemma HighBitsAre(product: nat, x: nat, q: nat, bits: nat, top: nat, rest: nat)
    requires bits <= 64 && product == x + q * Pow2(64) && x < Pow2(64)
    requires x == rest + top * Pow2(64 - bits) && rest < Pow2(64 - bits)
    ensures HighBits(product, bits) == top
  {
    hide Pow2;
    hide Low64;
    hide HighBits;
    OneRest(product, x, q);
    OneQuotient(HighBits(product, bits), top, rest, Pow2(64 - bits));
  }

  lemma OneRest(n: nat, x: nat, q: nat)
    requires n == x + q * Pow2(64) && x < Pow2(64)
    ensures Low64(n) == x
  {
    hide Pow2;
    var d := Pow2(64);
    OneQuotient(n / d, q, x, d);
  }

  /** The magic number with the given one bits. */
  function WordAsMagic(shifts: Bitboard): (w: Word64)
    ensures w == Word(shifts)
  {
    WordBound(shifts, 64);
    Pow2Of64();
    Word(shifts)
  }

  lemma Pow2Of64()
    ensures Pow2(64) == 0x1_0000_0000_0000_0000
  {
    assert Pow2(4) == 16;
    hide Pow2;
    Pow2Adds(4, 4);
    Pow2Adds(8, 8);
    Pow2Adds(16, 16);
    Pow2Adds(32, 32);
  }

  /** Copies that do not overlap and reach the top make a magic number free of collisions. */
  lemma CopiesAreMagic(t: MagicType, c: Coord, shifts: Bitboard)
    requires NoOverlap(MagicMask(t, c), shifts) && ReachesTop(MagicMask(t, c), shifts, MaskBits(t, c))
    ensures Injective(t, c, WordAsMagic(shifts))
  {
    var mask, magic := MagicMask(t, c), WordAsMagic(shifts);
    forall a: Bitboard, b: Bitboard | a <= mask && b <= mask && Index(t, c, magic, a) == Index(t, c, magic, b)
      ensures a == b
    {
      SamePlace(t, c, shifts, a, b);
      SamePlace(t, c, shifts, b, a);
    }
  }

  lemma SamePlace(t: MagicType, c: Coord, shifts: Bitboard, a: Bitboard, b: Bitboard)
    requires NoOverlap(MagicMask(t, c), shifts) && ReachesTop(MagicMask(t, c), shifts, MaskBits(t, c))
    requires a <= MagicMask(t, c) && b <= MagicMask(t, c)
    requires Index(t, c, WordAsMagic(shifts), a) == Index(t, c, WordAsMagic(shifts), b)
    ensures a <= b
  {
    var mask := MagicMask(t, c);
    hide MagicMask;
    hide Index;
    hide WordAsMagic;
    FewerOverlap(mask, a, shifts);
    FewerOverlap(mask, b, shifts);
    IndexIsTop(t, c, shifts, a);
    IndexIsTop(t, c, shifts, b);
    hide TopValue;
    TopTellsBits(Spread(a, shifts), Spread(b, shifts), 64 - MaskBits(t, c), 64);
    hide MaskBits;
    forall e: Coord | e in a
      ensures e in b
    {
      hide NoOverlap;
      var d: Coord :| 64 - MaskBits(t, c) <= d && Lands(shifts, e, d);
      var s: Coord := d - e;
      assert Lands(a, s, d) && Lands(mask, s, d);
      assert Covered(a, shifts, d);
      assert d in Spread(b, shifts);
      var r: Coord :| r in shifts && Lands(b, r, d);
      OneCopy(mask, shifts, s, r, d);
    }
  }

  lemma OneCopy(mask: Bitboard, shifts: Bitboard, s: Coord, r: Coord, d: Coord)
    requires NoOverlap(mask, shifts) && s in shifts && r in shifts && Lands(mask, s, d) && Lands(mask, r, d)
    ensures s == r
  {}

  lemma FewerOverlap(mask: Bitboard, a: Bitboard, shifts: Bitboard)
    requires NoOverlap(mask, shifts) && a <= mask
    ensures NoOverlap(a, shifts)
  {
    assert forall s: Coord, d: Coord :: Lands(a, s, d) ==> Lands(mask, s, d);
  }

  // ---- Two of them ----

  const BISHOP_A8_MASK: Bitboard := {9, 18, 27, 36, 45, 54}
  const BISHOP_A8_SHIFTS: Bitboard := {9, 17, 25, 33, 41, 49}

  const ROOK_G8_MASK: Bitboard := {1, 2, 3, 4, 5, 14, 22, 30, 38, 46, 54}
  const ROOK_G8_SHIFTS: Bitboard := {9, 24, 39, 55}

  lemma BishopA8Mask()
    ensures MagicMask(BishopType, 0) == BISHOP_A8_MASK
  {}

  lemma BishopA8Size()
    ensures |BISHOP_A8_MASK| == 6
  {}

  lemma BishopA8Apart(s: Coord, r: Coord)
    requires s in BISHOP_A8_SHIFTS && r in BISHOP_A8_SHIFTS && s != r
    ensures Apart(BISHOP_A8_MASK, s, r)
  {}

  lemma BishopA8Reaches()
    ensures ReachesTop(BISHOP_A8_MASK, BISHOP_A8_SHIFTS, 6)
  {
    forall c: Coord | c in BISHOP_A8_MASK
      ensures exists d: Coord :: 58 <= d && Lands(BISHOP_A8_SHIFTS, c, d)
    {
      var d: Coord := 57 + c / 9;
      assert Lands(BISHOP_A8_SHIFTS, c, d);
    }
  }

  /** 0x0002020202020200: the diagonal of a8 is copied to the highest bits, one cell at a time. */
  lemma BishopA8IsMagic()
    ensures Injective(BishopType, 0, WordAsMagic(BISHOP_A8_SHIFTS))
  {
    BishopA8Mask();
    BishopA8Size();
    BishopA8Reaches();
    forall s: Coord, r: Coord | s in BISHOP_A8_SHIFTS && r in BISHOP_A8_SHIFTS && s != r
      ensures Apart(BISHOP_A8_MASK, s, r)
    {
      BishopA8Apart(s, r);
    }
    hide Apart;
    hide MagicMask;
    hide Injective;
    hide ReachesTop;
    CopiesAreMagic(BishopType, 0, BISHOP_A8_SHIFTS);
  }

  lemma RookG8Mask()
    ensures MagicMask(RookType, 6) == ROOK_G8_MASK
  {}

  lemma RookG8Size()
    ensures |ROOK_G8_MASK| == 11
  {}

  lemma RookG8Apart(s: Coord, r: Coord)
    requires s in ROOK_G8_SHIFTS && r in ROOK_G8_SHIFTS && s < r
    ensures Apart(ROOK_G8_MASK, s, r)
  {}

  lemma RookG8Reaches(c: Coord)
    requires c in ROOK_G8_MASK
    ensures exists d: Coord :: 53 <= d && Lands(ROOK_G8_SHIFTS, c, d)
  {
    var d: Coord := c + if c <= 5 then 55 else if c <= 22 then 39 else if c <= 38 then 24 else 9;
    assert Lands(ROOK_G8_SHIFTS, c, d);
  }

  /** 0x0080008001000200: row and column of g8. */
  lemma RookG8IsMagic()
    ensures Injective(RookType, 6, WordAsMagic(ROOK_G8_SHIFTS))
  {
    RookG8Mask();
    RookG8Size();
    forall c: Coord | c in ROOK_G8_MASK
      ensures exists d: Coord :: 53 <= d && Lands(ROOK_G8_SHIFTS, c, d)
    {
      RookG8Reaches(c);
    }
    hide MagicMask;
    hide Injective;
    forall s: Coord, r: Coord | s in ROOK_G8_SHIFTS && r in ROOK_G8_SHIFTS && s != r
      ensures Apart(ROOK_G8_MASK, s, r)
    {
      if s < r {
        RookG8Apart(s, r);
      } else {
        RookG8Apart(r, s);
      }
    }
    hide Apart;
    CopiesAreMagic(RookType, 6, ROOK_G8_SHIFTS);
  }
}

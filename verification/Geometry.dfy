/** Lines, steps and sight on the 8x8 board. A slider on one cell sees another when the two are on
    a common line and no occupied cell lies strictly between them. */
module Geometry {
  import opened Types

  /** Diagonals from top-right to bottom-left share this number. */
  function Diag1(c: Coord): int { CoordX(c) + CoordY(c) }

  /** Diagonals from top-left to bottom-right share this number. */
  function Diag2(c: Coord): int { 7 - CoordX(c) + CoordY(c) }

  predicate Inside(a: int, e: int, b: int) { a < e < b || b < e < a }

  predicate RookLine(c: Coord, d: Coord) {
    c != d && (CoordX(c) == CoordX(d) || CoordY(c) == CoordY(d))
  }

  predicate BishopLine(c: Coord, d: Coord) {
    c != d && (Diag1(c) == Diag1(d) || Diag2(c) == Diag2(d))
  }

  predicate StrictlyBetween(c: Coord, e: Coord, d: Coord) {
    || (CoordX(c) == CoordX(e) == CoordX(d) && Inside(CoordY(c), CoordY(e), CoordY(d)))
    || (CoordY(c) == CoordY(e) == CoordY(d) && Inside(CoordX(c), CoordX(e), CoordX(d)))
    || (Diag1(c) == Diag1(e) == Diag1(d) && Inside(CoordX(c), CoordX(e), CoordX(d)))
    || (Diag2(c) == Diag2(e) == Diag2(d) && Inside(CoordX(c), CoordX(e), CoordX(d)))
  }

  /** No cell of `occupied` lies strictly between `c` and `d`. */
  predicate Open(occupied: Bitboard, c: Coord, d: Coord) {
    forall e :: e in occupied ==> !StrictlyBetween(c, e, d)
  }

  predicate RookSees(occupied: Bitboard, c: Coord, d: Coord) {
    RookLine(c, d) && Open(occupied, c, d)
  }

  predicate BishopSees(occupied: Bitboard, c: Coord, d: Coord) {
    BishopLine(c, d) && Open(occupied, c, d)
  }

  predicate KingStep(c: Coord, d: Coord) {
    c != d && -1 <= CoordX(c) - CoordX(d) <= 1 && -1 <= CoordY(c) - CoordY(d) <= 1
  }

  predicate KnightStep(c: Coord, d: Coord) {
    var dx, dy := CoordX(c) - CoordX(d), CoordY(c) - CoordY(d);
    || ((dx == 1 || dx == -1) && (dy == 2 || dy == -2))
    || ((dx == 2 || dx == -2) && (dy == 1 || dy == -1))
  }

  /** A pawn of colour `color` on `c` attacks `d`. */
  predicate PawnStep(color: Color, c: Coord, d: Coord) {
    && CoordX(d) == CoordX(c) + (if color.White? then -1 else 1)
    && (CoordY(d) == CoordY(c) - 1 || CoordY(d) == CoordY(c) + 1)
  }

  /** A cell sees another exactly when it is seen from there. */
  lemma SightIsSymmetric(occupied: Bitboard, c: Coord, d: Coord)
    ensures RookSees(occupied, c, d) == RookSees(occupied, d, c)
    ensures BishopSees(occupied, c, d) == BishopSees(occupied, d, c)
    ensures Open(occupied, c, d) == Open(occupied, d, c)
  {
    assert forall e: Coord :: StrictlyBetween(c, e, d) == StrictlyBetween(d, e, c);
  }

  /** A line through a cell is either straight or diagonal, never both. */
  lemma LinesAreDisjoint(c: Coord, d: Coord)
    ensures !(RookLine(c, d) && BishopLine(c, d))
  {}

  function RookAttacks(occupied: Bitboard, c: Coord): Bitboard {
    set d: Coord | RookSees(occupied, c, d)
  }

  function BishopAttacks(occupied: Bitboard, c: Coord): Bitboard {
    set d: Coord | BishopSees(occupied, c, d)
  }

  function KingAttacks(c: Coord): Bitboard {
    set d: Coord | KingStep(c, d)
  }

  function KnightAttacks(c: Coord): Bitboard {
    set d: Coord | KnightStep(c, d)
  }

  function PawnAttacks(color: Color, c: Coord): Bitboard {
    set d: Coord | PawnStep(color, c, d)
  }

  /** All bits moved by `delta` cells. */
  function Shift(bb: Bitboard, delta: int): Bitboard {
    set d | d in bb && 0 <= d + delta < 64 :: d + delta
  }

  lemma ShiftAt(bb: Bitboard, delta: int, d: Coord)
    ensures d in Shift(bb, delta) <==> 0 <= d - delta < 64 && d - delta in bb
  {
    if 0 <= d - delta < 64 {
      var e: Coord := d - delta;
      assert e in bb <==> d in Shift(bb, delta);
    }
  }

  function Row(x: int): Bitboard { set c: Coord | CoordX(c) == x }

  function Column(y: int): Bitboard { set c: Coord | CoordY(c) == y }

  /** All pawns of `bb` one cell forward. */
  function AdvancePawnForward(c: Color, bb: Bitboard): Bitboard {
    Shift(bb, PawnForwardDelta(c))
  }

  function AdvancePawnLeft(c: Color, bb: Bitboard): Bitboard {
    Shift(bb - Column(0), PawnLeftDelta(c))
  }

  function AdvancePawnRight(c: Color, bb: Bitboard): Bitboard {
    Shift(bb - Column(7), PawnRightDelta(c))
  }
}

/** The cells between two cells of a line, found with two table look-ups and one intersection. */
module Between {
  import opened Types
  import opened Geometry

  /** All cells strictly between `src` and `dst`; none when they share no line. */
  function BetweenCells(src: Coord, dst: Coord): Bitboard {
    set e: Coord | StrictlyBetween(src, e, dst)
  }

  function LtMask(c: Coord): Bitboard { set e: Coord | e in FULL && e < c }

  function GtMask(c: Coord): Bitboard { FULL - (LtMask(c) + {c}) }

  function Diagonals(c: Coord): Bitboard {
    set e: Coord | Diag1(e) == Diag1(c) || Diag2(e) == Diag2(c)
  }

  function Lines(c: Coord): Bitboard {
    set e: Coord | CoordX(e) == CoordX(c) || CoordY(e) == CoordY(c)
  }

  function BishopLt(c: Coord): Bitboard { Diagonals(c) * LtMask(c) }

  function BishopGt(c: Coord): Bitboard { Diagonals(c) * GtMask(c) }

  function RookLt(c: Coord): Bitboard { Lines(c) * LtMask(c) }

  function RookGt(c: Coord): Bitboard { Lines(c) * GtMask(c) }

  lemma BetweenDiagonal(src: Coord, e: Coord, dst: Coord)
    requires src < dst && (Diag1(src) == Diag1(dst) || Diag2(src) == Diag2(dst))
    ensures src < e < dst && e in Diagonals(src) && e in Diagonals(dst) <==> StrictlyBetween(src, e, dst)
  {}

  lemma BetweenLine(src: Coord, e: Coord, dst: Coord)
    requires src < dst && (CoordX(src) == CoordX(dst) || CoordY(src) == CoordY(dst))
    ensures src < e < dst && e in Lines(src) && e in Lines(dst) <==> StrictlyBetween(src, e, dst)
  {}

  lemma OffLineNothing(src: Coord, e: Coord, dst: Coord)
    requires src == dst || !(RookLine(src, dst) || BishopLine(src, dst))
    ensures !StrictlyBetween(src, e, dst)
  {}

  lemma TablesTellLines(src: Coord, dst: Coord)
    requires src <= dst
    ensures dst in BishopGt(src) <==> src < dst && (Diag1(src) == Diag1(dst) || Diag2(src) == Diag2(dst))
    ensures dst in RookGt(src) <==> src < dst && (CoordX(src) == CoordX(dst) || CoordY(src) == CoordY(dst))
  {}

  /** The table entries at one cell. */
  lemma TablesAt(src: Coord, e: Coord, dst: Coord)
    requires src < dst
    ensures e in BishopGt(src) * BishopLt(dst) <==> src < e < dst && e in Diagonals(src) && e in Diagonals(dst)
    ensures e in RookGt(src) * RookLt(dst) <==> src < e < dst && e in Lines(src) && e in Lines(dst)
  {}

  function BetweenOrdered(src: Coord, dst: Coord): (r: Bitboard)
    requires src <= dst
    ensures r == BetweenCells(src, dst)
  {
    var r: Bitboard :=
      if dst in BishopGt(src) then BishopGt(src) * BishopLt(dst)
      else if dst in RookGt(src) then RookGt(src) * RookLt(dst)
      else {};
    assert r == BetweenCells(src, dst) by {
      TablesTellLines(src, dst);
      hide BishopGt;
      hide BishopLt;
      hide RookGt;
      hide RookLt;
      hide Diagonals;
      hide Lines;
      hide StrictlyBetween;
      forall e: Coord
        ensures e in r <==> StrictlyBetween(src, e, dst)
      {
        if dst in BishopGt(src) {
          TablesAt(src, e, dst);
          BetweenDiagonal(src, e, dst);
        } else if dst in RookGt(src) {
          TablesAt(src, e, dst);
          BetweenLine(src, e, dst);
        } else {
          OffLineNothing(src, e, dst);
        }
      }
    }
    r
  }

  /** The look-up, which first puts the two cells in order. */
  function Between(src: Coord, dst: Coord): (r: Bitboard)
    ensures r == BetweenCells(src, dst)
  {
    assert forall e: Coord :: StrictlyBetween(src, e, dst) == StrictlyBetween(dst, e, src);
    if src > dst then BetweenOrdered(dst, src) else BetweenOrdered(src, dst)
  }
}

/** Relevance masks, post-masks and block sharing of the magic tables. */
module MagicGeometry {
  import opened Types
  import opened Geometry

  datatype MagicType = RookType | BishopType

  predicate OnLine(t: MagicType, c: Coord, d: Coord) {
    if t.RookType? then RookLine(c, d) else BishopLine(c, d)
  }

  function Attacks(t: MagicType, occupied: Bitboard, c: Coord): Bitboard {
    if t.RookType? then RookAttacks(occupied, c) else BishopAttacks(occupied, c)
  }

  lemma AttacksAre(t: MagicType, occupied: Bitboard, c: Coord, d: Coord)
    ensures d in Attacks(t, occupied, c) <==> OnLine(t, c, d) && Open(occupied, c, d)
  {}

  function RowFrame(): Bitboard { Column(0) + Column(7) }

  function ColFrame(): Bitboard { Row(0) + Row(7) }

  function DiagFrame(): Bitboard { Row(0) + Row(7) + Column(0) + Column(7) }

  function DiagonalOne(c: Coord): Bitboard { set d: Coord | Diag1(d) == Diag1(c) }

  function DiagonalTwo(c: Coord): Bitboard { set d: Coord | Diag2(d) == Diag2(c) }

  function MagicMask(t: MagicType, c: Coord): Bitboard {
    if t.RookType? then ((Row(CoordX(c)) - RowFrame()) + (Column(CoordY(c)) - ColFrame())) - {c}
    else Xor(DiagonalOne(c), DiagonalTwo(c)) - DiagFrame()
  }

  function MagicPostMask(t: MagicType, c: Coord): Bitboard {
    if t.RookType? then Xor(Row(CoordX(c)), Column(CoordY(c))) else Xor(DiagonalOne(c), DiagonalTwo(c))
  }

  /** The post-mask is exactly the lines through the cell, the cell itself left out. */
  lemma PostMaskIsLine(t: MagicType, c: Coord, d: Coord)
    ensures d in MagicPostMask(t, c) <==> OnLine(t, c, d)
  {}

  /** Whatever may hide a cell from the slider is in its relevance mask. */
  lemma HidersAreRelevant(t: MagicType, c: Coord, e: Coord, d: Coord)
    requires OnLine(t, c, d) && StrictlyBetween(c, e, d)
    ensures e in MagicMask(t, c)
  {}

  /** Only the relevant part of the occupancy matters. */
  lemma MaskIsEnough(t: MagicType, occupied: Bitboard, c: Coord)
    ensures Attacks(t, occupied * MagicMask(t, c), c) == Attacks(t, occupied, c)
  {
    forall d: Coord
      ensures d in Attacks(t, occupied * MagicMask(t, c), c) <==> d in Attacks(t, occupied, c)
    {
      AttacksAre(t, occupied, c, d);
      AttacksAre(t, occupied * MagicMask(t, c), c, d);
      if OnLine(t, c, d) {
        forall e: Coord | StrictlyBetween(c, e, d)
          ensures e in occupied <==> e in occupied * MagicMask(t, c)
        {
          HidersAreRelevant(t, c, e, d);
        }
      }
      hide MagicMask;
      hide StrictlyBetween;
      hide OnLine;
      hide Attacks;
    }
  }

  /** `c ^ 9`: the neighbour across the corner of a 2x2 square. */
  function XorNine(c: Coord): Coord {
    (if CoordX(c) % 2 == 0 then c + 8 else c - 8) + (if CoordY(c) % 2 == 0 then 1 else -1)
  }

  /** Cells of one block share a part of the table: two cells for rooks, four for bishops. */
  function Block(t: MagicType, c: Coord): nat {
    if t.RookType? then (if c <= XorNine(c) then c else XorNine(c))
    else if 2 <= CoordY(c) <= 5 then 4 + CoordX(c)
    else (if CoordY(c) < 2 then 0 else 12) + CoordY(c) % 2 + (if CoordX(c) < 4 then 0 else 2)
  }

  /** What a block-mate leaks through the post-mask is a neighbour on the line, seen in any case. */
  lemma LeakIsSeen(t: MagicType, c: Coord, mate: Coord, e: Coord, occupied: Bitboard)
    requires Block(t, c) == Block(t, mate) && c != mate
    requires OnLine(t, mate, e) && e in MagicPostMask(t, c)
    ensures e in Attacks(t, occupied, c)
  {
    PostMaskIsLine(t, c, e);
    AttacksAre(t, occupied, c, e);
    LeakIsNeighbour(t, c, mate, e);
    hide MagicPostMask;
    hide Block;
    forall f: Coord
      ensures !StrictlyBetween(c, f, e)
    {
    }
  }

  function Distance(a: int, b: int): nat { if a < b then b - a else a - b }

  /** Rook mates touch at a corner; bishop mates stand in one row or column, at most three apart. */
  predicate MateShape(t: MagicType, c: Coord, mate: Coord) {
    var dx, dy := Distance(CoordX(c), CoordX(mate)), Distance(CoordY(c), CoordY(mate));
    if t.RookType? then dx == 1 && dy == 1 else (dx == 0 && 1 <= dy <= 3) || (dy == 0 && 1 <= dx <= 3)
  }

  lemma XorNineTwice(c: Coord)
    ensures XorNine(XorNine(c)) == c && MateShape(RookType, c, XorNine(c))
  {}

  lemma RookMates(c: Coord, mate: Coord)
    requires Block(RookType, c) == Block(RookType, mate) && c != mate
    ensures mate == XorNine(c) && MateShape(RookType, c, mate)
  {
    XorNineTwice(c);
    XorNineTwice(mate);
    hide XorNine;
    hide MateShape;
  }

  lemma BishopMates(c: Coord, mate: Coord)
    requires Block(BishopType, c) == Block(BishopType, mate) && c != mate
    ensures MateShape(BishopType, c, mate)
  {
    if 2 <= CoordY(c) <= 5 {
      assert CoordX(mate) == CoordX(c);
    } else {
      assert CoordY(mate) == CoordY(c);
    }
  }

  lemma MatesAre(t: MagicType, c: Coord, mate: Coord)
    requires Block(t, c) == Block(t, mate) && c != mate
    ensures MateShape(t, c, mate)
  {
    if t.RookType? {
      RookMates(c, mate);
    } else {
      BishopMates(c, mate);
    }
  }

  lemma LeakIsNeighbour(t: MagicType, c: Coord, mate: Coord, e: Coord)
    requires Block(t, c) == Block(t, mate) && c != mate
    requires OnLine(t, mate, e) && OnLine(t, c, e)
    ensures KingStep(c, e)
  {
    MatesAre(t, c, mate);
    hide Block;
  }

  /** A block-mate is itself on no line of the slider. */
  lemma MateIsOffLine(t: MagicType, c: Coord, mate: Coord)
    requires Block(t, c) == Block(t, mate)
    ensures !OnLine(t, c, mate)
  {
    if c != mate {
      MatesAre(t, c, mate);
    }
    hide Block;
  }
}

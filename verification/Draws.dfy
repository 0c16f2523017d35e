/** The draw by insufficient material. */
module Draws {
  import opened Types
  import opened Geometry
  import opened Rules
  import opened Boards
  import opened Attacks

  /** Cells of the colour of a8. */
  const CELLS_WHITE: Bitboard := set c: Coord | (CoordX(c) + CoordY(c)) % 2 == 0
  const CELLS_BLACK: Bitboard := set c: Coord | (CoordX(c) + CoordY(c)) % 2 == 1

  predicate IsPiece(v: Cell, piece: Piece) {
    v.Man? && v.piece == piece
  }

  /** Neither king nor empty. */
  predicate IsOther(v: Cell) {
    v.Man? && v.piece != King
  }

  predicate OneKnight(s: Cells) {
    exists k: Coord :: IsPiece(s[k], Knight) && forall c: Coord :: IsOther(s[c]) ==> c == k
  }

  predicate BishopsOn(s: Cells, cells: Bitboard) {
    forall c: Coord :: IsOther(s[c]) ==> IsPiece(s[c], Bishop) && c in cells
  }

  /** Cells of one colour: an even number of steps to a neighbour leads from one to the other. */
  predicate SameColor(c: Coord, d: Coord) {
    (CoordX(c) - CoordX(d)) % 2 == (CoordY(c) - CoordY(d)) % 2
  }

  predicate BishopsAlike(s: Cells) {
    forall c: Coord, d: Coord :: IsOther(s[c]) && IsOther(s[d]) ==> IsPiece(s[c], Bishop) && SameColor(c, d)
  }

  /** Kings alone, or with one knight, or with bishops that all move on cells of one colour. */
  predicate InsufficientMaterial(s: Cells) {
    (forall c: Coord :: !IsOther(s[c])) || OneKnight(s) || BishopsAlike(s)
  }

  /** A bishop never leaves the cells of its colour, and a step to the next column or row does. */
  lemma BishopKeepsColor(c: Coord, d: Coord)
    ensures BishopLine(c, d) ==> SameColor(c, d)
    ensures KingStep(c, d) && RookLine(c, d) ==> !SameColor(c, d)
  {
    if BishopLine(c, d) {
      assert CoordX(c) - CoordX(d) == CoordY(c) - CoordY(d) || CoordX(c) - CoordX(d) == CoordY(d) - CoordY(c);
    }
  }

  lemma AlikeIsOnMask(s: Cells)
    ensures BishopsAlike(s) <==> BishopsOn(s, CELLS_WHITE) || BishopsOn(s, CELLS_BLACK)
  {
    forall c: Coord, d: Coord
      ensures SameColor(c, d) <==> (c in CELLS_WHITE <==> d in CELLS_WHITE)
      ensures c in CELLS_WHITE <==> c !in CELLS_BLACK
    {
      ColorOfCells(c, d);
      TwoColors(c);
    }
    hide SameColor;
    hide IsOther;
    hide IsPiece;
    hide CELLS_WHITE;
    hide CELLS_BLACK;
    if BishopsAlike(s) && !BishopsOn(s, CELLS_WHITE) {
      var c: Coord :| IsOther(s[c]) && !(IsPiece(s[c], Bishop) && c in CELLS_WHITE);
      assert IsPiece(s[c], Bishop);
    }
  }

  lemma ColorOfCells(c: Coord, d: Coord)
    ensures SameColor(c, d) <==> (c in CELLS_WHITE <==> d in CELLS_WHITE)
  {}

  function OfPiece(s: Cells, piece: Piece): Bitboard {
    set c: Coord | IsPiece(s[c], piece)
  }

  function Others(s: Cells): Bitboard {
    set c: Coord | IsOther(s[c])
  }

  lemma TwoColors(c: Coord)
    ensures c in CELLS_WHITE <==> c !in CELLS_BLACK
  {}

  lemma OneKnightByCount(s: Cells)
    ensures OneKnight(s) <==> Others(s) == OfPiece(s, Knight) && |OfPiece(s, Knight)| == 1
  {
    var others, knights := Others(s), OfPiece(s, Knight);
    if |knights| == 1 && others == knights {
      var k :| k in knights;
      assert |knights - {k}| == 0;
      forall c: Coord | IsOther(s[c])
        ensures c == k
      {
        assert c in others && c !in knights - {k};
      }
    }
    if k: Coord :| IsPiece(s[k], Knight) && forall c: Coord :: IsOther(s[c]) ==> c == k {
      assert others == {k} == knights;
    }
  }

  lemma BishopsByMask(s: Cells)
    ensures (BishopsOn(s, CELLS_WHITE) || BishopsOn(s, CELLS_BLACK)) <==>
      (Others(s) == OfPiece(s, Bishop) && (Others(s) * CELLS_WHITE == {} || Others(s) * CELLS_BLACK == {}))
  {
    forall c: Coord
      ensures c in CELLS_WHITE <==> c !in CELLS_BLACK
      ensures c in Others(s) <==> IsOther(s[c])
      ensures IsPiece(s[c], Bishop) ==> IsOther(s[c])
      ensures c in OfPiece(s, Bishop) <==> IsPiece(s[c], Bishop)
    {
      TwoColors(c);
    }
    hide CELLS_WHITE;
    hide CELLS_BLACK;
    hide IsOther;
    hide IsPiece;
    hide Others;
    hide OfPiece;
    forall cells: Bitboard | Others(s) * cells == {}
      ensures forall c: Coord :: IsOther(s[c]) ==> c !in cells
    {
      forall c: Coord | IsOther(s[c])
        ensures c !in cells
      {
        assert c in cells ==> c in Others(s) * cells;
      }
    }
  }

  /** The chain of tests on the bitboards. */
  lemma MaterialTests(s: Cells)
    ensures InsufficientMaterial(s) <==>
      (&& (Others(s) * CELLS_WHITE == {} || Others(s) * CELLS_BLACK == {})
       && (Others(s) == {} || (Others(s) == OfPiece(s, Knight) && |OfPiece(s, Knight)| == 1)
         || Others(s) == OfPiece(s, Bishop)))
  {
    OneKnightByCount(s);
    BishopsByMask(s);
    AlikeIsOnMask(s);
    forall c: Coord
      ensures c in CELLS_WHITE <==> c !in CELLS_BLACK
      ensures c in Others(s) <==> IsOther(s[c])
    {
      TwoColors(c);
    }
    if OneKnight(s) {
      var k: Coord :| IsPiece(s[k], Knight) && forall c: Coord :: IsOther(s[c]) ==> c == k;
      assert Others(s) <= {k};
    }
    hide CELLS_WHITE;
    hide CELLS_BLACK;
    hide OneKnight;
    hide BishopsAlike;
    hide BishopsOn;
    hide IsOther;
    hide IsPiece;
    hide OfPiece;
    hide Others;
    assert (forall c: Coord :: !IsOther(s[c])) <==> Others(s) == {};
  }

  function IsDrawInsufficientMaterial(b: Board): (r: bool)
    reads b, b.cells
    requires b.Consistent()
    ensures r <==> InsufficientMaterial(b.cells[..])
  {
    MaterialTests(b.cells[..]);
    OccupiedIsUnion(b.cells[..]);
    var bbNoKings := Xor(b.bbAll, b.bbPieces[Man(White, King)] + b.bbPieces[Man(Black, King)]);
    var bbKnights := b.bbPieces[Man(White, Knight)] + b.bbPieces[Man(Black, Knight)];
    var bbBishops := b.bbPieces[Man(White, Bishop)] + b.bbPieces[Man(Black, Bishop)];
    assert bbNoKings == Others(b.cells[..]);
    assert bbKnights == OfPiece(b.cells[..], Knight);
    assert bbBishops == OfPiece(b.cells[..], Bishop);
    if bbNoKings * CELLS_WHITE != {} && bbNoKings * CELLS_BLACK != {} then false
    else if bbNoKings == {} then true
    else if bbNoKings == bbKnights && |bbKnights| == 1 then true
    else bbNoKings == bbBishops
  }
}

/** The two engines side by side: on one position they answer every attack query alike, and along every
    run of moves they stay on one position. */
module SelfTest {
  import opened Types
  import opened Geometry
  import opened Rules
  import opened Invariants
  import opened Legality
  import opened Boards
  import opened Attacks
  import opened Runs
  import opened MagicGeometry
  import opened RayWalk
  import opened RayTables
  import opened PieceLists
  import opened Dodecahedron

  /** Four of the eight directions make up a kind of slider. */
  lemma FourDirections(occupied: Bitboard, c: Coord, men: Bitboard)
    ensures men * BishopAttacks(occupied, c) != {} <==>
      || men * SeenIn(occupied, LEFT_UP, c) != {} || men * SeenIn(occupied, LEFT_DOWN, c) != {}
      || men * SeenIn(occupied, RIGHT_UP, c) != {} || men * SeenIn(occupied, RIGHT_DOWN, c) != {}
    ensures men * RookAttacks(occupied, c) != {} <==>
      || men * SeenIn(occupied, UP, c) != {} || men * SeenIn(occupied, LEFT, c) != {}
      || men * SeenIn(occupied, RIGHT, c) != {} || men * SeenIn(occupied, DOWN, c) != {}
  {
    RaysAreAttacks(BishopType, occupied, c);
    RaysAreAttacks(RookType, occupied, c);
    SeenSplits(BishopType, occupied, c);
    SeenSplits(RookType, occupied, c);
    DirectionsMatch(occupied, c);
    hide SeenIn;
    hide RaySeen;
    hide SeenUpTo;
    hide BishopAttacks;
    hide RookAttacks;
    MeetsUnion(men, SeenIn(occupied, LEFT_DOWN, c), SeenIn(occupied, LEFT_UP, c),
      SeenIn(occupied, RIGHT_DOWN, c), SeenIn(occupied, RIGHT_UP, c));
    MeetsUnion(men, SeenIn(occupied, DOWN, c), SeenIn(occupied, UP, c),
      SeenIn(occupied, LEFT, c), SeenIn(occupied, RIGHT, c));
  }

  lemma DirectionsMatch(occupied: Bitboard, c: Coord)
    ensures SeenIn(occupied, LEFT_DOWN, c) == RaySeen(occupied, c, Dx(BishopType, 0), Dy(BishopType, 0))
    ensures SeenIn(occupied, LEFT_UP, c) == RaySeen(occupied, c, Dx(BishopType, 1), Dy(BishopType, 1))
    ensures SeenIn(occupied, RIGHT_DOWN, c) == RaySeen(occupied, c, Dx(BishopType, 2), Dy(BishopType, 2))
    ensures SeenIn(occupied, RIGHT_UP, c) == RaySeen(occupied, c, Dx(BishopType, 3), Dy(BishopType, 3))
    ensures SeenIn(occupied, DOWN, c) == RaySeen(occupied, c, Dx(RookType, 0), Dy(RookType, 0))
    ensures SeenIn(occupied, UP, c) == RaySeen(occupied, c, Dx(RookType, 1), Dy(RookType, 1))
    ensures SeenIn(occupied, LEFT, c) == RaySeen(occupied, c, Dx(RookType, 2), Dy(RookType, 2))
    ensures SeenIn(occupied, RIGHT, c) == RaySeen(occupied, c, Dx(RookType, 3), Dy(RookType, 3))
  {
    hide RaySeen;
  }

  lemma SeenSplits(t: MagicType, occupied: Bitboard, c: Coord)
    ensures SeenUpTo(t, occupied, c, 4) ==
      RaySeen(occupied, c, Dx(t, 0), Dy(t, 0)) + RaySeen(occupied, c, Dx(t, 1), Dy(t, 1))
      + RaySeen(occupied, c, Dx(t, 2), Dy(t, 2)) + RaySeen(occupied, c, Dx(t, 3), Dy(t, 3))
  {
    hide RaySeen;
    hide Dx;
    hide Dy;
    forall d: Coord {
      SeenInFour(t, occupied, c, d);
    }
    hide SeenUpTo;
  }

  lemma MeetsUnion(men: Bitboard, a: Bitboard, b: Bitboard, c: Bitboard, d: Bitboard)
    ensures men * (a + b + c + d) != {} <==> men * a != {} || men * b != {} || men * c != {} || men * d != {}
  {
    assert men * (a + b + c + d) == men * a + men * b + men * c + men * d;
  }

  /** The sets of attackers, looked for one after the other. */
  lemma AttackedBySets(s: Cells, c: Color, cell: Coord)
    ensures IsAttacked(s, c, cell) <==>
      || OfCell(s, Man(c, Pawn)) * PawnAttacks(c.Invert(), cell) != {}
      || OfCell(s, Man(c, Knight)) * KnightAttacks(cell) != {}
      || OfCell(s, Man(c, King)) * KingAttacks(cell) != {}
      || (OfCell(s, Man(c, Bishop)) + OfCell(s, Man(c, Queen))) * BishopAttacks(Occupied(s), cell) != {}
      || (OfCell(s, Man(c, Rook)) + OfCell(s, Man(c, Queen))) * RookAttacks(Occupied(s), cell) != {}
  {
    hide OfCell;
    hide PawnAttacks;
    hide KingAttacks;
    hide KnightAttacks;
    hide BishopAttacks;
    hide RookAttacks;
    hide Traced;
    hide MaskedAttackers;
    hide Attackers;
    TracingIsExact(s, c, cell, Occupied(s), FULL);
    TracedIsEmpty(s, c, cell, Occupied(s), FULL);
    FullMask(s, c, cell, Occupied(s));
  }

  /** `inline_is_attacked` on the piece lists and ray tables. */
  method InlineIsAttacked(b: Lists, tables: Tables, col: Color, cell: Coord) returns (r: bool)
    requires b.Ok() && tables.Ok()
    ensures r <==> IsAttacked(b.board[..], col, cell)
  {
    ghost var s: Cells := b.board[..];
    hide PawnAttacks;
    hide KingAttacks;
    hide KnightAttacks;
    hide BishopAttacks;
    hide RookAttacks;
    hide IsAttacked;
    hide OfCell;
    hide Occupied;
    hide Lists.Ok;
    hide Tables.Ok;
    BitsAre(b, col);
    AttackedBySets(s, col, cell);
    if b.pieceBit[Man(col, Pawn)] * PawnAttacks(col.Invert(), cell) != {} {
      return true;
    }
    if b.pieceBit[Man(col, Knight)] * KnightAttacks(cell) != {} {
      return true;
    }
    if b.pieceBit[Man(col, King)] * KingAttacks(cell) != {} {
      return true;
    }
    r := CheckSliders(tables, b.pieceBit[Man(col, Bishop)] + b.pieceBit[Man(col, Queen)],
      b.pieceBit[Man(col, Rook)] + b.pieceBit[Man(col, Queen)], b.allPiece, cell);
  }

  method CheckSliders(tables: Tables, bishopQueen: Bitboard, rookQueen: Bitboard, occupied: Bitboard, cell: Coord)
    returns (r: bool)
    requires tables.Ok() && bishopQueen <= occupied && rookQueen <= occupied
    ensures r <==> bishopQueen * BishopAttacks(occupied, cell) != {} || rookQueen * RookAttacks(occupied, cell) != {}
  {
    hide BishopAttacks;
    hide RookAttacks;
    hide SeenIn;
    hide Tables.Ok;
    FourDirections(occupied, cell, bishopQueen);
    FourDirections(occupied, cell, rookQueen);
    r := CheckFour(tables, bishopQueen, occupied, [LEFT_UP, LEFT_DOWN, RIGHT_UP, RIGHT_DOWN], cell);
    if !r {
      r := CheckFour(tables, rookQueen, occupied, [UP, LEFT, RIGHT, DOWN], cell);
    }
  }

  method CheckFour(tables: Tables, men: Bitboard, occupied: Bitboard, dirs: seq<Direction>, c: Coord) returns (r: bool)
    requires tables.Ok() && men <= occupied && |dirs| == 4
    ensures r <==>
      || men * SeenIn(occupied, dirs[0], c) != {} || men * SeenIn(occupied, dirs[1], c) != {}
      || men * SeenIn(occupied, dirs[2], c) != {} || men * SeenIn(occupied, dirs[3], c) != {}
  {
    hide SeenIn;
    hide Tables.Ok;
    for i := 0 to 4
      invariant forall j :: 0 <= j < i ==> men * SeenIn(occupied, dirs[j], c) == {}
    {
      r := tables.CheckDir(men, occupied, dirs[i], c);
      if r {
        return true;
      }
    }
    return false;
  }

  lemma BitsAre(b: Lists, c: Color)
    requires b.Ok()
    ensures forall v: Cell :: v.Man? ==> v in b.pieceBit && b.pieceBit[v] == OfCell(b.board[..], v)
    ensures forall v: Cell :: v.Man? ==> OfCell(b.board[..], v) <= Occupied(b.board[..])
    ensures b.allPiece == Occupied(b.board[..])
  {
    hide Lists.ListsOk;
  }

  /** The two boards hold the same position. */
  ghost predicate SamePosition(b: Board, d: DBoard)
    reads b, b.cells, d, d.Footprint()
  {
    b.Consistent() && d.Related(b.Pos())
  }

  /** On the same position the two engines agree on every attack query. */
  method AttacksAgree(b: Board, d: DBoard, tables: Tables, c: Color, cell: Coord) returns (first: bool, second: bool)
    requires SamePosition(b, d) && tables.Ok()
    ensures first == second
  {
    first := IsCellAttacked(b, c, cell);
    hide Lists.ListsOk;
    hide Lists.BitsOk;
    second := InlineIsAttacked(d.lists, tables, c, cell);
  }

  /** Every move of the run is pseudo-legal, and the move counter stays below its last value. */
  ghost predicate Comparable(p: Position, ms: seq<Move>)
    decreases ms
  {
    ms == [] || (PseudoLegal(p, ms[0]) && p.moveCounter < 0xFFFF && Comparable(Play(p, ms[0]), ms[1..]))
  }

  method MakeBoth(b: Board, d: DBoard, m: Move, ghost p: Position)
    requires SamePosition(b, d) && b.Pos() == p && Sound(p) && Roomy(p.cells)
      && PseudoLegal(p, m) && p.moveCounter < 0xFFFF
    requires d.Footprint() !! {b, b.cells} && d !in d.Footprint()
    modifies b, b.cells, d, d.Footprint()
    ensures SamePosition(b, d) && b.Pos() == Play(p, m) && Sound(b.Pos()) && Roomy(b.cells[..])
  {
    hide Sound;
    hide Roomy;
    hide PseudoLegal;
    hide CellsAfter;
    hide CastlingAfter;
    hide Board.Consistent;
    hide DBoard.Related;
    hide Translate;
    PlayKeepsSound(p, m);
    PlayKeepsRoomy(p, m);
    var _ := d.MakeMove(Translate(m, b.side), p, m);
    var _ := b.MoveMake(m);
  }

  /** Both engines make the same run of moves and end on the same position, the one that the rules give. */
  method PlayBoth(b: Board, d: DBoard, ms: seq<Move>)
    requires SamePosition(b, d) && Sound(b.Pos()) && Roomy(b.cells[..]) && Comparable(b.Pos(), ms)
    requires d.Footprint() !! {b, b.cells} && d !in d.Footprint()
    modifies b, b.cells, d, d.Footprint()
    ensures SamePosition(b, d) && b.Pos() == PlayRun(old(b.Pos()), ms)
  {
    for i := 0 to |ms|
      invariant SamePosition(b, d) && Sound(b.Pos()) && Roomy(b.cells[..]) && Comparable(b.Pos(), ms[i..])
      invariant PlayRun(b.Pos(), ms[i..]) == PlayRun(old(b.Pos()), ms)
    {
      hide Sound;
      hide Roomy;
      hide PseudoLegal;
      hide Play;
      hide Board.Consistent;
      hide DBoard.Related;
      assert ms[i..][0] == ms[i] && ms[i..][1..] == ms[i + 1..];
      MakeBoth(b, d, ms[i], b.Pos());
    }
  }
}

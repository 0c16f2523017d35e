/** The second engine of the self-test: the same rules on piece lists. Its moves simulate those of the
    rules, so the two engines stay on the same position along every run. */
module Dodecahedron {
  import opened Types
  import opened Geometry
  import opened Rules
  import opened Invariants
  import opened PieceLists
  import opened Runs

  datatype Flag = FlagNone | FlagEnpassant | FlagShortCastling | FlagLongCastling

  datatype DMove = DMove(src: Coord, dst: Coord, promote: Cell, doubleMove: bool, flags: Flag)

  /** The same move in the terms of this engine. */
  function Translate(m: Move, side: Color): DMove {
    DMove(
      m.src, m.dst,
      if m.kind.IsPromote() then Man(side, m.kind.PromotePiece()) else Empty,
      m.kind.PawnDoubleMove?,
      match m.kind
      case Enpassant => FlagEnpassant
      case CastlingKingside => FlagShortCastling
      case CastlingQueenside => FlagLongCastling
      case _ => FlagNone)
  }

  datatype Saved = Saved(castling: set<CastlingFlag>, wasPiece: Cell, enpassantLine: int, moveCounter: int)

  /** Men of one colour other than its kings. */
  function Troops(s: Cells, c: Color): Bitboard {
    OfColor(s, c) - OfCell(s, Man(c, King))
  }

  /** No list is full: a side has at most 15 men besides its kings, and at most 15 kings. */
  predicate Roomy(s: Cells) {
    forall c: Color :: |Troops(s, c)| < MAX_PIECE_COUNT && |OfCell(s, Man(c, King))| < MAX_PIECE_COUNT
  }

  lemma RoomyLists(s: Cells, v: Cell)
    requires Roomy(s) && v.Man?
    ensures |OfCell(s, v)| < MAX_PIECE_COUNT
  {
    if !v.piece.King? {
      SubsetCardinality(OfCell(s, v), Troops(s, v.color));
    } else {
      assert v == Man(v.color, King);
    }
  }

  /** The validity check leaves room in every list. */
  lemma ValidIsRoomy(p: Position)
    requires Valid(p)
    ensures Roomy(p.cells)
  {
    forall c: Color
      ensures |Troops(p.cells, c)| < MAX_PIECE_COUNT && |OfCell(p.cells, Man(c, King))| < MAX_PIECE_COUNT
    {
      assert OneKing(p.cells, c);
      var k: Coord :| IsKingAt(p.cells, c, k);
      assert OfCell(p.cells, Man(c, King)) == {k};
      assert Troops(p.cells, c) == OfColor(p.cells, c) - {k};
    }
  }

  /** A side changes by one man moving, and perhaps turning into another troop. */
  lemma OwnRoom(s: Cells, t: Cells, c: Color, src: Coord, dst: Coord)
    requires Roomy(s) && src != dst && IsOwn(s, c, src) && !IsOwn(t, c, src)
    requires t[dst] == s[src] || (s[src] == Man(c, Pawn) && t[dst] != Man(c, King))
    requires forall i: Coord :: i != dst && IsOwn(t, c, i) ==> t[i] == s[i]
    ensures |Troops(t, c)| < MAX_PIECE_COUNT && |OfCell(t, Man(c, King))| < MAX_PIECE_COUNT
  {
    if s[src] == Man(c, King) {
      SubsetCardinality(Troops(t, c), Troops(s, c));
      Moved(OfCell(s, Man(c, King)), OfCell(t, Man(c, King)), src, dst);
    } else {
      Moved(Troops(s, c), Troops(t, c), src, dst);
      SubsetCardinality(OfCell(t, Man(c, King)), OfCell(s, Man(c, King)));
    }
  }

  lemma EnemyRoom(s: Cells, t: Cells, c: Color)
    requires Roomy(s) && forall i: Coord :: IsOwn(t, c, i) ==> t[i] == s[i]
    ensures |Troops(t, c)| < MAX_PIECE_COUNT && |OfCell(t, Man(c, King))| < MAX_PIECE_COUNT
  {
    SubsetCardinality(Troops(t, c), Troops(s, c));
    SubsetCardinality(OfCell(t, Man(c, King)), OfCell(s, Man(c, King)));
  }

  /** A king and a rook move at once. */
  lemma CastlingRoom(s: Cells, t: Cells, c: Color, k: Coord, r: Coord, k': Coord, r': Coord)
    requires Roomy(s) && |{k, r, k', r'}| == 4
    requires s[k] == Man(c, King) && s[r] == Man(c, Rook) && s[k'] == s[r'] == Empty
    requires t == s[k := Empty][r := Empty][k' := Man(c, King)][r' := Man(c, Rook)]
    ensures Roomy(t)
  {
    forall d: Color
      ensures |Troops(t, d)| < MAX_PIECE_COUNT && |OfCell(t, Man(d, King))| < MAX_PIECE_COUNT
    {
      if d == c {
        Moved(Troops(s, c), Troops(t, c), r, r');
        Moved(OfCell(s, Man(c, King)), OfCell(t, Man(c, King)), k, k');
      } else {
        EnemyRoom(s, t, d);
      }
    }
  }

  lemma PlayKeepsRoomy(p: Position, m: Move)
    requires Sound(p) && PseudoLegal(p, m) && Roomy(p.cells)
    ensures Roomy(CellsAfter(p, m))
  {
    hide Sound;
    hide PseudoLegal;
    hide Roomy;
    hide CellsAfter;
    if m.kind.IsCastling() {
      CastlingKeepsRoomy(p, m);
    } else {
      StepKeepsRoomy(p, m);
    }
  }

  lemma CastlingKeepsRoomy(p: Position, m: Move)
    requires Sound(p) && PseudoLegal(p, m) && Roomy(p.cells) && m.kind.IsCastling()
    ensures Roomy(CellsAfter(p, m))
  {
    hide Sound;
    hide PseudoLegal;
    hide Roomy;
    CastlingCells(p, m);
    var off := CastlingOffset(p.side);
    if m.kind.CastlingKingside? {
      CastlingRoom(p.cells, CellsAfter(p, m), p.side, off + 4, off + 7, off + 6, off + 5);
    } else {
      CastlingRoom(p.cells, CellsAfter(p, m), p.side, off + 4, off, off + 2, off + 3);
    }
  }

  lemma StepKeepsRoomy(p: Position, m: Move)
    requires Sound(p) && PseudoLegal(p, m) && Roomy(p.cells) && !m.kind.IsCastling()
    ensures Roomy(CellsAfter(p, m))
  {
    hide Sound;
    hide PseudoLegal;
    hide Roomy;
    StepCells(p, m);
    OwnRoom(p.cells, CellsAfter(p, m), p.side, m.src, m.dst);
    EnemyRoom(p.cells, CellsAfter(p, m), p.side.Invert());
    TwoSides(CellsAfter(p, m), p.side);
  }

  lemma TwoSides(t: Cells, c: Color)
    requires |Troops(t, c)| < MAX_PIECE_COUNT && |OfCell(t, Man(c, King))| < MAX_PIECE_COUNT
    requires |Troops(t, c.Invert())| < MAX_PIECE_COUNT && |OfCell(t, Man(c.Invert(), King))| < MAX_PIECE_COUNT
    ensures Roomy(t)
  {
    hide Troops;
    hide OfCell;
    forall d: Color
      ensures |Troops(t, d)| < MAX_PIECE_COUNT && |OfCell(t, Man(d, King))| < MAX_PIECE_COUNT
    {
      assert d == c || d == c.Invert();
    }
  }

  /** There is room for `v` on `cell` when all its other men are also men of a roomy board. */
  lemma RoomFor(s: Cells, t: Cells, cell: Coord, v: Cell)
    requires Roomy(s) && v.Man?
    requires forall i: Coord :: i != cell && t[i] == v ==> s[i] == v
    ensures |OfCell(t[cell := Empty], v)| < MAX_PIECE_COUNT
  {
    RoomyLists(s, v);
    SubsetCardinality(OfCell(t[cell := Empty], v), OfCell(s, v));
  }

  /** The first part of a castling of this engine sets the king, the second the rook. */
  lemma CastlingInFour(s: Cells, c: Color)
    requires s[CastlingOffset(c) + 4] == Man(c, King)
    ensures var off := CastlingOffset(c);
      && AfterKingside(s, c) == s[off + 6 := s[off + 4]][off + 4 := Empty][off + 5 := Man(c, Rook)][off + 7 := Empty]
      && AfterQueenside(s, c) == s[off + 2 := s[off + 4]][off + 4 := Empty][off + 3 := Man(c, Rook)][off := Empty]
  {}

  class DBoard {
    const lists: Lists
    var castling: set<CastlingFlag>
    var moveSide: Color
    var enpassantLine: int
    var moveCounter: int

    constructor (lists: Lists, castling: set<CastlingFlag>, moveSide: Color, enpassantLine: int, moveCounter: int)
      ensures this.lists == lists && this.castling == castling && this.moveSide == moveSide
      ensures this.enpassantLine == enpassantLine && this.moveCounter == moveCounter
    {
      this.lists, this.castling, this.moveSide := lists, castling, moveSide;
      this.enpassantLine, this.moveCounter := enpassantLine, moveCounter;
    }

    /** The arrays and bitboards. */
    ghost function Footprint(): set<object> {
      {lists, lists.board, lists.pieceCount, lists.listPos, lists.pieces}
    }

    ghost predicate CellsAre(s: Cells)
      reads Footprint()
    {
      lists.Ok() && lists.board[..] == s
    }

    /** Both engines are on the same position: cells, side, rights, en passant column, move counter. */
    ghost predicate Related(p: Position)
      reads this, Footprint()
    {
      && CellsAre(p.cells) && castling == p.castling && moveSide == p.side
      && enpassantLine == (if p.enpassant == -1 then -1 else CoordY(p.enpassant))
      && moveCounter == p.moveCounter
    }

    method Change(cell: Coord, v: Cell, ghost t: Cells, ghost room: Cells)
      requires CellsAre(t) && Roomy(room) && (v.Man? ==> forall i: Coord :: i != cell && t[i] == v ==> room[i] == v)
      modifies Footprint()
      ensures CellsAre(t[cell := v])
    {
      if v.Man? {
        RoomFor(room, t, cell, v);
      }
      hide Roomy;
      hide Lists.ListsOk;
      hide Lists.BitsOk;
      lists.ChangePiece(cell, v);
    }

    /** What stands on a cell. */
    function At(i: Coord, ghost s: Cells): (v: Cell)
      requires CellsAre(s)
      reads Footprint()
      ensures v == s[i]
    {
      lists.board[i]
    }

    method MakeNone(m: DMove, ghost s: Cells)
      requires CellsAre(s) && Roomy(s) && m.src != m.dst
      modifies Footprint()
      ensures CellsAre(s[m.dst := if m.promote.Man? then m.promote else s[m.src]][m.src := Empty])
    {
      hide Roomy;
      hide DBoard.CellsAre;
      var v := if m.promote.Man? then m.promote else At(m.src, s);
      Change(m.dst, v, s, s);
      Change(m.src, Empty, s[m.dst := v], s);
    }

    method MakeEnpassant(m: DMove, taken: Coord, ghost s: Cells)
      requires CellsAre(s) && Roomy(s) && m.src != m.dst
      modifies Footprint()
      ensures CellsAre(s[m.dst := s[m.src]][m.src := Empty][taken := Empty])
    {
      hide Roomy;
      hide DBoard.CellsAre;
      var v := At(m.src, s);
      Change(m.dst, v, s, s);
      Change(m.src, Empty, s[m.dst := v], s);
      Change(taken, Empty, s[m.dst := v][m.src := Empty], s);
    }

    method MakeCastling(m: DMove, tmp: Coord, rook: Coord, ghost s: Cells)
      requires CellsAre(s) && Roomy(s) && s[m.src] == Man(moveSide, King)
      modifies Footprint()
      ensures CellsAre(s[m.dst := s[m.src]][m.src := Empty][tmp := Man(moveSide, Rook)][rook := Empty])
    {
      hide Roomy;
      hide DBoard.CellsAre;
      var v := At(m.src, s);
      Change(m.dst, v, s, s);
      Change(m.src, Empty, s[m.dst := v], s);
      Change(tmp, Man(moveSide, Rook), s[m.dst := v][m.src := Empty], s);
      Change(rook, Empty, s[m.dst := v][m.src := Empty][tmp := Man(moveSide, Rook)], s);
    }

    /** The cells after `make_move`. */
    method MakeCells(m: DMove, ghost p: Position, ghost move: Move)
      requires CellsAre(p.cells) && moveSide == p.side
      requires Sound(p) && Roomy(p.cells) && PseudoLegal(p, move) && m == Translate(move, p.side)
      modifies Footprint()
      ensures CellsAre(CellsAfter(p, move))
    {
      hide Sound;
      hide PseudoLegal;
      hide Roomy;
      hide CellsAfter;
      hide DBoard.CellsAre;
      hide Translate;
      hide Troops;
      hide IsOwn;
      TranslatedCells(p, move);
      var off := CastlingOffset(moveSide);
      match m.flags
      case FlagNone => MakeNone(m, p.cells);
      case FlagEnpassant => MakeEnpassant(m, EnpassantPawnPos(moveSide, m.dst), p.cells);
      case FlagShortCastling => MakeCastling(m, off + 5, off + 7, p.cells);
      case FlagLongCastling => MakeCastling(m, off + 3, off, p.cells);
    }

    method UnmakeNone(m: DMove, wasPiece: Cell, ghost s: Cells, ghost t: Cells)
      requires CellsAre(t) && Roomy(s) && Roomy(t) && m.src != m.dst && wasPiece == s[m.dst]
      requires t == s[m.dst := if m.promote.Man? then m.promote else s[m.src]][m.src := Empty]
      requires m.promote.Man? ==> s[m.src] == Man(moveSide, Pawn)
      modifies Footprint()
      ensures CellsAre(s)
    {
      hide Roomy;
      hide DBoard.CellsAre;
      var v := if m.promote.Man? then Man(moveSide, Pawn) else At(m.dst, t);
      Change(m.src, v, t, t);
      Change(m.dst, wasPiece, t[m.src := v], s);
      assert t[m.src := v][m.dst := wasPiece] == s;
    }

    method UnmakeEnpassant(m: DMove, taken: Coord, ghost s: Cells, ghost t: Cells)
      requires CellsAre(t) && Roomy(s) && Roomy(t) && m.src != m.dst && taken != m.src && taken != m.dst
      requires t == s[m.dst := s[m.src]][m.src := Empty][taken := Empty]
      requires s[m.dst] == Empty && s[taken] == Man(moveSide.Invert(), Pawn)
      modifies Footprint()
      ensures CellsAre(s)
    {
      hide Roomy;
      hide DBoard.CellsAre;
      var v := At(m.dst, t);
      Change(m.src, v, t, t);
      Change(m.dst, Empty, t[m.src := v], s);
      Change(taken, Man(moveSide.Invert(), Pawn), t[m.src := v][m.dst := Empty], s);
      assert t[m.src := v][m.dst := Empty][taken := Man(moveSide.Invert(), Pawn)] == s;
    }

    method UnmakeCastling(m: DMove, tmp: Coord, rook: Coord, ghost s: Cells, ghost t: Cells)
      requires CellsAre(t) && Roomy(s) && Roomy(t)
      requires m.src != m.dst && m.src != tmp && m.src != rook && m.dst != tmp && m.dst != rook && tmp != rook
      requires t == s[m.dst := s[m.src]][m.src := Empty][tmp := Man(moveSide, Rook)][rook := Empty]
      requires s[m.dst] == s[tmp] == Empty && s[rook] == Man(moveSide, Rook)
      modifies Footprint()
      ensures CellsAre(s)
    {
      hide Roomy;
      hide DBoard.CellsAre;
      var v := At(m.dst, t);
      Change(m.src, v, t, t);
      Change(m.dst, Empty, t[m.src := v], s);
      Change(tmp, Empty, t[m.src := v][m.dst := Empty], s);
      Change(rook, Man(moveSide, Rook), t[m.src := v][m.dst := Empty][tmp := Empty], s);
      assert t[m.src := v][m.dst := Empty][tmp := Empty][rook := Man(moveSide, Rook)] == s;
    }

    /** The cells before the move again. */
    method UnmakeCells(m: DMove, wasPiece: Cell, ghost p: Position, ghost move: Move)
      requires CellsAre(CellsAfter(p, move)) && moveSide == p.side
      requires Sound(p) && Roomy(p.cells) && PseudoLegal(p, move) && m == Translate(move, p.side)
      requires m.flags.FlagNone? ==> wasPiece == p.cells[m.dst]
      modifies Footprint()
      ensures CellsAre(p.cells)
    {
      TranslatedCells(p, move);
      PlayKeepsRoomy(p, move);
      hide Sound;
      hide PseudoLegal;
      hide Roomy;
      hide CellsAfter;
      hide DBoard.CellsAre;
      var off := CastlingOffset(moveSide);
      match m.flags
      case FlagNone => UnmakeNone(m, wasPiece, p.cells, CellsAfter(p, move));
      case FlagEnpassant => UnmakeEnpassant(m, EnpassantPawnPos(moveSide, m.dst), p.cells, CellsAfter(p, move));
      case FlagShortCastling => UnmakeCastling(m, off + 5, off + 7, p.cells, CellsAfter(p, move));
      case FlagLongCastling => UnmakeCastling(m, off + 3, off, p.cells, CellsAfter(p, move));
    }

    /** `make_move` simulates the rules. The counters agree as long as the other engine's does not wrap. */
    method MakeMove(m: DMove, ghost p: Position, ghost move: Move) returns (saved: Saved)
      requires Related(p) && Sound(p) && Roomy(p.cells) && PseudoLegal(p, move) && m == Translate(move, p.side)
      requires p.moveCounter < 0xFFFF
      modifies this, Footprint()
      ensures Related(Play(p, move))
      ensures saved == SavedOf(p, m)
    {
      hide Sound;
      hide PseudoLegal;
      hide Roomy;
      hide CellsAfter;
      hide CastlingAfter;
      hide RightsAfter;
      hide DBoard.CellsAre;
      TranslatedCells(p, move);
      TranslatedFlags(p, move);
      var dstCell, srcCell := At(m.dst, p.cells), At(m.src, p.cells);
      saved := Saved(castling, if m.flags.FlagNone? then dstCell else Empty, enpassantLine, moveCounter);
      var nullCtr := match m.flags
        case FlagNone => (srcCell.Man? && srcCell.piece.Pawn?) || dstCell != Empty
        case FlagEnpassant => true
        case _ => false;
      MakeCells(m, p, move);
      castling := RightsAfter(castling, moveSide, m);
      enpassantLine := if m.doubleMove then CoordY(m.dst) else -1;
      moveSide := moveSide.Invert();
      moveCounter := if nullCtr then 0 else moveCounter + 1;
    }

    /** `unmake_move` gives the board back: cells, bitboards and flags, and the lists as sets. */
    method UnmakeMove(m: DMove, saved: Saved, ghost p: Position, ghost move: Move)
      requires Related(Play(p, move)) && saved == SavedOf(p, m)
      requires Sound(p) && Roomy(p.cells) && PseudoLegal(p, move) && m == Translate(move, p.side)
      modifies this, Footprint()
      ensures Related(p)
    {
      hide Sound;
      hide PseudoLegal;
      hide Roomy;
      hide CellsAfter;
      hide CastlingAfter;
      hide DBoard.CellsAre;
      castling, enpassantLine, moveCounter := saved.castling, saved.enpassantLine, saved.moveCounter;
      moveSide := moveSide.Invert();
      UnmakeCells(m, saved.wasPiece, p, move);
    }
  }

  /** What `make_move` stores. */
  function SavedOf(p: Position, m: DMove): Saved {
    Saved(p.castling, if m.flags.FlagNone? then p.cells[m.dst] else Empty,
      if p.enpassant == -1 then -1 else CoordY(p.enpassant), p.moveCounter)
  }

  /** Rights that a move without special flags takes from one side. */
  function Lost(c: Color, m: DMove): set<CastlingFlag> {
    var row := CastlingOffset(c);
    (if m.dst == row + 7 || m.src == row + 7 then {Kingside(c)} else {})
    + (if m.dst == row || m.src == row then {Queenside(c)} else {})
    + (if m.dst == row + 4 || m.src == row + 4 then {Kingside(c), Queenside(c)} else {})
  }

  function RightsAfter(castling: set<CastlingFlag>, side: Color, m: DMove): set<CastlingFlag> {
    match m.flags
    case FlagNone => castling - Lost(White, m) - Lost(Black, m)
    case FlagEnpassant => castling
    case _ => castling - {Kingside(side), Queenside(side)}
  }

  lemma TranslatedFlags(p: Position, move: Move)
    requires Sound(p) && PseudoLegal(p, move)
    ensures RightsAfter(p.castling, p.side, Translate(move, p.side)) == CastlingAfter(p, move)
    ensures IsOwn(p.cells, p.side, move.src) && (move.kind.Enpassant? ==> p.cells[move.src].piece.Pawn?)
  {
    hide Sound;
    hide PseudoLegal;
    FlagsAfter(p, move);
    if move.kind.IsCastling() {
      CastlingCells(p, move);
    } else {
      StepCells(p, move);
    }
    var m := Translate(move, p.side);
    if m.flags.FlagNone? {
      forall f | f in p.castling
        ensures f in RightsAfter(p.castling, p.side, m) <==> f in CastlingAfter(p, move)
      {
        LostAre(m, f);
      }
    }
  }

  lemma LostAre(m: DMove, f: CastlingFlag)
    ensures f in Lost(White, m) || f in Lost(Black, m) <==>
      m.src in {KingHome(f), RookHome(f)} || m.dst in {KingHome(f), RookHome(f)}
  {}

  /** What the four kinds of moves of this engine find and leave on the cells. */
  lemma TranslatedCells(p: Position, move: Move)
    requires Sound(p) && PseudoLegal(p, move)
    ensures var s, m, off := p.cells, Translate(move, p.side), CastlingOffset(p.side);
      && m.src != m.dst
      && match m.flags
         case FlagNone =>
           && CellsAfter(p, move) == s[m.dst := if m.promote.Man? then m.promote else s[m.src]][m.src := Empty]
           && (m.promote.Man? ==> s[m.src] == Man(p.side, Pawn))
         case FlagEnpassant =>
           var taken := EnpassantPawnPos(p.side, m.dst);
           && 0 <= taken < 64 && taken != m.src && taken != m.dst
           && s[m.dst] == Empty && s[taken] == Man(p.side.Invert(), Pawn)
           && CellsAfter(p, move) == s[m.dst := s[m.src]][m.src := Empty][taken := Empty]
         case FlagShortCastling =>
           && m.src == off + 4 && m.dst == off + 6 && s[m.src] == Man(p.side, King)
           && s[off + 7] == Man(p.side, Rook) && s[off + 5] == s[off + 6] == Empty
           && CellsAfter(p, move) ==
             s[m.dst := s[m.src]][m.src := Empty][off + 5 := Man(p.side, Rook)][off + 7 := Empty]
         case FlagLongCastling =>
           && m.src == off + 4 && m.dst == off + 2 && s[m.src] == Man(p.side, King)
           && s[off] == Man(p.side, Rook) && s[off + 2] == s[off + 3] == Empty
           && CellsAfter(p, move) == s[m.dst := s[m.src]][m.src := Empty][off + 3 := Man(p.side, Rook)][off := Empty]
  {
    if move.kind.IsCastling() {
      CastlingCells(p, move);
      CastlingInFour(p.cells, p.side);
    } else {
      StepCells(p, move);
    }
    hide Sound;
    hide PseudoLegal;
    hide AfterKingside;
    hide AfterQueenside;
  }
}

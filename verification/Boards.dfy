/** The board as the engine keeps it: besides the essential fields it carries bitboards and a hash
    that every operation updates in place. They are proved to stay what a recomputation gives. */
module Boards {
  import opened Types
  import opened Geometry
  import opened Rules
  import opened Invariants
  import opened Zobrist
  import opened Bitboards

  /** What is needed to unmake a move. */
  datatype MovePersistence = MovePersistence(
    hash: Hash,
    castling: set<CastlingFlag>,
    enpassantCoord: EnpassantCoord,
    moveCounter: Uint16,
    dstCell: Cell)

  /** The fields that the rules of chess do not speak of. */
  datatype Auxiliary = Auxiliary(
    hash: Hash,
    bbWhite: Bitboard,
    bbBlack: Bitboard,
    bbAll: Bitboard,
    bbPieces: map<Cell, Bitboard>)

  function Persistence(keys: Keys, p: Position, m: Move): MovePersistence
  {
    MovePersistence(HashOf(keys, p), p.castling, p.enpassant, p.moveCounter, p.cells[m.dst])
  }

  /** The cells whose change takes a castling flag away. */
  function FlagSources(f: CastlingFlag): Bitboard {
    {KingHome(f), RookHome(f)}
  }

  const ALL_CASTLING_SOURCES: Bitboard := {0, 4, 7, 56, 60, 63}

  /** King and rook are on the home cells that the flag speaks of. */
  predicate HomesHeld(s: Cells, f: CastlingFlag) {
    s[KingHome(f)] == Man(FlagColor(f), King) && s[RookHome(f)] == Man(FlagColor(f), Rook)
  }

  /** The position with the flags that do not agree with its cells dropped. */
  function Normalized(p: Position): Position {
    p.(enpassant := if EnpassantSettled(p) then p.enpassant else -1,
       castling := set f | f in p.castling && HomesHeld(p.cells, f))
  }

  /** The cell behind the en passant mark is on the board if it is looked at: the mark is on an enemy pawn. */
  predicate MarkInside(p: Position) {
    p.enpassant != -1 && p.cells[p.enpassant] == Man(p.side.Invert(), Pawn) ==>
      0 <= p.enpassant + PawnForwardDelta(p.side) < 64
  }

  /** The mark is on an enemy pawn with an empty cell behind it, on whatever row. */
  predicate MarkHolds(p: Position)
    requires MarkInside(p)
  {
    && p.enpassant != -1 && p.cells[p.enpassant] == Man(p.side.Invert(), Pawn)
    && p.cells[p.enpassant + PawnForwardDelta(p.side)] == Empty
  }

  /** What `Update` makes of the flags: it keeps an en passant mark on any row. */
  function Corrected(p: Position): (q: Position)
    requires MarkInside(p)
    ensures EnpassantRowOk(p) ==> q == Normalized(p)
  {
    p.(enpassant := if MarkHolds(p) then p.enpassant else -1,
       castling := set f | f in p.castling && HomesHeld(p.cells, f))
  }

  /** What a move finds on the cells, and what it does to them and to the castling rights. */
  lemma KindOf(p: Position, m: Move)
    requires Sound(p) && Playable(p, m)
    ensures m.kind != Invalid
    ensures m.kind == Null ==> CellsAfter(p, m) == p.cells && CastlingAfter(p, m) == p.castling
    ensures m.kind == CastlingKingside ==>
      && CastlingShape(p.cells, p.side, CastlingOffset(p.side) + 4, CastlingOffset(p.side) + 7,
           CastlingOffset(p.side) + 6, CastlingOffset(p.side) + 5)
      && CellsAfter(p, m) == AfterKingside(p.cells, p.side)
    ensures m.kind == CastlingQueenside ==>
      && CastlingShape(p.cells, p.side, CastlingOffset(p.side) + 4, CastlingOffset(p.side),
           CastlingOffset(p.side) + 2, CastlingOffset(p.side) + 3)
      && CellsAfter(p, m) == AfterQueenside(p.cells, p.side)
    ensures m.kind.IsCastling() ==> CastlingAfter(p, m) == p.castling - {Kingside(p.side), Queenside(p.side)}
    ensures m.kind == PawnDoubleMove || m.kind == Enpassant ==> CastlingAfter(p, m) == p.castling
    ensures m.kind == Simple || m.kind.IsPromote() ==>
      CastlingAfter(p, m) == set f | f in p.castling && {m.src, m.dst} !! FlagSources(f)
    ensures m.kind != Null && !m.kind.IsCastling() ==>
      && m.src != m.dst && IsOwn(p.cells, p.side, m.src) && !IsOwn(p.cells, p.side, m.dst)
      && (m.kind == PawnDoubleMove || m.kind == Enpassant ==> p.cells[m.dst] == Empty)
      && (m.kind == Simple || p.cells[m.src] == Man(p.side, Pawn))
    ensures m.kind == Simple || m.kind == PawnDoubleMove ==>
      CellsAfter(p, m) == p.cells[m.src := Empty][m.dst := p.cells[m.src]]
    ensures m.kind == Enpassant ==>
      var taken := EnpassantPawnPos(p.side, m.dst);
      && 0 <= taken < 64 && taken != m.src && taken != m.dst && p.cells[taken] == Man(p.side.Invert(), Pawn)
      && CellsAfter(p, m) == p.cells[m.src := Empty][m.dst := p.cells[m.src]][taken := Empty]
    ensures m.kind.IsPromote() ==>
      CellsAfter(p, m) == p.cells[m.src := Empty][m.dst := Man(p.side, m.kind.PromotePiece())]
  {
    hide Sound;
    hide PseudoLegal;
    if m.kind.IsCastling() {
      CastlingCells(p, m);
      FlagsAfter(p, m);
    } else if m.kind != Null {
      StepCells(p, m);
      FlagsAfter(p, m);
    }
  }

  /** What stands where after the move, and how putting it back restores the cells before it. */
  lemma CellsBack(p: Position, m: Move)
    requires Sound(p) && Playable(p, m)
    ensures var s, t, c, off := p.cells, CellsAfter(p, m), p.side, CastlingOffset(p.side);
      match m.kind
      case Null => s == t
      case Invalid => false
      case Simple => t[m.src] == Empty && t[m.dst] == s[m.src] && s == t[m.src := t[m.dst]][m.dst := s[m.dst]]
      case PawnDoubleMove =>
        t[m.src] == Empty && t[m.dst] == Man(c, Pawn) && s == t[m.src := Man(c, Pawn)][m.dst := Empty]
      case Enpassant =>
        var taken := EnpassantPawnPos(c, m.dst);
        && 0 <= taken < 64 && t[m.src] == t[taken] == Empty && t[m.dst] == Man(c, Pawn)
        && s == t[m.src := Man(c, Pawn)][m.dst := Empty][taken := Man(c.Invert(), Pawn)]
      case CastlingKingside => CastlingShape(t, c, off + 6, off + 5, off + 4, off + 7) && s == BeforeKingside(t, c)
      case CastlingQueenside => CastlingShape(t, c, off + 2, off + 3, off + 4, off) && s == BeforeQueenside(t, c)
      case _ => t[m.src] == Empty && IsOwn(t, c, m.dst) && s == t[m.src := Man(c, Pawn)][m.dst := s[m.dst]]
  {
    hide Sound;
    hide PseudoLegal;
    hide CellsAfter;
    hide CastlingAfter;
    hide FlagSources;
    KindOf(p, m);
  }

  lemma SoundIsSettled(p: Position)
    requires Sound(p)
    ensures Settled(p)
  {
    hide Settled;
  }

  lemma NumberBack(n: Uint16)
    ensures Decrement(Increment(n)) == n
  {}

  class Board {
    const keys: Keys
    const cells: array<Cell>
    var side: Color
    var castling: set<CastlingFlag>
    var enpassantCoord: EnpassantCoord
    var moveCounter: Uint16
    var moveNumber: Uint16
    var hash: Hash
    var bbWhite: Bitboard
    var bbBlack: Bitboard
    var bbAll: Bitboard
    var bbPieces: map<Cell, Bitboard>

    ghost predicate Shape() {
      cells.Length == 64 && keys.Ok()
    }

    function Pos(): Position
      reads `side, `castling, `enpassantCoord, `moveCounter, `moveNumber, cells
      requires Shape()
    {
      Position(cells[..], side, castling, enpassantCoord, moveCounter, moveNumber)
    }

    ghost function Bits(): Bitboards.PieceBoards
      reads `bbWhite, `bbBlack, `bbPieces
    {
      Bitboards.PieceBoards(bbWhite, bbBlack, bbPieces)
    }

    function Aux(): Auxiliary
      reads this
    {
      Auxiliary(hash, bbWhite, bbBlack, bbAll, bbPieces)
    }

    /** The hash is what a recomputation would give. */
    ghost predicate HashOk()
      reads `hash, `side, `castling, `enpassantCoord, `moveCounter, `moveNumber, cells
      requires Shape()
    {
      hash == HashOf(keys, Pos())
    }

    /** The auxiliary fields are what `Update` would compute, and it would correct no flag. */
    ghost predicate Consistent()
      reads this, cells
    {
      && Shape()
      && Settled(Pos())
      && Bits().Match(cells[..])
      && bbAll == bbWhite + bbBlack
      && HashOk()
    }

    constructor (keys: Keys)
      requires keys.Ok()
      ensures Shape() && this.keys == keys && fresh(cells)
    {
      this.keys := keys;
      cells := new Cell[64](_ => Empty);
      side, castling, enpassantCoord, moveCounter, moveNumber := White, {}, -1, 0, 1;
      hash, bbWhite, bbBlack, bbAll, bbPieces := {}, {}, {}, {}, map[];
    }

    function BbColor(c: Color): Bitboard
      reads `bbWhite, `bbBlack
    {
      if c.White? then bbWhite else bbBlack
    }

    // ----- elementary updates

    method Put(i: Coord, v: Cell)
      requires Shape()
      modifies cells
      ensures cells[..] == old(cells[..])[i := v]
    {
      cells[i] := v;
    }

    method XorColor(c: Color, bb: Bitboard)
      modifies `bbWhite, `bbBlack
      ensures Bits() == old(Bits()).ToggleColor(c, bb)
      ensures old(Bits()).Total() ==> Bits().Total()
    {
      if c.White? {
        bbWhite := Xor(bbWhite, bb);
      } else {
        bbBlack := Xor(bbBlack, bb);
      }
    }

    method XorPiece(v: Cell, bb: Bitboard)
      requires Bits().Total()
      modifies `bbPieces
      ensures Bits() == old(Bits()).TogglePiece(v, bb)
      ensures Bits().Total()
    {
      bbPieces := bbPieces[v := Xor(bbPieces[v], bb)];
    }

    method XorMan(v: Cell, bb: Bitboard)
      requires Bits().Total() && v.Man?
      modifies `bbWhite, `bbBlack, `bbPieces
      ensures Bits() == old(Bits()).ToggleColor(v.color, bb).TogglePiece(v, bb)
      ensures Bits().Total()
    {
      XorColor(v.color, bb);
      XorPiece(v, bb);
    }

    method XorMen(c: Color, bb: Bitboard, v: Cell, x: Bitboard, w: Cell, y: Bitboard)
      requires Bits().Total()
      modifies `bbWhite, `bbBlack, `bbPieces
      ensures Bits() == old(Bits()).ToggleColor(c, bb).TogglePiece(v, x).TogglePiece(w, y)
      ensures Bits().Total()
    {
      XorColor(c, bb);
      XorPiece(v, x);
      XorPiece(w, y);
    }

    method ClearBits(c: Color, v: Cell, bb: Bitboard)
      requires Bits().Total()
      modifies `bbWhite, `bbBlack, `bbPieces
      ensures Bits() == old(Bits()).Clear(c, v, bb)
      ensures Bits().Total()
    {
      if c.White? {
        bbWhite := bbWhite - bb;
      } else {
        bbBlack := bbBlack - bb;
      }
      bbPieces := bbPieces[v := bbPieces[v] - bb];
    }

    method OrBits(c: Color, v: Cell, bb: Bitboard)
      requires Bits().Total()
      modifies `bbWhite, `bbBlack, `bbPieces
      ensures Bits() == old(Bits()).Insert(c, v, bb)
      ensures Bits().Total()
    {
      if c.White? {
        bbWhite := bbWhite + bb;
      } else {
        bbBlack := bbBlack + bb;
      }
      bbPieces := bbPieces[v := bbPieces[v] + bb];
    }

    method ClearFlags(flags: set<CastlingFlag>)
      requires Shape() && HashOk()
      modifies `hash, `castling
      ensures HashOk() && castling == old(castling) - flags
    {
      HashOfCastling(keys, Pos(), castling - flags);
      hash := Xor(hash, keys.castling(castling));
      castling := castling - flags;
      hash := Xor(hash, keys.castling(castling));
    }

    // ----- the kinds of moves, each with its inverse

    method PutKingside(c: Color, inverse: bool)
      requires Shape()
      requires var off := CastlingOffset(c);
        !inverse ==> CastlingShape(cells[..], c, off + 4, off + 7, off + 6, off + 5) && HashOk()
      modifies cells, `hash
      ensures cells[..] == if inverse then BeforeKingside(old(cells[..]), c) else AfterKingside(old(cells[..]), c)
      ensures if inverse then hash == old(hash) else HashOk()
    {
      hide HashOf;
      hide HashCells;
      hide Xor;
      var offset, king, rook := CastlingOffset(c), Man(c, King), Man(c, Rook);
      ghost var p := Pos();
      if inverse {
        Put(offset + 4, king);
        Put(offset + 5, Empty);
        Put(offset + 6, Empty);
        Put(offset + 7, rook);
      } else {
        Put(offset + 4, Empty);
        Put(offset + 5, rook);
        Put(offset + 6, king);
        Put(offset + 7, Empty);
        HashAfterKingside(keys, p.cells, c);
        HashOfCells(keys, p, cells[..], keys.PieceCastlingKingside(c));
        hash := Xor(hash, keys.PieceCastlingKingside(c));
      }
    }

    /** The bitboards follow the four cells of `s` that castling changes. */
    method ToggleKingside(c: Color, inverse: bool, ghost s: Cells)
      requires Bits().Match(s)
      requires var off := CastlingOffset(c);
        if inverse then CastlingShape(s, c, off + 6, off + 5, off + 4, off + 7)
        else CastlingShape(s, c, off + 4, off + 7, off + 6, off + 5)
      modifies `bbWhite, `bbBlack, `bbPieces
      ensures Bits().Match(if inverse then BeforeKingside(s, c) else AfterKingside(s, c))
    {
      MatchIsTotal(Bits(), s);
      hide CastlingOffset;
      hide CastlingShape;
      hide AfterKingside;
      hide BeforeKingside;
      hide Bitboards.PieceBoards.Match;
      hide Bitboards.PieceBoards.CastleKingside;
      KingsideMatch(Bits(), s, c, inverse);
      XorKingside(c);
    }

    method XorKingside(c: Color)
      requires Bits().Total()
      modifies `bbWhite, `bbBlack, `bbPieces
      ensures Bits() == old(Bits()).CastleKingside(c)
    {
      var offset, king, rook := CastlingOffset(c), Man(c, King), Man(c, Rook);
      hide Bitboards.PieceBoards.ToggleColor;
      hide Bitboards.PieceBoards.TogglePiece;
      XorMen(c, {offset + 4, offset + 5, offset + 6, offset + 7},
        rook, {offset + 5, offset + 7}, king, {offset + 4, offset + 6});
    }

    method PlaceKingside(c: Color, inverse: bool)
      requires Shape() && Bits().Match(cells[..])
      requires var off := CastlingOffset(c);
        if inverse then CastlingShape(cells[..], c, off + 6, off + 5, off + 4, off + 7)
        else CastlingShape(cells[..], c, off + 4, off + 7, off + 6, off + 5)
      requires inverse || HashOk()
      modifies cells, `hash, `bbWhite, `bbBlack, `bbPieces
      ensures Bits().Match(cells[..])
      ensures cells[..] == if inverse then BeforeKingside(old(cells[..]), c) else AfterKingside(old(cells[..]), c)
      ensures if inverse then hash == old(hash) else HashOk()
    {
      hide CastlingShape;
      hide AfterKingside;
      hide BeforeKingside;
      hide HashOk;
      hide Bitboards.PieceBoards.Match;
      ghost var s := cells[..];
      PutKingside(c, inverse);
      ToggleKingside(c, inverse, s);
    }

    method MakeKingsideCastling(c: Color, inverse: bool)
      requires Shape() && Bits().Match(cells[..])
      requires var off := CastlingOffset(c);
        if inverse then CastlingShape(cells[..], c, off + 6, off + 5, off + 4, off + 7)
        else CastlingShape(cells[..], c, off + 4, off + 7, off + 6, off + 5)
      requires inverse || HashOk()
      modifies cells, `hash, `castling, `bbWhite, `bbBlack, `bbPieces
      ensures Bits().Match(cells[..])
      ensures cells[..] == if inverse then BeforeKingside(old(cells[..]), c) else AfterKingside(old(cells[..]), c)
      ensures inverse ==> hash == old(hash) && castling == old(castling)
      ensures !inverse ==> HashOk() && castling == old(castling) - {Kingside(c), Queenside(c)}
    {
      hide AfterKingside;
      hide BeforeKingside;
      hide CastlingShape;
      hide HashOk;
      hide Bitboards.PieceBoards.Match;
      PlaceKingside(c, inverse);
      if !inverse {
        ClearFlags({Kingside(c), Queenside(c)});
      }
    }

    method PutQueenside(c: Color, inverse: bool)
      requires Shape()
      requires var off := CastlingOffset(c);
        !inverse ==> CastlingShape(cells[..], c, off + 4, off, off + 2, off + 3) && HashOk()
      modifies cells, `hash
      ensures cells[..] == if inverse then BeforeQueenside(old(cells[..]), c) else AfterQueenside(old(cells[..]), c)
      ensures if inverse then hash == old(hash) else HashOk()
    {
      hide HashOf;
      hide HashCells;
      hide Xor;
      var offset, king, rook := CastlingOffset(c), Man(c, King), Man(c, Rook);
      ghost var p := Pos();
      if inverse {
        Put(offset, rook);
        Put(offset + 2, Empty);
        Put(offset + 3, Empty);
        Put(offset + 4, king);
      } else {
        Put(offset, Empty);
        Put(offset + 2, king);
        Put(offset + 3, rook);
        Put(offset + 4, Empty);
        HashAfterQueenside(keys, p.cells, c);
        HashOfCells(keys, p, cells[..], keys.PieceCastlingQueenside(c));
        hash := Xor(hash, keys.PieceCastlingQueenside(c));
      }
    }

    /** The bitboards follow the four cells of `s` that castling changes. */
    method ToggleQueenside(c: Color, inverse: bool, ghost s: Cells)
      requires Bits().Match(s)
      requires var off := CastlingOffset(c);
        if inverse then CastlingShape(s, c, off + 2, off + 3, off + 4, off)
        else CastlingShape(s, c, off + 4, off, off + 2, off + 3)
      modifies `bbWhite, `bbBlack, `bbPieces
      ensures Bits().Match(if inverse then BeforeQueenside(s, c) else AfterQueenside(s, c))
    {
      MatchIsTotal(Bits(), s);
      hide CastlingOffset;
      hide CastlingShape;
      hide AfterQueenside;
      hide BeforeQueenside;
      hide Bitboards.PieceBoards.Match;
      hide Bitboards.PieceBoards.CastleQueenside;
      QueensideMatch(Bits(), s, c, inverse);
      XorQueenside(c);
    }

    method XorQueenside(c: Color)
      requires Bits().Total()
      modifies `bbWhite, `bbBlack, `bbPieces
      ensures Bits() == old(Bits()).CastleQueenside(c)
    {
      var offset, king, rook := CastlingOffset(c), Man(c, King), Man(c, Rook);
      hide Bitboards.PieceBoards.ToggleColor;
      hide Bitboards.PieceBoards.TogglePiece;
      XorMen(c, {offset, offset + 2, offset + 3, offset + 4},
        rook, {offset, offset + 3}, king, {offset + 2, offset + 4});
    }

    method PlaceQueenside(c: Color, inverse: bool)
      requires Shape() && Bits().Match(cells[..])
      requires var off := CastlingOffset(c);
        if inverse then CastlingShape(cells[..], c, off + 2, off + 3, off + 4, off)
        else CastlingShape(cells[..], c, off + 4, off, off + 2, off + 3)
      requires inverse || HashOk()
      modifies cells, `hash, `bbWhite, `bbBlack, `bbPieces
      ensures Bits().Match(cells[..])
      ensures cells[..] == if inverse then BeforeQueenside(old(cells[..]), c) else AfterQueenside(old(cells[..]), c)
      ensures if inverse then hash == old(hash) else HashOk()
    {
      hide CastlingShape;
      hide AfterQueenside;
      hide BeforeQueenside;
      hide HashOk;
      hide Bitboards.PieceBoards.Match;
      ghost var s := cells[..];
      PutQueenside(c, inverse);
      ToggleQueenside(c, inverse, s);
    }

    method MakeQueensideCastling(c: Color, inverse: bool)
      requires Shape() && Bits().Match(cells[..])
      requires var off := CastlingOffset(c);
        if inverse then CastlingShape(cells[..], c, off + 2, off + 3, off + 4, off)
        else CastlingShape(cells[..], c, off + 4, off, off + 2, off + 3)
      requires inverse || HashOk()
      modifies cells, `hash, `castling, `bbWhite, `bbBlack, `bbPieces
      ensures Bits().Match(cells[..])
      ensures cells[..] == if inverse then BeforeQueenside(old(cells[..]), c) else AfterQueenside(old(cells[..]), c)
      ensures inverse ==> hash == old(hash) && castling == old(castling)
      ensures !inverse ==> HashOk() && castling == old(castling) - {Kingside(c), Queenside(c)}
    {
      hide AfterQueenside;
      hide BeforeQueenside;
      hide CastlingShape;
      hide HashOk;
      hide Bitboards.PieceBoards.Match;
      PlaceQueenside(c, inverse);
      if !inverse {
        ClearFlags({Kingside(c), Queenside(c)});
      }
    }

    method PutEnpassant(c: Color, src: Coord, dst: Coord, taken: Coord, inverse: bool)
      requires Shape() && src != dst && src != taken && dst != taken
      requires !inverse ==>
        && cells[src] == Man(c, Pawn) && cells[dst] == Empty && cells[taken] == Man(c.Invert(), Pawn)
        && HashOk()
      modifies cells, `hash
      ensures cells[..] ==
        if inverse then old(cells[..])[src := Man(c, Pawn)][dst := Empty][taken := Man(c.Invert(), Pawn)]
        else old(cells[..])[src := Empty][dst := Man(c, Pawn)][taken := Empty]
      ensures if inverse then hash == old(hash) else HashOk()
    {
      hide HashOf;
      hide HashCells;
      hide Xor;
      var ourPawn, enemyPawn := Man(c, Pawn), Man(c.Invert(), Pawn);
      ghost var p := Pos();
      if inverse {
        Put(src, ourPawn);
        Put(dst, Empty);
        Put(taken, enemyPawn);
      } else {
        Put(src, Empty);
        Put(dst, ourPawn);
        Put(taken, Empty);
        var delta := Xor(Xor(keys.piece(ourPawn, src), keys.piece(ourPawn, dst)), keys.piece(enemyPawn, taken));
        HashAfterEnpassant(keys, p.cells, src, dst, taken);
        HashOfCells(keys, p, cells[..], delta);
        hash := Xor(hash, delta);
      }
    }

    method ToggleEnpassant(c: Color, src: Coord, dst: Coord, taken: Coord, inverse: bool, ghost s: Cells)
      requires Bits().Match(s) && src != dst && src != taken && dst != taken
      requires if inverse
        then s[src] == Empty && s[dst] == Man(c, Pawn) && s[taken] == Empty
        else s[src] == Man(c, Pawn) && s[dst] == Empty && s[taken] == Man(c.Invert(), Pawn)
      modifies `bbWhite, `bbBlack, `bbPieces
      ensures Bits().Match(
        if inverse then s[src := Man(c, Pawn)][dst := Empty][taken := Man(c.Invert(), Pawn)]
        else s[src := Empty][dst := Man(c, Pawn)][taken := Empty])
    {
      MatchIsTotal(Bits(), s);
      hide Bitboards.PieceBoards.Match;
      hide Bitboards.PieceBoards.ToggleColor;
      hide Bitboards.PieceBoards.TogglePiece;
      hide Bitboards.PieceBoards.Clear;
      hide Bitboards.PieceBoards.Insert;
      assert {src, dst} == {dst, src};
      EnpassantMatch(Bits(), s, c, if inverse then dst else src, if inverse then src else dst, taken);
      assert inverse ==> s[dst := Empty][src := Man(c, Pawn)] == s[src := Man(c, Pawn)][dst := Empty];
      XorMan(Man(c, Pawn), {src, dst});
      XorMan(Man(c.Invert(), Pawn), {taken});
    }

    method MakeEnpassant(c: Color, src: Coord, dst: Coord, taken: Coord, inverse: bool)
      requires Shape() && Bits().Match(cells[..]) && src != dst && src != taken && dst != taken
      requires if inverse
        then cells[src] == Empty && cells[dst] == Man(c, Pawn) && cells[taken] == Empty
        else cells[src] == Man(c, Pawn) && cells[dst] == Empty && cells[taken] == Man(c.Invert(), Pawn) && HashOk()
      modifies cells, `hash, `bbWhite, `bbBlack, `bbPieces
      ensures Bits().Match(cells[..])
      ensures cells[..] ==
        if inverse then old(cells[..])[src := Man(c, Pawn)][dst := Empty][taken := Man(c.Invert(), Pawn)]
        else old(cells[..])[src := Empty][dst := Man(c, Pawn)][taken := Empty]
      ensures if inverse then hash == old(hash) else HashOk()
    {
      hide HashOk;
      hide Bitboards.PieceBoards.Match;
      ghost var s := cells[..];
      PutEnpassant(c, src, dst, taken, inverse);
      ToggleEnpassant(c, src, dst, taken, inverse, s);
    }

    method ToggleQuietStep(c: Color, src: Coord, dst: Coord, inverse: bool, ghost s: Cells)
      requires Bits().Match(s) && src != dst
      requires if inverse then s[src] == Empty && s[dst] == Man(c, Pawn) else s[src] == Man(c, Pawn) && s[dst] == Empty
      modifies `bbWhite, `bbBlack, `bbPieces
      ensures Bits().Match(
        if inverse then s[src := Man(c, Pawn)][dst := Empty] else s[src := Empty][dst := Man(c, Pawn)])
    {
      MatchIsTotal(Bits(), s);
      hide Bitboards.PieceBoards.Match;
      hide Bitboards.PieceBoards.ToggleColor;
      hide Bitboards.PieceBoards.TogglePiece;
      assert {src, dst} == {dst, src};
      QuietStepMatch(Bits(), s, c, if inverse then dst else src, if inverse then src else dst);
      assert inverse ==> s[dst := Empty][src := Man(c, Pawn)] == s[src := Man(c, Pawn)][dst := Empty];
      XorMan(Man(c, Pawn), {src, dst});
    }

    method MakePawnDoubleMove(c: Color, src: Coord, dst: Coord, inverse: bool)
      requires Shape() && Bits().Match(cells[..]) && src != dst
      requires if inverse
        then cells[src] == Empty && cells[dst] == Man(c, Pawn)
        else cells[src] == Man(c, Pawn) && cells[dst] == Empty && HashOk() && enpassantCoord == -1
      modifies cells, `hash, `enpassantCoord, `bbWhite, `bbBlack, `bbPieces
      ensures Bits().Match(cells[..])
      ensures cells[..] ==
        if inverse then old(cells[..])[src := Man(c, Pawn)][dst := Empty]
        else old(cells[..])[src := Empty][dst := Man(c, Pawn)]
      ensures inverse ==> hash == old(hash) && enpassantCoord == old(enpassantCoord)
      ensures !inverse ==> HashOk() && enpassantCoord == dst
    {
      hide HashOk;
      hide Bitboards.PieceBoards.Match;
      ghost var s := cells[..];
      if inverse {
        Put(src, Man(c, Pawn));
        Put(dst, Empty);
      } else {
        PutStep(src, dst, Man(c, Pawn));
      }
      ToggleQuietStep(c, src, dst, inverse, s);
      if !inverse {
        SetEnpassant(dst);
      }
    }

    method SetEnpassant(dst: Coord)
      requires Shape() && HashOk() && enpassantCoord == -1
      modifies `hash, `enpassantCoord
      ensures HashOk() && enpassantCoord == dst
    {
      enpassantCoord := dst;
      hash := Xor(hash, keys.enpassant(dst));
    }

    method ClearEnpassant()
      requires Shape() && HashOk()
      modifies `hash, `enpassantCoord
      ensures HashOk() && enpassantCoord == -1
    {
      if enpassantCoord != -1 {
        hash := Xor(hash, keys.enpassant(enpassantCoord));
        enpassantCoord := -1;
      }
    }

    /** The man on `src` goes to `dst` and becomes `v`; the hash follows. */
    method PutStep(src: Coord, dst: Coord, v: Cell)
      requires Shape() && src != dst && HashOk()
      modifies cells, `hash
      ensures cells[..] == old(cells[..])[src := Empty][dst := v] && HashOk()
    {
      hide HashOf;
      hide HashCells;
      hide Xor;
      ghost var p := Pos();
      var srcCell, dstCell := cells[src], cells[dst];
      var delta := Xor(Xor(keys.piece(srcCell, src), keys.piece(v, dst)), keys.piece(dstCell, dst));
      Put(src, Empty);
      Put(dst, v);
      HashAfterStep(keys, p.cells, src, dst, v);
      HashOfCells(keys, p, cells[..], delta);
      hash := Xor(hash, delta);
    }

    method MakeSimple(c: Color, src: Coord, dst: Coord)
      requires Shape() && Bits().Match(cells[..]) && HashOk()
      requires src != dst && IsOwn(cells[..], c, src) && !IsOwn(cells[..], c, dst)
      modifies cells, `hash, `castling, `bbWhite, `bbBlack, `bbPieces
      ensures Bits().Match(cells[..]) && HashOk()
      ensures cells[..] == old(cells[..])[src := Empty][dst := old(cells[src])]
      ensures castling == set f | f in old(castling) && {src, dst} !! FlagSources(f)
    {
      hide HashOk;
      hide Bitboards.PieceBoards.Match;
      ghost var s := cells[..];
      var srcCell, dstCell := cells[src], cells[dst];
      PutStep(src, dst, srcCell);
      ToggleSimple(c, src, dst, srcCell, dstCell, s);
      UpdateCastling({src, dst});
    }

    method ToggleSimple(c: Color, src: Coord, dst: Coord, srcCell: Cell, dstCell: Cell, ghost s: Cells)
      requires Bits().Match(s) && srcCell == s[src] && dstCell == s[dst]
      requires src != dst && IsOwn(s, c, src) && !IsOwn(s, c, dst)
      modifies `bbWhite, `bbBlack, `bbPieces
      ensures Bits().Match(s[src := Empty][dst := srcCell])
    {
      MatchIsTotal(Bits(), s);
      hide Bitboards.PieceBoards.Match;
      hide Bitboards.PieceBoards.ToggleColor;
      hide Bitboards.PieceBoards.TogglePiece;
      hide Bitboards.PieceBoards.Clear;
      hide Bitboards.PieceBoards.Insert;
      SimpleStepMatch(Bits(), s, c, src, dst);
      XorMan(srcCell, {src, dst});
      ClearBits(c.Invert(), dstCell, {dst});
    }

    method MakePromote(c: Color, src: Coord, dst: Coord, promote: Cell)
      requires Shape() && Bits().Match(cells[..]) && HashOk() && promote.Man? && promote.color == c
      requires src != dst && cells[src] == Man(c, Pawn) && !IsOwn(cells[..], c, dst)
      modifies cells, `hash, `castling, `bbWhite, `bbBlack, `bbPieces
      ensures Bits().Match(cells[..]) && HashOk()
      ensures cells[..] == old(cells[..])[src := Empty][dst := promote]
      ensures castling == set f | f in old(castling) && {src, dst} !! FlagSources(f)
    {
      hide HashOk;
      hide Bitboards.PieceBoards.Match;
      ghost var s := cells[..];
      var dstCell := cells[dst];
      PutStep(src, dst, promote);
      TogglePromote(c, src, dst, promote, dstCell, s);
      UpdateCastling({src, dst});
    }

    method TogglePromote(c: Color, src: Coord, dst: Coord, promote: Cell, dstCell: Cell, ghost s: Cells)
      requires Bits().Match(s) && promote.Man? && promote.color == c && dstCell == s[dst]
      requires src != dst && s[src] == Man(c, Pawn) && !IsOwn(s, c, dst)
      modifies `bbWhite, `bbBlack, `bbPieces
      ensures Bits().Match(s[src := Empty][dst := promote])
    {
      MatchIsTotal(Bits(), s);
      hide Bitboards.PieceBoards.Match;
      hide Bitboards.PieceBoards.ToggleColor;
      hide Bitboards.PieceBoards.TogglePiece;
      hide Bitboards.PieceBoards.Clear;
      hide Bitboards.PieceBoards.Insert;
      StepMatch(Bits(), s, c, src, dst, promote);
      XorMen(c, {src, dst}, Man(c, Pawn), {src}, promote, {dst});
      ClearBits(c.Invert(), dstCell, {dst});
    }

    /** A step of either kind taken back: `v` returns to `src` and `dstCell` to `dst`. */
    method UnmakeStep(c: Color, src: Coord, dst: Coord, v: Cell, dstCell: Cell)
      requires Shape() && Bits().Match(cells[..]) && v.Man? && v.color == c
      requires src != dst && cells[src] == Empty && IsOwn(cells[..], c, dst)
      requires dstCell == Empty || dstCell.color == c.Invert()
      modifies cells, `bbWhite, `bbBlack, `bbPieces
      ensures Bits().Match(cells[..])
      ensures cells[..] == old(cells[..])[src := v][dst := dstCell]
    {
      StepBackMatch(Bits(), cells[..], c, src, dst, v, dstCell);
      assert Bits().Total();
      hide HashOk;
      hide Bitboards.PieceBoards.Match;
      hide Bitboards.PieceBoards.ToggleColor;
      hide Bitboards.PieceBoards.TogglePiece;
      hide Bitboards.PieceBoards.Clear;
      hide Bitboards.PieceBoards.Insert;
      var moved := cells[dst];
      Put(src, v);
      Put(dst, dstCell);
      XorMen(c, {src, dst}, v, {src}, moved, {dst});
      if dstCell != Empty {
        OrBits(c.Invert(), dstCell, {dst});
      }
    }

    method UpdateCastling(bbChange: Bitboard)
      requires Shape() && HashOk()
      modifies `hash, `castling
      ensures HashOk()
      ensures castling == set f | f in old(castling) && bbChange !! FlagSources(f)
    {
      if bbChange !! ALL_CASTLING_SOURCES {
        return;
      }
      var castlingMask := ALL_CASTLING;
      if !(bbChange !! FlagSources(BlackKingside)) {
        castlingMask := castlingMask - {BlackKingside};
      }
      if !(bbChange !! FlagSources(BlackQueenside)) {
        castlingMask := castlingMask - {BlackQueenside};
      }
      if !(bbChange !! FlagSources(WhiteKingside)) {
        castlingMask := castlingMask - {WhiteKingside};
      }
      if !(bbChange !! FlagSources(WhiteQueenside)) {
        castlingMask := castlingMask - {WhiteQueenside};
      }
      var newCastling := castling * castlingMask;
      if newCastling != castling {
        HashOfCastling(keys, Pos(), newCastling);
        hash := Xor(hash, keys.castling(castling));
        castling := newCastling;
        hash := Xor(hash, keys.castling(castling));
      }
    }

    // ----- making and unmaking moves

    /** The part of a move that depends on its kind. */
    method MakeKind(m: Move, ghost p: Position)
      requires Shape() && Bits().Match(cells[..]) && HashOk()
      requires enpassantCoord == -1
      requires Pos() == p.(enpassant := -1) && Sound(p) && Playable(p, m)
      modifies cells, `hash, `castling, `enpassantCoord, `bbWhite, `bbBlack, `bbPieces
      ensures Bits().Match(cells[..]) && HashOk()
      ensures cells[..] == CellsAfter(p, m)
      ensures castling == CastlingAfter(p, m)
      ensures enpassantCoord == if m.kind.PawnDoubleMove? then m.dst else -1
    {
      hide Sound;
      hide PseudoLegal;
      hide HashOk;
      hide CellsAfter;
      hide CastlingAfter;
      hide CastlingShape;
      hide FlagSources;
      hide Bitboards.PieceBoards.Match;
      KindOf(p, m);
      var c := side;
      match m.kind
      case Simple =>
        MakeSimple(c, m.src, m.dst);
      case PawnDoubleMove =>
        MakePawnDoubleMove(c, m.src, m.dst, false);
      case CastlingKingside =>
        MakeKingsideCastling(c, false);
      case CastlingQueenside =>
        MakeQueensideCastling(c, false);
      case Null =>
      case Enpassant =>
        MakeEnpassant(c, m.src, m.dst, EnpassantPawnPos(c, m.dst), false);
      case Invalid =>
        assert false;
      case _ =>
        MakePromote(c, m.src, m.dst, Man(c, m.kind.PromotePiece()));
    }

    /** The rest of a move: counters, side, and the union of the colours. */
    method PassTurn(resetMoveCounter: bool)
      requires Shape() && HashOk()
      modifies `hash, `side, `moveCounter, `moveNumber, `bbAll
      ensures HashOk() && bbAll == bbWhite + bbBlack
      ensures side == old(side).Invert()
      ensures moveCounter == if resetMoveCounter then 0 else Increment(old(moveCounter))
      ensures moveNumber == if old(side).Black? then Increment(old(moveNumber)) else old(moveNumber)
    {
      if resetMoveCounter {
        moveCounter := 0;
      } else {
        moveCounter := Increment(moveCounter);
      }
      if side.Black? {
        moveNumber := Increment(moveNumber);
      }
      HashOfTurn(keys, Pos());
      side := side.Invert();
      hash := Xor(hash, keys.moveSide);
      bbAll := bbWhite + bbBlack;
    }

    /** Makes a pseudo-legal or null move: the essential fields change as the rules say, and every
        auxiliary field stays what a recomputation gives. */
    method MoveMake(m: Move) returns (p: MovePersistence)
      requires Consistent() && Sound(Pos()) && Playable(Pos(), m)
      modifies this, cells
      ensures Consistent() && Pos() == Play(old(Pos()), m)
      ensures p == Persistence(keys, old(Pos()), m)
      ensures IsNamedMan(cells[m.dst], old(side), m.kind)
    {
      hide Sound;
      hide PseudoLegal;
      hide Playable;
      hide CellsAfter;
      hide CastlingAfter;
      hide Bitboards.PieceBoards.Match;
      ghost var before := Pos();
      PlayKeepsSound(before, m);
      PromotionGives(before, m);
      SoundIsSettled(Play(before, m));
      var srcCell, dstCell := cells[m.src], cells[m.dst];
      p := MovePersistence(hash, castling, enpassantCoord, moveCounter, dstCell);
      var resetMoveCounter := dstCell != Empty || srcCell == Man(side, Pawn);
      assert resetMoveCounter == RestartsCounter(before, m);
      assert p == Persistence(keys, before, m);
      hide Persistence;
      hide Settled;
      hide HashOf;
      hide HashOk;
      hide IsNamedMan;
      hide RestartsCounter;
      ClearEnpassant();
      MakeKind(m, before);
      PassTurn(resetMoveCounter);
    }

    /** Takes back the last move made: every field of the board is as before that move. */
    method MoveUnmake(m: Move, p: MovePersistence, ghost before: Position)
      requires Shape() && Sound(before) && Playable(before, m)
      requires Consistent() && Pos() == Play(before, m) && p == Persistence(keys, before, m)
      modifies this, cells
      ensures Consistent() && Pos() == before
    {
      assert Settled(before);
      hide Sound;
      hide Settled;
      hide PseudoLegal;
      hide CellsAfter;
      hide HashOf;
      hide Bitboards.PieceBoards.Match;
      UnmakeKind(m, p.dstCell, before);
      hide Increment;
      hide Decrement;
      hide CastlingAfter;
      hide RestartsCounter;
      TurnBack(p);
      NumberBack(before.moveNumber);
    }

    /** The rest of a move taken back. */
    method TurnBack(p: MovePersistence)
      modifies `hash, `side, `castling, `enpassantCoord, `moveCounter, `moveNumber, `bbAll
      ensures hash == p.hash && castling == p.castling && enpassantCoord == p.enpassantCoord
      ensures moveCounter == p.moveCounter && side == old(side).Invert() && bbAll == bbWhite + bbBlack
      ensures moveNumber == if side.Black? then Decrement(old(moveNumber)) else old(moveNumber)
    {
      hash := p.hash;
      castling := p.castling;
      enpassantCoord := p.enpassantCoord;
      moveCounter := p.moveCounter;
      side := side.Invert();
      if side.Black? {
        moveNumber := Decrement(moveNumber);
      }
      bbAll := bbWhite + bbBlack;
    }

    method UnmakeKind(m: Move, dstCell: Cell, ghost before: Position)
      requires Shape() && Sound(before) && Playable(before, m) && dstCell == before.cells[m.dst]
      requires Bits().Match(cells[..]) && cells[..] == CellsAfter(before, m) && side == before.side.Invert()
      modifies cells, `hash, `castling, `enpassantCoord, `bbWhite, `bbBlack, `bbPieces
      ensures Bits().Match(cells[..]) && cells[..] == before.cells
    {
      hide Sound;
      hide PseudoLegal;
      hide CellsAfter;
      hide CastlingShape;
      hide BeforeKingside;
      hide BeforeQueenside;
      hide HashOk;
      hide Bitboards.PieceBoards.Match;
      var c := side.Invert();
      CellsBack(before, m);
      if !m.kind.IsCastling() && m.kind != Null {
        StepCells(before, m);
      }
      match m.kind
      case Simple =>
        UnmakeStep(c, m.src, m.dst, cells[m.dst], dstCell);
      case PawnDoubleMove =>
        MakePawnDoubleMove(c, m.src, m.dst, true);
      case CastlingKingside =>
        MakeKingsideCastling(c, true);
      case CastlingQueenside =>
        MakeQueensideCastling(c, true);
      case Null =>
      case Enpassant =>
        MakeEnpassant(c, m.src, m.dst, EnpassantPawnPos(c, m.dst), true);
      case Invalid =>
        assert false;
      case _ =>
        UnmakeStep(c, m.src, m.dst, Man(c, Pawn), dstCell);
    }

    // ----- recomputation

    method UpdateEnpassant()
      requires Shape() && MarkInside(Pos())
      modifies `enpassantCoord
      ensures Pos() == old(Pos()).(enpassant := if MarkHolds(old(Pos())) then old(enpassantCoord) else -1)
    {
      if enpassantCoord != INVALID_COORD {
        var enpassantPreCoord := enpassantCoord + PawnForwardDelta(side);
        if cells[enpassantCoord] != Man(side.Invert(), Pawn) || cells[enpassantPreCoord] != Empty {
          enpassantCoord := INVALID_COORD;
        }
      }
    }

    method UpdateCastlingFlags()
      requires Shape()
      modifies `castling
      ensures Pos() == old(Pos()).(castling := set f | f in old(castling) && HomesHeld(cells[..], f))
    {
      var colors := [White, Black];
      for i := 0 to 2
        invariant castling ==
          set f | f in old(castling) && (FlagColor(f) in colors[..i] ==> HomesHeld(cells[..], f))
      {
        var color := colors[i];
        var x := CastlingOffset(color);
        if cells[x + 4] != Man(color, King) {
          castling := castling - {Kingside(color), Queenside(color)};
        }
        if cells[x] != Man(color, Rook) {
          castling := castling - {Queenside(color)};
        }
        if cells[x + 7] != Man(color, Rook) {
          castling := castling - {Kingside(color)};
        }
        assert colors[..i + 1] == colors[..i] + [color];
      }
      assert colors[..2] == colors;
    }

    method UpdateBitboards()
      requires Shape()
      modifies `bbWhite, `bbBlack, `bbAll, `bbPieces
      ensures Bits().Match(cells[..]) && bbAll == bbWhite + bbBlack
    {
      ghost var s := cells[..];
      EmptyBits(s);
      bbWhite := {};
      bbBlack := {};
      bbPieces := map v: Cell | v in ALL_CELLS :: {};
      hide Bitboards.PieceBoards.Match;
      hide Bitboards.PieceBoards.Insert;
      hide Prefix;
      for i := 0 to 64
        invariant Bits().Match(Prefix(s, i))
      {
        PrefixStep(s, i);
        var cell := cells[i];
        if cell == Empty {
          continue;
        }
        BitsAfterPush(Bits(), Prefix(s, i), i, cell);
        MatchIsTotal(Bits(), Prefix(s, i));
        OrBits(cell.color, cell, {i});
      }
      PrefixOfAll(s);
      bbAll := bbWhite + bbBlack;
    }

    method UpdateHash()
      requires Shape()
      modifies `hash
      ensures HashOk()
    {
      hash := if side == White then {} else keys.moveSide;
      if enpassantCoord != INVALID_COORD {
        hash := Xor(hash, keys.enpassant(enpassantCoord));
      }
      hash := Xor(hash, keys.castling(castling));
      for i := 0 to 64
        invariant hash == Xor(HashFlags(keys, side, castling, enpassantCoord), HashCells(keys, cells[..], i))
      {
        var cell := cells[i];
        if cell == Empty {
          continue;
        }
        hash := Xor(hash, keys.piece(cell, i));
      }
    }

    /** Recomputes the auxiliary fields and drops the flags that do not agree with the cells. */
    method Update()
      requires Shape() && MarkInside(Pos())
      modifies this
      ensures Bits().Match(cells[..]) && bbAll == bbWhite + bbBlack && HashOk()
      ensures Pos() == Corrected(old(Pos()))
      ensures Consistent() <==> EnpassantRowOk(Pos())
      ensures old(EnpassantRowOk(Pos())) ==> Consistent() && Pos() == Normalized(old(Pos()))
    {
      UpdateEnpassant();
      UpdateCastlingFlags();
      UpdateBitboards();
      UpdateHash();
    }
  }
}

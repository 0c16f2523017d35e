/** What every move keeps, and what every run of moves keeps. */
module Invariants {
  import opened Types
  import opened Geometry
  import opened Rules

  /** A step changes its source, its destination and the cell of a pawn taken en passant. */
  lemma StepTouches(p: Position, m: Move, c: Coord)
    requires Sound(p) && PseudoLegal(p, m) && !m.kind.IsCastling()
    ensures c != m.src && c != m.dst && !(m.kind.Enpassant? && c == p.enpassant) ==> CellsAfter(p, m)[c] == p.cells[c]
    ensures CellsAfter(p, m)[m.src] == Empty
    ensures CellsAfter(p, m)[m.dst] == if m.kind.IsPromote() then Man(p.side, m.kind.PromotePiece()) else p.cells[m.src]
    ensures m.kind.Enpassant? ==>
      p.cells[p.enpassant] == Man(p.side.Invert(), Pawn) && CellsAfter(p, m)[p.enpassant] == Empty
  {
    StepCells(p, m);
    hide Sound;
    hide PseudoLegal;
  }

  /** Castling moves a king and a rook, and changes nothing on other rows. */
  lemma CastlingTouches(p: Position, m: Move, c: Coord)
    requires Sound(p) && PseudoLegal(p, m) && m.kind.IsCastling()
    ensures CoordX(c) != CoordX(m.src) ==> CellsAfter(p, m)[c] == p.cells[c]
    ensures var v := CellsAfter(p, m)[c];
      v == p.cells[c] || v == Empty || v == Man(p.side, King) || v == Man(p.side, Rook)
  {
    CastlingCells(p, m);
    hide Sound;
    hide PseudoLegal;
  }

  lemma OtherHomes(c: Color, f: CastlingFlag)
    requires KingHome(f) != CastlingOffset(c) + 4
    ensures CoordX(KingHome(f)) == CoordX(RookHome(f)) != CoordX(CastlingOffset(c) + 4)
  {}

  /** A home cell that a move neither leaves nor enters is not touched by the move at all. */
  lemma HomesUntouched(p: Position, m: Move, f: CastlingFlag)
    requires Sound(p) && Playable(p, m) && f in CastlingAfter(p, m)
    ensures CellsAfter(p, m)[KingHome(f)] == p.cells[KingHome(f)]
    ensures CellsAfter(p, m)[RookHome(f)] == p.cells[RookHome(f)]
  {
    assert CastlingSettled(p);
    hide Sound;
    hide PseudoLegal;
    hide KingHome;
    hide RookHome;
    if m.kind.IsCastling() {
      CastlingCells(p, m);
      OtherHomes(p.side, f);
      CastlingTouches(p, m, KingHome(f));
      CastlingTouches(p, m, RookHome(f));
    } else if !m.kind.Null? {
      hide CellsAfter;
      StepTouches(p, m, KingHome(f));
      StepTouches(p, m, RookHome(f));
    }
  }

  lemma PlayKeepsCastlingSettled(p: Position, m: Move)
    requires Sound(p) && Playable(p, m)
    ensures CastlingSettled(Play(p, m))
  {
    forall f | f in CastlingAfter(p, m)
      ensures CellsAfter(p, m)[KingHome(f)] == Man(FlagColor(f), King)
      ensures CellsAfter(p, m)[RookHome(f)] == Man(FlagColor(f), Rook)
    {
      HomesUntouched(p, m, f);
      assert f in p.castling;
    }
  }

  lemma PlayKeepsPawnsInside(p: Position, m: Move)
    requires Sound(p) && Playable(p, m)
    ensures PawnsInside(CellsAfter(p, m))
  {
    assert PawnsInside(p.cells);
    hide Sound;
    hide PseudoLegal;
    var s := CellsAfter(p, m);
    if !m.kind.IsCastling() && !m.kind.IsPromote() && !m.kind.Null? {
      PawnLandsInside(p, m);
    }
    forall c: Coord | s[c].Man? && s[c].piece.Pawn?
      ensures 1 <= CoordX(c) <= 6
    {
      hide CellsAfter;
      if m.kind.IsCastling() {
        CastlingTouches(p, m, c);
      } else if !m.kind.Null? {
        StepTouches(p, m, c);
      }
    }
  }

  /** A pawn that stays a pawn does not reach an end row. */
  lemma PawnLandsInside(p: Position, m: Move)
    requires Sound(p) && PseudoLegal(p, m) && !m.kind.IsCastling() && !m.kind.IsPromote()
    ensures p.cells[m.src] == Man(p.side, Pawn) ==> 1 <= CoordX(m.src) <= 6 && 1 <= CoordX(m.dst) <= 6
  {
    hide Occupied;
    hide ManAttacks;
    hide CastlingPseudoLegal;
    hide CastlingSettled;
  }

  /** After a playable move the flags still agree with the cells and no pawn is on an end row. */
  lemma PlayKeepsSound(p: Position, m: Move)
    requires Sound(p) && Playable(p, m)
    ensures Sound(Play(p, m))
  {
    hide KingExposed;
    PlayKeepsCastlingSettled(p, m);
    PlayKeepsPawnsInside(p, m);
  }

  lemma SubsetCardinality<T>(a: set<T>, b: set<T>)
    requires a <= b
    ensures |a| <= |b|
  {
    assert b == a + (b - a);
  }

  /** One item of a set is exchanged for another. */
  lemma Moved(a: Bitboard, b: Bitboard, src: Coord, dst: Coord)
    requires src in a && src != dst && b <= a - {src} + {dst}
    ensures |b| <= |a| && (dst in a || dst !in b ==> |b| < |a|)
  {
    if dst in a || dst !in b {
      SubsetCardinality(b, a - {src});
    } else {
      SubsetCardinality(b, a - {src} + {dst});
    }
  }

  /** Castling moves two men of the side that castles onto two empty cells. */
  lemma CastlingCells(p: Position, m: Move)
    requires Sound(p) && PseudoLegal(p, m) && m.kind.IsCastling()
    ensures m.src == CastlingOffset(p.side) + 4
    ensures m.dst == CastlingOffset(p.side) + if m.kind.CastlingKingside? then 6 else 2
    ensures !IsAttacked(p.cells, p.side.Invert(), CastlingOffset(p.side) + 4)
    ensures var s, c, off := p.cells, p.side, CastlingOffset(p.side);
      && s[off + 4] == Man(c, King)
      && if m.kind.CastlingKingside?
         then s[off + 7] == Man(c, Rook) && s[off + 5] == s[off + 6] == Empty
         else s[off] == Man(c, Rook) && s[off + 1] == s[off + 2] == s[off + 3] == Empty
  {
    var s, c, off := p.cells, p.side, CastlingOffset(p.side);
    if m.kind.CastlingKingside? {
      assert s[RookHome(Kingside(c))] == Man(c, Rook) && s[KingHome(Kingside(c))] == Man(c, King);
      assert off + 5 !in Occupied(s) && off + 6 !in Occupied(s);
    } else {
      assert s[RookHome(Queenside(c))] == Man(c, Rook) && s[KingHome(Queenside(c))] == Man(c, King);
      assert off + 1 !in Occupied(s) && off + 2 !in Occupied(s) && off + 3 !in Occupied(s);
    }
  }

  /** Taking men of one colour from `from` and putting as many on the empty cells `to`. */
  lemma Relocate(s: Cells, t: Cells, c: Color, from: Bitboard, to: Bitboard)
    requires from <= OfColor(s, c) && to !! OfColor(s, c) && |from| == |to|
    requires to <= OfColor(t, c) && from !! OfColor(t, c)
    requires forall i: Coord :: i !in from && i !in to ==> IsOwn(t, c, i) == IsOwn(s, c, i)
    ensures |OfColor(t, c)| == |OfColor(s, c)|
  {
    assert OfColor(t, c) == OfColor(s, c) - from + to;
  }

  lemma KingsideOwnColor(s: Cells, c: Color, off: Coord)
    requires off == CastlingOffset(c)
    requires s[off + 4] == Man(c, King) && s[off + 7] == Man(c, Rook) && s[off + 5] == s[off + 6] == Empty
    ensures |OfColor(AfterKingside(s, c), c)|
         == |OfColor(s, c)|
  {
    var t := AfterKingside(s, c);
    Relocate(s, t, c, {off + 4, off + 7}, {off + 5, off + 6});
  }

  lemma QueensideOwnColor(s: Cells, c: Color, off: Coord)
    requires off == CastlingOffset(c)
    requires s[off + 4] == Man(c, King) && s[off] == Man(c, Rook) && s[off + 2] == s[off + 3] == Empty
    ensures |OfColor(AfterQueenside(s, c), c)|
         == |OfColor(s, c)|
  {
    var t := AfterQueenside(s, c);
    Relocate(s, t, c, {off, off + 4}, {off + 2, off + 3});
  }

  lemma OwnColorAfter(p: Position, m: Move)
    requires Sound(p) && PseudoLegal(p, m)
    ensures |OfColor(CellsAfter(p, m), p.side)| == |OfColor(p.cells, p.side)|
  {
    var s, c, off := p.cells, p.side, CastlingOffset(p.side);
    if m.kind.IsCastling() {
      CastlingCells(p, m);
      if m.kind.CastlingKingside? {
        KingsideOwnColor(s, c, off);
      } else {
        QueensideOwnColor(s, c, off);
      }
    } else {
      Relocate(s, CellsAfter(p, m), c, {m.src}, {m.dst});
    }
  }

  lemma EnemyColorAfter(p: Position, m: Move)
    requires Sound(p) && PseudoLegal(p, m)
    ensures |OfColor(CellsAfter(p, m), p.side.Invert())| <= |OfColor(p.cells, p.side.Invert())|
  {
    SubsetCardinality(OfColor(CellsAfter(p, m), p.side.Invert()), OfColor(p.cells, p.side.Invert()));
  }

  /** Whatever is on the destination cell of a move other than castling was attacked. */
  lemma CaptureIsAttack(p: Position, m: Move)
    requires Sound(p) && PseudoLegal(p, m) && p.cells[m.dst] != Empty
    ensures IsOwn(p.cells, p.side.Invert(), m.dst)
    ensures m.src in Attackers(p.cells, p.side, m.dst)
  {
    if m.kind.IsCastling() {
      CastlingCells(p, m);
    }
  }

  /** A move never takes a king that was not attacked. */
  lemma EnemyKingAfter(p: Position, m: Move, k: Coord)
    requires Sound(p) && PseudoLegal(p, m) && !KingExposed(p)
    requires IsKingAt(p.cells, p.side.Invert(), k)
    ensures IsKingAt(CellsAfter(p, m), p.side.Invert(), k)
  {
    hide Sound;
    hide PseudoLegal;
    if p.cells[m.dst] != Empty {
      CaptureIsAttack(p, m);
    }
    if m.kind.IsCastling() {
      CastlingCells(p, m);
    } else {
      StepCells(p, m);
    }
    hide KingExposed;
  }

  /** Where the king of the moving side stands after the move. */
  function KingAfter(p: Position, m: Move, k: Coord): Coord
  {
    if !m.kind.Null? && m.src == k then m.dst else k
  }

  lemma OwnKingAfter(p: Position, m: Move, k: Coord)
    requires Sound(p) && Playable(p, m) && IsKingAt(p.cells, p.side, k)
    ensures IsKingAt(CellsAfter(p, m), p.side, KingAfter(p, m, k))
  {
    hide Sound;
    hide PseudoLegal;
    if m.kind.IsCastling() {
      CastlingCells(p, m);
    } else if !m.kind.Null? {
      StepCells(p, m);
    }
  }

  /** Each legal move, and each null move out of no check, leads from a board that the validity
      check accepts to another one. */
  lemma PlayKeepsValid(p: Position, m: Move)
    requires Valid(p) && Playable(p, m) && !KingExposed(Play(p, m))
    ensures Valid(Play(p, m))
  {
    var q := Play(p, m);
    PlayKeepsSound(p, m);
    forall c: Color
      ensures OneKing(q.cells, c) && |OfColor(q.cells, c)| <= 16
    {
      assert OneKing(p.cells, c);
      var k: Coord :| IsKingAt(p.cells, c, k);
      if m.kind.Null? {
      } else if c == p.side {
        OwnKingAfter(p, m, k);
        OwnColorAfter(p, m);
      } else {
        EnemyKingAfter(p, m, k);
        EnemyColorAfter(p, m);
      }
    }
  }

  /** A castling move takes away both rights of its side, a pawn move along the board none. */
  lemma FlagsAfter(p: Position, m: Move)
    requires Sound(p) && PseudoLegal(p, m)
    ensures m.kind.IsCastling() ==> CastlingAfter(p, m) == p.castling - {Kingside(p.side), Queenside(p.side)}
    ensures m.kind.PawnDoubleMove? || m.kind.Enpassant? ==> CastlingAfter(p, m) == p.castling
  {
    hide Sound;
    hide PseudoLegal;
    if m.kind.IsCastling() {
          CastlingCells(p, m);
      assert forall f :: KingHome(f) == m.src <==> f in {Kingside(p.side), Queenside(p.side)};
    } else if m.kind.PawnDoubleMove? || m.kind.Enpassant? {
      StepCells(p, m);
      PawnLandsInside(p, m);
          assert forall f :: CoordX(KingHome(f)) !in {1, 2, 3, 4, 5, 6} && CoordX(RookHome(f)) !in {1, 2, 3, 4, 5, 6};
    }
  }

  /** What a pseudo-legal move other than castling finds on the cells it touches. */
  lemma StepCells(p: Position, m: Move)
    requires Sound(p) && PseudoLegal(p, m) && !m.kind.IsCastling()
    ensures !m.kind.Null? && !m.kind.Invalid?
    ensures m.src != m.dst && IsOwn(p.cells, p.side, m.src) && !IsOwn(p.cells, p.side, m.dst)
    ensures m.kind.PawnDoubleMove? || m.kind.Enpassant? || m.kind.IsPromote() ==> p.cells[m.src] == Man(p.side, Pawn)
    ensures m.kind.PawnDoubleMove? || m.kind.Enpassant? ==> p.cells[m.dst] == Empty
    ensures m.kind.Enpassant? ==>
      var taken := EnpassantPawnPos(p.side, m.dst);
      && taken == p.enpassant && taken != -1 && taken != m.src && taken != m.dst
      && p.cells[taken] == Man(p.side.Invert(), Pawn)
  {}

  /** The man that a promotion is named after. */
  predicate IsNamedMan(v: Cell, c: Color, kind: MoveKind) {
    && (kind == PromoteKnight ==> v == Man(c, Knight))
    && (kind == PromoteBishop ==> v == Man(c, Bishop))
    && (kind == PromoteRook ==> v == Man(c, Rook))
    && (kind == PromoteQueen ==> v == Man(c, Queen))
  }

  /** A promotion leaves the man that it is named after, and an empty cell behind. */
  lemma PromotionGives(p: Position, m: Move)
    requires Sound(p) && Playable(p, m)
    ensures IsNamedMan(CellsAfter(p, m)[m.dst], p.side, m.kind)
    ensures m.kind.IsPromote() ==> CellsAfter(p, m)[m.src] == Empty
  {
    if m.kind.IsPromote() {
      StepTouches(p, m, m.dst);
    }
    hide Sound;
    hide PseudoLegal;
  }
}

/** Whether a pseudo-legal move leaves the king under attack can be told without making it: it is
    enough to look from the king with a corrected occupancy and with the captured man left out. */
module Legality {
  import opened Types
  import opened Geometry
  import opened Rules
  import opened Invariants

  /** The men of `color` inside `mask` that attack `d` when exactly `occupied` is taken. */
  function MaskedAttackers(cells: Cells, color: Color, d: Coord, occupied: Bitboard, mask: Bitboard): Bitboard {
    set c: Coord | c in mask && IsOwn(cells, color, c) && ManAttacks(cells[c], occupied, c, d)
  }

  /** The pawn taken by a move, besides what stands on its destination. */
  function Taken(c: Color, m: Move): Bitboard
  {
    if m.kind.Enpassant? then AdvancePawnForward(c.Invert(), {m.dst}) else {}
  }

  function OccupiedShortcut(p: Position, m: Move): Bitboard
  {
    Xor(Xor(Occupied(p.cells), {m.src}) + {m.dst}, Taken(p.side, m))
  }

  function MaskShortcut(p: Position, m: Move): Bitboard
  {
    Xor(FULL - {m.dst}, Taken(p.side, m))
  }

  lemma TakenIsEnpassantPawn(p: Position, m: Move)
    requires Sound(p) && PseudoLegal(p, m) && m.kind.Enpassant?
    ensures Taken(p.side, m) == {p.enpassant} && p.enpassant != m.dst
  {
    var d: Coord := m.dst;
    assert d in {d} && d + PawnForwardDelta(p.side.Invert()) == p.enpassant;
  }

  lemma OccupiedAfter(p: Position, m: Move)
    requires Sound(p) && PseudoLegal(p, m) && !m.kind.IsCastling()
    ensures Occupied(CellsAfter(p, m)) == OccupiedShortcut(p, m)
  {
    if m.kind.Enpassant? {
      TakenIsEnpassantPawn(p, m);
    }
  }

  lemma ShortcutWithoutKing(p: Position, m: Move, k: Coord)
    requires Sound(p) && PseudoLegal(p, m) && !m.kind.IsCastling()
    ensures MaskedAttackers(p.cells, p.side.Invert(), k, OccupiedShortcut(p, m), MaskShortcut(p, m))
         == Attackers(CellsAfter(p, m), p.side.Invert(), k)
  {
    OccupiedAfter(p, m);
    if m.kind.Enpassant? {
      TakenIsEnpassantPawn(p, m);
    }
    var s, t, e := p.cells, CellsAfter(p, m), p.side.Invert();
    assert forall c: Coord :: IsOwn(t, e, c) <==> c in MaskShortcut(p, m) && IsOwn(s, e, c);
    assert forall c: Coord :: IsOwn(t, e, c) ==> t[c] == s[c];
  }

  /** Whether a cell itself is taken does not matter for what attacks it. */
  lemma TargetDoesNotBlock(man: Cell, a: Bitboard, b: Bitboard, c: Coord, d: Coord)
    requires a + {d} == b + {d}
    ensures ManAttacks(man, a, c, d) == ManAttacks(man, b, c, d)
  {
    forall e: Coord | StrictlyBetween(c, e, d)
      ensures e in a <==> e in b
    {
      assert e != d;
      assert e in a + {d} <==> e in b + {d};
    }
    assert Open(a, c, d) == Open(b, c, d);
  }

  lemma ShortcutKingStep(p: Position, m: Move)
    requires Sound(p) && PseudoLegal(p, m) && m.kind.Simple? && p.cells[m.src] == Man(p.side, King)
    ensures MaskedAttackers(p.cells, p.side.Invert(), m.dst, Xor(Occupied(p.cells), {m.src}), FULL)
         == Attackers(CellsAfter(p, m), p.side.Invert(), m.dst)
  {
    var s, t, e := p.cells, CellsAfter(p, m), p.side.Invert();
    var a, b := Xor(Occupied(s), {m.src}), Occupied(t);
    assert a + {m.dst} == b + {m.dst};
    forall c: Coord
      ensures IsOwn(s, e, c) && ManAttacks(s[c], a, c, m.dst) <==> IsOwn(t, e, c) && ManAttacks(t[c], b, c, m.dst)
    {
      TargetDoesNotBlock(s[c], a, b, c, m.dst);
    }
  }

  /** What castling changes in the occupancy. */
  lemma OccupiedAfterCastling(p: Position, m: Move)
    requires Sound(p) && PseudoLegal(p, m) && m.kind.IsCastling()
    ensures var off := CastlingOffset(p.side);
      Occupied(CellsAfter(p, m)) ==
        if m.kind.CastlingKingside?
        then Occupied(p.cells) - {off + 4, off + 7} + {off + 5, off + 6}
        else Occupied(p.cells) - {off, off + 4} + {off + 2, off + 3}
  {
    CastlingCells(p, m);
    hide PseudoLegal;
    hide Sound;
  }

  predicate OnCastlingRow(off: Coord, kingside: bool, c: Coord) {
    (off == 0 || off == 56) && if kingside then off <= c < off + 4 else off + 4 < c < off + 8
  }

  /** On the castling row, the rook's new cell hides the king's new cell from `c`. */
  lemma RookHidesKing(off: Coord, kingside: bool, c: Coord)
    requires OnCastlingRow(off, kingside, c)
    ensures RookLine(c, off + 4)
    ensures StrictlyBetween(c, if kingside then off + 5 else off + 3, if kingside then off + 6 else off + 2)
  {}

  /** What hides the king's old cell from `c` hides the new one as well. */
  lemma HiddenFromOldCell(off: Coord, kingside: bool, c: Coord, e: Coord)
    requires OnCastlingRow(off, kingside, c) && StrictlyBetween(c, e, off + 4)
    ensures e != off + 4 && StrictlyBetween(c, e, if kingside then off + 6 else off + 2)
  {}

  lemma CastlingRowIsShutAfter(p: Position, m: Move, c: Coord)
    requires Sound(p) && PseudoLegal(p, m) && m.kind.IsCastling()
    requires IsOwn(p.cells, p.side.Invert(), c) && CoordX(c) == CoordX(m.dst)
    ensures !Open(Occupied(CellsAfter(p, m)), c, m.dst)
  {
    CastlingCells(p, m);
    OccupiedAfterCastling(p, m);
    hide PseudoLegal;
    hide Sound;
    var off := CastlingOffset(p.side);
    RookHidesKing(off, m.kind.CastlingKingside?, c);
    var rook: Coord := if m.kind.CastlingKingside? then off + 5 else off + 3;
    assert rook in Occupied(CellsAfter(p, m));
  }

  /** Looked through, the castling row would show the new cell of the king only to a man that
      attacked the old cell. */
  lemma CastlingRowIsShutBefore(p: Position, m: Move, c: Coord)
    requires Sound(p) && PseudoLegal(p, m) && m.kind.IsCastling()
    requires IsOwn(p.cells, p.side.Invert(), c) && CoordX(c) == CoordX(m.dst)
    requires p.cells[c].piece.Rook? || p.cells[c].piece.Queen?
    ensures !Open(Xor(Occupied(p.cells), {m.src}), c, m.dst)
  {
    hide PseudoLegal;
    hide Sound;
    CastlingCells(p, m);
    var s, off := p.cells, CastlingOffset(p.side);
    RookHidesKing(off, m.kind.CastlingKingside?, c);
    assert c !in Attackers(s, p.side.Invert(), off + 4);
    assert !RookSees(Occupied(s), c, off + 4);
    var e :| e in Occupied(s) && StrictlyBetween(c, e, off + 4);
    HiddenFromOldCell(off, m.kind.CastlingKingside?, c, e);
    assert e in Xor(Occupied(s), {m.src});
  }

  lemma CastlingElsewhere(p: Position, m: Move, c: Coord)
    requires Sound(p) && PseudoLegal(p, m) && m.kind.IsCastling() && CoordX(c) != CoordX(m.dst)
    ensures Open(Xor(Occupied(p.cells), {m.src}), c, m.dst) == Open(Occupied(CellsAfter(p, m)), c, m.dst)
  {
    CastlingCells(p, m);
    OccupiedAfterCastling(p, m);
    hide PseudoLegal;
    hide Sound;
    hide CellsAfter;
    forall e: Coord | StrictlyBetween(c, e, m.dst)
      ensures e in Xor(Occupied(p.cells), {m.src}) <==> e in Occupied(CellsAfter(p, m))
    {
      assert CoordX(e) != CoordX(m.dst);
    }
  }

  lemma ShortcutCastlingAttack(p: Position, m: Move, c: Coord)
    requires Sound(p) && PseudoLegal(p, m) && m.kind.IsCastling()
    requires IsOwn(p.cells, p.side.Invert(), c)
    ensures ManAttacks(p.cells[c], Xor(Occupied(p.cells), {m.src}), c, m.dst)
         == ManAttacks(p.cells[c], Occupied(CellsAfter(p, m)), c, m.dst)
  {
    hide PseudoLegal;
    hide Sound;
    hide CellsAfter;
    if CoordX(c) != CoordX(m.dst) {
      CastlingElsewhere(p, m, c);
    } else if p.cells[c].piece.Rook? || p.cells[c].piece.Queen? {
      CastlingRowIsShutBefore(p, m, c);
      CastlingRowIsShutAfter(p, m, c);
    }
  }

  lemma ShortcutCastling(p: Position, m: Move)
    requires Sound(p) && PseudoLegal(p, m) && m.kind.IsCastling()
    ensures MaskedAttackers(p.cells, p.side.Invert(), m.dst, Xor(Occupied(p.cells), {m.src}), FULL)
         == Attackers(CellsAfter(p, m), p.side.Invert(), m.dst)
  {
    CastlingCells(p, m);
    hide PseudoLegal;
    hide Sound;
    hide ManAttacks;
    var s, t, e := p.cells, CellsAfter(p, m), p.side.Invert();
    forall c: Coord
      ensures IsOwn(t, e, c) == IsOwn(s, e, c) && (IsOwn(s, e, c) ==> t[c] == s[c])
      ensures IsOwn(s, e, c) ==>
        ManAttacks(s[c], Xor(Occupied(s), {m.src}), c, m.dst) == ManAttacks(t[c], Occupied(t), c, m.dst)
    {
      if IsOwn(s, e, c) {
        ShortcutCastlingAttack(p, m, c);
      }
    }
  }

  /** The answer of the shortcut: the move does not leave the king `k` of its side under attack. */
  predicate LegalShortcut(p: Position, m: Move, k: Coord)
  {
    if m.kind.Null? then !IsAttacked(p.cells, p.side.Invert(), k)
    else if p.cells[m.src] == Man(p.side, King) then
      MaskedAttackers(p.cells, p.side.Invert(), m.dst, Xor(Occupied(p.cells), {m.src}), FULL) == {}
    else
      MaskedAttackers(p.cells, p.side.Invert(), k, OccupiedShortcut(p, m), MaskShortcut(p, m)) == {}
  }

  /** The king that the shortcut looks at, when its side has one on `k`: the king that moves, or `k`. */
  function KingLookedAt(p: Position, m: Move, k: Coord): Coord {
    if !m.kind.Null? && p.cells[m.src] == Man(p.side, King) then m.dst else k
  }

  /** On a board with any number of kings the shortcut says whether the king that it looks at is under
      attack once the move has been made. */
  lemma ShortcutLooksAt(p: Position, m: Move, k: Coord)
    requires Sound(p) && Playable(p, m)
    ensures LegalShortcut(p, m, k) <==> !IsAttacked(Play(p, m).cells, p.side.Invert(), KingLookedAt(p, m, k))
  {
    hide Sound;
    if m.kind.Null? {
      assert Play(p, m).cells == p.cells;
    } else if m.kind.IsCastling() {
      CastlingCells(p, m);
      ShortcutCastling(p, m);
    } else if p.cells[m.src] == Man(p.side, King) {
      ShortcutKingStep(p, m);
    } else {
      ShortcutWithoutKing(p, m, k);
    }
  }

  /** The move keeps the king safe that is looked at: of several kings the one that moves, or the first. */
  predicate KeepsKing(p: Position, m: Move) {
    exists k: Coord ::
      IsFirstKing(p.cells, p.side, k) && !IsAttacked(Play(p, m).cells, p.side.Invert(), KingLookedAt(p, m, k))
  }

  /** With one king this is the rule that the king may not be left under attack. */
  lemma KeepsTheKing(p: Position, m: Move)
    requires Sound(p) && Playable(p, m) && OneKing(p.cells, p.side)
    ensures KeepsKing(p, m) <==> !KingExposed(Play(p, m))
  {
    var k: Coord :| IsKingAt(p.cells, p.side, k);
    assert IsFirstKing(p.cells, p.side, k);
    ShortcutIsExact(p, m, k);
    ShortcutLooksAt(p, m, k);
    hide LegalShortcut;
    hide KingExposed;
    hide IsAttacked;
    hide Play;
    hide Playable;
    hide Sound;
  }

  lemma ExposedAt(p: Position, k: Coord)
    requires IsKingAt(p.cells, p.side.Invert(), k)
    ensures KingExposed(p) <==> IsAttacked(p.cells, p.side, k)
  {}

  /** For every playable move, en passant, castling and promotion included, the shortcut says
      exactly whether the king is left under attack once the move has been made. */
  lemma ShortcutIsExact(p: Position, m: Move, k: Coord)
    requires Sound(p) && Playable(p, m) && IsKingAt(p.cells, p.side, k)
    ensures LegalShortcut(p, m, k) <==> !KingExposed(Play(p, m))
  {
    OwnKingAfter(p, m, k);
    ExposedAt(Play(p, m), KingAfter(p, m, k));
    if m.kind.Null? {
    } else if m.kind.IsCastling() {
      CastlingCells(p, m);
      ShortcutCastling(p, m);
    } else if p.cells[m.src] == Man(p.side, King) {
      ShortcutKingStep(p, m);
    } else {
      ShortcutWithoutKing(p, m, k);
    }
  }
}

/** How a check can be answered by a move that is not a king move. */
module Evasions {
  import opened Types
  import opened Geometry
  import opened Rules
  import opened Invariants
  import opened Legality

  /** A man attacks past nothing: no taken cell lies strictly between it and its target. */
  lemma AttackIsOpen(man: Cell, occupied: Bitboard, a: Coord, k: Coord)
    requires ManAttacks(man, occupied, a, k)
    ensures Open(occupied, a, k)
  {
    if man.piece.Pawn? || man.piece.King? || man.piece.Knight? {
      assert forall e: Coord :: !StrictlyBetween(a, e, k);
    }
  }

  /** An attack that vanishes while the attacker stays was shut by a newly taken cell in between. */
  lemma ShutAttack(man: Cell, occupied: Bitboard, after: Bitboard, a: Coord, k: Coord, dst: Coord)
    requires ManAttacks(man, occupied, a, k) && !ManAttacks(man, after, a, k)
    requires forall e :: e in after ==> e in occupied || e == dst
    ensures StrictlyBetween(a, dst, k)
  {
    hide BishopLine;
    hide RookLine;
    hide StrictlyBetween;
    hide PawnStep;
    hide KingStep;
    hide KnightStep;
    assert Open(occupied, a, k) && !Open(after, a, k);
  }

  /** A legal move of another man than the king takes each checker or shuts its line. En passant may
      also take the checking pawn. */
  lemma MustResolve(p: Position, m: Move, k: Coord, a: Coord)
    requires Sound(p) && PseudoLegal(p, m) && !m.kind.IsCastling() && IsKingAt(p.cells, p.side, k) && m.src != k
    requires a in Attackers(p.cells, p.side.Invert(), k) && !KingExposed(Play(p, m))
    ensures m.dst == a || StrictlyBetween(a, m.dst, k) || (m.kind.Enpassant? && p.enpassant == a)
  {
    ShortcutWithoutKing(p, m, k);
    OwnKingAfter(p, m, k);
    ExposedAt(Play(p, m), k);
    assert a !in MaskedAttackers(p.cells, p.side.Invert(), k, OccupiedShortcut(p, m), MaskShortcut(p, m));
    if m.kind.Enpassant? {
      TakenIsEnpassantPawn(p, m);
    }
    hide PseudoLegal;
    hide Sound;
    hide KingExposed;
    hide CellsAfter;
    if m.dst != a && !(m.kind.Enpassant? && p.enpassant == a) {
      ShutAttack(p.cells[a], Occupied(p.cells), OccupiedShortcut(p, m), a, k, m.dst);
    }
  }

  /** Two cells from which the same cell lies on the way to `k` are on one ray of `k`. */
  lemma OneRay(a: Coord, b: Coord, e: Coord, k: Coord)
    requires a != b
    ensures StrictlyBetween(a, e, k) && StrictlyBetween(b, e, k) ==>
      StrictlyBetween(a, b, k) || StrictlyBetween(b, a, k)
  {}

  /** The cell behind a checking pawn is on no line with the king. */
  lemma BehindCheckingPawn(c: Color, a: Coord, b: Coord, dst: Coord, k: Coord)
    requires PawnStep(c.Invert(), a, k) && dst == a + PawnForwardDelta(c)
    ensures !StrictlyBetween(b, dst, k)
  {}

  /** No cell answers attacks from both `a` and `b`; `taken` is the pawn taken en passant, or -1. */
  lemma NotBoth(occupied: Bitboard, c: Color, a: Coord, b: Coord, dst: Coord, k: Coord, taken: EnpassantCoord)
    requires a in occupied && b in occupied && a != b && Open(occupied, a, k) && Open(occupied, b, k)
    requires dst == a || StrictlyBetween(a, dst, k) || taken == a
    requires taken != -1 ==> dst !in occupied && dst == taken + PawnForwardDelta(c)
    requires taken == a ==> PawnStep(c.Invert(), a, k)
    requires taken == b ==> PawnStep(c.Invert(), b, k)
    ensures !(dst == b || StrictlyBetween(b, dst, k) || taken == b)
  {
    hide StrictlyBetween;
    hide PawnStep;
    hide PawnForwardDelta;
    if taken == a {
      BehindCheckingPawn(c, a, b, dst, k);
    } else if taken == b {
      BehindCheckingPawn(c, b, a, dst, k);
    } else {
      OneRay(a, b, dst, k);
    }
  }

  /** Out of a double check only the king moves: nothing else answers both attackers, not even
      en passant. */
  lemma DoubleCheckNeedsKing(p: Position, m: Move, k: Coord, a: Coord, b: Coord)
    requires Sound(p) && PseudoLegal(p, m) && IsKingAt(p.cells, p.side, k)
    requires a in Attackers(p.cells, p.side.Invert(), k) && b in Attackers(p.cells, p.side.Invert(), k) && a != b
    requires !KingExposed(Play(p, m))
    ensures m.kind.Simple? && m.src == k
  {
    if m.kind.IsCastling() {
      CastlingCells(p, m);
      assert false;
    } else if m.src != k {
      MustResolve(p, m, k, a);
      MustResolve(p, m, k, b);
      AttackIsOpen(p.cells[a], Occupied(p.cells), a, k);
      AttackIsOpen(p.cells[b], Occupied(p.cells), b, k);
      if m.kind.Enpassant? {
        StepCells(p, m);
      }
      NotBoth(Occupied(p.cells), p.side, a, b, m.dst, k, if m.kind.Enpassant? then p.enpassant else -1);
    }
  }
}

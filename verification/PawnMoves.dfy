/** Pawn moves as shifted bitboards. */
module PawnMoves {
  import opened Types
  import opened Geometry
  import opened Rules
  import opened MoveLists

  function Pawns(p: Position, promote: bool): Bitboard {
    var pawns := OfCell(p.cells, Man(p.side, Pawn));
    if promote then pawns * Row(PromoteSrcRow(p.side)) else pawns - Row(PromoteSrcRow(p.side))
  }

  function StepKinds(promote: bool): seq<MoveKind> {
    if promote then PromoteKinds() else [Simple]
  }

  lemma StepKindsAre(promote: bool, kind: MoveKind)
    ensures kind in StepKinds(promote) <==> if promote then kind.IsPromote() else kind == Simple
  {
    assert PromoteKnight == PromoteKinds()[0] && PromoteBishop == PromoteKinds()[1];
    assert PromoteRook == PromoteKinds()[2] && PromoteQueen == PromoteKinds()[3];
  }

  function PushPart(promote: bool): Part { if promote then PushPromote else PawnPush }

  function TakePart(promote: bool): Part { if promote then TakePromote else PawnTake }

  function PushDsts(p: Position, promote: bool, mask: Bitboard): Bitboard {
    (AdvancePawnForward(p.side, Pawns(p, promote)) - Occupied(p.cells)) * mask
  }

  lemma PushIsShift(p: Position, promote: bool, captures: bool, mask: Bitboard, m: Move)
    requires Sound(p)
    ensures Wanted(p, Request({PushPart(promote)}, true, captures, mask), m)
      <==> PawnShape(m, PushDsts(p, promote, mask), PawnForwardDelta(p.side), StepKinds(promote))
  {
    StepKindsAre(promote, m.kind);
    ShiftAt(Pawns(p, promote), PawnForwardDelta(p.side), m.dst);
    hide Shift;
    hide StepKinds;
    hide Settled;
    hide ManAttacks;
  }

  function DoubleDsts(p: Position, mask: Bitboard): Bitboard {
    var c, pawns := p.side, OfCell(p.cells, Man(p.side, Pawn)) * Row(DoubleMoveSrcRow(p.side));
    var tmps := AdvancePawnForward(c, pawns) - Occupied(p.cells);
    (AdvancePawnForward(c, tmps) - Occupied(p.cells)) * mask
  }

  lemma DoubleIsShift(p: Position, captures: bool, mask: Bitboard, m: Move)
    requires Sound(p)
    ensures Wanted(p, Request({DoublePush}, true, captures, mask), m)
      <==> PawnShape(m, DoubleDsts(p, mask), 2 * PawnForwardDelta(p.side), [PawnDoubleMove])
  {
    var c, pawns := p.side, OfCell(p.cells, Man(p.side, Pawn)) * Row(DoubleMoveSrcRow(p.side));
    var tmps := AdvancePawnForward(c, pawns) - Occupied(p.cells);
    ShiftAt(tmps, PawnForwardDelta(c), m.dst);
    if 0 <= m.dst - PawnForwardDelta(c) < 64 {
      ShiftAt(pawns, PawnForwardDelta(c), m.dst - PawnForwardDelta(c));
    }
    hide Shift;
    hide Settled;
    hide ManAttacks;
  }

  function TakeDsts(p: Position, promote: bool, left: bool, mask: Bitboard): Bitboard {
    var pawns := Pawns(p, promote);
    var dsts := if left then AdvancePawnLeft(p.side, pawns) else AdvancePawnRight(p.side, pawns);
    dsts * OfColor(p.cells, p.side.Invert()) * mask
  }

  function TakeDelta(c: Color, left: bool): int {
    if left then PawnLeftDelta(c) else PawnRightDelta(c)
  }

  lemma TakeIsShift(p: Position, promote: bool, simple: bool, mask: Bitboard, m: Move)
    requires Sound(p)
    ensures Wanted(p, Request({TakePart(promote)}, simple, true, mask), m)
      <==>
        || PawnShape(m, TakeDsts(p, promote, true, mask), TakeDelta(p.side, true), StepKinds(promote))
        || PawnShape(m, TakeDsts(p, promote, false, mask), TakeDelta(p.side, false), StepKinds(promote))
  {
    StepKindsAre(promote, m.kind);
    ShiftAt(Pawns(p, promote) - Column(0), PawnLeftDelta(p.side), m.dst);
    ShiftAt(Pawns(p, promote) - Column(7), PawnRightDelta(p.side), m.dst);
    hide Shift;
    hide StepKinds;
    hide Settled;
    hide ManAttacks;
  }
}

/** The move generator. */
module MoveGenerator {
  import opened Types
  import opened Geometry
  import opened Rules
  import opened Invariants
  import opened Legality
  import opened Boards
  import opened Attacks
  import opened MoveLists
  import opened PawnMoves
  import opened Between
  import opened Evasions

  /** What a pass of the generator may list. Out of check the mask is full and castling is
      generated; in check the mask is what resolves the check and castling is not. */
  datatype GenFilter = SimpleGenFilter | CheckGenFilter(bbDstMask: Bitboard) {
    function Mask(): Bitboard {
      if SimpleGenFilter? then FULL else bbDstMask
    }
  }

  datatype PromoteGenPolicy = All | PromoteOnly | NoPromote

  ghost predicate Ready(b: Board)
    reads b, b.cells
  {
    b.Consistent() && Sound(b.Pos())
  }

  method DoGenPawnSingle(b: Board, promote: bool, filter: GenFilter, ghost captures: bool) returns (list: seq<Move>)
    requires Ready(b)
    ensures Lists(list, b.Pos(), Request({PushPart(promote)}, true, captures, filter.Mask()))
  {
    var c := b.side;
    var pawns := b.bbPieces[Man(c, Pawn)];
    var bbPawns := if promote then pawns * Row(PromoteSrcRow(c)) else pawns - Row(PromoteSrcRow(c));
    var bbPawnDsts := (AdvancePawnForward(c, bbPawns) - b.bbAll) * filter.Mask();
    OccupiedIsUnion(b.cells[..]);
    assert bbPawnDsts == PushDsts(b.Pos(), promote, filter.Mask());
    forall m: Move
      ensures Wanted(b.Pos(), Request({PushPart(promote)}, true, captures, filter.Mask()), m)
        <==> PawnShape(m, bbPawnDsts, PawnForwardDelta(c), StepKinds(promote))
    {
      PushIsShift(b.Pos(), promote, captures, filter.Mask(), m);
    }
    forall d | d in bbPawnDsts
      ensures 0 <= d - PawnForwardDelta(c) < 64
    {
      ShiftAt(bbPawns, PawnForwardDelta(c), d);
    }
    hide Wanted;
    hide PawnShape;
    list := EmitPawnMoves(bbPawnDsts, PawnForwardDelta(c), StepKinds(promote));
  }

  method DoGenPawnDouble(b: Board, filter: GenFilter, ghost captures: bool) returns (list: seq<Move>)
    requires Ready(b)
    ensures Lists(list, b.Pos(), Request({DoublePush}, true, captures, filter.Mask()))
  {
    var c := b.side;
    var bbPawns := b.bbPieces[Man(c, Pawn)] * Row(DoubleMoveSrcRow(c));
    var bbPawnTmps := AdvancePawnForward(c, bbPawns) - b.bbAll;
    var bbPawnDsts := (AdvancePawnForward(c, bbPawnTmps) - b.bbAll) * filter.Mask();
    OccupiedIsUnion(b.cells[..]);
    assert bbPawnDsts == DoubleDsts(b.Pos(), filter.Mask());
    forall m: Move
      ensures Wanted(b.Pos(), Request({DoublePush}, true, captures, filter.Mask()), m)
        <==> PawnShape(m, bbPawnDsts, 2 * PawnForwardDelta(c), [PawnDoubleMove])
    {
      DoubleIsShift(b.Pos(), captures, filter.Mask(), m);
    }
    forall d | d in bbPawnDsts
      ensures 0 <= d - 2 * PawnForwardDelta(c) < 64
    {
      ShiftAt(bbPawnTmps, PawnForwardDelta(c), d);
      ShiftAt(bbPawns, PawnForwardDelta(c), d - PawnForwardDelta(c));
    }
    hide Wanted;
    hide PawnShape;
    list := EmitPawnMoves(bbPawnDsts, 2 * PawnForwardDelta(c), [PawnDoubleMove]);
  }

  method DoGenPawnCapture(b: Board, promote: bool, filter: GenFilter, ghost simple: bool) returns (list: seq<Move>)
    requires Ready(b)
    ensures Lists(list, b.Pos(), Request({TakePart(promote)}, simple, true, filter.Mask()))
  {
    var c := b.side;
    var pawns := b.bbPieces[Man(c, Pawn)];
    var bbPawns := if promote then pawns * Row(PromoteSrcRow(c)) else pawns - Row(PromoteSrcRow(c));
    var bbAllowed := b.BbColor(c.Invert());
    var bbLeftDsts := AdvancePawnLeft(c, bbPawns) * bbAllowed * filter.Mask();
    var bbRightDsts := AdvancePawnRight(c, bbPawns) * bbAllowed * filter.Mask();
    assert bbLeftDsts == TakeDsts(b.Pos(), promote, true, filter.Mask());
    assert bbRightDsts == TakeDsts(b.Pos(), promote, false, filter.Mask());
    ghost var q := Request({TakePart(promote)}, simple, true, filter.Mask());
    forall m: Move
      ensures Wanted(b.Pos(), q, m)
        <==> (PawnShape(m, bbLeftDsts, PawnLeftDelta(c), StepKinds(promote))
              || PawnShape(m, bbRightDsts, PawnRightDelta(c), StepKinds(promote)))
    {
      TakeIsShift(b.Pos(), promote, simple, filter.Mask(), m);
    }
    assert forall d: Coord :: d in bbLeftDsts ==> 0 <= d - PawnLeftDelta(c) < 64 by {
      forall d | d in bbLeftDsts
        ensures 0 <= d - PawnLeftDelta(c) < 64
      {
        ShiftAt(bbPawns - Column(0), PawnLeftDelta(c), d);
      }
    }
    assert forall d: Coord :: d in bbRightDsts ==> 0 <= d - PawnRightDelta(c) < 64 by {
      forall d | d in bbRightDsts
        ensures 0 <= d - PawnRightDelta(c) < 64
      {
        ShiftAt(bbPawns - Column(7), PawnRightDelta(c), d);
      }
    }
    hide Wanted;
    list := EmitPawnMoves(bbLeftDsts, PawnLeftDelta(c), StepKinds(promote));
    var right := EmitPawnMoves(bbRightDsts, PawnRightDelta(c), StepKinds(promote));
    NoRepeatsConcat(list, right);
    forall m: Move
      ensures m in list + right <==> Wanted(b.Pos(), q, m)
    {
      assert m in list + right <==> m in list || m in right;
    }
    list := list + right;
  }

  /** Pawn moves that take nothing, as far as the policy asks for promotions. */
  method GenPawnSimple(b: Board, policy: PromoteGenPolicy, filter: GenFilter, ghost captures: bool)
    returns (list: seq<Move>)
    requires Ready(b)
    ensures Lists(list, b.Pos(), Request(PushParts(policy), true, captures, filter.Mask()))
  {
    hide Wanted;
    list := [];
    ghost var p, q := b.Pos(), Request({}, true, captures, filter.Mask());
    if policy == All || policy == NoPromote {
      list := DoGenPawnSingle(b, false, filter, captures);
      var double := DoGenPawnDouble(b, filter, captures);
      ListsConcat(list, double, p, q.(parts := {PawnPush}), q.(parts := {DoublePush}));
      list := list + double;
      assert {PawnPush} + {DoublePush} == {PawnPush, DoublePush};
    }
    if policy == All || policy == PromoteOnly {
      var promotes := DoGenPawnSingle(b, true, filter, captures);
      if policy == All {
        ListsConcat(list, promotes, p, q.(parts := {PawnPush, DoublePush}), q.(parts := {PushPromote}));
        assert {PawnPush, DoublePush} + {PushPromote} == {PawnPush, DoublePush, PushPromote};
      }
      list := list + promotes;
      assert [] + promotes == promotes;
    }
  }

  function PushParts(policy: PromoteGenPolicy): set<Part> {
    match policy
    case All => {PawnPush, DoublePush, PushPromote}
    case PromoteOnly => {PushPromote}
    case NoPromote => {PawnPush, DoublePush}
  }

  method GenPawnCapture(b: Board, filter: GenFilter, ghost simple: bool) returns (list: seq<Move>)
    requires Ready(b)
    ensures Lists(list, b.Pos(), Request({PawnTake, TakePromote}, simple, true, filter.Mask()))
  {
    hide Wanted;
    ghost var q := Request({}, simple, true, filter.Mask());
    list := DoGenPawnCapture(b, false, filter, simple);
    var promotes := DoGenPawnCapture(b, true, filter, simple);
    ListsConcat(list, promotes, b.Pos(), q.(parts := {PawnTake}), q.(parts := {TakePromote}));
    assert {PawnTake} + {TakePromote} == {PawnTake, TakePromote};
    list := list + promotes;
  }

  method GenPawnEnpassant(b: Board, ghost simple: bool, ghost mask: Bitboard) returns (list: seq<Move>)
    requires Ready(b)
    ensures Lists(list, b.Pos(), Request({TakeEnpassant}, simple, true, mask))
  {
    list := [];
    if b.enpassantCoord == INVALID_COORD {
      return;
    }
    var c, y := b.side, CoordY(b.enpassantCoord);
    var dst := b.enpassantCoord + PawnForwardDelta(c);
    var leftPawn, rightPawn := b.enpassantCoord - 1, b.enpassantCoord + 1;
    if y != 0 && b.cells[leftPawn] == Man(c, Pawn) {
      list := list + [Move(Enpassant, leftPawn, dst)];
    }
    if y != 7 && b.cells[rightPawn] == Man(c, Pawn) {
      list := list + [Move(Enpassant, rightPawn, dst)];
    }
    hide Board.HashOk;
    hide Bitboards.PieceBoards.Match;
  }

  /** The cells that may be entered, depending on what is generated. */
  function AllowedMask(s: Cells, c: Color, simple: bool, captures: bool): Bitboard {
    if simple then (if captures then FULL - OfColor(s, c) else FULL - Occupied(s)) else OfColor(s, c.Invert())
  }

  function GetAllowedMask(b: Board, simple: bool, captures: bool): (r: Bitboard)
    reads b, b.cells
    requires Ready(b)
    ensures r == AllowedMask(b.cells[..], b.side, simple, captures)
  {
    OccupiedIsUnion(b.cells[..]);
    if simple then (if captures then FULL - b.BbColor(b.side) else FULL - b.bbAll) else b.BbColor(b.side.Invert())
  }

  function Sources(s: Cells, c: Color, part: Part): Bitboard {
    match part
    case KingPart => OfCell(s, Man(c, King))
    case KnightPart => OfCell(s, Man(c, Knight))
    case DiagonalPart => OfCell(s, Man(c, Bishop)) + OfCell(s, Man(c, Queen))
    case LinePart => OfCell(s, Man(c, Rook)) + OfCell(s, Man(c, Queen))
    case _ => {}
  }

  function PartAttacks(part: Part, occupied: Bitboard, src: Coord): Bitboard {
    match part
    case KingPart => KingAttacks(src)
    case KnightPart => KnightAttacks(src)
    case DiagonalPart => BishopAttacks(occupied, src)
    case LinePart => RookAttacks(occupied, src)
    case _ => {}
  }

  const PIECE_PARTS: set<Part> := {KingPart, KnightPart, DiagonalPart, LinePart}

  lemma PieceMoves(p: Position, part: Part, simple: bool, captures: bool, mask: Bitboard, m: Move)
    requires part in PIECE_PARTS && (simple || captures)
    ensures Wanted(p, Request({part}, simple, captures, mask), m)
      <==>
        && m.kind == Simple
        && m.src in Sources(p.cells, p.side, part)
        && m.dst in PartAttacks(part, Occupied(p.cells), m.src)
        && m.dst in AllowedMask(p.cells, p.side, simple, captures)
        && (part == KingPart || m.dst in mask)
  {
    hide Open;
    hide RookLine;
    hide BishopLine;
    hide KingStep;
    hide KnightStep;
    hide CoordX;
    hide PawnReaches;
    LinesAreDisjoint(m.src, m.dst);
    assert m.dst in Occupied(p.cells) <==> p.cells[m.dst] != Empty;
    hide Occupied;
  }

  method GenKnightOrKing(b: Board, part: Part, simple: bool, captures: bool, filter: GenFilter, ghost mask: Bitboard)
    returns (list: seq<Move>)
    requires Ready(b) && (simple || captures)
    requires part == KingPart || (part == KnightPart && mask == filter.Mask())
    requires part == KingPart ==> filter.SimpleGenFilter?
    ensures Lists(list, b.Pos(), Request({part}, simple, captures, mask))
  {
    var bbAllowed := GetAllowedMask(b, simple, captures);
    var attacks := if part == KnightPart then KnightAttacks else KingAttacks;
    var bbSrc := b.bbPieces[if part == KnightPart then Man(b.side, Knight) else Man(b.side, King)];
    var bbMask := filter.Mask();
    var targets := (src: Coord) => attacks(src) * bbAllowed * bbMask;
    forall m: Move
      ensures Wanted(b.Pos(), Request({part}, simple, captures, mask), m) <==> PieceShape(m, bbSrc, targets)
    {
      PieceMoves(b.Pos(), part, simple, captures, mask, m);
    }
    hide Wanted;
    hide PieceShape;
    list := EmitPieceMoves(bbSrc, targets);
  }

  method GenBishopOrRook(b: Board, part: Part, simple: bool, captures: bool, bbSrc: Bitboard, filter: GenFilter)
    returns (list: seq<Move>)
    requires Ready(b) && (simple || captures) && (part == DiagonalPart || part == LinePart)
    requires bbSrc == Sources(b.cells[..], b.side, part)
    ensures Lists(list, b.Pos(), Request({part}, simple, captures, filter.Mask()))
  {
    var bbAllowed := GetAllowedMask(b, simple, captures);
    var bbAll, bbMask, bishop := b.bbAll, filter.Mask(), part == DiagonalPart;
    var targets := (src: Coord) =>
      (if bishop then BishopAttacks(bbAll, src) else RookAttacks(bbAll, src)) * bbAllowed * bbMask;
    OccupiedIsUnion(b.cells[..]);
    forall m: Move
      ensures Wanted(b.Pos(), Request({part}, simple, captures, bbMask), m) <==> PieceShape(m, bbSrc, targets)
    {
      PieceMoves(b.Pos(), part, simple, captures, bbMask, m);
    }
    hide Wanted;
    hide PieceShape;
    list := EmitPieceMoves(bbSrc, targets);
  }

  /** The side to move is not in check. */
  predicate NoCheck(p: Position) {
    forall k: Coord :: p.cells[k] == Man(p.side, King) ==> !IsAttacked(p.cells, p.side.Invert(), k)
  }

  /** Out of check, castling is decided by its flag, the cells to pass and the cell to step over. */
  predicate CastlingFree(p: Position, flag: CastlingFlag, pass: Bitboard, through: Coord) {
    flag in p.castling && pass !! Occupied(p.cells) && !IsAttacked(p.cells, p.side.Invert(), through)
  }

  lemma CastlingMoves(p: Position, captures: bool, mask: Bitboard, m: Move)
    requires Sound(p) && NoCheck(p)
    ensures var c, off := p.side, CastlingOffset(p.side);
      Wanted(p, Request({CastlePart}, true, captures, mask), m) <==>
        || (m == Move(CastlingKingside, off + 4, off + 6)
            && CastlingFree(p, Kingside(c), KingsidePass(c), off + 5))
        || (m == Move(CastlingQueenside, off + 4, off + 2)
            && CastlingFree(p, Queenside(c), QueensidePass(c), off + 3))
  {
    var c := p.side;
    if Kingside(c) in p.castling || Queenside(c) in p.castling {
      assert KingHome(Kingside(c)) == KingHome(Queenside(c)) == CastlingOffset(c) + 4;
      assert !IsAttacked(p.cells, c.Invert(), CastlingOffset(c) + 4);
    }
    if m.kind.IsCastling() && PseudoLegal(p, m) {
      CastlingCells(p, m);
    }
    hide IsAttacked;
    hide NoCheck;
    if m.kind == CastlingKingside {
      assert CastlingFree(p, Kingside(c), KingsidePass(c), CastlingOffset(c) + 5) ==>
        CastlingOffset(c) + 6 !in Occupied(p.cells) by {
        assert CastlingOffset(c) + 6 in KingsidePass(c);
      }
    } else if m.kind == CastlingQueenside {
      assert CastlingFree(p, Queenside(c), QueensidePass(c), CastlingOffset(c) + 3) ==>
        CastlingOffset(c) + 2 !in Occupied(p.cells) by {
        assert CastlingOffset(c) + 2 in QueensidePass(c);
      }
    }
  }

  function IsCastlingFree(b: Board, flag: CastlingFlag, pass: Bitboard, through: Coord): (r: bool)
    reads b, b.cells
    requires Ready(b)
    ensures r <==> CastlingFree(b.Pos(), flag, pass, through)
  {
    OccupiedIsUnion(b.cells[..]);
    NoCommonBit(b.cells[..], pass);
    flag in b.castling && b.bbAll * pass == {} && !IsCellAttacked(b, b.side.Invert(), through)
  }

  lemma CastlingLists(list: seq<Move>, p: Position, captures: bool, mask: Bitboard)
    requires Sound(p) && NoCheck(p)
    requires var c, off := p.side, CastlingOffset(p.side);
      list ==
        (if CastlingFree(p, Kingside(c), KingsidePass(c), off + 5)
         then [Move(CastlingKingside, off + 4, off + 6)] else [])
        + (if CastlingFree(p, Queenside(c), QueensidePass(c), off + 3)
           then [Move(CastlingQueenside, off + 4, off + 2)] else [])
    ensures Lists(list, p, Request({CastlePart}, true, captures, mask))
  {
    hide CastlingFree;
    hide Wanted;
    forall m: Move
      ensures m in list <==> Wanted(p, Request({CastlePart}, true, captures, mask), m)
    {
      CastlingMoves(p, captures, mask, m);
    }
  }

  method GenCastling(b: Board, ghost captures: bool, ghost mask: Bitboard) returns (list: seq<Move>)
    requires Ready(b) && NoCheck(b.Pos())
    ensures Lists(list, b.Pos(), Request({CastlePart}, true, captures, mask))
  {
    hide CastlingFree;
    hide NoCheck;
    hide Lists;
    hide KingsidePass;
    hide QueensidePass;
    list := [];
    var c, offset := b.side, CastlingOffset(b.side);
    if IsCastlingFree(b, Kingside(c), KingsidePass(c), offset + 5) {
      list := list + [Move(CastlingKingside, offset + 4, offset + 6)];
    }
    if IsCastlingFree(b, Queenside(c), QueensidePass(c), offset + 3) {
      list := list + [Move(CastlingQueenside, offset + 4, offset + 2)];
    }
    CastlingLists(list, b.Pos(), captures, mask);
  }

  const QUIET_PARTS: set<Part> := {PawnPush, DoublePush, PushPromote, CastlePart}
  const TAKING_PARTS: set<Part> := {PawnTake, TakePromote, TakeEnpassant}
  const ALL_PARTS: set<Part> := QUIET_PARTS + TAKING_PARTS + PIECE_PARTS

  function InnerParts(simplePromote: bool, castling: bool): set<Part> {
    ALL_PARTS - (if simplePromote then {} else {PushPromote}) - (if castling then {} else {CastlePart})
  }

  /** Pushes and castling never take, pawn captures always do. */
  lemma PartsTell(p: Position, m: Move)
    requires Sound(p) && PseudoLegal(p, m)
    ensures PartOf(p, m) in QUIET_PARTS ==> !IsCapture(p, m)
    ensures PartOf(p, m) in TAKING_PARTS ==> IsCapture(p, m)
  {
    if m.kind.IsCastling() {
      CastlingCells(p, m);
    }
    hide ManAttacks;
    hide Settled;
    hide CastlingPseudoLegal;
  }

  lemma NothingWanted(p: Position, q: Request)
    requires Sound(p)
    requires (q.parts <= QUIET_PARTS && !q.simple) || (q.parts <= TAKING_PARTS && !q.captures) || q.parts == {}
    ensures Lists([], p, q)
  {
    forall m: Move
      ensures !Wanted(p, q, m)
    {
      if PseudoLegal(p, m) {
        PartsTell(p, m);
      }
      hide PseudoLegal;
      hide PartOf;
    }
  }

  /** Captures of pawns, en passant included. */
  method GenPawnTakes(b: Board, simple: bool, captures: bool, filter: GenFilter) returns (list: seq<Move>)
    requires Ready(b) && (simple || captures)
    ensures Lists(list, b.Pos(), Request(TAKING_PARTS, simple, captures, filter.Mask()))
  {
    hide Lists;
    ghost var p, q := b.Pos(), Request({}, simple, captures, filter.Mask());
    if captures {
      list := GenPawnCapture(b, filter, simple);
      var more := GenPawnEnpassant(b, simple, filter.Mask());
      ListsConcat(list, more, p, q.(parts := {PawnTake, TakePromote}), q.(parts := {TakeEnpassant}));
      list := list + more;
      assert {PawnTake, TakePromote} + {TakeEnpassant} == TAKING_PARTS;
    } else {
      NothingWanted(p, q.(parts := TAKING_PARTS));
      list := [];
    }
  }

  method GenImplInner(b: Board, simple: bool, captures: bool, simplePromote: bool, filter: GenFilter)
    returns (list: seq<Move>)
    requires Ready(b) && (simple || captures) && (simple || !simplePromote)
    requires filter.SimpleGenFilter? ==> NoCheck(b.Pos())
    ensures Lists(list, b.Pos(),
      Request(InnerParts(simplePromote, filter.SimpleGenFilter?), simple, captures, filter.Mask()))
  {
    hide Lists;
    hide NoCheck;
    ghost var p, q := b.Pos(), Request({}, simple, captures, filter.Mask());
    var policy := if simplePromote then All else NoPromote;
    var more;
    if simple {
      list := GenPawnSimple(b, policy, filter, captures);
    } else {
      list := [];
      NothingWanted(p, q.(parts := PushParts(policy)));
    }
    more := GenPawnTakes(b, simple, captures, filter);
    ListsConcat(list, more, p, q.(parts := PushParts(policy)), q.(parts := TAKING_PARTS));
    list := list + more;
    ghost var parts := PushParts(policy) + TAKING_PARTS;
    more := GenPieces(b, simple, captures, filter);
    ListsConcat(list, more, p, q.(parts := parts), q.(parts := PIECE_PARTS));
    list := list + more;
    if filter.SimpleGenFilter? {
      if simple {
        more := GenCastling(b, captures, filter.Mask());
      } else {
        more := [];
        NothingWanted(p, q.(parts := {CastlePart}));
      }
      ListsConcat(list, more, p, q.(parts := parts + PIECE_PARTS), q.(parts := {CastlePart}));
      list := list + more;
      assert parts + PIECE_PARTS + {CastlePart} == InnerParts(simplePromote, true);
    } else {
      assert parts + PIECE_PARTS == InnerParts(simplePromote, false);
    }
  }

  lemma SliderSources(b: Board)
    requires b.Consistent()
    ensures BbDiagPieces(b, b.side) == Sources(b.cells[..], b.side, DiagonalPart)
    ensures BbLinePieces(b, b.side) == Sources(b.cells[..], b.side, LinePart)
  {}

  /** Kings and knights. The king is not held to the filter. */
  method GenNear(b: Board, simple: bool, captures: bool, filter: GenFilter) returns (list: seq<Move>)
    requires Ready(b) && (simple || captures)
    ensures Lists(list, b.Pos(), Request({KingPart, KnightPart}, simple, captures, filter.Mask()))
  {
    hide Lists;
    ghost var p, q := b.Pos(), Request({}, simple, captures, filter.Mask());
    list := GenKnightOrKing(b, KingPart, simple, captures, SimpleGenFilter, filter.Mask());
    var more := GenKnightOrKing(b, KnightPart, simple, captures, filter, filter.Mask());
    ListsConcat(list, more, p, q.(parts := {KingPart}), q.(parts := {KnightPart}));
    list := list + more;
    assert {KingPart} + {KnightPart} == {KingPart, KnightPart};
  }

  method GenSliders(b: Board, simple: bool, captures: bool, filter: GenFilter) returns (list: seq<Move>)
    requires Ready(b) && (simple || captures)
    ensures Lists(list, b.Pos(), Request({DiagonalPart, LinePart}, simple, captures, filter.Mask()))
  {
    hide Lists;
    hide Sources;
    ghost var p, q := b.Pos(), Request({}, simple, captures, filter.Mask());
    SliderSources(b);
    var diagonal, line := BbDiagPieces(b, b.side), BbLinePieces(b, b.side);
    hide BbDiagPieces;
    hide BbLinePieces;
    list := GenBishopOrRook(b, DiagonalPart, simple, captures, diagonal, filter);
    var more := GenBishopOrRook(b, LinePart, simple, captures, line, filter);
    ListsConcat(list, more, p, q.(parts := {DiagonalPart}), q.(parts := {LinePart}));
    list := list + more;
    assert {DiagonalPart} + {LinePart} == {DiagonalPart, LinePart};
  }

  method GenPieces(b: Board, simple: bool, captures: bool, filter: GenFilter) returns (list: seq<Move>)
    requires Ready(b) && (simple || captures)
    ensures Lists(list, b.Pos(), Request(PIECE_PARTS, simple, captures, filter.Mask()))
  {
    hide Lists;
    ghost var p, q := b.Pos(), Request({}, simple, captures, filter.Mask());
    list := GenNear(b, simple, captures, filter);
    var more := GenSliders(b, simple, captures, filter);
    ListsConcat(list, more, p, q.(parts := {KingPart, KnightPart}), q.(parts := {DiagonalPart, LinePart}));
    list := list + more;
    assert {KingPart, KnightPart} + {DiagonalPart, LinePart} == PIECE_PARTS;
  }

  datatype CheckKind = None | Single | Double

  /** What the generator asks for in each state of check. */
  function Asked(check: CheckKind, checkMask: Bitboard, simple: bool, captures: bool, simplePromote: bool): Request {
    match check
    case None => Request(InnerParts(simplePromote, true), simple, captures, FULL)
    case Single => Request(InnerParts(simplePromote, false), simple, captures, checkMask)
    case Double => Request({KingPart}, simple, captures, FULL)
  }

  function AskedPromotes(check: CheckKind, checkMask: Bitboard): Request {
    Request(if check == Double then {} else {PushPromote}, true, true, if check == Single then checkMask else FULL)
  }

  /** `check` and `checkMask` describe the attackers of the king `k` of the side to move. */
  ghost predicate CheckState(p: Position, k: Coord, check: CheckKind, checkMask: Bitboard) {
    var attackers := Attackers(p.cells, p.side.Invert(), k);
    && IsKingAt(p.cells, p.side, k)
    && match check
       case None => attackers == {}
       case Single => exists a :: attackers == {a} && checkMask == BetweenCells(a, k) + {a}
       case Double => exists a, b :: a in attackers && b in attackers && a != b
  }

  lemma NoCheckState(p: Position, k: Coord, check: CheckKind, checkMask: Bitboard)
    requires CheckState(p, k, check, checkMask)
    ensures check == None <==> NoCheck(p)
  {
    if check == Single {
      var a :| Attackers(p.cells, p.side.Invert(), k) == {a};
      assert a in Attackers(p.cells, p.side.Invert(), k);
    }
    assert NoCheck(p) ==> Attackers(p.cells, p.side.Invert(), k) == {};
  }

  /** A legal move in check is a king move, or en passant, or goes where the mask allows; in double
      check it is a king move. */
  lemma LegalAnswers(p: Position, k: Coord, check: CheckKind, checkMask: Bitboard, m: Move)
    requires Sound(p) && CheckState(p, k, check, checkMask) && check != None
    requires PseudoLegal(p, m) && !KingExposed(Play(p, m))
    ensures !m.kind.IsCastling()
    ensures (m.kind == Simple && m.src == k)
      || (check == Single && (m.kind == Enpassant || m.dst in checkMask))
  {
    NoCheckState(p, k, check, checkMask);
    CastlingOutOfCheck(p, m);
    hide PseudoLegal;
    hide Sound;
    hide KingExposed;
    hide Play;
    hide NoCheck;
    hide Attackers;
    if check == Double {
      var a, b :| a in Attackers(p.cells, p.side.Invert(), k) && b in Attackers(p.cells, p.side.Invert(), k) && a != b;
      DoubleCheckNeedsKing(p, m, k, a, b);
    } else if m.src != k {
      var a :| Attackers(p.cells, p.side.Invert(), k) == {a} && checkMask == BetweenCells(a, k) + {a};
      MustResolve(p, m, k, a);
    } else {
      KingMovesSimply(p, m);
    }
  }

  lemma KingMovesSimply(p: Position, m: Move)
    requires Sound(p) && PseudoLegal(p, m) && p.cells[m.src] == Man(p.side, King) && !m.kind.IsCastling()
    ensures m.kind == Simple
  {}

  /** Whatever is listed is pseudo-legal, out of check everything pseudo-legal is listed, and in
      check every legal move is. */
  lemma AskedIsComplete(p: Position, k: Coord, check: CheckKind, checkMask: Bitboard, m: Move)
    requires Sound(p) && CheckState(p, k, check, checkMask)
    ensures Wanted(p, Asked(check, checkMask, true, true, true), m) ==> PseudoLegal(p, m)
    ensures check == None ==> (Wanted(p, Asked(check, checkMask, true, true, true), m) <==> PseudoLegal(p, m))
    ensures PseudoLegal(p, m) && !KingExposed(Play(p, m)) ==> Wanted(p, Asked(check, checkMask, true, true, true), m)
  {
    AllPartsCover(p, m);
    assert p.cells[k] == Man(p.side, King);
    if PseudoLegal(p, m) && !KingExposed(Play(p, m)) && check != None {
      LegalAnswers(p, k, check, checkMask, m);
    }
    hide KingExposed;
    hide CheckState;
    hide PseudoLegal;
    hide Play;
    hide Sound;
  }

  lemma AllPartsCover(p: Position, m: Move)
    ensures PartOf(p, m) in ALL_PARTS && m.dst in FULL
  {}

  lemma CastlingOutOfCheck(p: Position, m: Move)
    requires Sound(p) && PseudoLegal(p, m) && !NoCheck(p) && OneKing(p.cells, p.side)
    ensures !m.kind.IsCastling() && PartOf(p, m) != CastlePart
  {
    if m.kind.IsCastling() {
      var k: Coord := CastlingOffset(p.side) + 4;
      CastlingCells(p, m);
      SafeKing(p, k);
      assert false;
    }
  }

  lemma SafeKing(p: Position, k: Coord)
    requires p.cells[k] == Man(p.side, King) && OneKing(p.cells, p.side)
    requires !IsAttacked(p.cells, p.side.Invert(), k)
    ensures NoCheck(p)
  {
    hide IsAttacked;
    var j: Coord :| IsKingAt(p.cells, p.side, j);
    assert j == k;
  }

  /** The state of check and the mask that resolves it, from the attackers of the king `k`. */
  function CheckOf(attackers: Bitboard, k: Coord): (CheckKind, Bitboard) {
    if attackers == {} then (None, {})
    else if |attackers| > 1 then (Double, {})
    else (Single, Between.Between(Lowest(attackers), k) + attackers)
  }

  lemma CheckOfIsExact(p: Position, k: Coord)
    requires IsKingAt(p.cells, p.side, k)
    ensures var (check, checkMask) := CheckOf(Attackers(p.cells, p.side.Invert(), k), k);
      CheckState(p, k, check, checkMask)
  {
    var attackers := Attackers(p.cells, p.side.Invert(), k);
    hide Attackers;
    hide BetweenCells;
    hide IsKingAt;
    if attackers != {} {
      if |attackers| > 1 {
        TwoOfMany(attackers);
      } else {
        OneOfOne(attackers, Lowest(attackers));
      }
    }
  }

  /** A board together with what its checks leave to generate. */
  class MoveGen {
    const b: Board
    const side: Color
    const check: CheckKind
    const checkMask: Bitboard

    ghost predicate Fit()
      reads b, b.cells
    {
      Ready(b) && side == b.side && exists k: Coord :: CheckState(b.Pos(), k, check, checkMask)
    }

    ghost function Query(simple: bool, captures: bool, simplePromote: bool): Request {
      Asked(check, checkMask, simple, captures, simplePromote)
    }

    constructor (b: Board)
      requires Ready(b) && OneKing(b.cells[..], b.side)
      ensures Fit() && this.b == b
    {
      hide CheckState;
      hide CheckOf;
      hide Attackers;
      hide Board.HashOk;
      hide Bitboards.PieceBoards.Match;
      hide Sound;
      hide Settled;
      hide HasKing;
      hide IsKingAt;
      this.b := b;
      side := b.side;
      OneKingIsKing(b.cells[..], b.side);
      var king := KingPos(b, b.side);
      var kingAttackers := CellAttackers(b, b.side.Invert(), king);
      CheckOfIsExact(b.Pos(), king);
      check, checkMask := CheckOf(kingAttackers, king).0, CheckOf(kingAttackers, king).1;
    }

    method GenImpl(simple: bool, captures: bool, simplePromote: bool) returns (list: seq<Move>)
      requires Fit() && (simple || captures) && (simple || !simplePromote)
      ensures Lists(list, b.Pos(), Query(simple, captures, simplePromote))
    {
      hide Lists;
      ghost var k: Coord :| CheckState(b.Pos(), k, check, checkMask);
      NoCheckState(b.Pos(), k, check, checkMask);
      hide CheckState;
      hide NoCheck;
      match check
      case None =>
        list := GenImplInner(b, simple, captures, simplePromote, SimpleGenFilter);
      case Single =>
        list := GenImplInner(b, simple, captures, simplePromote, CheckGenFilter(checkMask));
      case Double =>
        list := GenKnightOrKing(b, KingPart, simple, captures, SimpleGenFilter, FULL);
    }

    /** Everything that may be played: out of check each pseudo-legal move once, in check only
        pseudo-legal moves and among them every legal one. */
    method GenAllMoves() returns (list: seq<Move>)
      requires Fit()
      ensures Lists(list, b.Pos(), Query(true, true, true))
      ensures NoRepeats(list)
      ensures forall m: Move :: m in list ==> PseudoLegal(b.Pos(), m)
      ensures forall m: Move :: PseudoLegal(b.Pos(), m) && !KingExposed(Play(b.Pos(), m)) ==> m in list
      ensures NoCheck(b.Pos()) ==> forall m: Move :: PseudoLegal(b.Pos(), m) ==> m in list
    {
      list := GenImpl(true, true, true);
      ghost var k: Coord :| CheckState(b.Pos(), k, check, checkMask);
      NoCheckState(b.Pos(), k, check, checkMask);
      forall m: Move
        ensures m in list ==> PseudoLegal(b.Pos(), m)
        ensures PseudoLegal(b.Pos(), m) && !KingExposed(Play(b.Pos(), m)) ==> m in list
        ensures check == None && PseudoLegal(b.Pos(), m) ==> m in list
      {
        AskedIsComplete(b.Pos(), k, check, checkMask, m);
        hide PseudoLegal;
        hide KingExposed;
        hide Play;
      }
      hide PseudoLegal;
      hide KingExposed;
      hide Play;
      hide NoCheck;
      hide Wanted;
    }

    method GenCaptures() returns (list: seq<Move>)
      requires Fit()
      ensures Lists(list, b.Pos(), Query(false, true, false))
    {
      list := GenImpl(false, true, false);
    }

    method GenSimpleMoves() returns (list: seq<Move>)
      requires Fit()
      ensures Lists(list, b.Pos(), Query(true, false, true))
    {
      list := GenImpl(true, false, true);
    }

    method GenSimpleMovesNoPromote() returns (list: seq<Move>)
      requires Fit()
      ensures Lists(list, b.Pos(), Query(true, false, false))
    {
      list := GenImpl(true, false, false);
    }

    method GenSimplePromotes() returns (list: seq<Move>)
      requires Fit()
      ensures Lists(list, b.Pos(), AskedPromotes(check, checkMask))
    {
      hide Lists;
      match check
      case None =>
        list := GenPawnSimple(b, PromoteOnly, SimpleGenFilter, true);
      case Single =>
        list := GenPawnSimple(b, PromoteOnly, CheckGenFilter(checkMask), true);
      case Double =>
        list := [];
        NothingWanted(b.Pos(), AskedPromotes(check, checkMask));
    }
  }

  lemma TwoOfMany(bb: Bitboard)
    requires |bb| > 1
    ensures exists a, b :: a in bb && b in bb && a != b
  {
    var a :| a in bb;
    assert |bb - {a}| > 0;
    var b :| b in bb - {a};
  }

  lemma OneOfOne(bb: Bitboard, a: Coord)
    requires |bb| <= 1 && a in bb
    ensures bb == {a}
  {
    assert |bb - {a}| == 0;
    assert bb == (bb - {a}) + {a};
  }

  lemma {:induction false} CountIsOne(list: seq<Move>, m: Move)
    requires NoRepeats(list)
    ensures multiset(list)[m] == if m in list then 1 else 0
    decreases list
  {
    if list != [] {
      assert list == [list[0]] + list[1..];
      CountIsOne(list[1..], m);
    }
  }

  /** Two lists without repeats that split the moves of a third one are together that list. */
  lemma UnionOfLists(whole: seq<Move>, left: seq<Move>, right: seq<Move>)
    requires NoRepeats(whole) && NoRepeats(left) && NoRepeats(right)
    requires forall m: Move :: m in whole <==> m in left || m in right
    requires forall m: Move :: !(m in left && m in right)
    ensures multiset(whole) == multiset(left) + multiset(right)
  {
    forall m: Move
      ensures multiset(whole)[m] == multiset(left)[m] + multiset(right)[m]
    {
      CountIsOne(whole, m);
      CountIsOne(left, m);
      CountIsOne(right, m);
    }
  }

  /** In every state of check the moves are the disjoint union of captures and simple moves, and
      these of simple moves without promotions and of simple promotions. */
  lemma GeneratedListsSplit(
    p: Position, check: CheckKind, checkMask: Bitboard,
    all: seq<Move>, captures: seq<Move>, simple: seq<Move>, noPromote: seq<Move>, promotes: seq<Move>)
    requires Sound(p)
    requires Lists(all, p, Asked(check, checkMask, true, true, true))
    requires Lists(captures, p, Asked(check, checkMask, false, true, false))
    requires Lists(simple, p, Asked(check, checkMask, true, false, true))
    requires Lists(noPromote, p, Asked(check, checkMask, true, false, false))
    requires Lists(promotes, p, AskedPromotes(check, checkMask))
    ensures multiset(all) == multiset(captures) + multiset(simple)
    ensures multiset(simple) == multiset(noPromote) + multiset(promotes)
  {
    forall m: Move | PseudoLegal(p, m) {
      PartsTell(p, m);
    }
    hide PseudoLegal;
    hide PartOf;
    hide IsCapture;
    forall m: Move
      ensures m in all <==> m in captures || m in simple
      ensures !(m in captures && m in simple)
      ensures m in simple <==> m in noPromote || m in promotes
      ensures !(m in noPromote && m in promotes)
    {
    }
    UnionOfLists(all, captures, simple);
    UnionOfLists(simple, noPromote, promotes);
  }
}

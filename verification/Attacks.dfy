/** Attack queries and move tests that read the bitboards of a consistent board. Each is proved to
    answer what the rules on plain cells say. */
module Attacks {
  import opened Types
  import opened Geometry
  import opened Rules
  import opened Invariants
  import opened Legality
  import opened Boards

  /** A pawn attack is traced back with the attack map of the other colour. */
  lemma PawnStepsBack(c: Color, a: Coord, b: Coord)
    ensures PawnStep(c, a, b) == PawnStep(c.Invert(), b, a)
  {}

  lemma StepsBack(a: Coord, b: Coord)
    ensures KingStep(a, b) == KingStep(b, a) && KnightStep(a, b) == KnightStep(b, a)
  {}

  function BbDiagPieces(b: Board, c: Color): Bitboard
    reads b, b.cells
    requires b.Consistent()
  {
    b.bbPieces[Man(c, Bishop)] + b.bbPieces[Man(c, Queen)]
  }

  function BbLinePieces(b: Board, c: Color): Bitboard
    reads b, b.cells
    requires b.Consistent()
  {
    b.bbPieces[Man(c, Rook)] + b.bbPieces[Man(c, Queen)]
  }

  /** The five sets of attackers that are traced from the attacked cell. */
  function Traced(s: Cells, c: Color, coord: Coord, occupied: Bitboard, mask: Bitboard): Bitboard {
    OfCell(s, Man(c, Pawn)) * PawnAttacks(c.Invert(), coord) * mask
    + OfCell(s, Man(c, King)) * KingAttacks(coord) * mask
    + OfCell(s, Man(c, Knight)) * KnightAttacks(coord) * mask
    + BishopAttacks(occupied, coord) * (OfCell(s, Man(c, Bishop)) + OfCell(s, Man(c, Queen))) * mask
    + RookAttacks(occupied, coord) * (OfCell(s, Man(c, Rook)) + OfCell(s, Man(c, Queen))) * mask
  }

  /** The five sets at one cell: only the set of the man that stands there matters. */
  lemma TracedAt(s: Cells, c: Color, coord: Coord, occupied: Bitboard, mask: Bitboard, a: Coord)
    ensures a in Traced(s, c, coord, occupied, mask) <==>
      a in mask && IsOwn(s, c, a) &&
      match s[a].piece
      case Pawn => a in PawnAttacks(c.Invert(), coord)
      case King => a in KingAttacks(coord)
      case Knight => a in KnightAttacks(coord)
      case Bishop => a in BishopAttacks(occupied, coord)
      case Rook => a in RookAttacks(occupied, coord)
      case Queen => a in BishopAttacks(occupied, coord) || a in RookAttacks(occupied, coord)
  {
    hide PawnAttacks;
    hide KingAttacks;
    hide KnightAttacks;
    hide BishopAttacks;
    hide RookAttacks;
  }

  /** Tracing attacks from the attacked cell finds the men that attack it. */
  lemma TracingIsExact(s: Cells, c: Color, coord: Coord, occupied: Bitboard, mask: Bitboard)
    ensures Traced(s, c, coord, occupied, mask) == MaskedAttackers(s, c, coord, occupied, mask)
  {
    hide PawnStep;
    hide KingStep;
    hide KnightStep;
    hide BishopSees;
    hide RookSees;
    hide Traced;
    forall a: Coord
      ensures a in Traced(s, c, coord, occupied, mask) <==> a in MaskedAttackers(s, c, coord, occupied, mask)
    {
      TracedAt(s, c, coord, occupied, mask, a);
      PawnStepsBack(c, a, coord);
      StepsBack(a, coord);
      SightIsSymmetric(occupied, a, coord);
    }
  }

  lemma OccupiedIsUnion(s: Cells)
    ensures OfColor(s, White) + OfColor(s, Black) == Occupied(s)
  {}

  lemma FullMask(s: Cells, c: Color, coord: Coord, occupied: Bitboard)
    requires occupied == Occupied(s)
    ensures MaskedAttackers(s, c, coord, occupied, FULL) == Attackers(s, c, coord)
  {
    hide ManAttacks;
  }

  lemma TracedFull(s: Cells, c: Color, coord: Coord, occupied: Bitboard)
    ensures Traced(s, c, coord, occupied, FULL) ==
      OfCell(s, Man(c, Pawn)) * PawnAttacks(c.Invert(), coord)
      + OfCell(s, Man(c, King)) * KingAttacks(coord)
      + OfCell(s, Man(c, Knight)) * KnightAttacks(coord)
      + BishopAttacks(occupied, coord) * (OfCell(s, Man(c, Bishop)) + OfCell(s, Man(c, Queen)))
      + RookAttacks(occupied, coord) * (OfCell(s, Man(c, Rook)) + OfCell(s, Man(c, Queen)))
  {
    hide PawnAttacks;
    hide KingAttacks;
    hide KnightAttacks;
    hide BishopAttacks;
    hide RookAttacks;
    hide OfCell;
  }

  /** The men of `c` that attack `coord`. */
  function CellAttackers(b: Board, c: Color, coord: Coord): (r: Bitboard)
    reads b, b.cells
    requires b.Consistent()
    ensures r == Attackers(b.cells[..], c, coord)
  {
    var r :=
      b.bbPieces[Man(c, Pawn)] * PawnAttacks(c.Invert(), coord)
      + b.bbPieces[Man(c, King)] * KingAttacks(coord)
      + b.bbPieces[Man(c, Knight)] * KnightAttacks(coord)
      + BishopAttacks(b.bbAll, coord) * BbDiagPieces(b, c)
      + RookAttacks(b.bbAll, coord) * BbLinePieces(b, c);
    OccupiedIsUnion(b.cells[..]);
    hide Attackers;
    hide MaskedAttackers;
    hide Traced;
    hide PawnAttacks;
    hide KingAttacks;
    hide KnightAttacks;
    hide BishopAttacks;
    hide RookAttacks;
    TracedFull(b.cells[..], c, coord, b.bbAll);
    TracingIsExact(b.cells[..], c, coord, b.bbAll, FULL);
    FullMask(b.cells[..], c, coord, b.bbAll);
    r
  }

  /** Some man of `c` inside `mask` attacks `coord` when exactly `occupied` is taken. */
  function IsAttackedMasked(b: Board, c: Color, coord: Coord, occupied: Bitboard, mask: Bitboard): (r: bool)
    reads b, b.cells
    requires b.Consistent()
    ensures r <==> MaskedAttackers(b.cells[..], c, coord, occupied, mask) != {}
  {
    TracingIsExact(b.cells[..], c, coord, occupied, mask);
    TracedIsEmpty(b.cells[..], c, coord, occupied, mask);
    hide Traced;
    hide MaskedAttackers;
    if (b.bbPieces[Man(c, Pawn)] * PawnAttacks(c.Invert(), coord)
        + b.bbPieces[Man(c, King)] * KingAttacks(coord)
        + b.bbPieces[Man(c, Knight)] * KnightAttacks(coord)) * mask != {}
    then true
    else
      || BishopAttacks(occupied, coord) * (BbDiagPieces(b, c) * mask) != {}
      || RookAttacks(occupied, coord) * (BbLinePieces(b, c) * mask) != {}
  }

  lemma TracedIsEmpty(s: Cells, c: Color, coord: Coord, occupied: Bitboard, mask: Bitboard)
    ensures Traced(s, c, coord, occupied, mask) == {} <==>
      && (OfCell(s, Man(c, Pawn)) * PawnAttacks(c.Invert(), coord)
          + OfCell(s, Man(c, King)) * KingAttacks(coord)
          + OfCell(s, Man(c, Knight)) * KnightAttacks(coord)) * mask == {}
      && BishopAttacks(occupied, coord) * ((OfCell(s, Man(c, Bishop)) + OfCell(s, Man(c, Queen))) * mask) == {}
      && RookAttacks(occupied, coord) * ((OfCell(s, Man(c, Rook)) + OfCell(s, Man(c, Queen))) * mask) == {}
  {
    hide OfCell;
    hide PawnAttacks;
    hide KingAttacks;
    hide KnightAttacks;
    hide BishopAttacks;
    hide RookAttacks;
    var near := (OfCell(s, Man(c, Pawn)) * PawnAttacks(c.Invert(), coord)
      + OfCell(s, Man(c, King)) * KingAttacks(coord)
      + OfCell(s, Man(c, Knight)) * KnightAttacks(coord)) * mask;
    var diag := BishopAttacks(occupied, coord) * ((OfCell(s, Man(c, Bishop)) + OfCell(s, Man(c, Queen))) * mask);
    var line := RookAttacks(occupied, coord) * ((OfCell(s, Man(c, Rook)) + OfCell(s, Man(c, Queen))) * mask);
    assert Traced(s, c, coord, occupied, mask) == near + diag + line;
  }

  /** Some man of `c` attacks `coord`. */
  function IsCellAttacked(b: Board, c: Color, coord: Coord): (r: bool)
    reads b, b.cells
    requires b.Consistent()
    ensures r <==> IsAttacked(b.cells[..], c, coord)
  {
    TracingIsExact(b.cells[..], c, coord, b.bbAll, FULL);
    TracedIsEmpty(b.cells[..], c, coord, b.bbAll, FULL);
    OccupiedIsUnion(b.cells[..]);
    FullMask(b.cells[..], c, coord, b.bbAll);
    hide Traced;
    hide MaskedAttackers;
    hide Attackers;
    if || b.bbPieces[Man(c, Pawn)] * PawnAttacks(c.Invert(), coord) != {}
       || b.bbPieces[Man(c, King)] * KingAttacks(coord) != {}
       || b.bbPieces[Man(c, Knight)] * KnightAttacks(coord) != {}
    then true
    else
      || BishopAttacks(b.bbAll, coord) * BbDiagPieces(b, c) != {}
      || RookAttacks(b.bbAll, coord) * BbLinePieces(b, c) != {}
  }

  lemma OfCellAt(s: Cells, v: Cell)
    ensures forall k: Coord :: s[k] == v <==> k in OfCell(s, v)
    ensures (exists k: Coord :: s[k] == v) ==> OfCell(s, v) != {}
  {
    if k: Coord :| s[k] == v {
      assert k in OfCell(s, v);
    }
  }

  /** The cell of the king of `c`, or of the first of them. */
  function KingPos(b: Board, c: Color): (k: Coord)
    reads b, b.cells
    requires b.Consistent() && HasKing(b.cells[..], c)
    ensures IsFirstKing(b.cells[..], c, k)
    ensures OneKing(b.cells[..], c) ==> IsKingAt(b.cells[..], c, k)
  {
    OfCellAt(b.cells[..], Man(c, King));
    hide Board.HashOk;
    hide Settled;
    Lowest(b.bbPieces[Man(c, King)])
  }

  function IsCheck(b: Board): (r: bool)
    reads b, b.cells
    requires b.Consistent() && HasKing(b.cells[..], b.side)
    ensures r <==> IsAttacked(b.cells[..], b.side.Invert(), KingPos(b, b.side))
    ensures OneKing(b.cells[..], b.side) ==>
      (r <==> exists k: Coord :: IsKingAt(b.cells[..], b.side, k) && IsAttacked(b.cells[..], b.side.Invert(), k))
  {
    IsCellAttacked(b, b.side.Invert(), KingPos(b, b.side))
  }

  function WasMoveLegal(b: Board): (r: bool)
    reads b, b.cells
    requires b.Consistent() && OneKing(b.cells[..], b.side.Invert())
    ensures r <==> !KingExposed(b.Pos())
  {
    !IsCellAttacked(b, b.side, KingPos(b, b.side.Invert()))
  }

  lemma NoCommonBit(s: Cells, bb: Bitboard)
    ensures Occupied(s) * bb == {} <==> forall c :: c in bb ==> s[c] == Empty
    ensures Occupied(s) * bb == {} <==> bb !! Occupied(s)
  {
    forall c | c in bb
      ensures s[c] != Empty <==> c in Occupied(s) * bb
    {
    }
  }

  /** The part of `IsMoveValid` that is about castling. */
  function IsCastlingValid(b: Board, flag: CastlingFlag, pass: Bitboard, src: Coord, through: Coord): (r: bool)
    reads b, b.cells
    requires b.Consistent() && src == CastlingOffset(b.side) + 4
    ensures r <==> CastlingPseudoLegal(b.Pos(), flag, pass, through)
  {
    OccupiedIsUnion(b.cells[..]);
    NoCommonBit(b.cells[..], pass);
    && flag in b.castling
    && b.bbAll * pass == {}
    && !IsCellAttacked(b, b.side.Invert(), src)
    && !IsCellAttacked(b, b.side.Invert(), through)
  }

  function DoublePath(c: Color, src: Coord): set<int> {
    if c.White? then {src - 16, src - 8} else {src + 8, src + 16}
  }

  lemma DoubleIsValid(p: Position, m: Move, path: Bitboard)
    requires IsWellFormed(m, p.side) && m.kind == PawnDoubleMove && p.cells[m.src] == Man(p.side, Pawn)
    requires path == DoublePath(p.side, m.src)
    ensures PseudoLegal(p, m) <==> Occupied(p.cells) * path == {}
  {
    NoCommonBit(p.cells, path);
    hide Occupied;
  }

  lemma EnpassantIsValid(p: Position, m: Move)
    requires Sound(p) && IsWellFormed(m, p.side) && m.kind == Enpassant && p.cells[m.src] == Man(p.side, Pawn)
    ensures PseudoLegal(p, m) <==>
      (m.src + 1 == p.enpassant || m.src - 1 == p.enpassant) && m.dst == p.enpassant + PawnForwardDelta(p.side)
  {
    hide CastlingSettled;
    hide PawnsInside;
  }

  lemma PawnStepIsValid(p: Position, m: Move)
    requires IsWellFormed(m, p.side) && (m.kind == Simple || m.kind.IsPromote()) && p.cells[m.src] == Man(p.side, Pawn)
    ensures var c, dstCell := p.side, p.cells[m.dst];
      PseudoLegal(p, m) <==>
        && (m.kind.IsPromote() || CoordX(m.src) != PromoteSrcRow(c))
        && if dstCell == Empty then m.dst == m.src + PawnForwardDelta(c)
           else dstCell.color != c && m.dst in PawnAttacks(c, m.src)
  {
    hide Occupied;
    hide ManAttacks;
  }

  /** The part of `IsMoveValid` that is about pawns. */
  function IsPawnMoveValid(b: Board, m: Move): (r: bool)
    reads b, b.cells
    requires b.Consistent() && Sound(b.Pos()) && IsWellFormed(m, b.side)
    requires b.cells[m.src] == Man(b.side, Pawn) && !m.kind.IsCastling() && m.kind != Null
    ensures r <==> PseudoLegal(b.Pos(), m)
  {
    OccupiedIsUnion(b.cells[..]);
    WellFormedDouble(m, b.side);
    hide Board.HashOk;
    hide Bitboards.PieceBoards.Match;
    hide PseudoLegal;
    hide IsWellFormed;
    hide Sound;
    hide Settled;
    var c, src, dst := b.side, m.src, m.dst;
    var dstCell := b.cells[dst];
    if m.kind == PawnDoubleMove then
      var bbMustEmpty: Bitboard := if c.White? then {src - 16, src - 8} else {src + 8, src + 16};
      DoubleIsValid(b.Pos(), m, bbMustEmpty);
      b.bbAll * bbMustEmpty == {}
    else if m.kind == Enpassant then
      EnpassantIsValid(b.Pos(), m);
      && (src + 1 == b.enpassantCoord || src - 1 == b.enpassantCoord)
      && dst == b.enpassantCoord + PawnForwardDelta(c)
    else
      PawnStepIsValid(b.Pos(), m);
      if !m.kind.IsPromote() && CoordX(src) == PromoteSrcRow(c) then false
      else if dstCell == Empty then dst == src + PawnForwardDelta(c)
      else if dstCell.color != c then dst in PawnAttacks(c, src)
      else false
  }

  lemma WellFormedDouble(m: Move, c: Color)
    requires IsWellFormed(m, c)
    ensures m.kind == PawnDoubleMove ==> if c.White? then 16 <= m.src else m.src + 16 < 64
    ensures m.kind != Invalid
  {}

  /** The part of `IsMoveValid` that is about pieces. */
  function IsPieceMoveValid(b: Board, m: Move): (r: bool)
    reads b, b.cells
    requires b.Consistent() && !m.kind.IsCastling() && m.kind != Null && m.kind != Invalid
    requires b.cells[m.src] != Man(b.side, Pawn)
    ensures r <==> PseudoLegal(b.Pos(), m)
  {
    OccupiedIsUnion(b.cells[..]);
    hide Board.HashOk;
    hide BishopSees;
    hide RookSees;
    hide KingStep;
    hide KnightStep;
    hide Settled;
    var c, src, dst := b.side, m.src, m.dst;
    var srcCell := b.cells[src];
    if m.kind != Simple then false
    else if dst in b.BbColor(c) then false
    else if srcCell == Man(c, King) then dst in KingAttacks(src)
    else if srcCell == Man(c, Knight) then dst in KnightAttacks(src)
    else if srcCell == Man(c, Bishop) then dst in BishopAttacks(b.bbAll, src)
    else if srcCell == Man(c, Rook) then dst in RookAttacks(b.bbAll, src)
    else if srcCell == Man(c, Queen) then dst in BishopAttacks(b.bbAll, src) || dst in RookAttacks(b.bbAll, src)
    else false
  }

  lemma CastlingIsValid(p: Position, m: Move)
    requires IsWellFormed(m, p.side)
    ensures m.kind == Null ==> !PseudoLegal(p, m)
    ensures m.kind == CastlingKingside ==>
      && m.src == CastlingOffset(p.side) + 4
      && (PseudoLegal(p, m) <==> CastlingPseudoLegal(p, Kingside(p.side), KingsidePass(p.side), m.src + 1))
    ensures m.kind == CastlingQueenside ==>
      && m.src == CastlingOffset(p.side) + 4
      && (PseudoLegal(p, m) <==> CastlingPseudoLegal(p, Queenside(p.side), QueensidePass(p.side), m.src - 1))
  {
    hide CastlingPseudoLegal;
  }

  /** Tells a pseudo-legal move among the well-formed ones. */
  function IsMoveValid(b: Board, m: Move): (r: bool)
    reads b, b.cells
    requires b.Consistent() && Sound(b.Pos()) && IsWellFormed(m, b.side)
    ensures r <==> PseudoLegal(b.Pos(), m)
  {
    CastlingIsValid(b.Pos(), m);
    WellFormedDouble(m, b.side);
    hide CastlingPseudoLegal;
    hide PseudoLegal;
    hide IsWellFormed;
    hide Board.HashOk;
    hide Settled;
    hide Sound;
    hide Bitboards.PieceBoards.Match;
    var c := b.side;
    if m.kind == Null then false
    else if m.kind == CastlingKingside then
      IsCastlingValid(b, Kingside(c), KingsidePass(c), m.src, m.src + 1)
    else if m.kind == CastlingQueenside then
      IsCastlingValid(b, Queenside(c), QueensidePass(c), m.src, m.src - 1)
    else if b.cells[m.src] == Man(c, Pawn) then IsPawnMoveValid(b, m)
    else IsPieceMoveValid(b, m)
  }

  /** Every pseudo-legal move is well-formed. */
  lemma PseudoLegalIsWellFormed(p: Position, m: Move)
    requires Sound(p) && PseudoLegal(p, m)
    ensures IsWellFormed(m, p.side)
  {}

  /** Tells without making the move whether it leaves its own king under attack. */
  function IsMoveLegal(b: Board, m: Move): (r: bool)
    reads b, b.cells
    requires b.Consistent() && Sound(b.Pos()) && HasKing(b.cells[..], b.side) && Playable(b.Pos(), m)
    ensures r <==> KeepsKing(b.Pos(), m)
    ensures OneKing(b.cells[..], b.side) ==> (r <==> !KingExposed(Play(b.Pos(), m)))
  {
    var c, bbSrc: Bitboard, bbDst: Bitboard := b.side, {m.src}, {m.dst};
    OccupiedIsUnion(b.cells[..]);
    ShortcutDecides(b.Pos(), m, KingPos(b, c));
    if m.kind == Null then !IsCheck(b)
    else if b.cells[m.src] == Man(c, King) then
      !IsAttackedMasked(b, c.Invert(), m.dst, Xor(b.bbAll, bbSrc), FULL)
    else
      var king := KingPos(b, c);
      var occupied, mask := Xor(b.bbAll, bbSrc) + bbDst, FULL - bbDst;
      var bbTmp := if m.kind == Enpassant then AdvancePawnForward(c.Invert(), bbDst) else {};
      !IsAttackedMasked(b, c.Invert(), king, Xor(occupied, bbTmp), Xor(mask, bbTmp))
  }

  lemma ShortcutDecides(p: Position, m: Move, k: Coord)
    requires Sound(p) && Playable(p, m) && IsFirstKing(p.cells, p.side, k)
    ensures LegalShortcut(p, m, k) <==> KeepsKing(p, m)
    ensures OneKing(p.cells, p.side) ==> (LegalShortcut(p, m, k) <==> !KingExposed(Play(p, m)))
  {
    ShortcutLooksAt(p, m, k);
    if OneKing(p.cells, p.side) {
      KeepsTheKing(p, m);
    }
    hide LegalShortcut;
    hide KingExposed;
    hide IsAttacked;
    hide Play;
    hide Playable;
    hide Sound;
  }

  datatype ValidateResult =
    | ValidateOk
    | TooManyPieces
    | NoKing
    | TooManyKings
    | InvalidEnpassantRow
    | InvalidPawnPosition
    | OpponentKingAttacked

  const INVALID_PAWN_ROWS: Bitboard := set c: Coord | CoordX(c) == 0 || CoordX(c) == 7

  lemma KingCount(s: Cells, c: Color)
    ensures OneKing(s, c) <==> |OfCell(s, Man(c, King))| == 1
  {
    var kings := OfCell(s, Man(c, King));
    if OneKing(s, c) {
      var k: Coord :| IsKingAt(s, c, k);
      assert kings == {k};
    }
    if |kings| == 1 {
      var k :| k in kings;
      assert |kings - {k}| == 0;
      assert kings == (kings - {k}) + {k};
      assert forall j: Coord :: s[j] == Man(c, King) ==> j in kings;
      assert IsKingAt(s, c, k);
    }
  }

  lemma PawnRows(s: Cells)
    ensures PawnsInside(s) <==>
      (OfCell(s, Man(White, Pawn)) + OfCell(s, Man(Black, Pawn))) * INVALID_PAWN_ROWS == {}
  {
    var pawns := OfCell(s, Man(White, Pawn)) + OfCell(s, Man(Black, Pawn));
    forall c: Coord
      ensures c in pawns * INVALID_PAWN_ROWS <==> s[c].Man? && s[c].piece.Pawn? && !(1 <= CoordX(c) <= 6)
    {
      assert s[c].Man? ==> s[c].color == White || s[c].color == Black;
    }
  }

  /** The checks on bitboards, taken together, are validity. */
  lemma ValidByChecks(p: Position)
    requires Settled(p)
    ensures var s := p.cells;
      Valid(p) <==>
        && |OfColor(s, White)| <= 16 && |OfColor(s, Black)| <= 16
        && |OfCell(s, Man(White, King))| == 1 && |OfCell(s, Man(Black, King))| == 1
        && (OfCell(s, Man(White, Pawn)) + OfCell(s, Man(Black, Pawn))) * INVALID_PAWN_ROWS == {}
        && !KingExposed(p)
  {
    KingCount(p.cells, White);
    KingCount(p.cells, Black);
    PawnRows(p.cells);
    hide Settled;
    hide OfCell;
    hide OfColor;
    hide OneKing;
    hide PawnsInside;
    hide KingExposed;
    if Valid(p) {
      assert |OfColor(p.cells, White)| <= 16 && |OfColor(p.cells, Black)| <= 16;
      assert OneKing(p.cells, White) && OneKing(p.cells, Black);
    } else if
      && |OfColor(p.cells, White)| <= 16 && |OfColor(p.cells, Black)| <= 16
      && OneKing(p.cells, White) && OneKing(p.cells, Black)
    {
      forall c: Color
        ensures OneKing(p.cells, c) && |OfColor(p.cells, c)| <= 16
      {
        assert c == White || c == Black;
      }
    }
  }

  /** Accepts exactly the boards that are valid once the flags are corrected, and says what is wrong
      with the others. */
  method Validate(b: Board) returns (r: ValidateResult)
    requires b.Shape()
    modifies b
    ensures r == ValidateOk <==> EnpassantRowOk(old(b.Pos())) && Valid(Normalized(old(b.Pos())))
    ensures r == InvalidEnpassantRow <==> !EnpassantRowOk(old(b.Pos()))
    ensures r != InvalidEnpassantRow ==> b.Consistent() && b.Pos() == Normalized(old(b.Pos()))
    ensures var white, black := OfColor(b.cells[..], White), OfColor(b.cells[..], Black);
      r == TooManyPieces ==> |white| > 16 || |black| > 16
    ensures var whiteKing, blackKing := OfCell(b.cells[..], Man(White, King)), OfCell(b.cells[..], Man(Black, King));
      && (r == NoKing ==> whiteKing == {} || blackKing == {})
      && (r == TooManyKings ==> |whiteKing| > 1 || |blackKing| > 1)
    ensures r == InvalidPawnPosition ==> !PawnsInside(b.cells[..])
    ensures r == OpponentKingAttacked ==> KingExposed(b.Pos())
  {
    if b.enpassantCoord != INVALID_COORD {
      if CoordX(b.enpassantCoord) != EnpassantSrcRow(b.side) {
        return InvalidEnpassantRow;
      }
    }
    b.Update();
    ghost var s := b.cells[..];
    KingCount(s, White);
    KingCount(s, Black);
    PawnRows(s);
    ValidByChecks(b.Pos());
    assert b.bbPieces[Man(White, King)] == OfCell(s, Man(White, King));
    assert b.bbPieces[Man(Black, King)] == OfCell(s, Man(Black, King));
    assert b.bbPieces[Man(White, Pawn)] == OfCell(s, Man(White, Pawn));
    assert b.bbPieces[Man(Black, Pawn)] == OfCell(s, Man(Black, Pawn));
    assert b.bbWhite == OfColor(s, White) && b.bbBlack == OfColor(s, Black);
    assert Man(White, King) in b.bbPieces && Man(Black, King) in b.bbPieces;
    assert Man(White, Pawn) in b.bbPieces && Man(Black, Pawn) in b.bbPieces;
    hide Valid;
    hide PawnsInside;
    hide OfCell;
    hide OfColor;
    hide Normalized;
    hide KingExposed;
    hide Bitboards.PieceBoards.Match;
    hide Settled;
    hide Board.HashOk;
    if |b.bbWhite| > 16 || |b.bbBlack| > 16 {
      return TooManyPieces;
    }
    var bbWhiteKing, bbBlackKing := b.bbPieces[Man(White, King)], b.bbPieces[Man(Black, King)];
    if bbWhiteKing == {} || bbBlackKing == {} {
      return NoKing;
    }
    if |bbWhiteKing| != 1 || |bbBlackKing| != 1 {
      return TooManyKings;
    }
    if (b.bbPieces[Man(White, Pawn)] + b.bbPieces[Man(Black, Pawn)]) * INVALID_PAWN_ROWS != {} {
      return InvalidPawnPosition;
    }
    assert OneKing(s, b.side.Invert());
    if !WasMoveLegal(b) {
      return OpponentKingAttacked;
    }
    return ValidateOk;
  }
}

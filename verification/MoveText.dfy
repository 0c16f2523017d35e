/** The text form of a move. On its board every move survives writing and reading. */
module MoveText {
  import opened Types
  import opened Geometry
  import opened Rules
  import opened Invariants
  import opened Fen

  /** A coordinate, or -1. */
  type MaybeCoord = EnpassantCoord

  datatype PromotePiece = NoPiece | ToKnight | ToBishop | ToRook | ToQueen

  datatype ParsedMove = ParsedMove(promote: PromotePiece, src: MaybeCoord, dst: MaybeCoord)

  const INVALID_PARSED_MOVE := ParsedMove(NoPiece, -1, -1)
  const NULL_PARSED_MOVE := ParsedMove(NoPiece, 0, 0)

  function YChar(c: Coord): (r: char)
    ensures 'a' <= r <= 'h'
  {
    'a' + CoordY(c) as char
  }

  function XChar(c: Coord): (r: char)
    ensures '1' <= r <= '8'
  {
    '8' - CoordX(c) as char
  }

  function PromoteChar(kind: MoveKind): char
    requires kind.IsPromote()
  {
    if kind.PromoteKnight? then 'n' else if kind.PromoteBishop? then 'b' else if kind.PromoteRook? then 'r' else 'q'
  }

  function MoveToStr(m: Move): (s: string)
    ensures |s| == if m.kind.IsPromote() then 5 else 4
  {
    if m.kind.Null? then "0000"
    else
      [YChar(m.src), XChar(m.src), YChar(m.dst), XChar(m.dst)]
      + if m.kind.IsPromote() then [PromoteChar(m.kind)] else ""
  }

  predicate IsXChar(c: char) { '1' <= c <= '8' }

  predicate IsYChar(c: char) { 'a' <= c <= 'h' }

  function CharsToCoord(cy: char, cx: char): Coord
    requires IsYChar(cy) && IsXChar(cx)
  {
    8 * ('8' as int - cx as int) + (cy as int - 'a' as int)
  }

  function FromStr(s: string): ParsedMove {
    if |s| != 4 && |s| != 5 then INVALID_PARSED_MOVE
    else if s == "0000" then NULL_PARSED_MOVE
    else if !IsYChar(s[0]) || !IsXChar(s[1]) || !IsYChar(s[2]) || !IsXChar(s[3]) then INVALID_PARSED_MOVE
    else
      var src: MaybeCoord, dst: MaybeCoord := CharsToCoord(s[0], s[1]), CharsToCoord(s[2], s[3]);
      if |s| == 4 then ParsedMove(NoPiece, src, dst)
      else if s[4] == 'n' then ParsedMove(ToKnight, src, dst)
      else if s[4] == 'b' then ParsedMove(ToBishop, src, dst)
      else if s[4] == 'r' then ParsedMove(ToRook, src, dst)
      else if s[4] == 'q' then ParsedMove(ToQueen, src, dst)
      else INVALID_PARSED_MOVE
  }

  function PromoteKind(promote: PromotePiece): MoveKind
    requires !promote.NoPiece?
  {
    match promote
    case ToKnight => PromoteKnight
    case ToBishop => PromoteBishop
    case ToRook => PromoteRook
    case ToQueen => PromoteQueen
  }

  /** The move that the text means on the board: double moves, en passant and castling are told by what
      stands on the cells. */
  function MoveFromParsed(pm: ParsedMove, p: Position): Move {
    var c, off := p.side, CastlingOffset(p.side);
    if pm.src == -1 || pm.dst == -1 then Move(Invalid, 0, 0)
    else if pm == NULL_PARSED_MOVE then NULL_MOVE
    else if !pm.promote.NoPiece? then Move(PromoteKind(pm.promote), pm.src, pm.dst)
    else if p.cells[pm.src] == Man(c, Pawn) && CoordX(pm.src) == DoubleMoveSrcRow(c)
      && CoordX(pm.dst) == DoubleMoveDstRow(c)
    then Move(PawnDoubleMove, pm.src, pm.dst)
    else if p.cells[pm.src] == Man(c, Pawn) && CoordY(pm.src) != CoordY(pm.dst) && p.cells[pm.dst] == Empty
    then Move(Enpassant, pm.src, pm.dst)
    else if p.cells[pm.src] == Man(c, King) && pm.src == off + 4 && pm.dst == off + 6
      then Move(CastlingKingside, pm.src, pm.dst)
    else if p.cells[pm.src] == Man(c, King) && pm.src == off + 4 && pm.dst == off + 2
      then Move(CastlingQueenside, pm.src, pm.dst)
    else Move(Simple, pm.src, pm.dst)
  }

  function MoveParse(s: string, p: Position): Move { MoveFromParsed(FromStr(s), p) }

  lemma CoordRoundTrip(c: Coord)
    ensures CharsToCoord(YChar(c), XChar(c)) == c
  {}

  lemma CharsRoundTrip(cy: char, cx: char)
    requires IsYChar(cy) && IsXChar(cx)
    ensures YChar(CharsToCoord(cy, cx)) == cy && XChar(CharsToCoord(cy, cx)) == cx
  {}

  /** Source, destination and promotion are read back. */
  lemma ParsedRoundTrip(m: Move)
    requires m.kind != Null
    ensures FromStr(MoveToStr(m)) == ParsedMove(
      match m.kind
      case PromoteKnight => ToKnight
      case PromoteBishop => ToBishop
      case PromoteRook => ToRook
      case PromoteQueen => ToQueen
      case _ => NoPiece, m.src, m.dst)
  {
    CoordRoundTrip(m.src);
    CoordRoundTrip(m.dst);
    assert "0000"[0] == '0' && MoveToStr(m)[0] == YChar(m.src);
  }

  /** What the board tells about the kind of a pseudo-legal move. */
  lemma KindFromCells(p: Position, m: Move)
    requires Sound(p) && PseudoLegal(p, m)
    ensures m.src != m.dst && m.kind != Null && m.kind != Invalid
    ensures m.kind == PawnDoubleMove || m.kind == Enpassant ==> p.cells[m.src] == Man(p.side, Pawn)
    ensures !m.kind.IsPromote() && p.cells[m.src] == Man(p.side, Pawn) ==>
      && (m.kind == PawnDoubleMove <==>
            CoordX(m.src) == DoubleMoveSrcRow(p.side) && CoordX(m.dst) == DoubleMoveDstRow(p.side))
      && (m.kind == Enpassant <==> CoordY(m.src) != CoordY(m.dst) && p.cells[m.dst] == Empty)
    ensures var off := CastlingOffset(p.side);
      && (m.kind == CastlingKingside <==>
            !m.kind.IsPromote() && p.cells[m.src] == Man(p.side, King) && m.src == off + 4 && m.dst == off + 6)
      && (m.kind == CastlingQueenside <==>
            !m.kind.IsPromote() && p.cells[m.src] == Man(p.side, King) && m.src == off + 4 && m.dst == off + 2)
  {
    if m.kind.IsCastling() {
      CastlingCells(p, m);
      hide PseudoLegal;
    } else {
      StepCells(p, m);
      if p.cells[m.src] == Man(p.side, King) {
        KingStepIsShort(p, m);
      } else if p.cells[m.src] == Man(p.side, Pawn) && !m.kind.IsPromote() {
        PawnKinds(p, m);
      }
      hide PseudoLegal;
    }
    hide Sound;
  }

  lemma KingStepIsShort(p: Position, m: Move)
    requires PseudoLegal(p, m) && !m.kind.IsCastling() && p.cells[m.src] == Man(p.side, King)
    ensures KingStep(m.src, m.dst)
  {}

  lemma PawnKinds(p: Position, m: Move)
    requires Sound(p) && PseudoLegal(p, m) && !m.kind.IsPromote() && p.cells[m.src] == Man(p.side, Pawn)
    ensures m.kind == PawnDoubleMove <==>
      CoordX(m.src) == DoubleMoveSrcRow(p.side) && CoordX(m.dst) == DoubleMoveDstRow(p.side)
    ensures m.kind == Enpassant <==> CoordY(m.src) != CoordY(m.dst) && p.cells[m.dst] == Empty
  {
    hide CastlingSettled;
    hide CastlingPseudoLegal;
    hide Occupied;
  }

  /** Every move that may be made survives writing and reading on its board. */
  lemma MoveRoundTrip(p: Position, m: Move)
    requires Sound(p) && Playable(p, m)
    ensures MoveParse(MoveToStr(m), p) == m
  {
    if m != NULL_MOVE {
      KindFromCells(p, m);
      ParsedRoundTrip(m);
      hide Sound;
      hide PseudoLegal;
      hide FromStr;
      hide MoveToStr;
    }
  }

  /** A text that is read as some move is the text of that move, with one exception: "a8a8" is read as
      the null move, which is written "0000". */
  lemma TextRoundTrip(p: Position, s: string)
    requires MoveParse(s, p).kind != Invalid
    ensures MoveToStr(MoveParse(s, p)) == s <==> s != "a8a8"
  {
    if s != "0000" {
      CharsRoundTrip(s[0], s[1]);
      CharsRoundTrip(s[2], s[3]);
      assert s == [s[0], s[1], s[2], s[3]] + s[4..];
      TextOfNull(s);
    }
  }

  lemma TextOfNull(s: string)
    requires s != "0000" && FromStr(s) != INVALID_PARSED_MOVE
    ensures FromStr(s) == NULL_PARSED_MOVE <==> s == "a8a8"
  {
    CharsRoundTrip(s[0], s[1]);
    CharsRoundTrip(s[2], s[3]);
  }

  /** The last letter of a promotion is the letter that the new man has in the text of the board, in lower case. */
  lemma PromotionLetter(p: Position, m: Move)
    requires Sound(p) && PseudoLegal(p, m) && m.kind.IsPromote()
    ensures var man := CellsAfter(p, m)[m.dst];
      man.Man? && |MoveToStr(m)| == 5 && MoveToStr(m)[4] == CellToChar(Man(Black, man.piece))
  {
    PromotionGives(p, m);
    hide Sound;
    hide PseudoLegal;
    hide CellsAfter;
  }

  /** The en passant field of the board text names the cell that was passed, as the text of a move would. */
  lemma EnpassantNamesPassedCell(side: Color, ep: Coord, d: Coord)
    requires CoordX(ep) == EnpassantSrcRow(side) && d == ep + PawnForwardDelta(side)
    ensures EnpassantText(side, ep) == [YChar(d), XChar(d)]
    ensures EnpassantText(side, ep) == MoveToStr(Move(Simple, ep, d))[2..]
  {}
}

/** The rules of chess on plain cells (FIDE Laws of Chess, Article 3): which cells a man attacks,
    which moves are pseudo-legal, and what a move does. Nothing here uses a piece bitboard, a hash
    or a table, so the fast code is proved against these definitions. */
module Rules {
  import opened Types
  import opened Geometry

  function Occupied(cells: Cells): Bitboard {
    set c: Coord | cells[c] != Empty
  }

  function OfColor(cells: Cells, color: Color): Bitboard {
    set c: Coord | cells[c].Man? && cells[c].color == color
  }

  function OfCell(cells: Cells, cell: Cell): Bitboard {
    set c: Coord | cells[c] == cell
  }

  predicate IsOwn(cells: Cells, color: Color, c: Coord) {
    cells[c].Man? && cells[c].color == color
  }

  /** The man `man` standing on `c` attacks `d` when exactly the cells `occupied` are taken. */
  predicate ManAttacks(man: Cell, occupied: Bitboard, c: Coord, d: Coord) {
    match man
    case Empty => false
    case Man(color, Pawn) => PawnStep(color, c, d)
    case Man(_, King) => KingStep(c, d)
    case Man(_, Knight) => KnightStep(c, d)
    case Man(_, Bishop) => BishopSees(occupied, c, d)
    case Man(_, Rook) => RookSees(occupied, c, d)
    case Man(_, Queen) => BishopSees(occupied, c, d) || RookSees(occupied, c, d)
  }

  /** The men of `color` that attack `d`. */
  function Attackers(cells: Cells, color: Color, d: Coord): Bitboard {
    set c: Coord | IsOwn(cells, color, c) && ManAttacks(cells[c], Occupied(cells), c, d)
  }

  predicate IsAttacked(cells: Cells, color: Color, d: Coord) {
    Attackers(cells, color, d) != {}
  }

  /** `k` is the cell of the one king of `color`. */
  predicate IsKingAt(cells: Cells, color: Color, k: Coord) {
    && cells[k] == Man(color, King)
    && forall j: Coord :: cells[j] == Man(color, King) ==> j == k
  }

  predicate OneKing(cells: Cells, color: Color) {
    exists k: Coord :: IsKingAt(cells, color, k)
  }

  /** `k` is the first cell with a king of `color`; there may be more kings. */
  predicate IsFirstKing(cells: Cells, color: Color, k: Coord) {
    && cells[k] == Man(color, King)
    && forall j: Coord :: cells[j] == Man(color, King) ==> k <= j
  }

  predicate HasKing(cells: Cells, color: Color) {
    exists k: Coord :: cells[k] == Man(color, King)
  }

  lemma OneKingIsKing(cells: Cells, color: Color)
    requires OneKing(cells, color)
    ensures HasKing(cells, color)
  {}

  predicate PawnsInside(cells: Cells) {
    forall c: Coord :: cells[c].Man? && cells[c].piece.Pawn? ==> 1 <= CoordX(c) <= 6
  }

  predicate EnpassantRowOk(p: Position) {
    p.enpassant == -1 || CoordX(p.enpassant) == EnpassantSrcRow(p.side)
  }

  /** The en passant mark, if any, is on an enemy pawn with an empty cell behind it. */
  predicate EnpassantSettled(p: Position) {
    && EnpassantRowOk(p)
    && (p.enpassant != -1 ==>
          && p.cells[p.enpassant] == Man(p.side.Invert(), Pawn)
          && p.cells[p.enpassant + PawnForwardDelta(p.side)] == Empty)
  }

  /** Colour that owns a castling flag. */
  function FlagColor(f: CastlingFlag): Color {
    if f.WhiteQueenside? || f.WhiteKingside? then White else Black
  }

  function KingHome(f: CastlingFlag): Coord {
    CastlingOffset(FlagColor(f)) + 4
  }

  function RookHome(f: CastlingFlag): Coord {
    CastlingOffset(FlagColor(f)) + (if f.WhiteKingside? || f.BlackKingside? then 7 else 0)
  }

  predicate CastlingSettled(p: Position) {
    forall f :: f in p.castling ==>
      p.cells[KingHome(f)] == Man(FlagColor(f), King) && p.cells[RookHome(f)] == Man(FlagColor(f), Rook)
  }

  /** The flags agree with the cells, so nothing in them has to be corrected. */
  predicate Settled(p: Position) {
    EnpassantSettled(p) && CastlingSettled(p)
  }

  /** What the pseudo-legality of a move rests on. */
  predicate Sound(p: Position) {
    Settled(p) && PawnsInside(p.cells)
  }

  /** A board that the validity check accepts. */
  predicate Valid(p: Position) {
    && Sound(p)
    && (forall c: Color :: OneKing(p.cells, c))
    && (forall c: Color :: |OfColor(p.cells, c)| <= 16)
    && !KingExposed(p)
  }

  /** The side that has just moved left its king under attack. */
  predicate KingExposed(p: Position) {
    exists k: Coord :: IsKingAt(p.cells, p.side.Invert(), k) && IsAttacked(p.cells, p.side, k)
  }

  /** A pawn step that is neither a double move nor en passant. */
  predicate PawnReaches(p: Position, src: Coord, dst: Coord) {
    || (dst == src + PawnForwardDelta(p.side) && p.cells[dst] == Empty)
    || (PawnStep(p.side, src, dst) && IsOwn(p.cells, p.side.Invert(), dst))
  }

  predicate CastlingPseudoLegal(p: Position, flag: CastlingFlag, pass: Bitboard, through: Coord) {
    && flag in p.castling
    && pass !! Occupied(p.cells)
    && !IsAttacked(p.cells, p.side.Invert(), CastlingOffset(p.side) + 4)
    && !IsAttacked(p.cells, p.side.Invert(), through)
  }

  function KingsidePass(c: Color): Bitboard {
    {CastlingOffset(c) + 5, CastlingOffset(c) + 6}
  }

  function QueensidePass(c: Color): Bitboard {
    {CastlingOffset(c) + 1, CastlingOffset(c) + 2, CastlingOffset(c) + 3}
  }

  /** The move obeys the rules of chess, except that it may leave its own king under attack. */
  predicate PseudoLegal(p: Position, m: Move) {
    var c, off := p.side, CastlingOffset(p.side);
    match m.kind
    case Null => false
    case Invalid => false
    case Simple =>
      && IsOwn(p.cells, c, m.src)
      && !IsOwn(p.cells, c, m.dst)
      && if p.cells[m.src].piece.Pawn?
         then CoordX(m.src) != PromoteSrcRow(c) && PawnReaches(p, m.src, m.dst)
         else ManAttacks(p.cells[m.src], Occupied(p.cells), m.src, m.dst)
    case PawnDoubleMove =>
      && p.cells[m.src] == Man(c, Pawn)
      && CoordX(m.src) == DoubleMoveSrcRow(c)
      && m.dst == m.src + 2 * PawnForwardDelta(c)
      && p.cells[m.src + PawnForwardDelta(c)] == Empty
      && p.cells[m.dst] == Empty
    case Enpassant =>
      && p.enpassant != -1
      && p.cells[m.src] == Man(c, Pawn)
      && CoordX(m.src) == CoordX(p.enpassant)
      && (CoordY(m.src) == CoordY(p.enpassant) - 1 || CoordY(m.src) == CoordY(p.enpassant) + 1)
      && m.dst == p.enpassant + PawnForwardDelta(c)
    case CastlingKingside =>
      && m.src == off + 4 && m.dst == off + 6
      && CastlingPseudoLegal(p, Kingside(c), KingsidePass(c), off + 5)
    case CastlingQueenside =>
      && m.src == off + 4 && m.dst == off + 2
      && CastlingPseudoLegal(p, Queenside(c), QueensidePass(c), off + 3)
    case _ =>
      && p.cells[m.src] == Man(c, Pawn)
      && CoordX(m.src) == PromoteSrcRow(c)
      && PawnReaches(p, m.src, m.dst)
  }

  /** The shape of a move for the side `c`, without a look at the board. */
  predicate IsWellFormed(m: Move, c: Color) {
    && (m.kind != Null ==> m.src != m.dst)
    && match m.kind
       case Simple => true
       case PawnDoubleMove =>
         && CoordX(m.src) == DoubleMoveSrcRow(c) && CoordX(m.dst) == DoubleMoveDstRow(c)
         && CoordY(m.src) == CoordY(m.dst)
       case CastlingKingside => m.src == CastlingOffset(c) + 4 && m.dst == CastlingOffset(c) + 6
       case CastlingQueenside => m.src == CastlingOffset(c) + 4 && m.dst == CastlingOffset(c) + 2
       case Null => m.src == 0 && m.dst == 0
       case Enpassant =>
         && CoordX(m.src) == EnpassantSrcRow(c) && CoordX(m.dst) == EnpassantDstRow(c)
         && (CoordY(m.src) + 1 == CoordY(m.dst) || CoordY(m.src) - 1 == CoordY(m.dst))
       case Invalid => false
       case _ =>
         && CoordX(m.src) == PromoteSrcRow(c) && CoordX(m.dst) == PromoteDstRow(c)
         && -1 <= CoordY(m.src) - CoordY(m.dst) <= 1
  }

  /** A move that may be made: a pseudo-legal one, or the null move. */
  predicate Playable(p: Position, m: Move) {
    m == NULL_MOVE || PseudoLegal(p, m)
  }

  function AfterKingside(s: Cells, c: Color): Cells {
    var off := CastlingOffset(c);
    s[off + 4 := Empty][off + 5 := Man(c, Rook)][off + 6 := Man(c, King)][off + 7 := Empty]
  }

  function AfterQueenside(s: Cells, c: Color): Cells {
    var off := CastlingOffset(c);
    s[off := Empty][off + 2 := Man(c, King)][off + 3 := Man(c, Rook)][off + 4 := Empty]
  }

  /** The cells after the move. */
  function CellsAfter(p: Position, m: Move): Cells
  {
    var s, c := p.cells, p.side;
    match m.kind
    case Null => s
    case Invalid => s
    case Simple => s[m.src := Empty][m.dst := s[m.src]]
    case PawnDoubleMove => s[m.src := Empty][m.dst := s[m.src]]
    case Enpassant =>
      var t, taken := s[m.src := Empty][m.dst := s[m.src]], EnpassantPawnPos(c, m.dst);
      if 0 <= taken < 64 then t[taken := Empty] else t
    case CastlingKingside => AfterKingside(s, c)
    case CastlingQueenside => AfterQueenside(s, c)
    case _ => s[m.src := Empty][m.dst := Man(c, m.kind.PromotePiece())]
  }

  /** A castling right is kept while nothing leaves or enters its two home cells. */
  function CastlingAfter(p: Position, m: Move): set<CastlingFlag> {
    if m.kind.Null? then p.castling
    else
      set f | f in p.castling && {m.src, m.dst} !! {KingHome(f), RookHome(f)}
  }

  /** A capture or a pawn step restarts the move counter. The null move is looked up by its source
      and destination, both 0, like any other: it restarts the counter when a8 is taken. */
  predicate RestartsCounter(p: Position, m: Move)
  {
    p.cells[m.dst] != Empty || p.cells[m.src] == Man(p.side, Pawn)
  }

  function Increment(n: Uint16): Uint16 { (n + 1) % 0x1_0000 }

  function Decrement(n: Uint16): Uint16 { (n - 1) % 0x1_0000 }

  /** The position after the move. */
  function Play(p: Position, m: Move): Position
  {
    Position(
      CellsAfter(p, m),
      p.side.Invert(),
      CastlingAfter(p, m),
      if m.kind.PawnDoubleMove? then m.dst else -1,
      if RestartsCounter(p, m) then 0 else Increment(p.moveCounter),
      if p.side.Black? then Increment(p.moveNumber) else p.moveNumber)
  }

  /** The move obeys the rules of chess. */
  predicate IsLegal(p: Position, m: Move) {
    PseudoLegal(p, m) && !KingExposed(Play(p, m))
  }
}

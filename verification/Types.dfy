/** Basic entities of the chess core: colours, pieces, cell contents, coordinates, moves and
    positions, with the row constants that depend on the side to move. */
module Types {

  /** Cells are numbered row by row from a8 (0) to h1 (63). */
  type Coord = c: int | 0 <= c < 64

  /** A 64-bit mask, seen as the set of its one bits. */
  type Bitboard = set<Coord>

  /** Coordinate of the pawn that has just made a double move, or -1. */
  type EnpassantCoord = c: int | -1 <= c < 64

  type Uint16 = n: int | 0 <= n < 0x1_0000

  const INVALID_COORD: EnpassantCoord := -1

  datatype Color = White | Black {
    function Invert(): (c: Color)
      ensures c != this
    {
      if White? then Black else White
    }
  }

  datatype Piece = Pawn | King | Knight | Bishop | Rook | Queen

  datatype Cell = Empty | Man(color: Color, piece: Piece)

  type Cells = s: seq<Cell> | |s| == 64 witness seq(64, _ => Empty)

  datatype CastlingFlag = WhiteQueenside | WhiteKingside | BlackQueenside | BlackKingside

  const ALL_CASTLING: set<CastlingFlag> :=
    {WhiteQueenside, WhiteKingside, BlackQueenside, BlackKingside}

  function Kingside(c: Color): CastlingFlag {
    if c.White? then WhiteKingside else BlackKingside
  }

  function Queenside(c: Color): CastlingFlag {
    if c.White? then WhiteQueenside else BlackQueenside
  }

  datatype MoveKind =
    | Null
    | Simple
    | PawnDoubleMove
    | Enpassant
    | CastlingKingside
    | CastlingQueenside
    | PromoteKnight
    | PromoteBishop
    | PromoteRook
    | PromoteQueen
    | Invalid
  {
    predicate IsPromote() {
      PromoteKnight? || PromoteBishop? || PromoteRook? || PromoteQueen?
    }

    predicate IsCastling() {
      CastlingKingside? || CastlingQueenside?
    }

    function PromotePiece(): Piece
      requires IsPromote()
    {
      if PromoteKnight? then Knight
      else if PromoteBishop? then Bishop
      else if PromoteRook? then Rook
      else Queen
    }
  }

  datatype Move = Move(kind: MoveKind, src: Coord, dst: Coord)

  const NULL_MOVE := Move(Null, 0, 0)

  /** The essential fields of a board. */
  datatype Position = Position(
    cells: Cells,
    side: Color,
    castling: set<CastlingFlag>,
    enpassant: EnpassantCoord,
    moveCounter: Uint16,
    moveNumber: Uint16)

  function CoordX(c: Coord): (x: int)
    ensures 0 <= x < 8
  {
    c / 8
  }

  function CoordY(c: Coord): (y: int)
    ensures 0 <= y < 8
  {
    c % 8
  }

  function MakeCoord(x: int, y: int): (c: Coord)
    requires 0 <= x < 8 && 0 <= y < 8
    ensures CoordX(c) == x && CoordY(c) == y
  {
    8 * x + y
  }

  function EnpassantSrcRow(c: Color): int { if c.White? then 3 else 4 }

  function EnpassantDstRow(c: Color): int { if c.White? then 2 else 5 }

  function PromoteSrcRow(c: Color): int { if c.White? then 1 else 6 }

  function PromoteDstRow(c: Color): int { if c.White? then 0 else 7 }

  function DoubleMoveSrcRow(c: Color): int { if c.White? then 6 else 1 }

  function DoubleMoveDstRow(c: Color): int { if c.White? then 4 else 3 }

  function CastlingOffset(c: Color): Coord { if c.White? then 56 else 0 }

  function PawnForwardDelta(c: Color): int { if c.White? then -8 else 8 }

  function PawnLeftDelta(c: Color): int { if c.White? then -9 else 7 }

  function PawnRightDelta(c: Color): int { if c.White? then -7 else 9 }

  function EnpassantPawnPos(c: Color, dst: int): int { if c.White? then dst + 8 else dst - 8 }

  const FULL: Bitboard := set c: Coord | 0 <= c < 64

  /** Symmetric difference: the `^` of two masks. */
  function Xor(a: Bitboard, b: Bitboard): Bitboard {
    (a - b) + (b - a)
  }

  function LowestFrom(bb: Bitboard, i: Coord): (c: Coord)
    requires exists j :: j in bb && i <= j
    ensures c in bb && i <= c
    ensures forall j :: j in bb && i <= j ==> c <= j
    decreases 64 - i
  {
    if i in bb then i else LowestFrom(bb, i + 1)
  }

  /** Index of the lowest one bit. */
  function Lowest(bb: Bitboard): (c: Coord)
    requires bb != {}
    ensures c in bb && forall j :: j in bb ==> c <= j
  {
    var j :| j in bb;
    assert 0 <= j;
    LowestFrom(bb, 0)
  }
}

/** The attack queries as the engine answers them, with the filled tables in place of the definitions. */
module AttackTables {
  import opened Types
  import opened Geometry
  import opened Rules
  import opened Legality
  import opened Boards
  import opened Attacks
  import opened NearAttacks
  import opened MagicGeometry
  import opened MagicTables

  class Tables {
    const bishop: MagicTable
    const rook: MagicTable
    const knight: array<Bitboard>
    const king: array<Bitboard>
    const whitePawn: array<Bitboard>
    const blackPawn: array<Bitboard>

    /** The tables hold what the lines and steps of the pieces give. */
    ghost predicate Filled()
      reads bishop.offsets, bishop.lookup, rook.offsets, rook.lookup, knight, king, whitePawn, blackPawn
    {
      && bishop.t == BishopType && bishop.Filled() && rook.t == RookType && rook.Filled()
      && knight.Length == 64 && (forall c: Coord :: knight[c] == KnightAttacks(c))
      && king.Length == 64 && (forall c: Coord :: king[c] == KingAttacks(c))
      && whitePawn.Length == 64 && (forall c: Coord :: whitePawn[c] == PawnAttacks(White, c))
      && blackPawn.Length == 64 && (forall c: Coord :: blackPawn[c] == PawnAttacks(Black, c))
    }

    constructor (bishopMagics: seq<Word64>, rookMagics: seq<Word64>)
      requires |bishopMagics| == 64 && forall c: Coord :: Injective(BishopType, c, bishopMagics[c])
      requires |rookMagics| == 64 && forall c: Coord :: Injective(RookType, c, rookMagics[c])
      ensures Filled()
    {
      bishop := new MagicTable(BishopType, bishopMagics);
      rook := new MagicTable(RookType, rookMagics);
      var knightAttacks := GenerateDirected(KNIGHT_OFFSETS);
      var kingAttacks := GenerateDirected(KING_OFFSETS);
      var whitePawnAttacks := GenerateDirected(WHITE_PAWN_OFFSETS);
      var blackPawnAttacks := GenerateDirected(BLACK_PAWN_OFFSETS);
      knight, king, whitePawn, blackPawn := knightAttacks, kingAttacks, whitePawnAttacks, blackPawnAttacks;
      new;
      hide MagicTable.Filled;
      forall c: Coord
        ensures knight[c] == KnightAttacks(c) && king[c] == KingAttacks(c)
        ensures whitePawn[c] == PawnAttacks(White, c) && blackPawn[c] == PawnAttacks(Black, c)
      {
        StepsAreNear(c);
      }
    }

    function PawnAttacksOf(c: Color, coord: Coord): (r: Bitboard)
      reads whitePawn, blackPawn
      requires whitePawn.Length == 64 && blackPawn.Length == 64
    {
      if c.White? then whitePawn[coord] else blackPawn[coord]
    }

    /** The men of `c` that attack `coord`, looked up. */
    function CellAttackers(b: Board, c: Color, coord: Coord): (r: Bitboard)
      reads b, b.cells
      reads bishop.offsets, bishop.lookup, rook.offsets, rook.lookup, knight, king, whitePawn, blackPawn
      requires Filled() && b.Consistent()
      ensures r == Attackers(b.cells[..], c, coord)
    {
      assert Attacks.CellAttackers(b, c, coord) == Attackers(b.cells[..], c, coord);
      b.bbPieces[Man(c, Pawn)] * PawnAttacksOf(c.Invert(), coord)
      + b.bbPieces[Man(c, King)] * king[coord]
      + b.bbPieces[Man(c, Knight)] * knight[coord]
      + bishop.MaskedAttackBitboard(b.bbAll, coord, BbDiagPieces(b, c))
      + rook.MaskedAttackBitboard(b.bbAll, coord, BbLinePieces(b, c))
    }

    /** Some man of `c` attacks `coord`, looked up. */
    function IsCellAttacked(b: Board, c: Color, coord: Coord): (r: bool)
      reads b, b.cells
      reads bishop.offsets, bishop.lookup, rook.offsets, rook.lookup, knight, king, whitePawn, blackPawn
      requires Filled() && b.Consistent()
      ensures r <==> IsAttacked(b.cells[..], c, coord)
    {
      assert Attacks.IsCellAttacked(b, c, coord) <==> IsAttacked(b.cells[..], c, coord);
      if || b.bbPieces[Man(c, Pawn)] * PawnAttacksOf(c.Invert(), coord) != {}
         || b.bbPieces[Man(c, King)] * king[coord] != {}
         || b.bbPieces[Man(c, Knight)] * knight[coord] != {}
      then true
      else
        || bishop.MaskedAttackBitboard(b.bbAll, coord, BbDiagPieces(b, c)) != {}
        || rook.MaskedAttackBitboard(b.bbAll, coord, BbLinePieces(b, c)) != {}
    }

    /** Some man of `c` inside `mask` attacks `coord` when exactly `occupied` is taken, looked up. */
    function IsAttackedMasked(b: Board, c: Color, coord: Coord, occupied: Bitboard, mask: Bitboard): (r: bool)
      reads b, b.cells
      reads bishop.offsets, bishop.lookup, rook.offsets, rook.lookup, knight, king, whitePawn, blackPawn
      requires Filled() && b.Consistent()
      ensures r <==> MaskedAttackers(b.cells[..], c, coord, occupied, mask) != {}
    {
      assert Attacks.IsAttackedMasked(b, c, coord, occupied, mask)
        <==> MaskedAttackers(b.cells[..], c, coord, occupied, mask) != {};
      if (b.bbPieces[Man(c, Pawn)] * PawnAttacksOf(c.Invert(), coord)
          + b.bbPieces[Man(c, King)] * king[coord]
          + b.bbPieces[Man(c, Knight)] * knight[coord]) * mask != {}
      then true
      else
        || bishop.MaskedAttackBitboard(occupied, coord, BbDiagPieces(b, c) * mask) != {}
        || rook.MaskedAttackBitboard(occupied, coord, BbLinePieces(b, c) * mask) != {}
    }
  }

  lemma StepsAreNear(c: Coord)
    ensures forall d: Coord :: d in KnightAttacks(c) <==> Near(KNIGHT_OFFSETS, c, d)
    ensures forall d: Coord :: d in KingAttacks(c) <==> Near(KING_OFFSETS, c, d)
    ensures forall d: Coord :: d in PawnAttacks(White, c) <==> Near(WHITE_PAWN_OFFSETS, c, d)
    ensures forall d: Coord :: d in PawnAttacks(Black, c) <==> Near(BLACK_PAWN_OFFSETS, c, d)
  {
    hide Near;
    hide KnightStep;
    hide KingStep;
    hide PawnStep;
    forall d: Coord
      ensures Near(KNIGHT_OFFSETS, c, d) <==> KnightStep(c, d)
      ensures Near(KING_OFFSETS, c, d) <==> KingStep(c, d)
      ensures Near(WHITE_PAWN_OFFSETS, c, d) <==> PawnStep(White, c, d)
      ensures Near(BLACK_PAWN_OFFSETS, c, d) <==> PawnStep(Black, c, d)
    {
      OffsetsAreSteps(c, d);
    }
  }
}

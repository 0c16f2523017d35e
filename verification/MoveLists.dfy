/** Lists of moves: which part of the rules a move comes under, what it means that a list holds
    certain moves exactly once, and the loops that turn bitboards into such lists. */
module MoveLists {
  import opened Types
  import opened Geometry
  import opened Rules

  /** The parts into which the generator splits the pseudo-legal moves. */
  datatype Part =
    | PawnPush
    | DoublePush
    | PushPromote
    | PawnTake
    | TakePromote
    | TakeEnpassant
    | KingPart
    | KnightPart
    | DiagonalPart
    | LinePart
    | CastlePart

  function PartOf(p: Position, m: Move): Part {
    match m.kind
    case PawnDoubleMove => DoublePush
    case Enpassant => TakeEnpassant
    case Simple =>
      (match p.cells[m.src]
       case Empty => PawnPush
       case Man(_, Pawn) => if p.cells[m.dst] == Empty then PawnPush else PawnTake
       case Man(_, King) => KingPart
       case Man(_, Knight) => KnightPart
       case Man(_, Bishop) => DiagonalPart
       case Man(_, Rook) => LinePart
       case Man(_, Queen) => if BishopLine(m.src, m.dst) then DiagonalPart else LinePart)
    case CastlingKingside => CastlePart
    case CastlingQueenside => CastlePart
    case _ => if p.cells[m.dst] == Empty then PushPromote else TakePromote
  }

  predicate IsCapture(p: Position, m: Move) {
    p.cells[m.dst] != Empty || m.kind == Enpassant
  }

  /** What a call of the generator asks for. */
  datatype Request = Request(parts: set<Part>, simple: bool, captures: bool, mask: Bitboard)

  /** The parts to which a mask of destinations does not apply. */
  const UNMASKED: set<Part> := {KingPart, TakeEnpassant, CastlePart}

  predicate Wanted(p: Position, q: Request, m: Move) {
    && PseudoLegal(p, m)
    && PartOf(p, m) in q.parts
    && (m.dst in q.mask || PartOf(p, m) in UNMASKED)
    && (if IsCapture(p, m) then q.captures else q.simple)
  }

  predicate NoRepeats(list: seq<Move>) {
    forall i, j :: 0 <= i < j < |list| ==> list[i] != list[j]
  }

  /** The list holds exactly the wanted moves, each of them once. */
  ghost predicate Lists(list: seq<Move>, p: Position, q: Request) {
    NoRepeats(list) && forall m: Move :: m in list <==> Wanted(p, q, m)
  }

  lemma NoRepeatsConcat(a: seq<Move>, b: seq<Move>)
    requires NoRepeats(a) && NoRepeats(b) && forall m: Move :: m in a ==> m !in b
    ensures NoRepeats(a + b)
  {
    forall i, j | 0 <= i < j < |a + b|
      ensures (a + b)[i] != (a + b)[j]
    {
      if i < |a| <= j {
        assert (a + b)[i] in a && (a + b)[j] in b;
      }
    }
  }

  /** Lists of different parts make one list of all of them. */
  lemma ListsConcat(a: seq<Move>, b: seq<Move>, p: Position, q: Request, r: Request)
    requires Lists(a, p, q) && Lists(b, p, r) && q.parts !! r.parts
    requires q.(parts := {}) == r.(parts := {})
    ensures Lists(a + b, p, q.(parts := q.parts + r.parts))
  {
    hide PseudoLegal;
    hide PartOf;
    NoRepeatsConcat(a, b);
    forall m
      ensures m in a + b <==> Wanted(p, q.(parts := q.parts + r.parts), m)
    {
      assert m in a + b <==> m in a || m in b;
    }
  }

  function PromoteKinds(): seq<MoveKind> {
    [PromoteKnight, PromoteBishop, PromoteRook, PromoteQueen]
  }

  /** Moves onto `dsts` from the cells `delta` before them. */
  predicate PawnShape(m: Move, dsts: Bitboard, delta: int, kinds: seq<MoveKind>) {
    m.dst in dsts && m.src == m.dst - delta && m.kind in kinds
  }

  function AddPawnMoves(kinds: seq<MoveKind>, src: Coord, dst: Coord): (list: seq<Move>)
    ensures |list| == |kinds| && forall i :: 0 <= i < |kinds| ==> list[i] == Move(kinds[i], src, dst)
  {
    seq(|kinds|, i requires 0 <= i < |kinds| => Move(kinds[i], src, dst))
  }

  lemma PawnMovesAt(kinds: seq<MoveKind>, src: Coord, dst: Coord)
    requires forall i, j :: 0 <= i < j < |kinds| ==> kinds[i] != kinds[j]
    ensures NoRepeats(AddPawnMoves(kinds, src, dst))
    ensures forall m: Move :: m in AddPawnMoves(kinds, src, dst) <==> m.src == src && m.dst == dst && m.kind in kinds
  {
    var list := AddPawnMoves(kinds, src, dst);
    forall m: Move | m.src == src && m.dst == dst && m.kind in kinds
      ensures m in list
    {
      var i :| 0 <= i < |kinds| && kinds[i] == m.kind;
      assert list[i] == m;
    }
  }

  /** Takes the lowest destination again and again and lists the pawn moves onto it. */
  method EmitPawnMoves(dsts: Bitboard, delta: int, kinds: seq<MoveKind>) returns (list: seq<Move>)
    requires forall d :: d in dsts ==> 0 <= d - delta < 64
    requires forall i, j :: 0 <= i < j < |kinds| ==> kinds[i] != kinds[j]
    ensures NoRepeats(list) && forall m: Move :: m in list <==> PawnShape(m, dsts, delta, kinds)
  {
    list := [];
    var rest := dsts;
    while rest != {}
      invariant rest <= dsts
      invariant NoRepeats(list)
      invariant forall m: Move :: m in list <==> PawnShape(m, dsts - rest, delta, kinds)
      decreases rest
    {
      var dst := Lowest(rest);
      var more := AddPawnMoves(kinds, dst - delta, dst);
      PawnMovesAt(kinds, dst - delta, dst);
      NoRepeatsConcat(list, more);
      rest := rest - {dst};
      list := list + more;
    }
    assert dsts - rest == dsts;
  }

  predicate PieceShape(m: Move, bbSrc: Bitboard, targets: Coord -> Bitboard) {
    m.kind == Simple && m.src in bbSrc && m.dst in targets(m.src)
  }

  method EmitTargets(src: Coord, dsts: Bitboard) returns (list: seq<Move>)
    ensures NoRepeats(list) && forall m: Move :: m in list <==> m.kind == Simple && m.src == src && m.dst in dsts
  {
    list := [];
    var rest := dsts;
    while rest != {}
      invariant rest <= dsts
      invariant NoRepeats(list)
      invariant forall m: Move :: m in list <==> m.kind == Simple && m.src == src && m.dst in dsts - rest
      decreases rest
    {
      var dst := Lowest(rest);
      rest := rest - {dst};
      list := list + [Move(Simple, src, dst)];
    }
  }

  /** Takes the lowest piece again and again and lists its moves onto its targets. */
  method EmitPieceMoves(bbSrc: Bitboard, targets: Coord -> Bitboard) returns (list: seq<Move>)
    ensures NoRepeats(list) && forall m: Move :: m in list <==> PieceShape(m, bbSrc, targets)
  {
    list := [];
    var rest := bbSrc;
    while rest != {}
      invariant rest <= bbSrc
      invariant NoRepeats(list)
      invariant forall m: Move :: m in list <==> PieceShape(m, bbSrc - rest, targets)
      decreases rest
    {
      var src := Lowest(rest);
      var more := EmitTargets(src, targets(src));
      NoRepeatsConcat(list, more);
      rest := rest - {src};
      list := list + more;
    }
    assert bbSrc - rest == bbSrc;
  }
}

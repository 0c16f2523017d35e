/** The evaluation tag: the sum of piece-square costs and the game stage, kept up to date from move to
    move instead of being summed over the board. */
module EvalTag {
  import opened Types
  import opened Rules
  import opened Invariants
  import opened Boards
  import opened Runs

  /** Middlegame and endgame scores packed into one number, so that both are added at once. */
  type Pair = int

  function Pack(first: int, second: int): Pair { second * 0x1_0000 + first }

  function Signed16(n: int): (r: int)
    ensures -0x8000 <= r < 0x8000
  {
    (n + 0x8000) % 0x1_0000 - 0x8000
  }

  /** The lowest 16 bits. */
  function First(v: Pair): int { Signed16(v) }

  /** The next 16 bits, corrected for the borrow that a negative first score causes. */
  function Second(v: Pair): int { Signed16(v / 0x1_0000 + if First(v) < 0 then 1 else 0) }

  /** A number kept in 32 bits. */
  function Wrap32(n: int): (r: int)
    ensures -0x8000_0000 <= r < 0x8000_0000
  {
    (n + 0x8000_0000) % 0x1_0000_0000 - 0x8000_0000
  }

  /** What is computed with pairs, one operation on packed numbers at a time. */
  datatype PairTerm =
    | From(first: int, second: int)
    | Plus(a: PairTerm, b: PairTerm)
    | Minus(a: PairTerm, b: PairTerm)
    | Negated(a: PairTerm)
    | Times(a: PairTerm, factor: int)
  {
    /** The middlegame score that is meant. */
    function FirstMeant(): int {
      match this
      case From(first, _) => first
      case Plus(a, b) => a.FirstMeant() + b.FirstMeant()
      case Minus(a, b) => a.FirstMeant() - b.FirstMeant()
      case Negated(a) => -a.FirstMeant()
      case Times(a, factor) => a.FirstMeant() * factor
    }

    /** The endgame score that is meant. */
    function SecondMeant(): int {
      match this
      case From(_, second) => second
      case Plus(a, b) => a.SecondMeant() + b.SecondMeant()
      case Minus(a, b) => a.SecondMeant() - b.SecondMeant()
      case Negated(a) => -a.SecondMeant()
      case Times(a, factor) => a.SecondMeant() * factor
    }

    /** The packed number, wrapped around by each operation. */
    function Value(): Pair {
      match this
      case From(first, second) => Wrap32(Pack(first, second))
      case Plus(a, b) => Wrap32(a.Value() + b.Value())
      case Minus(a, b) => Wrap32(a.Value() - b.Value())
      case Negated(a) => Wrap32(-a.Value())
      case Times(a, factor) => Wrap32(a.Value() * factor)
    }
  }

  /** Numbers that differ by a multiple of 2^32 wrap around to the same one. */
  lemma WrapsAlike(m: int, n: int, q: int)
    requires m == n + q * 0x1_0000_0000
    ensures Wrap32(m) == Wrap32(n)
  {
    assert (m + 0x8000_0000) % 0x1_0000_0000 == (n + 0x8000_0000) % 0x1_0000_0000;
  }

  /** How far a number is from its wrapped form. */
  lemma Excess(n: int) returns (q: int)
    ensures n == Wrap32(n) + q * 0x1_0000_0000
  {
    q := (n + 0x8000_0000) / 0x1_0000_0000;
  }

  /** However often the packed number wraps around, it is the packed form of what is meant. */
  lemma {:induction false} ValueIsPacked(t: PairTerm)
    ensures t.Value() == Wrap32(Pack(t.FirstMeant(), t.SecondMeant()))
  {
    match t
    case From(_, _) =>
    case Plus(a, b) =>
      ValueIsPacked(a);
      ValueIsPacked(b);
      SumWraps(Pack(a.FirstMeant(), a.SecondMeant()), Pack(b.FirstMeant(), b.SecondMeant()));
      hide Wrap32;
    case Minus(a, b) =>
      ValueIsPacked(a);
      ValueIsPacked(b);
      DifferenceWraps(Pack(a.FirstMeant(), a.SecondMeant()), Pack(b.FirstMeant(), b.SecondMeant()));
      hide Wrap32;
    case Negated(a) =>
      ValueIsPacked(a);
      DifferenceWraps(0, Pack(a.FirstMeant(), a.SecondMeant()));
      assert Wrap32(0) == 0;
      hide Wrap32;
    case Times(a, factor) =>
      ValueIsPacked(a);
      ProductWraps(Pack(a.FirstMeant(), a.SecondMeant()), factor);
      PackTimes(a.FirstMeant(), a.SecondMeant(), factor);
      hide Wrap32;
      hide Pack;
  }

  lemma SumWraps(m: int, n: int)
    ensures Wrap32(Wrap32(m) + Wrap32(n)) == Wrap32(m + n)
  {
    var q := Excess(m);
    var r := Excess(n);
    hide Wrap32;
    WrapsAlike(m + n, Wrap32(m) + Wrap32(n), q + r);
  }

  lemma DifferenceWraps(m: int, n: int)
    ensures Wrap32(Wrap32(m) - Wrap32(n)) == Wrap32(m - n)
  {
    var q := Excess(m);
    var r := Excess(n);
    hide Wrap32;
    WrapsAlike(m - n, Wrap32(m) - Wrap32(n), q - r);
  }

  lemma ProductWraps(m: int, factor: int)
    ensures Wrap32(Wrap32(m) * factor) == Wrap32(m * factor)
  {
    var q := Excess(m);
    hide Wrap32;
    assert m * factor == Wrap32(m) * factor + (q * factor) * 0x1_0000_0000 by {
      assert (Wrap32(m) + q * 0x1_0000_0000) * factor == Wrap32(m) * factor + (q * 0x1_0000_0000) * factor;
    }
    WrapsAlike(m * factor, Wrap32(m) * factor, q * factor);
  }

  lemma PackTimes(first: int, second: int, factor: int)
    ensures Pack(first, second) * factor == Pack(first * factor, second * factor)
  {}

  /** Whatever is computed with pairs, and however often the packed number wraps around on the way: both scores
      can be read from the result if the scores that are meant fit into 16 bits. */
  lemma PairRoundTrip(t: PairTerm)
    requires -0x8000 <= t.FirstMeant() < 0x8000 && -0x8000 <= t.SecondMeant() < 0x8000
    ensures First(t.Value()) == t.FirstMeant() && Second(t.Value()) == t.SecondMeant()
  {
    ValueIsPacked(t);
    Unpacked(t.FirstMeant(), t.SecondMeant());
    hide First;
    hide Second;
    hide Wrap32;
  }

  lemma Unpacked(x: int, y: int)
    requires -0x8000 <= x < 0x8000 && -0x8000 <= y < 0x8000
    ensures First(Wrap32(Pack(x, y))) == x && Second(Wrap32(Pack(x, y))) == y
  {
    var v := Wrap32(Pack(x, y));
    var q := Excess(Pack(x, y));
    assert v == (y - q * 0x1_0000) * 0x1_0000 + x;
    assert (v + 0x8000) % 0x1_0000 == (x + 0x8000) % 0x1_0000;
    assert v / 0x1_0000 + (if x < 0 then 1 else 0) == y - q * 0x1_0000;
    assert (y - q * 0x1_0000 + 0x8000) % 0x1_0000 == (y + 0x8000) % 0x1_0000;
  }

  /** Two scores of 16 bits fit into the packed number, unless the second is the lowest and the first negative. */
  lemma PairFits(x: int, y: int)
    requires -0x8000 <= x < 0x8000 && -0x8000 <= y < 0x8000
    ensures Pack(x, y) == Wrap32(Pack(x, y)) <==> !(y == -0x8000 && x < 0)
  {}

  /** Feature weights: a cost for each piece, a table for each piece, and one for the king in the end. */
  datatype Weights = Weights(piece: Piece -> int, table: (Piece, Coord) -> int, endKing: Coord -> int)

  /** The same column, the row counted from the other side. */
  function FlipX(c: Coord): (d: Coord)
    ensures CoordX(d) == 7 - CoordX(c) && CoordY(d) == CoordY(c)
  {
    56 - 8 * (c / 8) + c % 8
  }

  /** The cost of a white man. */
  function WhiteCost(w: Weights, piece: Piece, i: Coord): Pair {
    Pack(
      w.piece(piece) + w.table(piece, i),
      w.piece(piece) + if piece.King? then w.endKing(i) else w.table(piece, i))
  }

  /** The piece-square table. For black it is the negated white one with the rows flipped. */
  function Psq(w: Weights, v: Cell, i: Coord): Pair {
    match v
    case Empty => Pack(0, 0)
    case Man(White, piece) => WhiteCost(w, piece, i)
    case Man(Black, piece) => -WhiteCost(w, piece, FlipX(i))
  }

  const PIECES: seq<Piece> := [Pawn, King, Knight, Bishop, Rook, Queen]

  function CellIndex(v: Cell): (i: nat)
    ensures i < 15
  {
    match v
    case Empty => 0
    case Man(c, piece) =>
      (if c.White? then 0 else 8) +
        match piece
        case Pawn => 1
        case King => 2
        case Knight => 3
        case Bishop => 4
        case Rook => 5
        case Queen => 6
  }

  lemma CellIndexIsInjective(v: Cell, w: Cell)
    ensures CellIndex(v) == CellIndex(w) ==> v == w
  {}

  /** The cells of the first `n` pieces. */
  predicate Reached(v: Cell, n: nat)
    requires n <= |PIECES|
  {
    v.Man? && v.piece in PIECES[..n]
  }

  /** Fills in the table, for each piece and colour row by row from the white side. */
  method PsqFromBundle(w: Weights) returns (data: array2<Pair>)
    ensures fresh(data) && data.Length0 == 16 && data.Length1 == 64
    ensures forall v: Cell, i: Coord :: data[CellIndex(v), i] == Psq(w, v, i)
  {
    hide Psq;
    hide CellIndex;
    data := new Pair[16, 64]((_, _) => Pack(0, 0));
    for n := 0 to |PIECES|
      invariant forall v: Cell, i: Coord :: Reached(v, n) ==> data[CellIndex(v), i] == Psq(w, v, i)
      invariant forall v: Cell, i: Coord :: !Reached(v, n) ==> data[CellIndex(v), i] == Pack(0, 0)
    {
      NextReached(n);
      FillPiece(w, PIECES[n], White, data);
      FillPiece(w, PIECES[n], Black, data);
    }
    AllReached();
  }

  lemma NextReached(n: nat)
    requires n < |PIECES|
    ensures forall v: Cell :: Reached(v, n + 1) <==>
      Reached(v, n) || v == Man(White, PIECES[n]) || v == Man(Black, PIECES[n])
  {
    assert PIECES[..n + 1] == PIECES[..n] + [PIECES[n]];
    forall v: Cell
      ensures Reached(v, n + 1) <==> Reached(v, n) || v == Man(White, PIECES[n]) || v == Man(Black, PIECES[n])
    {
      hide PIECES;
      if v.Man? {
        assert v == Man(if v.color.White? then White else Black, v.piece);
      }
    }
  }

  lemma AllReached()
    ensures forall v: Cell :: v.Man? ==> Reached(v, |PIECES|)
    ensures forall w: Weights, i: Coord :: Psq(w, Empty, i) == Pack(0, 0)
  {
    assert PIECES[..|PIECES|] == PIECES;
    forall v: Cell | v.Man?
      ensures v.piece in PIECES
    {
      match v.piece
      case Pawn => assert PIECES[0] == Pawn;
      case King => assert PIECES[1] == King;
      case Knight => assert PIECES[2] == Knight;
      case Bishop => assert PIECES[3] == Bishop;
      case Rook => assert PIECES[4] == Rook;
      case Queen => assert PIECES[5] == Queen;
    }
  }

  method FillPiece(w: Weights, piece: Piece, color: Color, data: array2<Pair>)
    requires data.Length0 == 16 && data.Length1 == 64
    modifies data
    ensures forall i: Coord :: data[CellIndex(Man(color, piece)), i] == Psq(w, Man(color, piece), i)
    ensures forall v: Cell, i: Coord :: v != Man(color, piece) ==> data[CellIndex(v), i] == old(data[CellIndex(v), i])
  {
    var cell := Man(color, piece);
    forall v: Cell | v != cell
      ensures CellIndex(v) != CellIndex(cell)
    {
      CellIndexIsInjective(v, cell);
    }
    hide CellIndex;
    for i := 0 to 64
      invariant forall j: Coord :: Filled(color, i, j) ==> data[CellIndex(cell), j] == Psq(w, cell, j)
      invariant forall v: Cell, j: Coord :: v != cell ==> data[CellIndex(v), j] == old(data[CellIndex(v), j])
    {
      var cost := WhiteCost(w, piece, i);
      var pos := if color.White? then i else FlipX(i);
      assert FlipX(FlipX(i)) == i;
      data[CellIndex(cell), pos] := if color.White? then cost else -cost;
    }
  }

  /** The cells filled in when `n` white ones, or their reflections, are done. */
  predicate Filled(color: Color, n: nat, j: Coord) {
    (if color.White? then j else FlipX(j)) < n
  }

  function Stage(v: Cell): int {
    match v
    case Man(_, Knight) => 1
    case Man(_, Bishop) => 1
    case Man(_, Rook) => 2
    case Man(_, Queen) => 4
    case _ => 0
  }

  datatype Tag = Tag(psqCost: Pair, stage: int)

  function Add(a: Tag, b: Tag): Tag { Tag(a.psqCost + b.psqCost, a.stage + b.stage) }

  function Sub(a: Tag, b: Tag): Tag { Tag(a.psqCost - b.psqCost, a.stage - b.stage) }

  /** What one cell adds to the tag. */
  function CellTag(w: Weights, v: Cell, i: Coord): Tag { Tag(Psq(w, v, i), Stage(v)) }

  function TagUpTo(w: Weights, s: Cells, n: nat): Tag
    requires n <= 64
  {
    if n == 0 then Tag(0, 0) else Add(TagUpTo(w, s, n - 1), CellTag(w, s[n - 1], n - 1))
  }

  /** The tag of a board, summed from scratch. */
  function TagOf(w: Weights, s: Cells): Tag { TagUpTo(w, s, 64) }

  method TagFrom(w: Weights, b: Board) returns (tag: Tag)
    requires b.Shape()
    ensures tag == TagOf(w, b.cells[..])
  {
    var psq: Pair, stage := Pack(0, 0), 0;
    ghost var s: Cells := b.cells[..];
    for i := 0 to 64
      invariant Tag(psq, stage) == TagUpTo(w, s, i)
    {
      psq := psq + Psq(w, b.cells[i], i);
      stage := stage + Stage(b.cells[i]);
    }
    tag := Tag(psq, stage);
  }

  function KingsideUpdate(w: Weights, c: Color): Pair {
    var white := Psq(w, Man(White, King), 62) - Psq(w, Man(White, King), 60)
      + Psq(w, Man(White, Rook), 61) - Psq(w, Man(White, Rook), 63);
    if c.White? then white else -white
  }

  function QueensideUpdate(w: Weights, c: Color): Pair {
    var white := Psq(w, Man(White, King), 58) - Psq(w, Man(White, King), 60)
      + Psq(w, Man(White, Rook), 59) - Psq(w, Man(White, Rook), 56);
    if c.White? then white else -white
  }

  /** The tag after a move, from the tag before it and the board before it. */
  function Updated(w: Weights, tag: Tag, p: Position, m: Move): Tag {
    var s, c := p.cells, p.side;
    if m.kind.Null? then tag
    else if m.kind.CastlingKingside? then tag.(psqCost := tag.psqCost + KingsideUpdate(w, c))
    else if m.kind.CastlingQueenside? then tag.(psqCost := tag.psqCost + QueensideUpdate(w, c))
    else
      var src, dst := s[m.src], s[m.dst];
      var left := Tag(tag.psqCost - (Psq(w, src, m.src) + Psq(w, dst, m.dst)), tag.stage - Stage(dst));
      if m.kind.IsPromote() then
        var promoted := Man(c, m.kind.PromotePiece());
        Tag(left.psqCost + Psq(w, promoted, m.dst), left.stage + (Stage(promoted) - Stage(Man(c, Pawn))))
      else
        var moved := left.(psqCost := left.psqCost + Psq(w, src, m.dst));
        var pawnPos := EnpassantPawnPos(c, m.dst);
        if m.kind.Enpassant? && 0 <= pawnPos < 64 then
          Tag(moved.psqCost - Psq(w, Man(c.Invert(), Pawn), pawnPos), moved.stage - Stage(Man(c.Invert(), Pawn)))
        else moved
  }

  /** One cell changes. */
  lemma {:induction false} TagAfterPut(w: Weights, s: Cells, i: Coord, v: Cell, n: nat)
    requires n <= 64
    ensures TagUpTo(w, s[i := v], n) ==
      if i < n then Add(TagUpTo(w, s, n), Sub(CellTag(w, v, i), CellTag(w, s[i], i))) else TagUpTo(w, s, n)
  {
    hide CellTag;
    if n != 0 {
      TagAfterPut(w, s, i, v, n - 1);
    }
  }

  lemma TagAfterStep(w: Weights, s: Cells, src: Coord, dst: Coord, v: Cell)
    requires src != dst
    ensures TagOf(w, s[src := Empty][dst := v]) == Add(TagOf(w, s),
      Tag(Psq(w, v, dst) - Psq(w, s[src], src) - Psq(w, s[dst], dst), Stage(v) - Stage(s[src]) - Stage(s[dst])))
  {
    hide TagUpTo;
    hide WhiteCost;
    TagAfterPut(w, s, src, Empty, 64);
    TagAfterPut(w, s[src := Empty], dst, v, 64);
  }

  /** What four changed cells are worth. */
  function FourCost(w: Weights, c: Color, k: Coord, k': Coord, r: Coord, r': Coord): Pair {
    Psq(w, Man(c, King), k') - Psq(w, Man(c, King), k) + Psq(w, Man(c, Rook), r') - Psq(w, Man(c, Rook), r)
  }

  /** Four cells change by castling: the king's and the rook's old and new ones. */
  lemma TagAfterFour(w: Weights, s: Cells, c: Color, k: Coord, r: Coord, k': Coord, r': Coord)
    requires k != r && k != k' && k != r' && r != k' && r != r' && k' != r'
    requires s[k] == Man(c, King) && s[r] == Man(c, Rook) && s[k'] == s[r'] == Empty
    ensures TagOf(w, s[k := Empty][k' := Man(c, King)][r := Empty][r' := Man(c, Rook)]) == Add(TagOf(w, s),
      Tag(FourCost(w, c, k, k', r, r'), 0))
  {
    hide TagUpTo;
    hide WhiteCost;
    TagAfterStep(w, s, k, k', Man(c, King));
    TagAfterStep(w, s[k := Empty][k' := Man(c, King)], r, r', Man(c, Rook));
  }

  lemma BlackIsFlipped(w: Weights, piece: Piece, i: Coord, j: Coord)
    requires j == FlipX(i)
    ensures Psq(w, Man(Black, piece), i) == -Psq(w, Man(White, piece), j)
  {
    hide WhiteCost;
  }

  lemma KingsideIsFour(w: Weights, c: Color)
    ensures KingsideUpdate(w, c) ==
      if c.White? then FourCost(w, White, 60, 62, 63, 61) else FourCost(w, Black, 4, 6, 7, 5)
  {
    hide Psq;
    BlackIsFlipped(w, King, 4, 60);
    BlackIsFlipped(w, King, 6, 62);
    BlackIsFlipped(w, Rook, 7, 63);
    BlackIsFlipped(w, Rook, 5, 61);
  }

  lemma QueensideIsFour(w: Weights, c: Color)
    ensures QueensideUpdate(w, c) ==
      if c.White? then FourCost(w, White, 60, 58, 56, 59) else FourCost(w, Black, 4, 2, 0, 3)
  {
    hide Psq;
    BlackIsFlipped(w, King, 4, 60);
    BlackIsFlipped(w, King, 2, 58);
    BlackIsFlipped(w, Rook, 0, 56);
    BlackIsFlipped(w, Rook, 3, 59);
  }

  lemma CastlingAsFour(s: Cells, c: Color)
    ensures var off := CastlingOffset(c);
      && AfterKingside(s, c) == s[off + 4 := Empty][off + 6 := Man(c, King)][off + 7 := Empty][off + 5 := Man(c, Rook)]
      && AfterQueenside(s, c) == s[off + 4 := Empty][off + 2 := Man(c, King)][off := Empty][off + 3 := Man(c, Rook)]
  {}

  lemma TagAfterCastling(w: Weights, p: Position, m: Move)
    requires Sound(p) && PseudoLegal(p, m) && m.kind.IsCastling()
    ensures Updated(w, TagOf(w, p.cells), p, m) == TagOf(w, CellsAfter(p, m))
  {
    hide PseudoLegal;
    hide Sound;
    hide TagOf;
    hide Psq;
    hide AfterKingside;
    hide AfterQueenside;
    hide KingsideUpdate;
    hide QueensideUpdate;
    hide FourCost;
    CastlingCells(p, m);
    KingsideIsFour(w, p.side);
    QueensideIsFour(w, p.side);
    CastlingAsFour(p.cells, p.side);
    if p.side.White? {
      if m.kind.CastlingKingside? {
        TagAfterFour(w, p.cells, White, 60, 63, 62, 61);
      } else {
        TagAfterFour(w, p.cells, White, 60, 56, 58, 59);
      }
    } else {
      if m.kind.CastlingKingside? {
        TagAfterFour(w, p.cells, Black, 4, 7, 6, 5);
      } else {
        TagAfterFour(w, p.cells, Black, 4, 0, 2, 3);
      }
    }
  }

  /** The update gives the tag of the new board. For castling this rests on the black tables being the
      flipped and negated white ones. */
  lemma UpdateIsExact(w: Weights, p: Position, m: Move)
    requires Sound(p) && Playable(p, m)
    ensures Updated(w, TagOf(w, p.cells), p, m) == TagOf(w, CellsAfter(p, m))
  {
    if m.kind.IsCastling() {
      TagAfterCastling(w, p, m);
    } else if !m.kind.Null? {
      StepCells(p, m);
      hide Sound;
      hide PseudoLegal;
      hide TagUpTo;
      hide WhiteCost;
      var v := if m.kind.IsPromote() then Man(p.side, m.kind.PromotePiece()) else p.cells[m.src];
      var t := p.cells[m.src := Empty][m.dst := v];
      TagAfterStep(w, p.cells, m.src, m.dst, v);
      if m.kind.Enpassant? {
        TagAfterPut(w, t, p.enpassant, Empty, 64);
      }
    }
  }

  /** The tag that a run of moves hands on from move to move. */
  function RunTag(w: Weights, tag: Tag, p: Position, ms: seq<Move>): Tag
    decreases ms
  {
    if ms == [] then tag else RunTag(w, Updated(w, tag, p, ms[0]), Play(p, ms[0]), ms[1..])
  }

  lemma {:induction false} RunTagIsExact(w: Weights, p: Position, ms: seq<Move>)
    requires Sound(p) && PlayableRun(p, ms)
    ensures RunTag(w, TagOf(w, p.cells), p, ms) == TagOf(w, PlayRun(p, ms).cells)
    decreases ms
  {
    if ms != [] {
      UpdateIsExact(w, p, ms[0]);
      PlayKeepsSound(p, ms[0]);
      RunTagIsExact(w, Play(p, ms[0]), ms[1..]);
    }
    hide Sound;
    hide Playable;
    hide Updated;
    hide TagOf;
    hide CellsAfter;
  }

  // ---- The scores in the tag ----

  /** What a man is worth in the middlegame, or in the endgame: there the king has a table of its own. Black counts
      against white, on the rows seen from the other side. */
  function Worth(w: Weights, endgame: bool, v: Cell, i: Coord): int {
    if v == Empty then 0
    else
      var pos := if v.color.White? then i else FlipX(i);
      var worth := w.piece(v.piece) + if endgame && v.piece.King? then w.endKing(pos) else w.table(v.piece, pos);
      if v.color.White? then worth else -worth
  }

  function TotalWorth(w: Weights, endgame: bool, s: Cells, n: nat): int
    requires n <= 64
  {
    if n == 0 then 0 else TotalWorth(w, endgame, s, n - 1) + Worth(w, endgame, s[n - 1], n - 1)
  }

  lemma PsqIsPacked(w: Weights, v: Cell, i: Coord)
    ensures Psq(w, v, i) == Pack(Worth(w, false, v, i), Worth(w, true, v, i))
  {}

  lemma {:induction false} TagIsPacked(w: Weights, s: Cells, n: nat)
    requires n <= 64
    ensures TagUpTo(w, s, n).psqCost == Pack(TotalWorth(w, false, s, n), TotalWorth(w, true, s, n))
  {
    hide Psq;
    hide Worth;
    if n > 0 {
      TagIsPacked(w, s, n - 1);
      PsqIsPacked(w, s[n - 1], n - 1);
    }
  }

  /** Both scores can be read from the tag, kept in 32 bits, when they fit into 16 bits. */
  lemma TagScores(w: Weights, s: Cells)
    requires -0x8000 <= TotalWorth(w, false, s, 64) < 0x8000 && -0x8000 <= TotalWorth(w, true, s, 64) < 0x8000
    ensures First(Wrap32(TagOf(w, s).psqCost)) == TotalWorth(w, false, s, 64)
    ensures Second(Wrap32(TagOf(w, s).psqCost)) == TotalWorth(w, true, s, 64)
  {
    TagIsPacked(w, s, 64);
    PairRoundTrip(From(TotalWorth(w, false, s, 64), TotalWorth(w, true, s, 64)));
    hide First;
    hide Second;
    hide Wrap32;
    hide TotalWorth;
  }

  // ---- The stage counts the men ----

  function MenBelow(s: Cells, piece: Piece, n: nat): Bitboard {
    set c: Coord | c < n && s[c].Man? && s[c].piece == piece
  }

  lemma OneMoreMan(s: Cells, piece: Piece, n: Coord)
    ensures |MenBelow(s, piece, n + 1)| ==
      |MenBelow(s, piece, n)| + if s[n].Man? && s[n].piece == piece then 1 else 0
  {
    if s[n].Man? && s[n].piece == piece {
      assert MenBelow(s, piece, n + 1) == MenBelow(s, piece, n) + {n};
    } else {
      assert MenBelow(s, piece, n + 1) == MenBelow(s, piece, n);
    }
  }

  /** A knight or bishop counts once, a rook twice, a queen four times. */
  lemma {:induction false} StageCounts(w: Weights, s: Cells, n: nat)
    requires n <= 64
    ensures TagUpTo(w, s, n).stage ==
      |MenBelow(s, Knight, n)| + |MenBelow(s, Bishop, n)| + 2 * |MenBelow(s, Rook, n)| + 4 * |MenBelow(s, Queen, n)|
  {
    hide MenBelow;
    hide Psq;
    if n > 0 {
      StageCounts(w, s, n - 1);
      OneMoreMan(s, Knight, n - 1);
      OneMoreMan(s, Bishop, n - 1);
      OneMoreMan(s, Rook, n - 1);
      OneMoreMan(s, Queen, n - 1);
    } else {
      NoMen(s);
    }
  }

  lemma NoMen(s: Cells)
    ensures forall piece :: MenBelow(s, piece, 0) == {}
  {}
}

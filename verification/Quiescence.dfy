/** The quiescence search: fail-hard alpha-beta over captures and promotions, made and unmade on one
    board. Its answer is proved to agree, inside the window, with plain negamax. */
module Quiescence {
  import opened Types
  import opened Rules
  import opened Invariants
  import opened Boards
  import opened Attacks
  import opened Runs
  import opened MoveLists
  import opened MoveGenerator
  import opened Draws

  /** Scores fit into 16 bits, and so do their negations. */
  type Score = s: int | -32767 <= s <= 32767

  const SCORE_INF: Score := 32767

  /** A static score is never infinite. */
  type EvalScore = s: int | -32767 < s < 32767

  type Eval = Position -> EvalScore

  function Max(a: Score, b: Score): Score { if a >= b then a else b }

  function Clamp(s: Score, alpha: Score, beta: Score): Score {
    if s <= alpha then alpha else if s >= beta then beta else s
  }

  /** Captures and promotions make this number smaller. */
  function Material(s: Cells): nat {
    |Occupied(s)| + |OfPiece(s, Pawn)|
  }

  predicate IsNoisy(p: Position, m: Move) {
    PseudoLegal(p, m) && (IsCapture(p, m) || m.kind.IsPromote())
  }

  /** A man goes from `src` to `dst`, and no other cell is newly taken. */
  predicate IsStep(s: Cells, t: Cells, src: Coord, dst: Coord) {
    && src != dst && s[src] != Empty && t[src] == Empty
    && forall c: Coord :: c != dst ==> t[c] == s[c] || t[c] == Empty
  }

  lemma MenAfterStep(s: Cells, t: Cells, src: Coord, dst: Coord)
    requires IsStep(s, t, src, dst)
    ensures |Occupied(t)| <= |Occupied(s)|
    ensures s[dst] != Empty ==> |Occupied(t)| < |Occupied(s)|
  {
    Moved(Occupied(s), Occupied(t), src, dst);
  }

  lemma PawnsAfterStep(s: Cells, t: Cells, src: Coord, dst: Coord)
    requires IsStep(s, t, src, dst) && (IsPiece(t[dst], Pawn) ==> IsPiece(s[src], Pawn))
    ensures |OfPiece(t, Pawn)| <= |OfPiece(s, Pawn)|
    ensures IsPiece(s[src], Pawn) && !IsPiece(t[dst], Pawn) ==> |OfPiece(t, Pawn)| < |OfPiece(s, Pawn)|
  {
    if IsPiece(s[src], Pawn) {
      Moved(OfPiece(s, Pawn), OfPiece(t, Pawn), src, dst);
    } else {
      SubsetCardinality(OfPiece(t, Pawn), OfPiece(s, Pawn));
    }
  }

  lemma EnpassantShrinks(s: Cells, t: Cells, src: Coord, dst: Coord, taken: Coord)
    requires IsStep(s, t, src, dst) && taken != src && taken != dst && s[taken] != Empty && t[taken] == Empty
    ensures |Occupied(t)| < |Occupied(s)|
  {
    Moved(Occupied(s) - {taken}, Occupied(t), src, dst);
  }

  lemma NoisyShrinks(p: Position, m: Move)
    requires Sound(p) && IsNoisy(p, m)
    ensures Material(CellsAfter(p, m)) < Material(p.cells)
  {
    var s, t := p.cells, CellsAfter(p, m);
    if m.kind.IsCastling() {
      CastlingCells(p, m);
      assert false;
    }
    StepCells(p, m);
    hide Sound;
    hide PseudoLegal;
    hide Occupied;
    hide OfPiece;
    PawnsAfterStep(s, t, m.src, m.dst);
    MenAfterStep(s, t, m.src, m.dst);
    if m.kind.Enpassant? {
      EnpassantShrinks(s, t, m.src, m.dst, p.enpassant);
    }
  }

  // ---- The value that the search stands for ----

  const ALL_KINDS: set<MoveKind> :=
    {Null, Simple, PawnDoubleMove, Enpassant, CastlingKingside, CastlingQueenside,
     PromoteKnight, PromoteBishop, PromoteRook, PromoteQueen, Invalid}

  ghost predicate IsTried(p: Position, m: Move) {
    IsNoisy(p, m) && !KingExposed(Play(p, m))
  }

  /** The legal captures and promotions. */
  ghost function NoisyMoves(p: Position): set<Move> {
    set k, src: Coord, dst: Coord | k in ALL_KINDS && IsTried(p, Move(k, src, dst)) :: Move(k, src, dst)
  }

  lemma AllKinds(kind: MoveKind)
    ensures kind in ALL_KINDS
  {
    match kind
    case Null =>
    case Invalid =>
    case CastlingKingside =>
    case CastlingQueenside =>
    case _ =>
  }

  lemma NoisyMovesAre(p: Position, m: Move)
    ensures m in NoisyMoves(p) <==> IsTried(p, m)
  {
    AllKinds(m.kind);
    assert m == Move(m.kind, m.src, m.dst);
    hide IsTried;
  }

  ghost predicate IsMax(values: set<Score>, v: Score) {
    v in values && forall w :: w in values ==> w <= v
  }

  lemma {:induction false} HasMax(values: set<Score>)
    requires values != {}
    ensures exists v: Score :: IsMax(values, v)
  {
    var v :| v in values;
    if values != {v} {
      assert values - {v} != {};
      HasMax(values - {v});
      var w: Score :| IsMax(values - {v}, w);
      assert Max(v, w) in values;
      assert forall x: Score :: x in values ==> x == v || x in values - {v};
      assert IsMax(values, Max(v, w));
    } else {
      assert IsMax(values, v);
    }
  }

  ghost function MaxOf(values: set<Score>): (v: Score)
    requires values != {}
    ensures IsMax(values, v)
  {
    HasMax(values);
    var v: Score :| IsMax(values, v);
    v
  }

  lemma TriedMoves(p: Position)
    requires Valid(p)
    ensures forall m :: m in NoisyMoves(p) ==> Valid(Play(p, m)) && Material(Play(p, m).cells) < Material(p.cells)
  {
    forall m | m in NoisyMoves(p)
      ensures Valid(Play(p, m)) && Material(Play(p, m).cells) < Material(p.cells)
    {
      NoisyMovesAre(p, m);
      PlayKeepsValid(p, m);
      NoisyShrinks(p, m);
    }
  }

  /** Plain negamax: nothing on insufficient material, otherwise the best of the static score and of
      what the legal captures and promotions lead to. */
  ghost function QValue(eval: Eval, p: Position): Score
    requires Valid(p)
    decreases Material(p.cells)
  {
    hide Valid;
    hide Play;
    hide Material;
    hide NoisyMoves;
    if InsufficientMaterial(p.cells) then 0
    else
      TriedMoves(p);
      MaxOf({eval(p)} + set m | m in NoisyMoves(p) :: -QValue(eval, Play(p, m)))
  }

  /** The scores that are known once the moves `done` have been searched. */
  ghost function Scores(eval: Eval, p: Position, done: set<Move>): set<Score>
    requires Valid(p) && done <= NoisyMoves(p)
  {
    TriedMoves(p);
    {eval(p)} + set m | m in done :: -QValue(eval, Play(p, m))
  }

  lemma AllScores(eval: Eval, p: Position, v: Score)
    requires Valid(p) && !InsufficientMaterial(p.cells) && IsMax(Scores(eval, p, NoisyMoves(p)), v)
    ensures v == QValue(eval, p)
  {
    hide Valid;
    hide Play;
    hide NoisyMoves;
    hide Material;
    hide InsufficientMaterial;
    hide MaxOf;
    TriedMoves(p);
    assert Scores(eval, p, NoisyMoves(p)) == {eval(p)} + set m | m in NoisyMoves(p) :: -QValue(eval, Play(p, m));
  }

  /** One more move has been searched. */
  lemma OneMoreScore(eval: Eval, p: Position, done: set<Move>, m: Move, v: Score)
    requires Valid(p) && done <= NoisyMoves(p) && m in NoisyMoves(p) && IsMax(Scores(eval, p, done), v)
    requires Valid(Play(p, m))
    ensures done + {m} <= NoisyMoves(p)
    ensures IsMax(Scores(eval, p, done + {m}), Max(v, -QValue(eval, Play(p, m))))
  {
    hide Valid;
    hide Play;
    hide NoisyMoves;
    hide QValue;
    TriedMoves(p);
    assert Scores(eval, p, done + {m}) == Scores(eval, p, done) + {-QValue(eval, Play(p, m))};
  }

  // ---- The order of moves ----

  predicate SortedBy(list: seq<Move>, key: Move -> int) {
    forall i, j :: 0 <= i < j < |list| ==> key(list[i]) >= key(list[j])
  }

  /** Puts `m` behind all that is not below it. */
  method Insert(list: seq<Move>, m: Move, key: Move -> int) returns (r: seq<Move>)
    requires SortedBy(list, key)
    ensures multiset(r) == multiset(list) + multiset{m} && SortedBy(r, key)
  {
    var i := 0;
    while i < |list| && key(list[i]) >= key(m)
      invariant 0 <= i <= |list|
      invariant forall j :: 0 <= j < i ==> key(list[j]) >= key(m)
    {
      i := i + 1;
    }
    InsertedSame(list, i, m);
    InsertedSorted(list, i, m, key);
    hide SortedBy;
    r := list[..i] + [m] + list[i..];
  }

  lemma InsertedSame(list: seq<Move>, i: nat, m: Move)
    requires i <= |list|
    ensures multiset(list[..i] + [m] + list[i..]) == multiset(list) + multiset{m}
  {
    assert list == list[..i] + list[i..];
  }

  lemma InsertedSorted(list: seq<Move>, i: nat, m: Move, key: Move -> int)
    requires SortedBy(list, key) && i <= |list|
    requires forall j :: 0 <= j < i ==> key(list[j]) >= key(m)
    requires i < |list| ==> key(list[i]) < key(m)
    ensures SortedBy(list[..i] + [m] + list[i..], key)
  {
    var r := list[..i] + [m] + list[i..];
    forall j, k | 0 <= j < k < |r|
      ensures key(r[j]) >= key(r[k])
    {
      assert r[k] == if k < i then list[k] else if k == i then m else list[k - 1];
      assert r[j] == if j < i then list[j] else if j == i then m else list[j - 1];
      assert i < |list| && k > i ==> key(list[i]) >= key(list[k - 1]);
    }
  }

  /** Sorts by falling key; equal keys may come in any order. */
  method SortBy(list: seq<Move>, key: Move -> int) returns (r: seq<Move>)
    ensures multiset(r) == multiset(list) && SortedBy(r, key)
  {
    r := [];
    for n := 0 to |list|
      invariant multiset(r) == multiset(list[..n]) && SortedBy(r, key)
    {
      hide SortedBy;
      assert list[..n + 1] == list[..n] + [list[n]];
      r := Insert(r, list[n], key);
    }
    assert list[..|list|] == list;
  }

  lemma SameMoves(r: seq<Move>, list: seq<Move>)
    requires multiset(r) == multiset(list) && NoRepeats(list)
    ensures NoRepeats(r) && forall m: Move :: m in r <==> m in list
  {
    forall m: Move
      ensures m in r <==> m in list
    {
      assert m in r <==> m in multiset(r);
    }
    forall i, j | 0 <= i < j < |r|
      ensures r[i] != r[j]
    {
      CountIsOne(list, r[i]);
      assert r == r[..j] + r[j..];
      assert r[i] in multiset(r[..j]) && r[j] in multiset(r[j..]);
    }
  }

  /** Most valuable victim first, then least valuable attacker. */
  function VictimOrd(v: Cell): int {
    match v
    case Empty => 8
    case Man(_, Pawn) => 8
    case Man(_, King) => 0
    case Man(_, Knight) => 16
    case Man(_, Bishop) => 24
    case Man(_, Rook) => 32
    case Man(_, Queen) => 40
  }

  function AttackerOrd(v: Cell): int {
    match v
    case Empty => 0
    case Man(_, Pawn) => 6
    case Man(_, King) => 1
    case Man(_, Knight) => 5
    case Man(_, Bishop) => 4
    case Man(_, Rook) => 3
    case Man(_, Queen) => 2
  }

  function KindOrd(kind: MoveKind): int {
    if kind.PromoteQueen? then 9 else if kind.PromoteRook? then 8
    else if kind.PromoteBishop? then 7 else if kind.PromoteKnight? then 6 else 0
  }

  /** Men by their value; a pawn that is taken in passing does not stand on the destination. */
  function Rank(v: Cell): int {
    match v
    case Empty => 1
    case Man(_, Pawn) => 1
    case Man(_, Knight) => 2
    case Man(_, Bishop) => 3
    case Man(_, Rook) => 4
    case Man(_, Queen) => 5
    case Man(_, King) => 6
  }

  function CaptureOrd(s: Cells, m: Move): int { VictimOrd(s[m.dst]) + AttackerOrd(s[m.src]) }

  /** The sum of both orders puts the more valuable victim first, and of equal ones the less valuable attacker. */
  lemma VictimComesFirst(s: Cells, m: Move, n: Move)
    requires s[m.src].Man? && s[n.src].Man?
    requires !IsPiece(s[m.dst], King) && !IsPiece(s[n.dst], King)
    ensures CaptureOrd(s, m) > CaptureOrd(s, n) <==>
      || Rank(s[m.dst]) > Rank(s[n.dst])
      || (Rank(s[m.dst]) == Rank(s[n.dst]) && Rank(s[m.src]) < Rank(s[n.src]))
  {
    RankOfVictim(s[m.dst]);
    RankOfVictim(s[n.dst]);
    RankOfAttacker(s[m.src]);
    RankOfAttacker(s[n.src]);
    hide VictimOrd;
    hide AttackerOrd;
    hide Rank;
  }

  lemma RankOfVictim(v: Cell)
    requires !IsPiece(v, King)
    ensures VictimOrd(v) == 8 * Rank(v)
  {}

  lemma RankOfAttacker(v: Cell)
    requires v.Man?
    ensures AttackerOrd(v) == 7 - Rank(v) && 1 <= Rank(v) <= 6
  {}

  datatype Stage = Capture | SimplePromote

  /** Captures come by victim and attacker, promotions by the new man. */
  ghost predicate InOrder(p: Position, stage: Stage, list: seq<Move>) {
    forall i, j :: 0 <= i < j < |list| ==>
      if stage.Capture? then CaptureOrd(p.cells, list[i]) >= CaptureOrd(p.cells, list[j])
      else KindOrd(list[i].kind) >= KindOrd(list[j].kind)
  }

  /** Hands out the captures, then the simple promotions, each of them once. */
  class QuiescenseMovePicker {
    const gen: MoveGen
    ghost const p: Position
    var moves: seq<Move>
    var movePosition: nat
    var stage: Stage
    ghost var given: set<Move>

    ghost predicate Valid()
      reads this
    {
      && Rules.Sound(p) && gen.side == p.side
      && (exists k: Coord :: CheckState(p, k, gen.check, gen.checkMask))
      && movePosition <= |moves| && NoRepeats(moves) && InOrder(p, stage, moves)
      && (forall m: Move :: m in moves <==> IsOffered(stage, m))
      && (forall m: Move :: m in given <==>
            (stage.SimplePromote? && IsOffered(Capture, m)) || m in moves[..movePosition])
    }

    ghost predicate IsOffered(stage: Stage, m: Move) {
      if stage.Capture? then Wanted(p, gen.Query(false, true, false), m)
      else Wanted(p, AskedPromotes(gen.check, gen.checkMask), m)
    }

    constructor (b: Board)
      requires b.Consistent() && Rules.Sound(b.Pos()) && OneKing(b.cells[..], b.side)
      ensures Valid() && gen.b == b && p == b.Pos() && given == {}
    {
      gen := new MoveGen(b);
      p := b.Pos();
      movePosition, stage, given := 0, Capture, {};
      moves := [];
      new;
      AddCaptures();
    }

    method AddCaptures()
      requires gen.Fit() && gen.b.Pos() == p && movePosition == 0 && stage == Capture && given == {}
      modifies this
      ensures Valid() && given == {}
    {
      var cells: Cells := gen.b.cells[..];
      hide CheckState;
      hide Wanted;
      hide Sound;
      hide Board.Consistent;
      var captures := gen.GenCaptures();
      moves := SortBy(captures, (m: Move) => VictimOrd(cells[m.dst]) + AttackerOrd(cells[m.src]));
      SameMoves(moves, captures);
    }

    method AddSimplePromotes()
      requires Valid() && stage.Capture? && movePosition == |moves|
      requires gen.b.Consistent() && gen.b.Pos() == p
      modifies this
      ensures Valid() && stage.SimplePromote? && given == old(given)
    {
      hide CheckState;
      hide Wanted;
      var promotes := gen.GenSimplePromotes();
      assert moves[..movePosition] == moves;
      moves := SortBy(promotes, (m: Move) => KindOrd(m.kind));
      SameMoves(moves, promotes);
      movePosition := 0;
      stage := SimplePromote;
    }

    /** The next move, or an invalid one when every legal capture and promotion has been given. */
    method Next() returns (m: Move)
      requires Valid() && gen.b.Consistent() && gen.b.Pos() == p
      modifies this
      ensures Valid()
      ensures m.kind.Invalid? ==> given == old(given) && NoisyMoves(p) <= given
      ensures !m.kind.Invalid? ==> IsNoisy(p, m) && m !in old(given) && given == old(given) + {m}
      ensures old(stage.SimplePromote?) ==> stage.SimplePromote?
      ensures old(stage) == stage ==>
        moves == old(moves) && movePosition == old(movePosition) + if m.kind.Invalid? then 0 else 1
      ensures movePosition <= |moves| && (!m.kind.Invalid? ==> 0 < movePosition && m == moves[movePosition - 1])
    {
      hide CheckState;
      hide Wanted;
      hide Board.Consistent;
      hide Sound;
      hide NoisyMoves;
      hide IsNoisy;
      if movePosition == |moves| {
        assert moves[..movePosition] == moves;
        if stage.Capture? {
          AddSimplePromotes();
        }
        if movePosition == |moves| {
          assert moves[..movePosition] == moves;
          AllGiven();
          return Move(Invalid, 0, 0);
        }
      }
      m := moves[movePosition];
      OfferIsNoisy(m);
      assert moves[..movePosition + 1] == moves[..movePosition] + [m];
      given := given + {m};
      movePosition := movePosition + 1;
    }

    lemma OfferIsNoisy(m: Move)
      requires IsOffered(stage, m) && Rules.Sound(p)
      ensures IsNoisy(p, m) && (stage.SimplePromote? ==> !IsOffered(Capture, m))
      ensures m.kind != Invalid
    {
      if stage.SimplePromote? {
        assert PartOf(p, m) == PushPromote;
      }
      hide PseudoLegal;
      hide Sound;
    }

    lemma AllGiven()
      requires Valid() && stage.SimplePromote?
        && forall m: Move :: m in given <==> IsOffered(Capture, m) || IsOffered(SimplePromote, m)
      ensures NoisyMoves(p) <= given
    {
      var k: Coord :| CheckState(p, k, gen.check, gen.checkMask);
      forall m | m in NoisyMoves(p)
        ensures m in given
      {
        NoisyMovesAre(p, m);
        AskedIsComplete(p, k, gen.check, gen.checkMask, m);
        PartsTell(p, m);
        NoisyIsOffered(p, gen.check, gen.checkMask, m);
        hide NoisyMoves;
        hide CheckState;
        hide Wanted;
        hide IsTried;
        hide IsNoisy;
        hide PseudoLegal;
        hide KingExposed;
      }
    }
  }

  /** Of all that a state of check asks for, captures and promotions are offered by one of two calls. */
  lemma NoisyIsOffered(p: Position, check: CheckKind, checkMask: Bitboard, m: Move)
    requires Sound(p) && IsNoisy(p, m) && Wanted(p, Asked(check, checkMask, true, true, true), m)
    ensures Wanted(p, Asked(check, checkMask, false, true, false), m) || Wanted(p, AskedPromotes(check, checkMask), m)
  {
    PartsTell(p, m);
    hide PseudoLegal;
    hide Sound;
  }
}

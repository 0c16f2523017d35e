/** The recursive search of one job. It makes and unmakes moves on one shared board and keeps one
    table of repetitions; every way out leaves both as they were found. */
module SearchEngine {
  import opened Types
  import opened Rules
  import opened Invariants
  import opened Zobrist
  import opened Boards
  import opened Attacks
  import opened MoveLists
  import opened MoveGenerator
  import opened Draws
  import opened Quiescence

  const MAX_DEPTH := 255
  const MAX_STACK_DEPTH := MAX_DEPTH + 10

  const SCORE_CHECKMATE_THRESHOLD := 28000
  const SCORE_CHECKMATE := 30000

  const NULL_MOVE_MIN_DEPTH := 5
  const NULL_MOVE_DEPTH_DEC := 3
  const NULL_MOVE_REDUCTION_DEC := 4
  const FUTILITY_MAX_DEPTH := 4
  const RAZORING_MAX_DEPTH := 4
  const LATE_MOVE_MIN_DEPTH := 3
  const LATE_MOVE_REDUCE_DEPTH := 1
  const LATE_MOVES_NO_REDUCE := 2

  function FutilityMargin(depth: int): (r: int)
    requires 0 < depth <= FUTILITY_MAX_DEPTH
    ensures 0 <= r <= 400
  {
    [0, 50, 150, 250, 350][depth]
  }

  function RazoringMargin(depth: int): (r: int)
    requires 0 < depth <= RAZORING_MAX_DEPTH
    ensures 0 <= r <= 400
  {
    [0, 100, 200, 300, 400][depth]
  }

  /** So far above the window that a shallow search will not bring it back. */
  predicate IsFutile(score: int, depth: int, beta: int)
    requires depth > 0
  {
    depth <= FUTILITY_MAX_DEPTH && score >= beta + FutilityMargin(depth)
  }

  /** So far below the window that a shallow search will not bring it back. */
  predicate IsHopeless(score: int, depth: int, alpha: int)
    requires depth > 0
  {
    depth <= RAZORING_MAX_DEPTH && score <= alpha - RazoringMargin(depth)
  }

  datatype NodeKind = RootNode | PvNode | SimpleNode {
    predicate IsPv() { !SimpleNode? }
  }

  datatype Flag = CaptureFlag | NullMoveFlag | NullMoveReductionFlag | LateMoveReductionFlag

  const INHERIT: set<Flag> := {NullMoveFlag, NullMoveReductionFlag, LateMoveReductionFlag}
  const NULL_MOVE_DISABLE: set<Flag> := {NullMoveFlag, NullMoveReductionFlag, CaptureFlag}

  /** Two killer moves, and the best move found. */
  datatype Frame = Frame(first: Move, second: Move, bestMove: Move) {
    function AddKiller(m: Move): Frame {
      if m == first then this else Frame(m, first, bestMove)
    }
  }

  datatype Bound = Exact | Lowerbound | Upperbound

  predicate IsScoreCheckmate(score: int) {
    score <= -SCORE_CHECKMATE_THRESHOLD || score >= SCORE_CHECKMATE_THRESHOLD
  }

  /** A side is checkmated in an even number of plies and gives checkmate in an odd one. */
  predicate IsScoreValid(score: int) {
    if score > SCORE_CHECKMATE || score < -SCORE_CHECKMATE then false
    else if score <= -SCORE_CHECKMATE_THRESHOLD then (score + SCORE_CHECKMATE) % 2 == 0
    else if score >= SCORE_CHECKMATE_THRESHOLD then (SCORE_CHECKMATE - score) % 2 != 0
    else true
  }

  /** Adds `delta` to the number of plies before a checkmate. */
  function AdjustCheckmate(score: int, delta: int): int {
    if score >= SCORE_CHECKMATE_THRESHOLD then score - delta
    else if score <= -SCORE_CHECKMATE_THRESHOLD then score + delta
    else score
  }

  /** A score of the search, with checkmates counted from a node instead of the root. */
  function FromNode(score: int, idepth: nat): int { AdjustCheckmate(score, 0 - idepth) }

  /** Scores kept in the transposition table: checkmates are counted from the node. */
  type TtScore = s: int | -SCORE_CHECKMATE - MAX_STACK_DEPTH <= s <= SCORE_CHECKMATE + MAX_STACK_DEPTH

  datatype TtData = Missing | Found(move: Move, score: TtScore, depth: int, bound: Bound, currentEpoch: bool)

  /** What every job stores, and so what every job finds: an exact score is valid. */
  predicate TtOk(data: TtData) {
    data.Found? && data.bound.Exact? ==> IsScoreValid(data.score)
  }

  /** What a node stores: the best move, and the score cut to the window and counted from the node. */
  predicate Stored(data: TtData, depth: int, idepth: nat, alpha: Score, beta: Score, result: Score, best: Move) {
    && data.Found? && data.move == best != NULL_MOVE && data.depth == depth
    && data.score == FromNode(Clamp(result, alpha, beta), idepth)
    && data.bound == if result <= alpha then Upperbound else if result >= beta then Lowerbound else Exact
  }

  /** What the table tells about a score `v` of the node, counted from the root, is true. */
  predicate IsRight(data: TtData, v: Score, idepth: nat)
    requires data.Found?
  {
    match data.bound
    case Exact => v == AdjustCheckmate(data.score, idepth)
    case Lowerbound => v >= AdjustCheckmate(data.score, idepth)
    case Upperbound => v <= AdjustCheckmate(data.score, idepth)
  }

  /** Whatever the node is worth, if the table is right, its score cut to the window is that of `r`. */
  ghost predicate Settles(data: TtData, r: Score, alpha: Score, beta: Score, idepth: nat)
    requires data.Found?
  {
    forall v: Score :: IsRight(data, v, idepth) ==> Clamp(v, alpha, beta) == Clamp(r, alpha, beta)
  }

  /** The table is right about the node whose score was stored, so that an answer found there later is right in
      any window. */
  lemma StoredThenFound(
    data: TtData, depth: int, idepth: nat, alpha: Score, beta: Score, result: Score, best: Move, v: Score,
    r: Score, alpha': Score, beta': Score)
    requires Stored(data, depth, idepth, alpha, beta, result, best) && alpha < beta
    requires Clamp(v, alpha, beta) == Clamp(result, alpha, beta)
    ensures IsRight(data, v, idepth)
    ensures Settles(data, r, alpha', beta', idepth) ==> Clamp(v, alpha', beta') == Clamp(r, alpha', beta')
  {
    assert IsRight(data, v, idepth);
  }

  /** The entry may be used in place of a search. */
  predicate MayAnswer(node: NodeKind, data: TtData, depth: int, p: Position) {
    && data.Found? && !node.RootNode? && data.depth >= depth && p.moveCounter < 90
    && (node.IsPv() ==> data.currentEpoch)
  }

  /** An exact score, or a bound outside the window, tells what the score cut to the window is; nothing else does. */
  lemma ProbeIsRight(data: TtData, alpha: Score, beta: Score, idepth: nat)
    requires alpha < beta && idepth < MAX_STACK_DEPTH
    ensures data.Found? && SettlesByBound(data, alpha, beta, idepth) ==>
      Settles(data, AdjustCheckmate(data.score, idepth), alpha, beta, idepth)
    ensures data.Found? && !SettlesByBound(data, alpha, beta, idepth) ==>
      forall s: Score :: !Settles(data, s, alpha, beta, idepth)
  {
    if data.Found? {
      ValidWhenLoaded(data.score, idepth);
      var s: Score := AdjustCheckmate(data.score, idepth);
      assert IsRight(data, s, idepth);
      assert data.bound.Lowerbound? ==> IsRight(data, SCORE_INF, idepth);
      assert data.bound.Upperbound? ==> IsRight(data, -SCORE_INF, idepth);
    }
  }

  predicate SettlesByBound(data: TtData, alpha: Score, beta: Score, idepth: nat)
    requires data.Found?
  {
    var s := AdjustCheckmate(data.score, idepth);
    data.bound.Exact? || (data.bound.Lowerbound? && s >= beta) || (data.bound.Upperbound? && s <= alpha)
  }

  /** The evaluator leaves the scores of checkmates to the search. */
  ghost predicate QuietEval(eval: Eval) {
    forall p: Position :: Valid(p) ==> !IsScoreCheckmate(eval(p))
  }

  /** The score of a node is outside its window, or valid when counted from the node. */
  predicate ScoreOk(score: Score, alpha: Score, beta: Score, idepth: nat) {
    score <= alpha || beta <= score || IsScoreValid(FromNode(score, idepth))
  }

  /** What is valid for a node is valid, with the other sign, for its parent. */
  lemma ValidForParent(score: Score, idepth: nat)
    requires IsScoreValid(FromNode(score, idepth + 1))
    ensures IsScoreValid(FromNode(-score, idepth))
  {}

  /** The bounds of a window and a draw are always right. */
  lemma EdgesAreOk(alpha: Score, beta: Score, idepth: nat)
    ensures ScoreOk(alpha, alpha, beta, idepth) && ScoreOk(beta, alpha, beta, idepth) && ScoreOk(0, alpha, beta, idepth)
  {}

  lemma StaticIsNormal(eval: Eval, p: Position)
    requires Valid(p)
    ensures !IsScoreCheckmate(0) && (QuietEval(eval) ==> !IsScoreCheckmate(eval(p)))
  {
    hide Valid;
  }

  lemma NormalIsOk(score: Score, alpha: Score, beta: Score, idepth: nat)
    requires alpha < score < beta ==> !IsScoreCheckmate(score)
    ensures ScoreOk(score, alpha, beta, idepth)
  {}

  /** What is valid in the table is valid for the node that finds it. */
  lemma ValidWhenLoaded(score: TtScore, idepth: nat)
    requires idepth < MAX_STACK_DEPTH
    ensures -SCORE_INF < AdjustCheckmate(score, idepth) < SCORE_INF
    ensures IsScoreValid(score) ==> IsScoreValid(FromNode(AdjustCheckmate(score, idepth), idepth))
  {}

  /** A bound is infinite or a score, or, for a search with an empty window, next to a score. */
  predicate BoundOk(node: NodeKind, bound: Score) {
    || bound == SCORE_INF || bound == -SCORE_INF
    || var room := if node.IsPv() then 0 else 1; -SCORE_CHECKMATE - room <= bound <= SCORE_CHECKMATE + room
  }

  /** The window of a node without principal variation is empty inside. */
  predicate WindowOk(node: NodeKind, alpha: Score, beta: Score) {
    alpha < beta && (node.IsPv() || beta == alpha + 1) && BoundOk(node, alpha) && BoundOk(node, beta)
  }

  /** A better score found inside the window narrows it. */
  lemma WindowNarrows(node: NodeKind, alpha: Score, beta: Score, score: Score, idepth: nat)
    requires WindowOk(node, alpha, beta) && alpha < score < beta && ScoreOk(score, alpha, beta, idepth)
    ensures WindowOk(node, score, beta) && IsScoreValid(FromNode(score, idepth))
  {}

  /** The score of a child in the window (-beta, -alpha) is a score of the node in its window. */
  lemma ScoreForParent(answer: Score, alpha: Score, beta: Score, idepth: nat)
    requires ScoreOk(answer, -beta, -alpha, idepth + 1)
    ensures ScoreOk(-answer, alpha, beta, idepth)
  {
    if -beta < answer < -alpha {
      ValidForParent(answer, idepth);
    }
  }

  class Searcher {
    const board: Board
    const eval: Eval
    const stack: array<Frame>
    var repetitions: set<Hash>
    var table: map<Hash, TtData>
    ghost var told: bool // `mustStop` has been true since the search at this depth began

    constructor (board: Board, eval: Eval, repetitions: set<Hash>)
      ensures this.board == board && this.eval == eval && this.repetitions == repetitions
      ensures fresh(stack) && stack.Length == MAX_STACK_DEPTH
      ensures forall i :: 0 <= i < stack.Length ==> stack[i].bestMove == NULL_MOVE
      ensures TableOk()
    {
      this.board, this.eval, this.repetitions, table, told := board, eval, repetitions, map[], false;
      stack := new Frame[MAX_STACK_DEPTH](_ => Frame(NULL_MOVE, NULL_MOVE, NULL_MOVE));
    }

    ghost predicate TableOk()
      reads `table
    {
      forall h :: h in table ==> TtOk(table[h])
    }

    ghost predicate BoardOk(p: Position)
      reads board, board.cells
    {
      board.Consistent() && board.Pos() == p && Valid(p)
    }

    /** Whether the job has been told to stop, which may happen at any time. */
    method MustStop() returns (stop: bool)
      modifies `told
      ensures told == (old(told) || stop)
    {
      stop := *;
      told := told || stop;
    }

    /** Makes a move if it does not leave its own king under attack. */
    method TryMove(m: Move, ghost p: Position) returns (persistence: MovePersistence, legal: bool)
      requires BoardOk(p) && Playable(p, m)
      modifies board, board.cells
      ensures legal <==> !KingExposed(Play(p, m))
      ensures legal ==> BoardOk(Play(p, m)) && persistence == Persistence(board.keys, p, m)
      ensures !legal ==> BoardOk(p)
    {
      hide Persistence;
      hide Board.HashOk;
      hide Bitboards.PieceBoards.Match;
      hide PseudoLegal;
      hide CellsAfter;
      hide Settled;
      PlayKeepsSound(p, m);
      KingsAfter(p, m);
      persistence := board.MoveMake(m);
      legal := WasMoveLegal(board);
      if legal {
        PlayKeepsValid(p, m);
      } else {
        board.MoveUnmake(m, persistence, p);
      }
    }

    lemma KingsAfter(p: Position, m: Move)
      requires Valid(p) && Playable(p, m)
      ensures OneKing(Play(p, m).cells, p.side)
    {
      assert OneKing(p.cells, p.side);
      var k: Coord :| IsKingAt(p.cells, p.side, k);
      OwnKingAfter(p, m, k);
      hide PseudoLegal;
      hide Sound;
      hide CellsAfter;
    }

    method Unmake(m: Move, persistence: MovePersistence, ghost p: Position)
      requires Valid(p) && Playable(p, m)
      requires BoardOk(Play(p, m)) && persistence == Persistence(board.keys, p, m)
      modifies board, board.cells
      ensures BoardOk(p)
    {
      hide Persistence;
      hide Play;
      hide Playable;
      hide Settled;
      board.MoveUnmake(m, persistence, p);
    }

    lemma BoardFacts(p: Position)
      requires BoardOk(p)
      ensures board.Consistent() && board.Pos() == p && Sound(p) && Valid(p)
      ensures forall c :: OneKing(board.cells[..], c)
      ensures HasKing(board.cells[..], board.side)
    {
      assert OneKing(p.cells, p.side);
    }

    /** Fail-hard alpha-beta over captures and promotions. `cut` tells that a call of `mustStop` in the
        tree was answered with "stop". */
    method QuiescenseSearch(alpha0: Score, beta: Score, ghost p: Position) returns (r: Score, ghost cut: bool)
      requires BoardOk(p)
      modifies `told, board, board.cells
      ensures BoardOk(p) && told == (old(told) || cut)
      ensures !cut && alpha0 < beta ==> Clamp(r, alpha0, beta) == Clamp(QValue(eval, p), alpha0, beta)
      ensures r == 0 || alpha0 <= r <= beta || beta <= alpha0
      ensures alpha0 < beta ==> -SCORE_INF < r < SCORE_INF
      ensures QuietEval(eval) ==> r <= alpha0 || beta <= r || !IsScoreCheckmate(r)
      decreases Material(p.cells), 2
    {
      hide Board.Consistent;
      hide Valid;
      hide Sound;
      hide Play;
      hide OneKing;
      hide IsNoisy;
      hide NoisyMoves;
      hide InsufficientMaterial;
      hide QValue;
      hide Accounted;
      hide Narrowed;
      hide Material;
      hide Playable;
      hide KingExposed;
      hide Scores;
      hide Clamp;
      hide Searcher.BoardOk;
      hide QuiescenseMovePicker.Valid;
      hide IsScoreCheckmate;
      hide QuietEval;
      BoardFacts(p);
      StaticIsNormal(eval, p);
      cut := false;
      if IsDrawInsufficientMaterial(board) {
        NoMaterialNoValue(eval, p);
        return 0, false;
      }
      var evalScore := eval(board.Pos());
      var alpha: Score := Max(alpha0, evalScore);
      NothingDone(eval, p, alpha0, beta);
      if alpha >= beta {
        CutAbove(eval, p, alpha0, beta);
        return beta, false;
      }
      var picker := new QuiescenseMovePicker(board);
      var move := picker.Next();
      ghost var done: set<Move> := {};
      StartAccount(p, picker.given, move);
      while !move.kind.Invalid?
        invariant BoardOk(p) && picker.Valid() && picker.p == p && picker.gen.b == board && fresh(picker)
        invariant done <= NoisyMoves(p) && Accounted(p, picker.given, done, move)
        invariant alpha0 <= alpha < beta && -SCORE_INF < alpha && Narrowed(eval, p, done, cut, alpha0, beta, alpha)
        invariant QuietEval(eval) ==> alpha == alpha0 || !IsScoreCheckmate(alpha)
        invariant told == (old(told) || cut)
        decreases picker.stage.Capture?, |picker.moves| - picker.movePosition, !move.kind.Invalid?
      {
        ghost var now := done;
        NoisyFacts(p, picker.given, done, move);
        if move != NULL_MOVE {
          var stop;
          stop, alpha, cut, now := NoisyStep(alpha0, beta, alpha, move, p, picker.given, done, cut);
          if stop {
            return 0, true;
          }
          if alpha >= beta {
            return beta, cut;
          }
        }
        ghost var given, last := picker.given, move;
        BoardFacts(p);
        move := picker.Next();
        NextAccount(p, given, done, last, picker.given, now, move);
        done := now;
      }
      AllSearched(eval, p, picker.given, done, move, cut, alpha0, beta, alpha);
      r := alpha;
    }

    /** One move of the quiescence search, and what it does to `alpha`. */
    method NoisyStep(
      alpha0: Score, beta: Score, alpha: Score, move: Move,
      ghost p: Position, ghost given: set<Move>, ghost done: set<Move>, ghost before: bool)
      returns (stop: bool, better: Score, ghost cut: bool, ghost now: set<Move>)
      requires BoardOk(p) && !InsufficientMaterial(p.cells) && alpha < beta
      requires Accounted(p, given, done, move) && !move.kind.Invalid?
      requires Narrowed(eval, p, done, before, alpha0, beta, alpha) && (before ==> told)
      modifies `told, board, board.cells
      ensures BoardOk(p) && told == (old(told) || cut) && (stop || before ==> cut)
      ensures !stop ==>
        && now == (if move in NoisyMoves(p) then done + {move} else done) && now <= NoisyMoves(p)
        && Narrowed(eval, p, now, cut, alpha0, beta, better) && alpha <= better < SCORE_INF
        && (!cut && beta <= better ==> Clamp(beta, alpha0, beta) == Clamp(QValue(eval, p), alpha0, beta))
        && (QuietEval(eval) ==> better == alpha || beta <= better || !IsScoreCheckmate(better))
      decreases Material(p.cells), 1
    {
      hide Board.Consistent;
      hide Valid;
      hide Sound;
      hide Play;
      hide OneKing;
      hide IsNoisy;
      hide NoisyMoves;
      hide InsufficientMaterial;
      hide QValue;
      hide Scores;
      hide Clamp;
      hide Material;
      hide Playable;
      hide KingExposed;
      hide IsScoreCheckmate;
      hide QuietEval;
      hide BoardOk;
      BoardFacts(p);
      NoisyFacts(p, given, done, move);
      hide Accounted;
      var outcome, sub := QuiescenseMove(alpha, beta, move, p);
      if outcome.Stop? {
        return true, alpha, true, done;
      }
      stop, better, cut, now := false, alpha, before || sub, done;
      if outcome.Searched? {
        AnswerNarrows(eval, p, done, before, alpha0, beta, alpha, move, -outcome.score, sub);
        CutAbove(eval, p, alpha0, beta);
        better, now := Max(alpha, outcome.score), done + {move};
      }
    }

    /** One move of the quiescence search: it is made, searched and unmade. */
    method QuiescenseMove(alpha: Score, beta: Score, move: Move, ghost p: Position)
      returns (outcome: Outcome, ghost cut: bool)
      requires BoardOk(p) && Playable(p, move) && -SCORE_INF < alpha < beta
      requires !KingExposed(Play(p, move)) ==>
        Valid(Play(p, move)) && Material(Play(p, move).cells) < Material(p.cells)
      modifies `told, board, board.cells
      ensures BoardOk(p) && told == (old(told) || cut)
      ensures outcome.Illegal? <==> KingExposed(Play(p, move))
      ensures !outcome.Reduced? && (outcome.Stop? ==> cut)
      ensures outcome.Searched? ==>
        && -SCORE_INF < outcome.score < SCORE_INF
        && (!cut ==> Clamp(-outcome.score, -beta, -alpha) == Clamp(QValue(eval, Play(p, move)), -beta, -alpha))
        && (QuietEval(eval) ==>
              outcome.score <= alpha || beta <= outcome.score || !IsScoreCheckmate(outcome.score))
      decreases Material(p.cells), 0
    {
      hide Board.Consistent;
      hide Valid;
      hide Play;
      hide OneKing;
      hide Persistence;
      hide Material;
      hide Playable;
      hide KingExposed;
      hide QValue;
      hide Clamp;
      hide Searcher.BoardOk;
      hide QuietEval;
      cut := false;
      BoardFacts(p);
      var persistence, legal := TryMove(move, p);
      if !legal {
        return Illegal, false;
      }
      var answer;
      answer, cut := QuiescenseSearch(-beta, -alpha, Play(p, move));
      var stop := MustStop();
      Unmake(move, persistence, p);
      if stop {
        return Stop, true;
      }
      outcome := Searched(-answer);
    }

    /** The moves of the main search in any order, with null moves in between: every legal one is among
        them. Killers are added when they pass the test for pseudo-legality. */
    method PickMoves(ghost p: Position) returns (moves: seq<Move>)
      requires BoardOk(p)
      ensures forall m :: m in moves ==> Offered(p, m)
      ensures forall m: Move :: IsLegal(p, m) ==> m in moves
    {
      BoardFacts(p);
      hide Valid;
      hide PseudoLegal;
      hide KingExposed;
      hide Play;
      var gen := new MoveGen(board);
      var rest := gen.GenAllMoves();
      assert forall m: Move :: IsLegal(p, m) ==> m in rest;
      hide IsLegal;
      hide Offered;
      moves := [];
      while rest != []
        invariant forall m :: m in moves ==> Offered(p, m)
        invariant forall m :: m in rest ==> PseudoLegal(p, m)
        invariant forall m: Move :: IsLegal(p, m) ==> m in moves || m in rest
        decreases |rest|
      {
        var i: nat, extra: Move := *, *;
        OfferedMoves(p);
        if IsWellFormed(extra, board.side) && IsMoveValid(board, extra) {
          moves := moves + [extra];
        }
        if i < |rest| {
          WithoutOne(rest, i);
          moves, rest := moves + [rest[i]], rest[..i] + rest[i + 1..];
        } else {
          moves, rest := moves + [NULL_MOVE, rest[0]], rest[1..];
        }
      }
    }

    /** Everything that a call may disturb and must leave as it was, above the frame `idepth`. */
    ghost predicate Kept(p: Position, frames: seq<Frame>, seen: set<Hash>, idepth: nat)
      reads `repetitions, `table, stack, board, board.cells
    {
      && BoardOk(p) && stack.Length == MAX_STACK_DEPTH && repetitions == seen && QuietEval(eval) && TableOk()
      && idepth <= |frames| == MAX_STACK_DEPTH && stack[..idepth] == frames[..idepth]
    }

    /** Asks the table. Other jobs store into it at any time, under the same rule. */
    method TtLoad() returns (data: TtData)
      requires TableOk()
      ensures TtOk(data)
    {
      var other: TtData := *;
      if TtOk(other) {
        return other;
      }
      data := if board.hash in table then table[board.hash] else Missing;
    }

    /** Stores the result of a node. The table may keep what it holds. */
    method TtStore(node: NodeKind, depth: int, idepth: nat, alpha: Score, beta: Score, result: Score, best: Move)
      requires idepth < MAX_STACK_DEPTH && WindowOk(node, alpha, beta) && ScoreOk(result, alpha, beta, idepth)
      requires -SCORE_INF < result < SCORE_INF && TableOk()
      modifies this`table
      ensures TableOk()
      ensures table == old(table)
        || exists data :: Stored(data, depth, idepth, alpha, beta, result, best)
             && table == old(table)[board.hash := data]
    {
      var score, bound := result, Exact;
      if score <= alpha {
        score, bound := alpha, Upperbound;
      }
      if score >= beta {
        score, bound := beta, Lowerbound;
      }
      var stored: TtScore := FromNode(score, idepth);
      assert bound.Exact? ==> IsScoreValid(stored);
      var keep, currentEpoch: bool := *, *;
      if best != NULL_MOVE && !keep {
        var data := Found(best, stored, depth, bound, currentEpoch);
        assert Stored(data, depth, idepth, alpha, beta, result, best);
        table := table[board.hash := data];
      }
    }

    /** The node is entered only if its position is not in the table; it is in the table meanwhile. */
    method Search(
      node: NodeKind, depth: int, idepth: nat, alpha: Score, beta: Score, flags: set<Flag>, ghost p: Position)
      returns (score: Score, ghost cut: bool)
      requires idepth < MAX_STACK_DEPTH && Kept(p, stack[..], repetitions, idepth) && WindowOk(node, alpha, beta)
      requires node.RootNode? ==> depth > 0 && idepth == 0
      modifies `repetitions, `table, `told, stack, board, board.cells
      ensures Kept(p, old(stack[..]), old(repetitions), idepth) && told == (old(told) || cut)
      ensures -SCORE_INF < score < SCORE_INF && ScoreOk(score, alpha, beta, idepth)
      ensures board.hash == old(board.hash)
      ensures old(board.hash in repetitions) ==> score == 0 && !cut && stack[idepth] == old(stack[idepth])
      ensures node.RootNode? && alpha == -SCORE_INF && old(board.hash !in repetitions) ==>
        BestIsFound(p, stack[idepth].bestMove, cut)
      ensures node.RootNode? && old(board.hash !in repetitions) && NoLegalMove(p) ==> score == EndValue(p, idepth)
      ensures !node.RootNode? && depth <= 0 && WindowIsNormal(alpha, beta) && !cut ==>
        Clamp(score, alpha, beta) == Clamp(NodeValue(eval, board.keys, old(repetitions), p), alpha, beta)
      ensures node.RootNode? && depth == 1 && alpha == -SCORE_INF && beta == SCORE_INF && !NoLegalMove(p) ==>
        !cut && old(board.hash !in repetitions) ==>
        IsBestReply(eval, board.keys, old(repetitions + {board.hash}), p, score, stack[idepth].bestMove)
      decreases MAX_STACK_DEPTH - idepth, 1
    {
      if board.hash in repetitions {
        return 0, false;
      }
      HashIsDetermined(p);
      repetitions := repetitions + {board.hash};
      score, cut := DoSearch(node, depth, idepth, alpha, beta, flags, p);
      HashIsDetermined(p);
      repetitions := repetitions - {board.hash};
    }

    lemma HashIsDetermined(p: Position)
      requires BoardOk(p)
      ensures board.hash == HashOf(board.keys, p)
    {}

    /** Out of check the null move is as good as a legal one. */
    lemma NullIsLegal(p: Position)
      requires Valid(p)
      requires !exists k: Coord :: IsKingAt(p.cells, p.side, k) && IsAttacked(p.cells, p.side.Invert(), k)
      ensures Playable(p, NULL_MOVE) && !KingExposed(Play(p, NULL_MOVE)) && Valid(Play(p, NULL_MOVE))
    {
      assert Play(p, NULL_MOVE).cells == p.cells && Play(p, NULL_MOVE).side == p.side.Invert();
      hide IsAttacked;
      hide IsKingAt;
      hide Valid;
      assert !KingExposed(Play(p, NULL_MOVE));
      PlayKeepsValid(p, NULL_MOVE);
    }

    method NullMoveSearch(depth: int, idepth: nat, alpha: Score, beta: Score, flags: set<Flag>, ghost p: Position)
      returns (stop: bool, score: Score, ghost cut: bool)
      requires idepth + 1 < MAX_STACK_DEPTH && Kept(p, stack[..], repetitions, idepth + 1)
      requires WindowOk(SimpleNode, alpha, beta)
      requires !exists k: Coord :: IsKingAt(p.cells, p.side, k) && IsAttacked(p.cells, p.side.Invert(), k)
      modifies `repetitions, `table, `told, stack, board, board.cells
      ensures Kept(p, old(stack[..]), old(repetitions), idepth + 1)
      ensures told == (old(told) || cut) && (stop ==> cut)
      decreases MAX_STACK_DEPTH - idepth - 1, 3
    {
      hide Board.Consistent;
      hide Valid;
      hide Sound;
      hide Play;
      hide Persistence;
      hide Playable;
      hide KingExposed;
      NullIsLegal(p);
      var persistence, _ := TryMove(NULL_MOVE, p);
      score, stop, cut := SearchChild(SimpleNode, depth - NULL_MOVE_DEPTH_DEC, idepth, beta - 1, beta,
        flags * INHERIT + {NullMoveFlag}, Play(p, NULL_MOVE));
      Unmake(NULL_MOVE, persistence, p);
    }

    /** If the opponent may move twice and the score still reaches `beta`, the node is searched less deep. */
    method TryNullMove(
      node: NodeKind, depth0: int, idepth: nat, alpha: Score, beta: Score, flags0: set<Flag>, isQuiet: bool,
      ghost p: Position)
      returns (stop: bool, depth: int, flags: set<Flag>, ghost cut: bool)
      requires idepth + 1 < MAX_STACK_DEPTH && Kept(p, stack[..], repetitions, idepth + 1)
      requires WindowOk(node, alpha, beta) && depth0 > 0 && (isQuiet ==> !InCheck(p))
      modifies `repetitions, `table, `told, stack, board, board.cells
      ensures Kept(p, old(stack[..]), old(repetitions), idepth + 1)
      ensures told == (old(told) || cut) && (stop ==> cut)
      ensures 0 < depth <= depth0 && (node.IsPv() ==> !cut && depth == depth0)
      decreases MAX_STACK_DEPTH - idepth - 1, 4
    {
      hide Kept;
      stop, depth, flags, cut := false, depth0, flags0, false;
      if !node.IsPv() && depth >= NULL_MOVE_MIN_DEPTH && isQuiet && flags * NULL_MOVE_DISABLE == {} {
        var score;
        stop, score, cut := NullMoveSearch(depth, idepth, alpha, beta, flags, p);
        if score >= beta {
          depth := depth - NULL_MOVE_REDUCTION_DEC;
          flags := flags + {NullMoveReductionFlag};
        }
      }
    }

    /** Searches the position after a move in the window of the node that made it. */
    method SearchChild(
      node: NodeKind, depth: int, idepth: nat, alpha: Score, beta: Score, flags: set<Flag>, ghost next: Position)
      returns (score: Score, stop: bool, ghost cut: bool)
      requires idepth + 1 < MAX_STACK_DEPTH && Kept(next, stack[..], repetitions, idepth + 1)
      requires !node.RootNode? && WindowOk(node, -beta, -alpha)
      modifies `repetitions, `table, `told, stack, board, board.cells
      ensures Kept(next, old(stack[..]), old(repetitions), idepth + 1)
      ensures -SCORE_INF < score < SCORE_INF && ScoreOk(score, alpha, beta, idepth)
      ensures told == (old(told) || cut) && (stop ==> cut)
      ensures depth <= 0 && WindowIsNormal(alpha, beta) && !cut ==>
        Clamp(score, alpha, beta) == Clamp(-NodeValue(eval, board.keys, old(repetitions), next), alpha, beta)
      decreases MAX_STACK_DEPTH - idepth - 1, 2
    {
      hide Kept;
      hide IsScoreValid;
      hide FromNode;
      var answer;
      answer, cut := Search(node, depth, idepth + 1, -beta, -alpha, flags, next);
      ScoreForParent(answer, alpha, beta, idepth);
      score := -answer;
      stop := MustStop();
      cut := cut || stop;
    }

    /** What became of one move of the picker. */
    method SearchMove(
      node: NodeKind, depth: int, idepth: nat, alpha: Score, beta: Score, flags: set<Flag>,
      move: Move, isFirstMove: bool, late: bool, ghost p: Position)
      returns (outcome: Outcome, ghost cut: bool)
      requires idepth + 1 < MAX_STACK_DEPTH && Kept(p, stack[..], repetitions, idepth + 1)
      requires PseudoLegal(p, move) && WindowOk(node, alpha, beta) && (isFirstMove || -SCORE_INF < alpha)
      modifies `repetitions, `table, `told, stack, board, board.cells
      ensures Kept(p, old(stack[..]), old(repetitions), idepth + 1)
      ensures outcome.Illegal? <==> KingExposed(Play(p, move))
      ensures told == (old(told) || cut) && (outcome.Stop? ==> cut)
      ensures outcome.Reduced? ==> !isFirstMove
      ensures outcome.Searched? ==>
        -SCORE_INF < outcome.score < SCORE_INF && ScoreOk(outcome.score, alpha, beta, idepth)
      ensures depth == 1 && WindowIsNormal(alpha, beta) && (isFirstMove || -SCORE_CHECKMATE_THRESHOLD <= alpha) ==>
        !cut && outcome.Searched? ==>
        Clamp(outcome.score, alpha, beta)
          == Clamp(-NodeValue(eval, board.keys, old(repetitions), Play(p, move)), alpha, beta)
      ensures depth == 1 ==> !outcome.Reduced?
      decreases MAX_STACK_DEPTH - idepth - 1, 3
    {
      hide Board.Consistent;
      hide Valid;
      hide Sound;
      hide Play;
      hide Persistence;
      hide PseudoLegal;
      hide KingExposed;
      hide IsCapture;
      hide IsScoreValid;
      hide FromNode;
      cut := false;
      var persistence, legal := TryMove(move, p);
      if !legal {
        return Illegal, false;
      }
      ghost var next := Play(p, move);
      BoardFacts(next);
      var isCapture := IsCapture(board.Pos(), move);
      var newFlags := flags * INHERIT + if isCapture then {CaptureFlag} else {};
      ghost var sub: bool;
      var score: Score, stop: bool;
      if !node.IsPv() && !isFirstMove && depth >= LATE_MOVE_MIN_DEPTH && late && !IsCheck(board) {
        score, stop, cut := SearchChild(SimpleNode, depth - 1 - LATE_MOVE_REDUCE_DEPTH, idepth, alpha, alpha + 1,
          newFlags + {LateMoveReductionFlag}, next);
        if stop || score <= alpha {
          Unmake(move, persistence, p);
          return if stop then Stop else Reduced, cut;
        }
      }
      score := alpha;
      var doZeroWindowSearch := node.IsPv() && !isFirstMove;
      if doZeroWindowSearch {
        score, stop, sub := SearchChild(SimpleNode, depth - 1, idepth, alpha, alpha + 1, newFlags, next);
        score, cut := if score <= alpha then alpha else alpha + 1, cut || sub;
        if stop {
          Unmake(move, persistence, p);
          return Stop, cut;
        }
      }
      if !doZeroWindowSearch || (alpha < score && (node.RootNode? || score < beta)) {
        score, stop, sub := SearchChild(
          if node.IsPv() then PvNode else SimpleNode, depth - 1, idepth, alpha, beta, newFlags, next);
        cut := cut || sub;
        if stop {
          Unmake(move, persistence, p);
          return Stop, cut;
        }
      }
      Unmake(move, persistence, p);
      outcome := Searched(score);
    }

    /** Sets the best move of a frame, and leaves the frames below alone. */
    method SetBest(idepth: nat, best: Move, ghost p: Position, ghost frames: seq<Frame>)
      requires idepth < MAX_STACK_DEPTH && Kept(p, frames, repetitions, idepth)
      modifies stack
      ensures Kept(p, frames, repetitions, idepth) && stack[idepth].bestMove == best
    {
      stack[idepth] := stack[idepth].(bestMove := best);
    }

    method AddKiller(idepth: nat, move: Move, ghost p: Position, ghost frames: seq<Frame>)
      requires idepth < MAX_STACK_DEPTH && Kept(p, frames, repetitions, idepth)
      modifies stack
      ensures Kept(p, frames, repetitions, idepth) && stack[idepth].bestMove == old(stack[idepth].bestMove)
    {
      stack[idepth] := stack[idepth].AddKiller(move);
    }

    lemma KeptFacts(p: Position, frames: seq<Frame>, seen: set<Hash>, idepth: nat)
      requires Kept(p, frames, seen, idepth) && idepth < MAX_STACK_DEPTH
      ensures stack.Length == |frames| == MAX_STACK_DEPTH && repetitions == seen && QuietEval(eval) && TableOk()
      ensures BoardOk(p) && stack[..idepth] == frames[..idepth] && Kept(p, stack[..], repetitions, idepth + 1)
    {}

    lemma KeptIs(p: Position, frames: seq<Frame>, seen: set<Hash>, idepth: nat)
      requires stack.Length == |frames| == MAX_STACK_DEPTH && repetitions == seen && QuietEval(eval) && TableOk()
      requires BoardOk(p) && idepth < MAX_STACK_DEPTH && stack[..idepth] == frames[..idepth]
      ensures Kept(p, frames, seen, idepth)
    {}

    /** Stores the result of a node with the best move of its frame. */
    method StoreBest(
      node: NodeKind, depth: int, idepth: nat, alpha: Score, beta: Score, result: Score,
      ghost p: Position, ghost frames: seq<Frame>)
      requires idepth < MAX_STACK_DEPTH && Kept(p, frames, repetitions, idepth) && WindowOk(node, alpha, beta)
      requires ScoreOk(result, alpha, beta, idepth) && -SCORE_INF < result < SCORE_INF
      modifies `table
      ensures Kept(p, frames, repetitions, idepth)
    {
      hide BoardOk;
      hide QuietEval;
      TtStore(node, depth, idepth, alpha, beta, result, stack[idepth].bestMove);
    }

    lemma KeptBelow(p: Position, frames: seq<Frame>, inner: seq<Frame>, seen: set<Hash>, idepth: nat)
      requires idepth < MAX_STACK_DEPTH == |frames| && Kept(p, inner, seen, idepth + 1)
      requires inner[..idepth] == frames[..idepth]
      ensures Kept(p, frames, seen, idepth) && stack.Length == MAX_STACK_DEPTH && stack[idepth] == inner[idepth]
    {
      assert stack[idepth] == stack[..idepth + 1][idepth] == inner[..idepth + 1][idepth];
      assert stack[..idepth] == stack[..idepth + 1][..idepth] == inner[..idepth + 1][..idepth];
    }

    method SearchMoves(
      node: NodeKind, depth: int, idepth: nat, alpha0: Score, beta: Score, flags: set<Flag>, isInCheck: bool,
      ghost p: Position)
      returns (r: Score, ghost cut: bool)
      requires idepth + 1 < MAX_STACK_DEPTH && Kept(p, stack[..], repetitions, idepth) && WindowOk(node, alpha0, beta)
      requires stack[idepth].bestMove == NULL_MOVE && (isInCheck <==> InCheck(p))
      modifies `repetitions, `table, `told, stack, board, board.cells
      ensures Kept(p, old(stack[..]), old(repetitions), idepth) && told == (old(told) || cut)
      ensures -SCORE_INF < r < SCORE_INF && ScoreOk(r, alpha0, beta, idepth)
      ensures alpha0 == -SCORE_INF ==> BestIsFound(p, stack[idepth].bestMove, cut)
      ensures NoLegalMove(p) ==> r == EndValue(p, idepth)
      ensures depth == 1 && alpha0 == -SCORE_INF && beta == SCORE_INF && !cut && !NoLegalMove(p) ==>
        IsBestReply(eval, board.keys, old(repetitions), p, r, stack[idepth].bestMove)
      decreases MAX_STACK_DEPTH - idepth - 1, 4
    {
      hide Board.Consistent;
      hide Valid;
      hide PseudoLegal;
      hide KingExposed;
      hide Play;
      hide Searcher.Kept;
      hide Searcher.BoardOk;
      hide Searcher.TableOk;
      hide NodeValue;
      hide BestSoFar;
      hide NoLegalMove;
      hide IsBestReply;
      hide InCheck;
      hide FromNode;
      hide IsScoreValid;
      hide QuietEval;
      hide Clamp;
      hide BoundOk;
      hide IsLegal;
      KeptFacts(p, stack[..], repetitions, idepth);
      EdgesAreOk(alpha0, beta, idepth);
      cut := false;
      var alpha: Score := alpha0;
      var moves := PickMoves(p);
      var hasMove, numHistoryMoves := false, 0;
      NothingTried(eval, board.keys, repetitions, p, alpha, stack[idepth].bestMove);
      assert moves[..0] == [];
      for i := 0 to |moves|
        invariant Kept(p, old(stack[..]), old(repetitions), idepth) && told == (old(told) || cut)
        invariant WindowOk(node, alpha, beta) && alpha0 <= alpha && (hasMove ==> -SCORE_INF < alpha)
        invariant ScoreOk(alpha, alpha0, beta, idepth)
        invariant stack[idepth].bestMove == NULL_MOVE || IsLegal(p, stack[idepth].bestMove)
        invariant hasMove && alpha0 == -SCORE_INF ==> stack[idepth].bestMove != NULL_MOVE
        invariant !hasMove ==> stack[idepth].bestMove == NULL_MOVE && alpha == alpha0
        invariant !hasMove ==> forall j :: 0 <= j < i ==> !IsLegal(p, moves[j])
        invariant hasMove ==> !NoLegalMove(p)
        invariant depth == 1 && alpha0 == -SCORE_INF && beta == SCORE_INF && !cut ==>
          BestSoFar(eval, board.keys, old(repetitions), p, moves[..i], hasMove, alpha, stack[idepth].bestMove)
      {
        var move, isHistory, isKiller: bool := moves[i], *, *;
        KeptFacts(p, old(stack[..]), old(repetitions), idepth);
        NullIsNoMove(p);
        assert Offered(p, move);
        assert moves[..i + 1] == moves[..i] + [move];
        ghost var before, best, first := alpha, stack[idepth].bestMove, !hasMove;
        ReplySkipped(eval, board.keys, repetitions, p, moves[..i], move, hasMove, alpha, best);
        if move == NULL_MOVE {
          continue;
        }
        BestIsNormal(eval, board.keys, repetitions, p, moves[..i], hasMove, alpha, best);
        ghost var frames := stack[..];
        var outcome, sub := SearchMove(node, depth, idepth, alpha, beta, flags, move, !hasMove,
          isHistory && numHistoryMoves + 1 > LATE_MOVES_NO_REDUCE, p);
        KeptBelow(p, old(stack[..]), frames, old(repetitions), idepth);
        KeptFacts(p, old(stack[..]), old(repetitions), idepth);
        cut := cut || sub;
        LegalIs(p, move);
        if outcome.Illegal? {
          continue;
        }
        hasMove := true;
        numHistoryMoves := if isHistory then numHistoryMoves + 1 else numHistoryMoves;
        if outcome.Stop? {
          return 0, cut;
        }
        if outcome.Searched? {
          ReplyTried(eval, board.keys, repetitions, p, moves[..i], move, !first, before, best, outcome.score);
          if outcome.score > alpha {
            if outcome.score < beta {
              WindowNarrows(node, alpha, beta, outcome.score, idepth);
            }
            alpha := outcome.score;
            SetBest(idepth, move, p, old(stack[..]));
          }
          if alpha >= beta {
            if !node.RootNode? && isKiller {
              AddKiller(idepth, move, p, old(stack[..]));
            }
            assert IsLegal(p, stack[idepth].bestMove);
            StoreBest(node, depth, idepth, alpha0, beta, beta, p, old(stack[..]));
            return beta, cut;
          }
        }
      }
      KeptFacts(p, old(stack[..]), old(repetitions), idepth);
      if !hasMove {
        NoneIsLegal(p, moves, alpha0, beta, idepth);
        return if isInCheck then idepth - SCORE_CHECKMATE else 0, cut;
      }
      assert moves[..|moves|] == moves;
      AllTried(eval, board.keys, repetitions, p, moves, alpha, stack[idepth].bestMove);
      StoreBest(node, depth, idepth, alpha0, beta, alpha, p, old(stack[..]));
      r := alpha;
    }

    /** A cutoff from the transposition table. */
    method ProbeTable(
      node: NodeKind, depth: int, idepth: nat, alpha: Score, beta: Score, ghost p: Position, ghost frames: seq<Frame>)
      returns (found: bool, r: Score, ghost data: TtData)
      requires idepth < MAX_STACK_DEPTH && Kept(p, frames, repetitions, idepth) && alpha < beta
      modifies stack
      ensures Kept(p, frames, repetitions, idepth)
      ensures found ==> -SCORE_INF < r < SCORE_INF && ScoreOk(r, alpha, beta, idepth)
      ensures found ==> MayAnswer(node, data, depth, p) && Settles(data, r, alpha, beta, idepth)
      ensures !found && MayAnswer(node, data, depth, p) ==> forall s: Score :: !Settles(data, s, alpha, beta, idepth)
      ensures stack[idepth] == if found then old(stack[idepth]).(bestMove := data.move) else old(stack[idepth])
    {
      hide QuietEval;
      hide BoardOk;
      hide Settles;
      hide Clamp;
      found, r := false, 0;
      var entry := TtLoad();
      data := entry;
      ProbeIsRight(entry, alpha, beta, idepth);
      BoardIs(p);
      if
        && entry.Found? && !node.RootNode? && entry.depth >= depth && board.moveCounter < 90
        && (!node.IsPv() || entry.currentEpoch)
      {
        ValidWhenLoaded(entry.score, idepth);
        r := AdjustCheckmate(entry.score, idepth);
        found :=
          || entry.bound.Exact?
          || (entry.bound.Lowerbound? && r >= beta)
          || (entry.bound.Upperbound? && alpha >= r);
        if found {
          stack[idepth] := stack[idepth].(bestMove := entry.move);
        }
      }
    }

    lemma BoardIs(p: Position)
      requires BoardOk(p)
      ensures board.moveCounter == p.moveCounter
    {}

    /** Futility pruning and razoring: a position far above the window counts as `beta`; one far below it counts
        as `alpha` if captures and promotions leave it there. */
    method Prune(depth: int, alpha: Score, beta: Score, ghost p: Position)
      returns (pruned: bool, r: Score, ghost cut: bool)
      requires BoardOk(p) && 0 < depth && alpha < beta
      requires -SCORE_CHECKMATE_THRESHOLD < alpha && beta < SCORE_CHECKMATE_THRESHOLD
      modifies `told, board, board.cells
      ensures BoardOk(p) && told == (old(told) || cut) && (pruned ==> r == alpha || r == beta)
      ensures IsFutile(eval(p), depth, beta) ==> pruned && r == beta && !cut
      ensures !IsFutile(eval(p), depth, beta) && !cut ==>
        (pruned <==> IsHopeless(eval(p), depth, alpha) && IsHopeless(QValue(eval, p), depth, alpha))
      ensures !IsFutile(eval(p), depth, beta) && pruned ==> r == alpha
    {
      hide BoardOk;
      hide QValue;
      BoardFacts(p);
      hide Board.Consistent;
      pruned, r, cut := false, alpha, false;
      if depth <= FUTILITY_MAX_DEPTH && eval(board.Pos()) >= beta + FutilityMargin(depth) {
        return true, beta, false;
      }
      if depth <= RAZORING_MAX_DEPTH {
        var threshold: Score := alpha - RazoringMargin(depth);
        if eval(board.Pos()) <= threshold {
          var score;
          score, cut := QuiescenseSearch(threshold, threshold + 1, p);
          pruned := score <= threshold;
        }
      }
    }

    /** Goes no deeper: only captures and promotions are searched. */
    method SearchLeaf(idepth: nat, alpha: Score, beta: Score, ghost p: Position) returns (r: Score, ghost cut: bool)
      requires BoardOk(p) && QuietEval(eval) && alpha < beta && idepth < MAX_STACK_DEPTH
      requires p.moveCounter < 100 && !InsufficientMaterial(p.cells)
      modifies `told, board, board.cells
      ensures BoardOk(p) && told == (old(told) || cut)
      ensures -SCORE_INF < r < SCORE_INF && ScoreOk(r, alpha, beta, idepth)
      ensures WindowIsNormal(alpha, beta) && !cut ==> Clamp(r, alpha, beta) == Clamp(LeafValue(eval, p), alpha, beta)
      ensures !WindowIsNormal(alpha, beta) ==> r == alpha || r == beta
    {
      LeafIs(p);
      EdgesAreOk(alpha, beta, idepth);
      hide BoardOk;
      hide QValue;
      hide LeafValue;
      hide InsufficientMaterial;
      hide QuietEval;
      hide Clamp;
      hide ScoreOk;
      if alpha >= SCORE_CHECKMATE_THRESHOLD {
        return alpha, false;
      }
      if beta <= -SCORE_CHECKMATE_THRESHOLD {
        return beta, false;
      }
      r, cut := QuiescenseSearch(alpha, beta, p);
      NormalIsOk(r, alpha, beta, idepth);
    }

    lemma LeafIs(p: Position)
      requires BoardOk(p)
      ensures LeafValue(eval, p) ==
        if p.moveCounter >= 100 || InsufficientMaterial(p.cells) then 0 else QValue(eval, p)
    {
      hide QValue;
      hide InsufficientMaterial;
    }

    method DoSearch(
      node: NodeKind, depth0: int, idepth: nat, alpha: Score, beta: Score, flags0: set<Flag>, ghost p: Position)
      returns (r: Score, ghost cut: bool)
      requires idepth < MAX_STACK_DEPTH && Kept(p, stack[..], repetitions, idepth) && WindowOk(node, alpha, beta)
      requires node.RootNode? ==> depth0 > 0 && idepth == 0
      modifies `repetitions, `table, `told, stack, board, board.cells
      ensures Kept(p, old(stack[..]), old(repetitions), idepth) && told == (old(told) || cut)
      ensures -SCORE_INF < r < SCORE_INF && ScoreOk(r, alpha, beta, idepth)
      ensures node.RootNode? && alpha == -SCORE_INF ==> BestIsFound(p, stack[idepth].bestMove, cut)
      ensures node.RootNode? && NoLegalMove(p) ==> r == EndValue(p, idepth)
      ensures !node.RootNode? && depth0 <= 0 && WindowIsNormal(alpha, beta) && !cut ==>
        Clamp(r, alpha, beta) == Clamp(LeafValue(eval, p), alpha, beta)
      ensures !node.RootNode? && (p.moveCounter >= 100 || InsufficientMaterial(p.cells)) ==> r == 0 && !cut
      ensures node.RootNode? && depth0 == 1 && alpha == -SCORE_INF && beta == SCORE_INF && !cut && !NoLegalMove(p) ==>
        IsBestReply(eval, board.keys, old(repetitions), p, r, stack[idepth].bestMove)
      decreases MAX_STACK_DEPTH - idepth, 0
    {
      hide Valid;
      hide PseudoLegal;
      hide KingExposed;
      hide Play;
      hide InsufficientMaterial;
      hide BestIsFound;
      hide Board.Consistent;
      hide Sound;
      hide OneKing;
      hide IsKingAt;
      hide IsAttacked;
      hide NoLegalMove;
      hide EndValue;
      hide IsBestReply;
      hide LeafValue;
      hide QValue;
      hide Clamp;
      hide Material;
      hide QuietEval;
      hide ScoreOk;
      hide BoundOk;
      hide Kept;
      hide BoardOk;
      hide TableOk;
      var depth, flags := depth0, flags0;
      KeptFacts(p, stack[..], repetitions, idepth);
      BoardFacts(p);
      LeafIs(p);
      EdgesAreOk(alpha, beta, idepth);
      cut := false;
      SetBest(idepth, NULL_MOVE, p, stack[..]);
      if !node.RootNode? {
        if board.moveCounter >= 100 || IsDrawInsufficientMaterial(board) {
          return 0, false;
        }
      }
      KeptFacts(p, old(stack[..]), repetitions, idepth);
      if depth <= 0 || idepth + 1 == MAX_STACK_DEPTH {
        r, cut := SearchLeaf(idepth, alpha, beta, p);
        KeptIs(p, old(stack[..]), repetitions, idepth);
        return;
      }
      var found: bool;
      ghost var data;
      found, r, data := ProbeTable(node, depth, idepth, alpha, beta, p, old(stack[..]));
      if found {
        return;
      }
      KeptFacts(p, old(stack[..]), repetitions, idepth);
      BoardFacts(p);
      var isInCheck := IsCheck(board);
      assert isInCheck <==> InCheck(p);
      var isMateBounds := alpha <= -SCORE_CHECKMATE_THRESHOLD || beta >= SCORE_CHECKMATE_THRESHOLD;
      if !node.IsPv() && !isInCheck && !isMateBounds {
        var pruned;
        pruned, r, cut := Prune(depth, alpha, beta, p);
        KeptIs(p, old(stack[..]), repetitions, idepth);
        if pruned {
          return;
        }
      }
      KeptFacts(p, old(stack[..]), repetitions, idepth);
      var stop;
      ghost var sub, frames := false, stack[..];
      stop, depth, flags, sub := TryNullMove(
        node, depth, idepth, alpha, beta, flags, !isInCheck && !isMateBounds, p);
      KeptBelow(p, old(stack[..]), frames, old(repetitions), idepth);
      cut := cut || sub;
      if stop {
        return 0, cut;
      }
      frames := stack[..];
      KeptFacts(p, old(stack[..]), old(repetitions), idepth);
      KeptIs(p, frames, repetitions, idepth);
      r, sub := SearchMoves(node, depth, idepth, alpha, beta, flags, isInCheck, p);
      KeptFacts(p, frames, old(repetitions), idepth);
      KeptIs(p, old(stack[..]), old(repetitions), idepth);
      cut := cut || sub;
    }

    /** Iterative deepening searches one more depth with the widest window. */
    method Run(depth: nat, ghost p: Position) returns (score: Score, bestMove: Move, ghost cut: bool)
      requires 1 <= depth <= MAX_DEPTH && Kept(p, stack[..], repetitions, 0)
      modifies `repetitions, `table, `told, stack, board, board.cells
      ensures Kept(p, old(stack[..]), old(repetitions), 0) && told == cut
      ensures -SCORE_INF < score < SCORE_INF && IsScoreValid(score)
      ensures board.hash == old(board.hash) && bestMove == stack[0].bestMove
      ensures old(board.hash !in repetitions) ==> BestIsFound(p, bestMove, cut)
      ensures old(board.hash in repetitions) ==> score == 0 && !cut && bestMove == old(stack[0].bestMove)
      ensures !cut && old(stack[0].bestMove == NULL_MOVE) ==>
        (bestMove != NULL_MOVE <==> old(board.hash !in repetitions) && exists m: Move :: IsLegal(p, m))
      ensures old(board.hash !in repetitions) && NoLegalMove(p) ==> score == EndValue(p, 0)
      ensures depth == 1 && !cut && old(board.hash !in repetitions) && !NoLegalMove(p) ==>
        IsBestReply(eval, board.keys, old(repetitions + {board.hash}), p, score, bestMove)
    {
      told := false;
      score, cut := Search(RootNode, depth, 0, -SCORE_INF, SCORE_INF, {}, p);
      bestMove := stack[0].bestMove;
    }
  }

  /** What the picker may hand out. */
  ghost predicate Offered(p: Position, m: Move) { m == NULL_MOVE || PseudoLegal(p, m) }

  lemma OfferedMoves(p: Position)
    ensures Offered(p, NULL_MOVE) && forall m :: PseudoLegal(p, m) ==> Offered(p, m)
  {
    hide PseudoLegal;
  }

  lemma WithoutOne(s: seq<Move>, i: nat)
    requires i < |s|
    ensures forall m :: m in s <==> m == s[i] || m in s[..i] + s[i + 1..]
  {
    assert s == s[..i] + [s[i]] + s[i + 1..];
  }

  ghost predicate InCheck(p: Position) {
    exists k: Coord :: IsKingAt(p.cells, p.side, k) && IsAttacked(p.cells, p.side.Invert(), k)
  }

  ghost predicate NoLegalMove(p: Position) {
    forall m: Move :: !IsLegal(p, m)
  }

  /** Checkmate or stalemate, `idepth` plies from the root. */
  ghost function EndValue(p: Position, idepth: nat): int {
    if InCheck(p) then idepth - SCORE_CHECKMATE else 0
  }

  /** What a position is worth on which the search goes no deeper: nothing if it is a draw, else what captures and
      promotions make of it. */
  ghost function LeafValue(eval: Eval, p: Position): Score {
    if !Valid(p) || p.moveCounter >= 100 || InsufficientMaterial(p.cells) then 0 else QValue(eval, p)
  }

  /** The same, when the positions in `seen` count as draws by repetition. */
  ghost function NodeValue(eval: Eval, keys: Keys, seen: set<Hash>, p: Position): Score {
    if HashOf(keys, p) in seen then 0 else LeafValue(eval, p)
  }

  /** Neither bound lets the search return at once because of a checkmate. */
  predicate WindowIsNormal(alpha: Score, beta: Score) {
    alpha < SCORE_CHECKMATE_THRESHOLD && -SCORE_CHECKMATE_THRESHOLD < beta
  }

  /** The move is legal, the score is its value, and no legal move is worth more. */
  ghost predicate IsBestReply(eval: Eval, keys: Keys, seen: set<Hash>, p: Position, score: Score, best: Move) {
    && IsLegal(p, best) && score == -NodeValue(eval, keys, seen, Play(p, best))
    && forall m: Move :: IsLegal(p, m) ==> -NodeValue(eval, keys, seen, Play(p, m)) <= score
  }

  /** The best of the legal moves among those tried, if there was one. */
  ghost predicate BestSoFar(
    eval: Eval, keys: Keys, seen: set<Hash>, p: Position, tried: seq<Move>, hasMove: bool, alpha: Score, best: Move)
  {
    if hasMove then
      && IsLegal(p, best) && alpha == -NodeValue(eval, keys, seen, Play(p, best))
      && forall m :: m in tried && IsLegal(p, m) ==> -NodeValue(eval, keys, seen, Play(p, m)) <= alpha
    else alpha == -SCORE_INF && forall m :: m in tried ==> !IsLegal(p, m)
  }

  lemma NothingTried(eval: Eval, keys: Keys, seen: set<Hash>, p: Position, alpha: Score, best: Move)
    ensures alpha == -SCORE_INF ==> BestSoFar(eval, keys, seen, p, [], false, alpha, best)
  {}

  lemma ReplySkipped(
    eval: Eval, keys: Keys, seen: set<Hash>, p: Position, tried: seq<Move>, m: Move, hasMove: bool,
    alpha: Score, best: Move)
    ensures !IsLegal(p, m) && BestSoFar(eval, keys, seen, p, tried, hasMove, alpha, best) ==>
      BestSoFar(eval, keys, seen, p, tried + [m], hasMove, alpha, best)
  {
    hide IsLegal;
    hide Play;
    hide NodeValue;
  }

  lemma BestIsNormal(
    eval: Eval, keys: Keys, seen: set<Hash>, p: Position, tried: seq<Move>, hasMove: bool, alpha: Score, best: Move)
    requires QuietEval(eval)
    ensures BestSoFar(eval, keys, seen, p, tried, hasMove, alpha, best) ==>
      alpha < SCORE_CHECKMATE_THRESHOLD && (hasMove ==> -SCORE_CHECKMATE_THRESHOLD < alpha)
  {
    NodeValueIsNormal(eval, keys, seen, Play(p, best));
    hide QuietEval;
    hide Play;
    hide IsLegal;
    hide NodeValue;
  }

  /** One more move has its score; inside the window the score is its value. */
  lemma ReplyTried(
    eval: Eval, keys: Keys, seen: set<Hash>, p: Position, tried: seq<Move>, m: Move, hasMove: bool,
    alpha: Score, best: Move, score: Score)
    requires QuietEval(eval) && IsLegal(p, m) && -SCORE_INF < score < SCORE_INF
    ensures BestSoFar(eval, keys, seen, p, tried, hasMove, alpha, best) ==>
      Clamp(score, alpha, SCORE_INF) == Clamp(-NodeValue(eval, keys, seen, Play(p, m)), alpha, SCORE_INF) ==>
      BestSoFar(eval, keys, seen, p, tried + [m], true, Max(alpha, score), if score > alpha then m else best)
  {
    NodeValueIsNormal(eval, keys, seen, Play(p, m));
    hide QuietEval;
    hide Play;
    hide IsLegal;
    hide NodeValue;
  }

  lemma AllTried(
    eval: Eval, keys: Keys, seen: set<Hash>, p: Position, tried: seq<Move>, alpha: Score, best: Move)
    requires forall m: Move :: IsLegal(p, m) ==> m in tried
    ensures BestSoFar(eval, keys, seen, p, tried, true, alpha, best) ==>
      IsBestReply(eval, keys, seen, p, alpha, best)
  {
    hide Play;
    hide IsLegal;
    hide NodeValue;
  }

  /** Captures and promotions never make a checkmate score out of static scores. */
  lemma {:induction false} QValueIsNormal(eval: Eval, p: Position)
    requires Valid(p) && QuietEval(eval)
    ensures !IsScoreCheckmate(QValue(eval, p))
    decreases Material(p.cells)
  {
    hide Valid;
    hide Play;
    hide Material;
    hide NoisyMoves;
    hide InsufficientMaterial;
    hide QuietEval;
    StaticIsNormal(eval, p);
    if !InsufficientMaterial(p.cells) {
      TriedMoves(p);
      forall m | m in NoisyMoves(p)
        ensures !IsScoreCheckmate(-QValue(eval, Play(p, m)))
      {
        QValueIsNormal(eval, Play(p, m));
      }
    }
  }

  lemma NodeValueIsNormal(eval: Eval, keys: Keys, seen: set<Hash>, p: Position)
    requires QuietEval(eval)
    ensures !IsScoreCheckmate(NodeValue(eval, keys, seen, p))
  {
    hide Valid;
    hide InsufficientMaterial;
    if Valid(p) {
      QValueIsNormal(eval, p);
    }
    hide QValue;
    hide QuietEval;
    hide HashOf;
  }

  lemma NoneIsLegal(p: Position, moves: seq<Move>, alpha: Score, beta: Score, idepth: nat)
    requires forall m: Move :: IsLegal(p, m) ==> m in moves
    requires forall j :: 0 <= j < |moves| ==> !IsLegal(p, moves[j])
    requires idepth < MAX_STACK_DEPTH
    ensures NoLegalMove(p) && ScoreOk(EndValue(p, idepth), alpha, beta, idepth)
    ensures EndValue(p, idepth) == if InCheck(p) then idepth - SCORE_CHECKMATE else 0
  {
    hide IsLegal;
    hide InCheck;
  }

  lemma LegalIs(p: Position, m: Move)
    requires m == NULL_MOVE || PseudoLegal(p, m)
    ensures IsLegal(p, m) ==> !NoLegalMove(p) && m != NULL_MOVE
    ensures m != NULL_MOVE ==> (IsLegal(p, m) <==> !KingExposed(Play(p, m)))
  {
    hide PseudoLegal;
    hide KingExposed;
    hide Play;
    NullIsNoMove(p);
  }

  lemma NullIsNoMove(p: Position)
    ensures !PseudoLegal(p, NULL_MOVE) && !IsLegal(p, NULL_MOVE)
  {}

  /** The best move is legal; a search that was not cut short has one if there is any legal move. */
  ghost predicate BestIsFound(p: Position, bestMove: Move, cut: bool) {
    && (bestMove == NULL_MOVE || IsLegal(p, bestMove))
    && (!cut ==> (bestMove == NULL_MOVE <==> forall m: Move :: !IsLegal(p, m)))
  }

  datatype Outcome = Illegal | Stop | Reduced | Searched(score: Score)

  /** The moves handed out so far are searched, illegal, or the one at hand. */
  ghost predicate Accounted(p: Position, given: set<Move>, done: set<Move>, move: Move) {
    && done <= NoisyMoves(p)
    && (forall m :: m in given ==> (m == move && !m.kind.Invalid?) || m in done || m !in NoisyMoves(p))
    && (if move.kind.Invalid? then NoisyMoves(p) <= given else IsNoisy(p, move) && move in given)
  }

  /** `alpha` is what the moves searched so far are worth inside the window. */
  ghost predicate Narrowed(
    eval: Eval, p: Position, done: set<Move>, cut: bool, alpha0: Score, beta: Score, alpha: Score)
    requires Valid(p) && done <= NoisyMoves(p)
  {
    && alpha0 <= alpha && -SCORE_INF < alpha && alpha0 < beta
    && (!cut ==> exists best: Score ::
      IsMax(Scores(eval, p, done), best) && Clamp(best, alpha0, beta) == Clamp(alpha, alpha0, beta))
  }

  /** A capture or a promotion may be made, and leads to a position with less to search. */
  lemma NoisyFacts(p: Position, given: set<Move>, done: set<Move>, m: Move)
    requires Valid(p) && Accounted(p, given, done, m) && !m.kind.Invalid?
    ensures Playable(p, m) && m != NULL_MOVE
    ensures m in NoisyMoves(p) <==> !KingExposed(Play(p, m))
    ensures !KingExposed(Play(p, m)) ==> Valid(Play(p, m)) && Material(Play(p, m).cells) < Material(p.cells)
  {
    NoisyMovesAre(p, m);
    TriedMoves(p);
    hide NoisyMoves;
    hide Valid;
    hide KingExposed;
    hide Material;
  }

  lemma StartAccount(p: Position, given: set<Move>, move: Move)
    requires if move.kind.Invalid? then given == {} && NoisyMoves(p) <= given else IsNoisy(p, move) && given == {move}
    ensures Accounted(p, given, {}, move)
  {
    hide NoisyMoves;
  }

  lemma NextAccount(
    p: Position, given: set<Move>, done: set<Move>, move: Move, given': set<Move>, done': set<Move>, move': Move)
    requires Accounted(p, given, done, move) && !move.kind.Invalid?
    requires move in NoisyMoves(p) ==> done' == done + {move}
    requires move !in NoisyMoves(p) ==> done' == done
    requires if move'.kind.Invalid? then given' == given && NoisyMoves(p) <= given'
      else IsNoisy(p, move') && given' == given + {move'}
    ensures Accounted(p, given', done', move') && done' <= NoisyMoves(p)
  {
    hide NoisyMoves;
    hide IsNoisy;
  }

  /** The recursive call has answered for the position after `move`. */
  lemma AnswerNarrows(
    eval: Eval, p: Position, done: set<Move>, cut: bool, alpha0: Score, beta: Score, alpha: Score,
    move: Move, answer: Score, sub: bool)
    requires Valid(p) && done <= NoisyMoves(p) && move in NoisyMoves(p) && Valid(Play(p, move))
    requires Narrowed(eval, p, done, cut, alpha0, beta, alpha) && alpha < beta && !InsufficientMaterial(p.cells)
    requires !sub ==> Clamp(answer, -beta, -alpha) == Clamp(QValue(eval, Play(p, move)), -beta, -alpha)
    ensures done + {move} <= NoisyMoves(p)
    ensures Narrowed(eval, p, done + {move}, cut || sub, alpha0, beta, Max(alpha, -answer))
    ensures !cut && !sub && beta <= Max(alpha, -answer) ==> beta <= QValue(eval, p)
  {
    hide NoisyMoves;
    hide Valid;
    hide Play;
    hide Scores;
    hide QValue;
    hide IsMax;
    if !cut && !sub {
      var best: Score :| IsMax(Scores(eval, p, done), best) && Clamp(best, alpha0, beta) == Clamp(alpha, alpha0, beta);
      OneMoreScore(eval, p, done, move, best);
      QValueIsMore(eval, p, done + {move}, Max(best, -QValue(eval, Play(p, move))));
    }
  }

  lemma AllSearched(
    eval: Eval, p: Position, given: set<Move>, done: set<Move>, move: Move,
    cut: bool, alpha0: Score, beta: Score, alpha: Score)
    requires Valid(p) && Accounted(p, given, done, move) && move.kind.Invalid?
    requires Narrowed(eval, p, done, cut, alpha0, beta, alpha) && alpha < beta && !InsufficientMaterial(p.cells)
    ensures !cut ==> Clamp(alpha, alpha0, beta) == Clamp(QValue(eval, p), alpha0, beta)
  {
    hide NoisyMoves;
    hide Valid;
    hide Scores;
    hide QValue;
    hide IsMax;
    assert done == NoisyMoves(p);
    if !cut {
      var best: Score :| IsMax(Scores(eval, p, done), best) && Clamp(best, alpha0, beta) == Clamp(alpha, alpha0, beta);
      AllScores(eval, p, best);
    }
  }

  /** A cut at `beta` is right when the position is worth that much. */
  lemma CutAbove(eval: Eval, p: Position, alpha0: Score, beta: Score)
    requires Valid(p)
    ensures alpha0 < beta <= QValue(eval, p) ==> Clamp(beta, alpha0, beta) == Clamp(QValue(eval, p), alpha0, beta)
  {}

  lemma NoMaterialNoValue(eval: Eval, p: Position)
    requires Valid(p) && InsufficientMaterial(p.cells)
    ensures QValue(eval, p) == 0
  {
    hide Valid;
    hide InsufficientMaterial;
  }

  /** Before the first move there is only the static score. */
  lemma NothingDone(eval: Eval, p: Position, alpha0: Score, beta: Score)
    requires Valid(p) && !InsufficientMaterial(p.cells)
    ensures {} <= NoisyMoves(p)
    ensures alpha0 < beta ==> Narrowed(eval, p, {}, false, alpha0, beta, Max(alpha0, eval(p)))
    ensures beta <= eval(p) ==> beta <= QValue(eval, p)
  {
    hide NoisyMoves;
    hide Valid;
    hide Play;
    hide QValue;
    hide InsufficientMaterial;
    assert Scores(eval, p, {}) == {eval(p)};
    QValueIsMore(eval, p, {}, eval(p));
  }

  /** The value of a position is no less than what some of the moves give. */
  lemma QValueIsMore(eval: Eval, p: Position, done: set<Move>, best: Score)
    requires Valid(p) && !InsufficientMaterial(p.cells) && done <= NoisyMoves(p) && IsMax(Scores(eval, p, done), best)
    ensures best <= QValue(eval, p)
  {
    ScoresGrow(eval, p, done);
    hide NoisyMoves;
    hide Valid;
    hide Play;
    hide Scores;
    hide QValue;
    HasMax(Scores(eval, p, NoisyMoves(p)));
    var v: Score :| IsMax(Scores(eval, p, NoisyMoves(p)), v);
    AllScores(eval, p, v);
  }

  lemma ScoresGrow(eval: Eval, p: Position, done: set<Move>)
    requires Valid(p) && done <= NoisyMoves(p)
    ensures Scores(eval, p, done) <= Scores(eval, p, NoisyMoves(p)) && Scores(eval, p, done) != {}
  {
    hide NoisyMoves;
    hide Valid;
    hide Play;
    hide QValue;
    TriedMoves(p);
  }
}

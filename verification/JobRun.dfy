/** One job of the search: it makes the moves that led to the root, notes which positions have come up
    twice, and then searches the root deeper and deeper. */
module JobRun {
  import opened Types
  import opened Rules
  import opened Invariants
  import opened Zobrist
  import Bitboards
  import opened Boards
  import opened Runs
  import opened Quiescence
  import opened SearchEngine

  /** The hashes of the boards on which the moves were made; the last board is not among them. */
  function HashesBefore(keys: Keys, p: Position, ms: seq<Move>): (r: seq<Hash>)
    ensures |r| == |ms|
    decreases ms
  {
    if ms == [] then [] else [HashOf(keys, p)] + HashesBefore(keys, Play(p, ms[0]), ms[1..])
  }

  /** How often a hash comes up. */
  function Occurrences(hashes: seq<Hash>, h: Hash): nat { multiset(hashes)[h] }

  /** The root was there at least twice before. */
  predicate RootIsRepeated(keys: Keys, p: Position, ms: seq<Move>) {
    Occurrences(HashesBefore(keys, p, ms), HashOf(keys, PlayRun(p, ms))) >= 2
  }

  /** The two tables after the hashes in `seen`. */
  ghost predicate Tables(seen: seq<Hash>, single: set<Hash>, double: set<Hash>) {
    forall h: Hash :: (h in single <==> Occurrences(seen, h) >= 1) && (h in double <==> Occurrences(seen, h) >= 2)
  }

  lemma OneMoreSeen(seen: seq<Hash>, hash: Hash, single: set<Hash>, double: set<Hash>)
    requires Tables(seen, single, double)
    ensures Tables(seen + [hash], single + {hash}, if hash in single then double + {hash} else double)
  {
    forall h: Hash
      ensures Occurrences(seen + [hash], h) == Occurrences(seen, h) + if h == hash then 1 else 0
    {
      assert multiset(seen + [hash]) == multiset(seen) + multiset{hash};
    }
  }

  lemma OneMoveLess(keys: Keys, p: Position, ms: seq<Move>, i: nat)
    requires i < |ms|
    ensures HashesBefore(keys, p, ms[i..]) == [HashOf(keys, p)] + HashesBefore(keys, Play(p, ms[i]), ms[i + 1..])
    ensures PlayRun(p, ms[i..]) == PlayRun(Play(p, ms[i]), ms[i + 1..])
    ensures LegalRun(p, ms[i..]) ==> IsLegal(p, ms[i]) && LegalRun(Play(p, ms[i]), ms[i + 1..])
  {
    assert ms[i..][1..] == ms[i + 1..] && ms[i..][0] == ms[i];
  }

  lemma LegalStep(p: Position, m: Move)
    requires Valid(p) && IsLegal(p, m)
    ensures Sound(p) && Playable(p, m) && Valid(Play(p, m))
  {
    PlayKeepsValid(p, m);
    hide KingExposed;
    hide PseudoLegal;
    hide Play;
  }

  lemma BoardHash(board: Board)
    requires board.Consistent()
    ensures board.hash == HashOf(board.keys, board.Pos())
  {}

  /** Makes the moves and fills the tables of the positions that came up once and twice. */
  method MakeMoves(board: Board, ms: seq<Move>) returns (single: set<Hash>, double: set<Hash>)
    requires board.Consistent() && Valid(board.Pos()) && LegalRun(board.Pos(), ms)
    modifies board, board.cells
    ensures board.Consistent() && Valid(board.Pos()) && board.Pos() == PlayRun(old(board.Pos()), ms)
    ensures Tables(HashesBefore(board.keys, old(board.Pos()), ms), single, double)
  {
    hide Board.HashOk;
    hide Bitboards.PieceBoards.Match;
    hide Settled;
    hide Valid;
    hide Tables;
    hide IsLegal;
    hide LegalRun;
    hide HashesBefore;
    hide PlayRun;
    hide HashOf;
    hide Play;
    hide Playable;
    single, double := {}, {};
    ghost var p, all := board.Pos(), HashesBefore(board.keys, board.Pos(), ms);
    ghost var seen: seq<Hash> := [];
    assert ms[0..] == ms && [] + all == all;
    NoneSeen();
    for i := 0 to |ms|
      invariant board.Consistent() && Valid(board.Pos()) && LegalRun(board.Pos(), ms[i..])
      invariant PlayRun(board.Pos(), ms[i..]) == PlayRun(p, ms)
      invariant seen + HashesBefore(board.keys, board.Pos(), ms[i..]) == all && Tables(seen, single, double)
    {
      OneMoveLess(board.keys, board.Pos(), ms, i);
      BoardHash(board);
      OneMoreSeen(seen, board.hash, single, double);
      LegalStep(board.Pos(), ms[i]);
      ghost var rest := HashesBefore(board.keys, Play(board.Pos(), ms[i]), ms[i + 1..]);
      assert seen + ([board.hash] + rest) == (seen + [board.hash]) + rest;
      seen := seen + [board.hash];
      if board.hash in single {
        double := double + {board.hash};
      }
      single := single + {board.hash};
      var _ := board.MoveMake(ms[i]);
    }
    NoMovesLeft(board.keys, board.Pos(), ms[|ms|..]);
    assert seen + [] == seen;
  }

  lemma NoneSeen()
    ensures Tables([], {}, {})
  {}

  lemma NoMovesLeft(keys: Keys, p: Position, ms: seq<Move>)
    requires ms == []
    ensures HashesBefore(keys, p, ms) == [] && PlayRun(p, ms) == p
  {}

  /** What one depth may answer for the root: a legal move or none; none and a draw if the root has come up
      twice before; the score of checkmate or stalemate if there is no legal move; and, unless the search was cut
      short, a move exactly when the root has not come up twice and there is one. */
  ghost predicate RootAnswer(root: Position, repeated: bool, bestMove: Move, score: Score, cut: bool) {
    && IsScoreValid(score) && (bestMove == NULL_MOVE || IsLegal(root, bestMove))
    && (repeated ==> bestMove == NULL_MOVE && score == 0)
    && (!repeated && NoLegalMove(root) ==> score == EndValue(root, 0))
    && (!cut ==> (bestMove != NULL_MOVE <==> !repeated && exists m: Move :: IsLegal(root, m)))
  }

  /** The hashes that count as repetitions in the search: those that came up twice, and the root. */
  ghost predicate IsSeen(keys: Keys, p: Position, ms: seq<Move>, seen: set<Hash>) {
    forall h: Hash :: h in seen <==> h == HashOf(keys, PlayRun(p, ms)) || Occurrences(HashesBefore(keys, p, ms), h) >= 2
  }

  /** The first depth is searched exactly: the best move is one of those that leave the opponent the least. */
  ghost predicate FirstAnswer(
    eval: Eval, keys: Keys, p: Position, ms: seq<Move>, bestMove: Move, score: Score, cut: bool)
  {
    !cut && !RootIsRepeated(keys, p, ms) && !NoLegalMove(PlayRun(p, ms)) ==>
      exists seen: set<Hash> ::
        IsSeen(keys, p, ms, seen) && IsBestReply(eval, keys, seen, PlayRun(p, ms), score, bestMove)
  }

  /** The search of one job, depth by depth, until it is told to stop. */
  method Run(board: Board, ms: seq<Move>, eval: Eval, maxDepth: nat)
    returns (best: seq<Move>, scores: seq<Score>, ghost cuts: seq<bool>)
    requires board.Consistent() && Valid(board.Pos()) && LegalRun(board.Pos(), ms) && QuietEval(eval)
    modifies board, board.cells
    ensures board.Consistent() && board.Pos() == PlayRun(old(board.Pos()), ms)
    ensures |best| == |scores| == |cuts| <= Min(maxDepth, MAX_DEPTH) && (maxDepth > 0 ==> best != [])
    ensures var p := old(board.Pos());
      forall d :: 0 <= d < |best| ==>
        RootAnswer(PlayRun(p, ms), RootIsRepeated(board.keys, p, ms), best[d], scores[d], cuts[d])
    ensures best != [] ==> FirstAnswer(eval, board.keys, old(board.Pos()), ms, best[0], scores[0], cuts[0])
  {
    hide Valid;
    hide LegalRun;
    hide HashesBefore;
    hide PlayRun;
    hide HashOf;
    hide Play;
    hide RootAnswer;
    hide QuietEval;
    hide Settled;
    hide Board.HashOk;
    hide Bitboards.PieceBoards.Match;
    hide IsScoreValid;
    hide IsLegal;
    hide NoLegalMove;
    hide IsBestReply;
    hide EndValue;
    hide FirstAnswer;
    hide BestIsFound;
    hide Tables;
    ghost var start := board.Pos();
    ghost var repeated := RootIsRepeated(board.keys, board.Pos(), ms);
    var single, double := MakeMoves(board, ms);
    ghost var root := board.Pos();
    BoardHash(board);
    RepeatedIsDouble(board.keys, start, ms, single, double);
    var searcher := new Searcher(board, eval, double);
    best, scores, cuts := [], [], [];
    for depth := 1 to Min(maxDepth, MAX_DEPTH) + 1
      invariant board.Consistent() && board.Pos() == root && board.hash == HashOf(board.keys, root)
      invariant searcher.Kept(root, searcher.stack[..], double, 0) && fresh(searcher) && fresh(searcher.stack)
      invariant repeated ==> searcher.stack[0].bestMove == NULL_MOVE
      invariant |best| == |scores| == |cuts| == depth - 1
      invariant forall d :: 0 <= d < |best| ==> RootAnswer(root, repeated, best[d], scores[d], cuts[d])
      invariant best != [] ==> FirstAnswer(eval, board.keys, start, ms, best[0], scores[0], cuts[0])
    {
      var score, bestMove;
      ghost var cut;
      score, bestMove, cut := searcher.Run(depth, root);
      Answered(root, repeated, bestMove, score, cut);
      if depth == 1 {
        AnsweredFirst(eval, board.keys, start, ms, single, double, bestMove, score, cut);
      }
      best, scores, cuts := best + [bestMove], scores + [score], cuts + [cut];
      var isStopped: bool := *;
      if isStopped {
        return;
      }
    }
  }

  lemma RepeatedIsDouble(keys: Keys, p: Position, ms: seq<Move>, single: set<Hash>, double: set<Hash>)
    requires Tables(HashesBefore(keys, p, ms), single, double)
    ensures RootIsRepeated(keys, p, ms) <==> HashOf(keys, PlayRun(p, ms)) in double
  {
    hide HashOf;
    hide HashesBefore;
    hide PlayRun;
  }

  lemma AnsweredFirst(
    eval: Eval, keys: Keys, p: Position, ms: seq<Move>, single: set<Hash>, double: set<Hash>,
    bestMove: Move, score: Score, cut: bool)
    requires Tables(HashesBefore(keys, p, ms), single, double)
    requires !cut && !RootIsRepeated(keys, p, ms) && !NoLegalMove(PlayRun(p, ms)) ==>
      IsBestReply(eval, keys, double + {HashOf(keys, PlayRun(p, ms))}, PlayRun(p, ms), score, bestMove)
    ensures FirstAnswer(eval, keys, p, ms, bestMove, score, cut)
  {
    hide HashOf;
    hide HashesBefore;
    hide PlayRun;
    hide IsBestReply;
    hide NoLegalMove;
    hide Occurrences;
    assert IsSeen(keys, p, ms, double + {HashOf(keys, PlayRun(p, ms))});
  }

  lemma Answered(root: Position, repeated: bool, bestMove: Move, score: Score, cut: bool)
    requires IsScoreValid(score)
    requires if repeated then score == 0 && !cut && bestMove == NULL_MOVE else BestIsFound(root, bestMove, cut)
    requires !repeated && NoLegalMove(root) ==> score == EndValue(root, 0)
    ensures RootAnswer(root, repeated, bestMove, score, cut)
  {
    hide EndValue;
    hide IsLegal;
    hide IsScoreValid;
  }

  function Min(a: nat, b: nat): nat { if a <= b then a else b }
}

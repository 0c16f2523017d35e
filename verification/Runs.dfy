/** Whole runs of moves on one board that is changed in place. */
module Runs {
  import opened Types
  import opened Rules
  import opened Invariants
  import opened Zobrist
  import opened Bitboards
  import opened Boards
  import opened Attacks

  /** Each move of the run is playable where it is made. */
  predicate PlayableRun(p: Position, ms: seq<Move>)
    decreases ms
  {
    ms == [] || (Playable(p, ms[0]) && PlayableRun(Play(p, ms[0]), ms[1..]))
  }

  function PlayRun(p: Position, ms: seq<Move>): Position
    decreases ms
  {
    if ms == [] then p else PlayRun(Play(p, ms[0]), ms[1..])
  }

  /** Each move of the run is legal where it is made. */
  predicate LegalRun(p: Position, ms: seq<Move>)
    decreases ms
  {
    ms == [] || (IsLegal(p, ms[0]) && LegalRun(Play(p, ms[0]), ms[1..]))
  }

  lemma {:induction false} RunKeepsSound(p: Position, ms: seq<Move>)
    requires Sound(p) && PlayableRun(p, ms)
    ensures Sound(PlayRun(p, ms))
    decreases ms
  {
    if ms != [] {
      PlayKeepsSound(p, ms[0]);
      RunKeepsSound(Play(p, ms[0]), ms[1..]);
    }
  }

  /** A position has only one set of bitboards. */
  lemma BitsAreDetermined(b: Bitboards.PieceBoards, b': Bitboards.PieceBoards, s: Cells)
    requires b.Match(s) && b'.Match(s)
    ensures b == b'
  {
    assert b.pieces == b'.pieces;
  }

  /** Consistent boards with the same essential fields agree in every other field. */
  lemma SamePosSameAux(b: Board, c: Board)
    requires b.Consistent() && c.Consistent() && b.keys == c.keys && b.Pos() == c.Pos()
    ensures b.Aux() == c.Aux()
  {
    assert b.Pos().cells == c.Pos().cells;
    BitsAreDetermined(b.Bits(), c.Bits(), b.cells[..]);
    hide Bitboards.PieceBoards.Match;
    hide Settled;
  }

  /** Recomputation corrects nothing exactly when the flags agree with the cells. */
  lemma SettledIsNormal(p: Position)
    ensures Settled(p) <==> EnpassantRowOk(p) && Normalized(p) == p
  {
    if Settled(p) {
      assert (set f | f in p.castling && HomesHeld(p.cells, f)) == p.castling;
    } else if EnpassantRowOk(p) && Normalized(p) == p {
      forall f | f in p.castling
        ensures HomesHeld(p.cells, f)
      {
        assert f in Normalized(p).castling;
      }
    }
  }

  /** After any run of playable moves the board is the one that the rules give, and recomputing its
      auxiliary fields changes nothing at all. */
  method PlayAll(b: Board, ms: seq<Move>)
    requires b.Consistent() && Sound(b.Pos()) && PlayableRun(b.Pos(), ms)
    modifies b, b.cells
    ensures b.Consistent() && Sound(b.Pos()) && b.Pos() == PlayRun(old(b.Pos()), ms)
  {
    for i := 0 to |ms|
      invariant b.Consistent() && Sound(b.Pos()) && PlayableRun(b.Pos(), ms[i..])
      invariant PlayRun(b.Pos(), ms[i..]) == PlayRun(old(b.Pos()), ms)
    {
      PlayKeepsSound(b.Pos(), ms[i]);
      assert ms[i..][1..] == ms[i + 1..];
      hide Sound;
      hide Playable;
      hide Board.Consistent;
      hide Play;
      var _ := b.MoveMake(ms[i]);
    }
  }

  method UpdateChangesNothing(b: Board)
    requires b.Consistent()
    modifies b
    ensures b.Pos() == old(b.Pos()) && b.Aux() == old(b.Aux())
  {
    SettledIsNormal(b.Pos());
    ghost var bits := b.Bits();
    b.Update();
    BitsAreDetermined(bits, b.Bits(), b.cells[..]);
  }

  /** A search tree: from each node some moves are tried, each followed by a subtree. */
  datatype Tree = Node(children: seq<(Move, Tree)>)

  predicate PlayableTree(p: Position, t: Tree)
    decreases t
  {
    forall i :: 0 <= i < |t.children| ==>
      Playable(p, t.children[i].0) && PlayableTree(Play(p, t.children[i].0), t.children[i].1)
  }

  /** Making and unmaking moves in any well-nested order gives back every field of the board. */
  method Explore(b: Board, t: Tree)
    requires b.Consistent() && Sound(b.Pos()) && PlayableTree(b.Pos(), t)
    modifies b, b.cells
    ensures b.Consistent() && b.Pos() == old(b.Pos()) && b.Aux() == old(b.Aux())
    decreases t
  {
    ghost var before, bits := b.Pos(), b.Bits();
    for i := 0 to |t.children|
      invariant b.Consistent() && b.Pos() == before
    {
      var (m, next) := t.children[i];
      PlayKeepsSound(before, m);
      assert PlayableTree(Play(before, m), next);
      assert Playable(before, m);
      assert next < t.children[i];
      hide Sound;
      hide Playable;
      hide Board.Consistent;
      hide Play;
      var p := b.MoveMake(m);
      Explore(b, next);
      b.MoveUnmake(m, p, before);
    }
    BitsAreDetermined(bits, b.Bits(), b.cells[..]);
  }
}

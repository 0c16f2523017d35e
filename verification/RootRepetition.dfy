/** A game in which the root has come up twice before: from the initial position both sides bring out a
    knight and take it back, two times. */
module RootRepetition {
  import opened Types
  import opened Geometry
  import opened Rules
  import opened Invariants
  import opened Zobrist
  import opened Runs
  import opened GameSet
  import opened JobRun

  /** The home rows of `c`: its king and its pawns stand as at the start. */
  predicate KingAtHome(s: Cells, c: Color) {
    var off := CastlingOffset(c);
    && IsKingAt(s, c, off + 4)
    && forall j: Coord :: CoordX(j) == CoordX(off) + PawnForwardDelta(c) / 8 ==> s[j] != Empty
  }

  /** The men of the other colour are at least four rows away from the home row of `c`. */
  predicate EnemiesFar(s: Cells, c: Color) {
    forall j: Coord :: IsOwn(s, c.Invert(), j) ==> if c.White? then CoordX(j) <= 3 else CoordX(j) >= 4
  }

  /** The row of pawns hides the king from everything that is far away. */
  lemma PawnsHideKing(c: Color, far: Coord, occupied: Bitboard) returns (hiding: Coord)
    requires if c.White? then CoordX(far) <= 3 else CoordX(far) >= 4
    requires RookLine(far, CastlingOffset(c) + 4) || BishopLine(far, CastlingOffset(c) + 4)
    ensures CoordX(hiding) == CoordX(CastlingOffset(c)) + PawnForwardDelta(c) / 8
    ensures StrictlyBetween(far, hiding, CastlingOffset(c) + 4)
  {
    var king := CastlingOffset(c) + 4;
    var ahead := king + PawnForwardDelta(c);
    hiding := if CoordY(far) == CoordY(king) then ahead
      else if CoordY(far) < CoordY(king) then ahead - 1 else ahead + 1;
  }

  lemma KingIsSafe(s: Cells, c: Color)
    requires KingAtHome(s, c) && EnemiesFar(s, c)
    ensures !IsAttacked(s, c.Invert(), CastlingOffset(c) + 4)
  {
    var king := CastlingOffset(c) + 4;
    forall far: Coord | IsOwn(s, c.Invert(), far)
      ensures !ManAttacks(s[far], Occupied(s), far, king)
    {
      if RookLine(far, king) || BishopLine(far, king) {
        var hiding := PawnsHideKing(c, far, Occupied(s));
        assert hiding in Occupied(s);
      }
    }
  }

  /** Both kings are at home behind their pawns, and no man has gone beyond the middle of the board. */
  predicate Quiet(p: Position) {
    && p.castling == ALL_CASTLING && p.enpassant == -1
    && forall c: Color :: KingAtHome(p.cells, c) && EnemiesFar(p.cells, c)
  }

  /** A knight steps over empty cells of its own half, behind or before the row of pawns. */
  predicate IsOuting(p: Position, src: Coord, dst: Coord) {
    && p.cells[src] == Man(p.side, Knight) && p.cells[dst] == Empty && KnightStep(src, dst)
    && {src, dst} !! {0, 4, 7, 56, 60, 63}
    && CoordX(src) !in {1, 6} && if p.side.White? then CoordX(dst) >= 4 else CoordX(dst) <= 3
  }

  function AfterOuting(p: Position, src: Coord, dst: Coord): Position {
    Position(p.cells[src := Empty][dst := Man(p.side, Knight)], p.side.Invert(), p.castling, -1,
      Increment(p.moveCounter), if p.side.Black? then Increment(p.moveNumber) else p.moveNumber)
  }

  lemma OutingIsPlayed(p: Position, src: Coord, dst: Coord)
    requires Quiet(p) && IsOuting(p, src, dst)
    ensures PseudoLegal(p, Move(Simple, src, dst)) && Play(p, Move(Simple, src, dst)) == AfterOuting(p, src, dst)
  {
    hide KingAtHome;
    hide EnemiesFar;
    assert CastlingAfter(p, Move(Simple, src, dst)) == p.castling;
  }

  lemma OutingKeepsQuiet(p: Position, src: Coord, dst: Coord)
    requires Quiet(p) && IsOuting(p, src, dst)
    ensures Quiet(AfterOuting(p, src, dst))
  {
    var t := AfterOuting(p, src, dst).cells;
    forall c: Color
      ensures KingAtHome(t, c) && EnemiesFar(t, c)
    {
      assert KingAtHome(p.cells, c) && EnemiesFar(p.cells, c);
    }
  }

  lemma Outing(p: Position, src: Coord, dst: Coord)
    requires Quiet(p) && IsOuting(p, src, dst)
    ensures IsLegal(p, Move(Simple, src, dst)) && Play(p, Move(Simple, src, dst)) == AfterOuting(p, src, dst)
    ensures Quiet(AfterOuting(p, src, dst))
  {
    OutingIsPlayed(p, src, dst);
    OutingKeepsQuiet(p, src, dst);
    var q := AfterOuting(p, src, dst);
    assert KingAtHome(q.cells, p.side) && EnemiesFar(q.cells, p.side);
    KingIsSafe(q.cells, p.side);
    hide PseudoLegal;
    hide Play;
    hide IsAttacked;
    hide EnemiesFar;
  }

  // ---- The game ----

  /** "g1f3 g8f6 f3g1 f6g8" */
  const OUT_AND_BACK: seq<Move> :=
    [Move(Simple, 62, 45), Move(Simple, 6, 21), Move(Simple, 45, 62), Move(Simple, 21, 6)]

  /** What has to be known about the initial cells. */
  lemma InitialFacts()
    ensures var s := InitialCells();
      && s[62] == Man(White, Knight) && s[6] == Man(Black, Knight) && s[45] == s[21] == Empty
      && (forall c: Color :: KingAtHome(s, c) && EnemiesFar(s, c))
  {
    forall c: Color
      ensures KingAtHome(InitialCells(), c) && EnemiesFar(InitialCells(), c)
    {
      InitialHome(c);
    }
    hide KingAtHome;
    hide EnemiesFar;
  }

  lemma InitialHome(c: Color)
    ensures KingAtHome(InitialCells(), c) && EnemiesFar(InitialCells(), c)
  {
    InitialKing(c);
    InitialEnemies(c);
    hide KingAtHome;
    hide EnemiesFar;
  }

  lemma InitialKing(c: Color)
    ensures KingAtHome(InitialCells(), c)
  {}

  lemma InitialEnemies(c: Color)
    ensures EnemiesFar(InitialCells(), c)
  {}

  /** Both knights are out. */
  function KnightsOut(s: Cells): Cells {
    s[62 := Empty][45 := Man(White, Knight)][6 := Empty][21 := Man(Black, Knight)]
  }

  lemma KnightsBack(s: Cells)
    requires s[62] == Man(White, Knight) && s[6] == Man(Black, Knight) && s[45] == s[21] == Empty
    ensures KnightsOut(s)[45 := Empty][62 := Man(White, Knight)][21 := Empty][6 := Man(Black, Knight)] == s
  {}

  /** A position that differs from the initial one in the counters only. */
  predicate IsStart(p: Position) {
    p.cells == InitialCells() && p.side.White? && p.castling == ALL_CASTLING && p.enpassant == -1
  }

  lemma StartIsQuiet(p: Position)
    requires IsStart(p)
    ensures Quiet(p) && IsOuting(p, 62, 45)
    ensures p.cells[6] == Man(Black, Knight) && p.cells[21] == Empty
  {
    InitialFacts();
    hide InitialCells;
    hide KingAtHome;
    hide EnemiesFar;
  }

  lemma FourMoves(p: Position, a: Move, b: Move, c: Move, d: Move)
    returns (p1: Position, p2: Position, p3: Position, p4: Position)
    ensures p1 == Play(p, a) && p2 == Play(p1, b) && p3 == Play(p2, c) && p4 == Play(p3, d)
    ensures PlayRun(p, [a, b, c, d]) == p4
    ensures LegalRun(p, [a, b, c, d]) <==> IsLegal(p, a) && IsLegal(p1, b) && IsLegal(p2, c) && IsLegal(p3, d)
  {
    p1, p2, p3, p4 := Play(p, a), Play(Play(p, a), b),
      Play(Play(Play(p, a), b), c), Play(Play(Play(Play(p, a), b), c), d);
    hide Play;
    hide IsLegal;
    assert [a, b, c, d][1..] == [b, c, d] && [b, c, d][1..] == [c, d] && [c, d][1..] == [d] && [d][1..] == [];
    assert PlayRun(p3, [d]) == p4 && (LegalRun(p3, [d]) <==> IsLegal(p3, d));
    assert PlayRun(p2, [c, d]) == p4 && (LegalRun(p2, [c, d]) <==> IsLegal(p2, c) && IsLegal(p3, d));
  }

  /** The knights come out and go back. */
  lemma OutAndBack(p: Position)
    requires IsStart(p)
    ensures LegalRun(p, OUT_AND_BACK) && IsStart(PlayRun(p, OUT_AND_BACK)) && IsLegal(p, OUT_AND_BACK[0])
  {
    hide InitialCells;
    hide KingAtHome;
    hide EnemiesFar;
    hide Quiet;
    hide Play;
    hide IsLegal;
    hide PlayRun;
    hide LegalRun;
    StartIsQuiet(p);
    Outing(p, 62, 45);
    var q1 := AfterOuting(p, 62, 45);
    Outing(q1, 6, 21);
    var q2 := AfterOuting(q1, 6, 21);
    Outing(q2, 45, 62);
    var q3 := AfterOuting(q2, 45, 62);
    Outing(q3, 21, 6);
    var q4 := AfterOuting(q3, 21, 6);
    KnightsBack(p.cells);
    var _, _, _, _ := FourMoves(p, OUT_AND_BACK[0], OUT_AND_BACK[1], OUT_AND_BACK[2], OUT_AND_BACK[3]);
  }

  lemma {:induction false} RunsJoin(keys: Keys, p: Position, a: seq<Move>, b: seq<Move>)
    ensures PlayRun(p, a + b) == PlayRun(PlayRun(p, a), b)
    ensures LegalRun(p, a + b) <==> LegalRun(p, a) && LegalRun(PlayRun(p, a), b)
    ensures HashesBefore(keys, p, a + b) == HashesBefore(keys, p, a) + HashesBefore(keys, PlayRun(p, a), b)
    decreases a
  {
    hide Play;
    hide IsLegal;
    hide HashOf;
    if a == [] {
      assert a + b == b;
    } else {
      assert (a + b)[1..] == a[1..] + b;
      RunsJoin(keys, Play(p, a[0]), a[1..], b);
    }
  }

  lemma StartHash(keys: Keys, p: Position, q: Position)
    requires IsStart(p) && IsStart(q)
    ensures HashOf(keys, p) == HashOf(keys, q)
  {
    hide HashCells;
  }

  lemma FirstOf(keys: Keys, p: Position, ms: seq<Move>)
    requires ms != []
    ensures HashesBefore(keys, p, ms) != [] && HashesBefore(keys, p, ms)[0] == HashOf(keys, p)
  {
    hide HashOf;
  }

  lemma TwoOccurrences(a: seq<Hash>, b: seq<Hash>, h: Hash)
    requires h in a && h in b
    ensures Occurrences(a + b, h) >= 2
  {
    assert multiset(a + b) == multiset(a) + multiset(b);
    assert h in multiset(a) && h in multiset(b);
  }

  /** The initial position is one that the search may start from. */
  lemma InitialIsValid()
    ensures Valid(InitialPosition()) && IsStart(InitialPosition())
  {
    var p := InitialPosition();
    InitialIsSound();
    InitialHome(Black);
    KingIsSafe(p.cells, Black);
    forall c: Color
      ensures OneKing(p.cells, c) && |OfColor(p.cells, c)| <= 16
    {
      InitialHome(c);
      InitialCount(c);
    }
    hide InitialCells;
    hide EnemiesFar;
    hide Sound;
    hide IsAttacked;
  }

  lemma InitialIsSound()
    ensures Sound(InitialPosition())
  {
    InitialPawns();
    InitialFlags();
    hide InitialPosition;
  }

  lemma InitialPawns()
    ensures PawnsInside(InitialPosition().cells)
  {}

  lemma InitialFlags()
    ensures Settled(InitialPosition())
  {}

  predicate Within(first: Coord, n: nat, i: Coord) { first <= i < first + n }

  lemma InitialCount(c: Color)
    ensures |OfColor(InitialCells(), c)| <= 16
  {
    var first := if c.White? then 48 else 0;
    Cardinality(first, 16);
    SubsetCardinality(OfColor(InitialCells(), c), set i: Coord | Within(first, 16, i));
  }

  lemma {:induction false} Cardinality(first: Coord, n: nat)
    requires first + n <= 64
    ensures |set i: Coord | Within(first, n, i)| == n
  {
    if n > 0 {
      var less: nat, last: Coord := n - 1, first + n - 1;
      Cardinality(first, less);
      assert (set i: Coord | Within(first, n, i)) == (set i: Coord | Within(first, less, i)) + {last};
    } else {
      assert (set i: Coord | Within(first, n, i)) == {};
    }
  }

  /** After the knights have come out and gone back two times the root has been there twice, whatever the keys
      are: every move is legal, the root has a legal move, and still no search of the root finds a best move. */
  lemma RootMayBeRepeated(keys: Keys)
    ensures var p, ms := InitialPosition(), OUT_AND_BACK + OUT_AND_BACK;
      && Valid(p) && LegalRun(p, ms) && RootIsRepeated(keys, p, ms)
      && exists m: Move :: IsLegal(PlayRun(p, ms), m)
  {
    var p := InitialPosition();
    var q := PlayRun(p, OUT_AND_BACK);
    InitialIsValid();
    hide Valid;
    hide InitialPosition;
    hide PlayRun;
    hide LegalRun;
    hide IsLegal;
    hide IsStart;
    hide HashOf;
    hide HashesBefore;
    OutAndBack(p);
    OutAndBack(q);
    RunsJoin(keys, p, OUT_AND_BACK, OUT_AND_BACK);
    var root := PlayRun(q, OUT_AND_BACK);
    OutAndBack(root);
    StartHash(keys, p, root);
    StartHash(keys, q, root);
    FirstOf(keys, p, OUT_AND_BACK);
    FirstOf(keys, q, OUT_AND_BACK);
    TwoOccurrences(HashesBefore(keys, p, OUT_AND_BACK), HashesBefore(keys, q, OUT_AND_BACK), HashOf(keys, root));
  }
}

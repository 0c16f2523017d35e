/** The attack tables of kings, knights and pawns, filled in from lists of offsets. */
module NearAttacks {
  import opened Types
  import opened Geometry

  type Offset = (int, int)

  predicate At(c: Coord, o: Offset, d: Coord) {
    CoordX(d) == CoordX(c) + o.0 && CoordY(d) == CoordY(c) + o.1
  }

  /** `d` is one of the offsets away from `c`. */
  predicate Near(offsets: seq<Offset>, c: Coord, d: Coord) {
    exists i :: 0 <= i < |offsets| && At(c, offsets[i], d)
  }

  lemma NearStep(offsets: seq<Offset>, n: nat, c: Coord, d: Coord)
    requires n < |offsets|
    ensures Near(offsets[..n + 1], c, d) <==> Near(offsets[..n], c, d) || At(c, offsets[n], d)
  {
    if Near(offsets[..n], c, d) {
      var i :| 0 <= i < n && At(c, offsets[..n][i], d);
      assert offsets[..n + 1][i] == offsets[..n][i];
    }
    if At(c, offsets[n], d) {
      assert offsets[..n + 1][n] == offsets[n];
    }
    if Near(offsets[..n + 1], c, d) {
      var i :| 0 <= i < n + 1 && At(c, offsets[..n + 1][i], d);
      assert i < n ==> offsets[..n][i] == offsets[..n + 1][i];
    }
  }

  lemma OneCell(c: Coord, o: Offset, d: Coord)
    ensures var x, y := CoordX(c) + o.0, CoordY(c) + o.1;
      At(c, o, d) <==> 0 <= x < 8 && 0 <= y < 8 && d == MakeCoord(x, y)
  {
    if At(c, o, d) {
      assert d == MakeCoord(CoordX(d), CoordY(d));
    }
  }

  method GenerateDirected(offsets: seq<Offset>) returns (results: array<Bitboard>)
    ensures fresh(results) && results.Length == 64
    ensures forall c: Coord, d: Coord :: d in results[c] <==> Near(offsets, c, d)
  {
    hide Near;
    hide At;
    results := new Bitboard[64](_ => {});
    for c := 0 to 64
      invariant forall b: Coord, d: Coord :: b < c ==> (d in results[b] <==> Near(offsets, b, d))
    {
      var bb: Bitboard := {};
      NothingNear(c);
      for direction := 0 to |offsets|
        invariant forall d: Coord :: d in bb <==> Near(offsets[..direction], c, d)
      {
        var nx, ny := CoordX(c) + offsets[direction].0, CoordY(c) + offsets[direction].1;
        ghost var before := bb;
        forall d: Coord
          ensures Near(offsets[..direction + 1], c, d) <==>
            d in before || (0 <= nx < 8 && 0 <= ny < 8 && d == MakeCoord(nx, ny))
        {
          OneCell(c, offsets[direction], d);
          NearStep(offsets, direction, c, d);
        }
        if 0 <= nx < 8 && 0 <= ny < 8 {
          bb := bb + {MakeCoord(nx, ny)};
        }
      }
      assert offsets[..|offsets|] == offsets;
      results[c] := bb;
    }
  }

  lemma NothingNear(c: Coord)
    ensures forall d: Coord :: !Near([], c, d)
  {}

  const KNIGHT_OFFSETS: seq<Offset> := [(-2, -1), (-2, 1), (-1, -2), (-1, 2), (2, -1), (2, 1), (1, -2), (1, 2)]
  const KING_OFFSETS: seq<Offset> := [(-1, -1), (-1, 0), (-1, 1), (0, -1), (0, 1), (1, -1), (1, 0), (1, 1)]
  const WHITE_PAWN_OFFSETS: seq<Offset> := [(-1, -1), (-1, 1)]
  const BLACK_PAWN_OFFSETS: seq<Offset> := [(1, -1), (1, 1)]

  /** The offset lists are the steps of the pieces. */
  lemma OffsetsAreSteps(c: Coord, d: Coord)
    ensures Near(KNIGHT_OFFSETS, c, d) <==> KnightStep(c, d)
    ensures Near(KING_OFFSETS, c, d) <==> KingStep(c, d)
    ensures Near(WHITE_PAWN_OFFSETS, c, d) <==> PawnStep(White, c, d)
    ensures Near(BLACK_PAWN_OFFSETS, c, d) <==> PawnStep(Black, c, d)
  {
    var o := (CoordX(d) - CoordX(c), CoordY(d) - CoordY(c));
    NearIsListed(KNIGHT_OFFSETS, c, d);
    NearIsListed(KING_OFFSETS, c, d);
    NearIsListed(WHITE_PAWN_OFFSETS, c, d);
    NearIsListed(BLACK_PAWN_OFFSETS, c, d);
    hide Near;
  }

  lemma NearIsListed(offsets: seq<Offset>, c: Coord, d: Coord)
    ensures Near(offsets, c, d) <==> (CoordX(d) - CoordX(c), CoordY(d) - CoordY(c)) in offsets
  {}
}

/** The ray tables of the second engine: for each direction and cell the rays of every length. The
    nearest man on a ray is found by trying longer and longer rays. */
module RayTables {
  import opened Types
  import opened Geometry
  import opened MagicGeometry
  import opened MagicOffsets
  import opened RayWalk

  const DIR_COUNT := 8

  const DIR_X: seq<int> := [-1, -1, -1, 0, 0, 1, 1, 1]
  const DIR_Y: seq<int> := [-1, 0, 1, -1, 1, -1, 0, 1]

  type Direction = k: nat | k < 8

  const LEFT_DOWN: Direction := 0
  const DOWN: Direction := 1
  const RIGHT_DOWN: Direction := 2
  const LEFT: Direction := 3
  const RIGHT: Direction := 4
  const LEFT_UP: Direction := 5
  const UP: Direction := 6
  const RIGHT_UP: Direction := 7

  function DirX(k: Direction): int { DIR_X[k] }

  function DirY(k: Direction): int { DIR_Y[k] }

  lemma DirIsDirection(k: Direction)
    ensures IsDirection(DirX(k), DirY(k))
  {}

  /** The cells within `n + 1` steps. */
  function DirVal(k: Direction, c: Coord, n: nat): Bitboard { RayCells(c, DirX(k), DirY(k), n + 1) }

  /** The cell at `n + 1` steps, if there is one. */
  function DirCell(k: Direction, c: Coord, n: nat): Bitboard { DirVal(k, c, n) - RayCells(c, DirX(k), DirY(k), n) }

  /** What is seen in one of the eight directions. */
  function SeenIn(occupied: Bitboard, k: Direction, c: Coord): Bitboard { RaySeen(occupied, c, DirX(k), DirY(k)) }

  class Tables {
    const dirVal: array3<Bitboard>
    const dirCell: array3<Bitboard>

    ghost predicate Shape() {
      && dirVal.Length0 == dirCell.Length0 == 8 && dirVal.Length1 == dirCell.Length1 == 64
      && dirVal.Length2 == dirCell.Length2 == DIR_COUNT && dirVal != dirCell
    }

    ghost predicate RowOk(k: Direction, c: Coord)
      requires Shape()
      reads dirVal, dirCell
    {
      forall n: nat :: n < DIR_COUNT ==> dirVal[k, c, n] == DirVal(k, c, n) && dirCell[k, c, n] == DirCell(k, c, n)
    }

    ghost predicate Ok()
      reads dirVal, dirCell
    {
      Shape() && forall k: Direction, c: Coord :: RowOk(k, c)
    }

    constructor ()
      ensures Ok()
    {
      dirVal := new Bitboard[8, 64, DIR_COUNT];
      dirCell := new Bitboard[8, 64, DIR_COUNT];
      new;
      assert Shape();
      hide Tables.RowOk;
      hide Tables.Shape;
      for k := 0 to 8
        invariant forall j: Direction, d: Coord :: j < k ==> RowOk(j, d)
      {
        FillDirection(k);
      }
    }

    method FillDirection(k: Direction)
      requires Shape()
      modifies dirVal, dirCell
      ensures forall c: Coord :: RowOk(k, c)
      ensures forall j: Direction, d: Coord :: j != k && old(RowOk(j, d)) ==> RowOk(j, d)
    {
      hide Tables.RowOk;
      hide Tables.Shape;
      for c := 0 to 64
        invariant forall d: Coord :: d < c ==> RowOk(k, d)
        invariant forall j: Direction, d: Coord :: j != k && old(RowOk(j, d)) ==> RowOk(j, d)
      {
        FillRay(k, c);
      }
    }

    method FillRay(k: Direction, c: Coord)
      requires Shape()
      modifies dirVal, dirCell
      ensures RowOk(k, c)
      ensures forall j: Direction, d: Coord :: (j != k || d != c) && old(RowOk(j, d)) ==> RowOk(j, d)
    {
      var dx, dy := DirX(k), DirY(k);
      DirIsDirection(k);
      hide DirX;
      hide DirY;
      hide RayCells;
      hide CoordX;
      hide CoordY;
      hide MakeCoord;
      hide AtStep;
      hide IsDirection;
      hide Visited;
      var b: Bitboard, cnt: nat, x, y := {}, 0, CoordX(c) + dx, CoordY(c) + dy;
      ghost var p: Coord := c;
      WalkStarts(c, dx, dy);
      WalkStep(c, dx, dy, 0, c);
      while 0 <= x < 8 && 0 <= y < 8
        invariant cnt <= 7 && AtStep(c, dx, dy, cnt, p) && x == CoordX(p) + dx && y == CoordY(p) + dy
        invariant b == RayCells(c, dx, dy, cnt)
        invariant forall n: nat :: n < cnt ==>
          dirVal[k, c, n] == DirVal(k, c, n) && dirCell[k, c, n] == DirCell(k, c, n)
        invariant forall j: Direction, d: Coord, n: nat :: (j != k || d != c) && n < DIR_COUNT ==>
          dirVal[j, d, n] == old(dirVal[j, d, n]) && dirCell[j, d, n] == old(dirCell[j, d, n])
        decreases 7 - cnt
      {
        WalkStep(c, dx, dy, cnt, p);
        p := MakeCoord(x, y);
        NewCell(c, dx, dy, cnt, p);
        b := b + {MakeCoord(x, y)};
        dirVal[k, c, cnt] := b;
        dirCell[k, c, cnt] := {MakeCoord(x, y)};
        cnt, x, y := cnt + 1, x + dx, y + dy;
      }
      WalkStep(c, dx, dy, cnt, p);
      FillRest(k, c, b, cnt);
    }

    /** The entries for longer rays repeat the whole ray. */
    method FillRest(k: Direction, c: Coord, b: Bitboard, n: nat)
      requires Shape() && n < DIR_COUNT && b == RayCells(c, DirX(k), DirY(k), n)
      requires !(0 <= CoordX(c) + Steps(n + 1, DirX(k)) < 8 && 0 <= CoordY(c) + Steps(n + 1, DirY(k)) < 8)
      requires forall i: nat :: i < n ==> dirVal[k, c, i] == DirVal(k, c, i) && dirCell[k, c, i] == DirCell(k, c, i)
      modifies dirVal, dirCell
      ensures RowOk(k, c)
      ensures forall j: Direction, d: Coord, i: nat :: (j != k || d != c) && i < DIR_COUNT ==>
        dirVal[j, d, i] == old(dirVal[j, d, i]) && dirCell[j, d, i] == old(dirCell[j, d, i])
    {
      var dx, dy := DirX(k), DirY(k);
      DirIsDirection(k);
      hide DirX;
      hide DirY;
      hide RayCells;
      hide CoordX;
      hide CoordY;
      hide IsDirection;
      for cnt := n to DIR_COUNT
        invariant b == RayCells(c, dx, dy, cnt)
        invariant !(0 <= CoordX(c) + Steps(cnt + 1, dx) < 8 && 0 <= CoordY(c) + Steps(cnt + 1, dy) < 8)
        invariant forall i: nat :: i < cnt ==>
          dirVal[k, c, i] == DirVal(k, c, i) && dirCell[k, c, i] == DirCell(k, c, i)
        invariant forall j: Direction, d: Coord, i: nat :: (j != k || d != c) && i < DIR_COUNT ==>
          dirVal[j, d, i] == old(dirVal[j, d, i]) && dirCell[j, d, i] == old(dirCell[j, d, i])
      {
        NoMoreCells(c, dx, dy, cnt);
        dirVal[k, c, cnt] := b;
        dirCell[k, c, cnt] := {};
      }
    }

    /** The number of steps, less one, to the nearest man; the longest if there is none. */
    method FindNearestLen(occupied: Bitboard, k: Direction, c: Coord) returns (r: nat)
      requires Ok()
      ensures r < DIR_COUNT && (DirVal(k, c, r) - DirCell(k, c, r)) * occupied == {}
      ensures DirVal(k, c, r) * occupied != {} || r == 7
    {
      hide DirVal;
      hide DirCell;
      assert RowOk(k, c);
      for i := 0 to DIR_COUNT
        invariant forall n: nat :: n < i ==> DirVal(k, c, n) * occupied == {}
      {
        if occupied * dirVal[k, c, i] != {} {
          ShorterRay(k, c, i);
          return i;
        }
      }
      ShorterRay(k, c, 7);
      assert DirVal(k, c, 6) * occupied == {};
      return 7;
    }

    /** Whether a man of `men` is seen in the direction: first the whole ray is tried, then the nearest
        man on it. */
    method CheckDir(men: Bitboard, occupied: Bitboard, k: Direction, c: Coord) returns (r: bool)
      requires Ok() && men <= occupied
      ensures r <==> men * SeenIn(occupied, k, c) != {}
    {
      assert RowOk(k, c);
      hide DirVal;
      hide DirCell;
      hide SeenIn;
      var n := FindNearestLen(occupied, k, c);
      NearestIsSeen(occupied, k, c, n);
      NearestOnRay(men, occupied, k, c, n);
      r := false;
      if men * dirVal[k, c, DIR_COUNT - 1] != {} {
        r := men * dirCell[k, c, n] != {};
      }
    }
  }

  lemma NewCell(c: Coord, dx: int, dy: int, n: nat, p: Coord)
    requires IsDirection(dx, dy) && AtStep(c, dx, dy, n + 1, p)
    requires RayCells(c, dx, dy, n + 1) == RayCells(c, dx, dy, n) + {p}
    ensures RayCells(c, dx, dy, n + 1) - RayCells(c, dx, dy, n) == {p}
  {
    StepIsDistance(c, dx, dy, n + 1, p);
    hide RayCells;
    hide AtStep;
    hide OnRay;
    hide KingDistance;
    hide IsDirection;
    InRayCells(c, dx, dy, n, p);
  }

  /** Beyond the edge a ray grows no more. */
  lemma NoMoreCells(c: Coord, dx: int, dy: int, n: nat)
    requires IsDirection(dx, dy)
    requires !(0 <= CoordX(c) + Steps(n + 1, dx) < 8 && 0 <= CoordY(c) + Steps(n + 1, dy) < 8)
    ensures RayCells(c, dx, dy, n + 1) == RayCells(c, dx, dy, n)
    ensures !(0 <= CoordX(c) + Steps(n + 2, dx) < 8 && 0 <= CoordY(c) + Steps(n + 2, dy) < 8)
  {}

  /** Without its last cell a ray is the next shorter one. */
  lemma ShorterRay(k: Direction, c: Coord, n: nat)
    ensures DirVal(k, c, n) - DirCell(k, c, n) == if n == 0 then {} else DirVal(k, c, n - 1)
  {}

  lemma InDirVal(k: Direction, c: Coord, n: nat, d: Coord)
    ensures d in DirVal(k, c, n) <==> OnRay(c, DirX(k), DirY(k), d) && KingDistance(c, d) <= n + 1
    ensures d in DirCell(k, c, n) <==> OnRay(c, DirX(k), DirY(k), d) && KingDistance(c, d) == n + 1
  {
    DirIsDirection(k);
    hide OnRay;
    hide KingDistance;
    hide RayCells;
    hide IsDirection;
    InRayCells(c, DirX(k), DirY(k), n + 1, d);
    InRayCells(c, DirX(k), DirY(k), n, d);
  }

  /** The nearest men on a ray are the men that are seen there. */
  lemma NearestIsSeen(occupied: Bitboard, k: Direction, c: Coord, n: nat)
    requires n < DIR_COUNT && (DirVal(k, c, n) - DirCell(k, c, n)) * occupied == {}
    requires DirVal(k, c, n) * occupied != {} || n == 7
    ensures occupied * SeenIn(occupied, k, c) == occupied * DirCell(k, c, n)
  {
    var dx, dy := DirX(k), DirY(k);
    DirIsDirection(k);
    hide DirX;
    hide DirY;
    hide DirVal;
    hide DirCell;
    hide OnRay;
    hide KingDistance;
    hide StrictlyBetween;
    hide IsDirection;
    forall e | e in occupied
      ensures e in DirVal(k, c, n) ==> e in DirCell(k, c, n)
    {
      assert e in (DirVal(k, c, n) - DirCell(k, c, n)) * occupied <==> e in DirVal(k, c, n) && e !in DirCell(k, c, n);
    }
    forall d | d in occupied
      ensures d in SeenIn(occupied, k, c) <==> d in DirCell(k, c, n)
    {
      InDirVal(k, c, n, d);
      if OnRay(c, dx, dy, d) {
        forall e: Coord | e in occupied
          ensures StrictlyBetween(c, e, d) <==> OnRay(c, dx, dy, e) && KingDistance(c, e) < KingDistance(c, d)
        {
          RayBetween(c, dx, dy, d, e);
        }
        forall e: Coord
          ensures e in DirVal(k, c, n) <==> OnRay(c, dx, dy, e) && KingDistance(c, e) <= n + 1
          ensures e in DirCell(k, c, n) <==> OnRay(c, dx, dy, e) && KingDistance(c, e) == n + 1
        {
          InDirVal(k, c, n, e);
        }
        DistanceBound(c, d);
      }
    }
  }

  lemma DistanceBound(c: Coord, d: Coord)
    ensures KingDistance(c, d) <= 7
  {}

  lemma NearestOnRay(men: Bitboard, occupied: Bitboard, k: Direction, c: Coord, n: nat)
    requires men <= occupied && n < DIR_COUNT
    requires occupied * SeenIn(occupied, k, c) == occupied * DirCell(k, c, n)
    ensures men * SeenIn(occupied, k, c) == men * DirCell(k, c, n)
    ensures DirCell(k, c, n) <= DirVal(k, c, DIR_COUNT - 1)
  {
    forall d | d in DirCell(k, c, n)
      ensures d in DirVal(k, c, DIR_COUNT - 1)
    {
      InDirVal(k, c, n, d);
      InDirVal(k, c, 7, d);
    }
    hide SeenIn;
    hide DirCell;
    forall d | d in men
      ensures d in SeenIn(occupied, k, c) <==> d in DirCell(k, c, n)
    {
      assert d in occupied * SeenIn(occupied, k, c) <==> d in occupied * DirCell(k, c, n);
    }
  }
}

/** The walk along the rays of a slider, which is the reference for what it attacks. */
module RayWalk {
  import opened Types
  import opened Geometry
  import opened MagicGeometry
  import opened MagicOffsets

  const DX_BISHOP: seq<int> := [-1, 1, -1, 1]
  const DY_BISHOP: seq<int> := [-1, -1, 1, 1]
  const DX_ROOK: seq<int> := [-1, 1, 0, 0]
  const DY_ROOK: seq<int> := [0, 0, -1, 1]

  function Dx(t: MagicType, direction: nat): int
    requires direction < 4
  {
    if t.RookType? then DX_ROOK[direction] else DX_BISHOP[direction]
  }

  function Dy(t: MagicType, direction: nat): int
    requires direction < 4
  {
    if t.RookType? then DY_ROOK[direction] else DY_BISHOP[direction]
  }

  predicate IsDirection(dx: int, dy: int) {
    -1 <= dx <= 1 && -1 <= dy <= 1 && (dx != 0 || dy != 0)
  }

  /** `d` is `k` steps from `c` in the given direction. */
  predicate AtStep(c: Coord, dx: int, dy: int, k: int, d: Coord) {
    CoordX(d) == CoordX(c) + Steps(k, dx) && CoordY(d) == CoordY(c) + Steps(k, dy)
  }

  function KingDistance(c: Coord, d: Coord): nat {
    Larger(Distance(CoordX(c), CoordX(d)), Distance(CoordY(c), CoordY(d)))
  }

  predicate OnRay(c: Coord, dx: int, dy: int, d: Coord) {
    c != d && AtStep(c, dx, dy, KingDistance(c, d), d)
  }

  /** What is seen in one direction. */
  function RaySeen(occupied: Bitboard, c: Coord, dx: int, dy: int): Bitboard {
    set d: Coord | OnRay(c, dx, dy, d) && Open(occupied, c, d)
  }

  lemma StepIsDistance(c: Coord, dx: int, dy: int, k: nat, d: Coord)
    requires IsDirection(dx, dy) && AtStep(c, dx, dy, k, d)
    ensures KingDistance(c, d) == k
  {}

  lemma RayBetween(c: Coord, dx: int, dy: int, d: Coord, e: Coord)
    requires IsDirection(dx, dy) && OnRay(c, dx, dy, d)
    ensures StrictlyBetween(c, e, d) <==> OnRay(c, dx, dy, e) && KingDistance(c, e) < KingDistance(c, d)
  {}

  lemma StepCell(c: Coord, dx: int, dy: int, n: nat, d: Coord)
    requires IsDirection(dx, dy) && n > 0
    ensures var x, y := CoordX(c) + Steps(n, dx), CoordY(c) + Steps(n, dy);
      OnRay(c, dx, dy, d) && KingDistance(c, d) == n <==> 0 <= x < 8 && 0 <= y < 8 && d == MakeCoord(x, y)
  {
    if AtStep(c, dx, dy, n, d) {
      StepIsDistance(c, dx, dy, n, d);
      assert d == MakeCoord(CoordX(d), CoordY(d));
    }
    assert KingDistance(c, c) == 0;
    hide KingDistance;
  }

  lemma {:induction false} InRayCells(c: Coord, dx: int, dy: int, n: nat, d: Coord)
    requires IsDirection(dx, dy)
    ensures d in RayCells(c, dx, dy, n) <==> OnRay(c, dx, dy, d) && KingDistance(c, d) <= n
  {
    if n != 0 {
      hide OnRay;
      hide KingDistance;
      hide Steps;
      hide MakeCoord;
      InRayCells(c, dx, dy, n - 1, d);
      StepCell(c, dx, dy, n, d);
    }
  }

  /** Having walked `k` steps over free cells, a walk that cannot go on has seen the whole ray. */
  lemma RayEnd(occupied: Bitboard, c: Coord, dx: int, dy: int, k: nat, p: Coord)
    requires IsDirection(dx, dy) && AtStep(c, dx, dy, k, p)
    requires forall e :: e in RayCells(c, dx, dy, k) && e in occupied ==> e == p
    requires (k > 0 && p in occupied)
      || !(0 <= CoordX(c) + Steps(k + 1, dx) < 8 && 0 <= CoordY(c) + Steps(k + 1, dy) < 8)
    ensures RayCells(c, dx, dy, k) == RaySeen(occupied, c, dx, dy)
  {
    StepIsDistance(c, dx, dy, k, p);
    forall d: Coord
      ensures d in RayCells(c, dx, dy, k) <==> d in RaySeen(occupied, c, dx, dy)
    {
      InRayCells(c, dx, dy, k, d);
      if OnRay(c, dx, dy, d) {
        if KingDistance(c, d) <= k {
          forall e | e in occupied
            ensures !StrictlyBetween(c, e, d)
          {
            RayBetween(c, dx, dy, d, e);
            InRayCells(c, dx, dy, k, e);
          }
        } else if k > 0 && p in occupied {
          RayBetween(c, dx, dy, d, p);
        } else {
          RayLeavesBoard(c, dx, dy, k, d);
        }
      }
      hide StrictlyBetween;
      hide OnRay;
      hide KingDistance;
      hide RayCells;
    }
  }

  lemma RayLeavesBoard(c: Coord, dx: int, dy: int, k: nat, d: Coord)
    requires IsDirection(dx, dy) && OnRay(c, dx, dy, d) && KingDistance(c, d) > k
    ensures 0 <= CoordX(c) + Steps(k + 1, dx) < 8 && 0 <= CoordY(c) + Steps(k + 1, dy) < 8
  {}

  /** What is seen in the directions before `n`. */
  function SeenUpTo(t: MagicType, occupied: Bitboard, c: Coord, n: nat): Bitboard
    requires n <= 4
  {
    if n == 0 then {} else SeenUpTo(t, occupied, c, n - 1) + RaySeen(occupied, c, Dx(t, n - 1), Dy(t, n - 1))
  }

  lemma SeenInFour(t: MagicType, occupied: Bitboard, c: Coord, d: Coord)
    ensures d in SeenUpTo(t, occupied, c, 4) <==>
      || d in RaySeen(occupied, c, Dx(t, 0), Dy(t, 0)) || d in RaySeen(occupied, c, Dx(t, 1), Dy(t, 1))
      || d in RaySeen(occupied, c, Dx(t, 2), Dy(t, 2)) || d in RaySeen(occupied, c, Dx(t, 3), Dy(t, 3))
  {
    hide RaySeen;
    hide Dx;
    hide Dy;
    assert d !in SeenUpTo(t, occupied, c, 0);
    assert d in SeenUpTo(t, occupied, c, 1) <==> d in RaySeen(occupied, c, Dx(t, 0), Dy(t, 0));
    assert d in SeenUpTo(t, occupied, c, 2) <==>
      d in SeenUpTo(t, occupied, c, 1) || d in RaySeen(occupied, c, Dx(t, 1), Dy(t, 1));
    assert d in SeenUpTo(t, occupied, c, 3) <==>
      d in SeenUpTo(t, occupied, c, 2) || d in RaySeen(occupied, c, Dx(t, 2), Dy(t, 2));
  }

  /** The four rays together are the attacks of the slider. */
  lemma RaysAreAttacks(t: MagicType, occupied: Bitboard, c: Coord)
    ensures SeenUpTo(t, occupied, c, 4) == Attacks(t, occupied, c)
  {
    forall d: Coord
      ensures d in SeenUpTo(t, occupied, c, 4) <==> d in Attacks(t, occupied, c)
    {
      AttacksAre(t, occupied, c, d);
      LineIsFourRays(t, c, d);
      SeenInFour(t, occupied, c, d);
      hide SeenUpTo;
      hide Dx;
      hide Dy;
      hide OnLine;
      hide OnRay;
      hide Open;
      hide Attacks;
    }
  }

  lemma LineIsFourRays(t: MagicType, c: Coord, d: Coord)
    ensures OnLine(t, c, d) <==>
      || OnRay(c, Dx(t, 0), Dy(t, 0), d) || OnRay(c, Dx(t, 1), Dy(t, 1), d)
      || OnRay(c, Dx(t, 2), Dy(t, 2), d) || OnRay(c, Dx(t, 3), Dy(t, 3), d)
  {}

  /** The cells that a walk has visited when it is at its step `k`. */
  function Visited(c: Coord, dx: int, dy: int, k: nat): Bitboard {
    {c} + RayCells(c, dx, dy, k)
  }

  lemma WalkStarts(c: Coord, dx: int, dy: int)
    ensures AtStep(c, dx, dy, 0, c) && RayCells(c, dx, dy, 0) == {} && Visited(c, dx, dy, 0) == {c}
  {}

  /** One step of a walk that stays on the board. */
  lemma WalkStep(c: Coord, dx: int, dy: int, k: nat, p: Coord)
    requires IsDirection(dx, dy) && AtStep(c, dx, dy, k, p)
    ensures CoordX(p) + dx == CoordX(c) + Steps(k + 1, dx) && CoordY(p) + dy == CoordY(c) + Steps(k + 1, dy)
    ensures 0 <= CoordX(p) + dx < 8 && 0 <= CoordY(p) + dy < 8 ==>
      var q := MakeCoord(CoordX(p) + dx, CoordY(p) + dy);
      && k < 7 && AtStep(c, dx, dy, k + 1, q)
      && RayCells(c, dx, dy, k + 1) == RayCells(c, dx, dy, k) + {q}
      && Visited(c, dx, dy, k + 1) == Visited(c, dx, dy, k) + {q}
  {
    hide CoordX;
    hide CoordY;
    hide MakeCoord;
    assert CoordX(p) + dx == CoordX(c) + Steps(k + 1, dx) && CoordY(p) + dy == CoordY(c) + Steps(k + 1, dy);
    if 0 <= CoordX(p) + dx < 8 && 0 <= CoordY(p) + dy < 8 {
      var q := MakeCoord(CoordX(p) + dx, CoordY(p) + dy);
      assert RayCells(c, dx, dy, k + 1) == RayCells(c, dx, dy, k) + {q};
    }
  }

  lemma VisitedAll(c: Coord, dx: int, dy: int, k: nat)
    ensures Visited(c, dx, dy, k) == {c} + RayCells(c, dx, dy, k)
  {}

  lemma DirectionsAre(t: MagicType, direction: nat)
    requires direction < 4
    ensures IsDirection(Dx(t, direction), Dy(t, direction))
  {}
}

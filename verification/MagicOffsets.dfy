/** Sizes of the relevance masks and the places of the shared blocks in the lookup tables. */
module MagicOffsets {
  import opened Types
  import opened Geometry
  import opened Bits
  import opened MagicGeometry
  import Invariants

  function MaskBits(t: MagicType, c: Coord): nat { |MagicMask(t, c)| }

  /** Number of entries that a cell needs. */
  function Entries(t: MagicType, c: Coord): nat { Pow2(MaskBits(t, c)) }

  const ROOK_LOOKUP_SIZE: nat := 65536
  const BISHOP_LOOKUP_SIZE: nat := 1792

  function LookupSize(t: MagicType): nat {
    if t.RookType? then ROOK_LOOKUP_SIZE else BISHOP_LOOKUP_SIZE
  }

  function Least(a: int, b: int): int { if a <= b then a else b }

  function Inner(n: int): nat { if n <= 1 then 0 else n - 1 }

  /** Number of cells between the cell and the edge, over the four rays of the slider. */
  function InnerCells(t: MagicType, c: Coord): nat {
    var x, y := CoordX(c), CoordY(c);
    if t.RookType? then Inner(x) + Inner(7 - x) + Inner(y) + Inner(7 - y)
    else
      Inner(Least(x, y)) + Inner(Least(x, 7 - y)) + Inner(Least(7 - x, y)) + Inner(Least(7 - x, 7 - y))
  }

  /** `k` steps in a direction whose parts are -1, 0 or 1. */
  function Steps(k: int, d: int): int {
    if d == 0 then 0 else if d > 0 then k else -k
  }

  function RayCells(c: Coord, dx: int, dy: int, n: nat): (r: Bitboard)
    ensures |r| <= n
  {
    if n == 0 then {}
    else
      var x, y := CoordX(c) + Steps(n, dx), CoordY(c) + Steps(n, dy);
      RayCells(c, dx, dy, n - 1) + if 0 <= x < 8 && 0 <= y < 8 then {MakeCoord(x, y)} else {}
  }

  lemma {:induction false} RayCellAt(c: Coord, dx: int, dy: int, n: nat, k: nat, e: Coord)
    requires 1 <= k <= n && CoordX(e) == CoordX(c) + Steps(k, dx) && CoordY(e) == CoordY(c) + Steps(k, dy)
    ensures e in RayCells(c, dx, dy, n)
  {
    if k < n {
      RayCellAt(c, dx, dy, n - 1, k, e);
    } else {
      assert e == MakeCoord(CoordX(e), CoordY(e));
    }
  }

  lemma UnionSize(a: Bitboard, b: Bitboard, c: Bitboard, d: Bitboard)
    ensures |a + b + c + d| <= |a| + |b| + |c| + |d|
  {
    assert |a + b| <= |a| + |b|;
    assert |a + b + c| <= |a + b| + |c|;
  }

  lemma RookMaskParts(c: Coord, e: Coord)
    requires e in MagicMask(RookType, c)
    ensures e != c
    ensures (CoordX(e) == CoordX(c) && 1 <= CoordY(e) <= 6) || (CoordY(e) == CoordY(c) && 1 <= CoordX(e) <= 6)
  {}

  lemma BishopMaskParts(c: Coord, e: Coord)
    requires e in MagicMask(BishopType, c)
    ensures 1 <= CoordX(e) <= 6 && 1 <= CoordY(e) <= 6 && CoordX(e) != CoordX(c)
    ensures CoordX(e) - CoordX(c) == CoordY(e) - CoordY(c) || CoordX(e) - CoordX(c) == CoordY(c) - CoordY(e)
  {}

  lemma RookMaskBound(c: Coord)
    ensures MaskBits(RookType, c) <= InnerCells(RookType, c)
  {
    var x, y := CoordX(c), CoordY(c);
    var up, down := RayCells(c, -1, 0, Inner(x)), RayCells(c, 1, 0, Inner(7 - x));
    var left, right := RayCells(c, 0, -1, Inner(y)), RayCells(c, 0, 1, Inner(7 - y));
    hide RayCells;
    hide MagicMask;
    forall e | e in MagicMask(RookType, c)
      ensures e in up + down + left + right
    {
      RookMaskParts(c, e);
      if CoordX(e) < x {
        RayCellAt(c, -1, 0, Inner(x), x - CoordX(e), e);
      } else if CoordX(e) > x {
        RayCellAt(c, 1, 0, Inner(7 - x), CoordX(e) - x, e);
      } else if CoordY(e) < y {
        RayCellAt(c, 0, -1, Inner(y), y - CoordY(e), e);
      } else {
        RayCellAt(c, 0, 1, Inner(7 - y), CoordY(e) - y, e);
      }
    }
    Invariants.SubsetCardinality(MagicMask(RookType, c), up + down + left + right);
    UnionSize(up, down, left, right);
  }

  lemma BishopMaskBound(c: Coord)
    ensures MaskBits(BishopType, c) <= InnerCells(BishopType, c)
  {
    var x, y := CoordX(c), CoordY(c);
    var nw, ne := RayCells(c, -1, -1, Inner(Least(x, y))), RayCells(c, -1, 1, Inner(Least(x, 7 - y)));
    var sw, se := RayCells(c, 1, -1, Inner(Least(7 - x, y))), RayCells(c, 1, 1, Inner(Least(7 - x, 7 - y)));
    hide RayCells;
    hide MagicMask;
    forall e | e in MagicMask(BishopType, c)
      ensures e in nw + ne + sw + se
    {
      BishopMaskParts(c, e);
      if CoordX(e) < x && CoordY(e) < y {
        RayCellAt(c, -1, -1, Inner(Least(x, y)), x - CoordX(e), e);
      } else if CoordX(e) < x {
        RayCellAt(c, -1, 1, Inner(Least(x, 7 - y)), x - CoordX(e), e);
      } else if CoordY(e) < y {
        RayCellAt(c, 1, -1, Inner(Least(7 - x, y)), CoordX(e) - x, e);
      } else {
        RayCellAt(c, 1, 1, Inner(Least(7 - x, 7 - y)), CoordX(e) - x, e);
      }
    }
    Invariants.SubsetCardinality(MagicMask(BishopType, c), nw + ne + sw + se);
    UnionSize(nw, ne, sw, se);
  }

  /** Cells of one block start at one place, and the entries of other blocks do not overlap them. */
  ghost predicate OffsetsUpTo(t: MagicType, off: seq<nat>, n: nat, count: nat) {
    && |off| == 64
    && (forall c: Coord :: Block(t, c) < n ==> off[c] + Entries(t, c) <= count)
    && (forall c: Coord, d: Coord :: Block(t, c) < n && Block(t, d) < n ==>
          if Block(t, c) == Block(t, d) then off[c] == off[d]
          else off[c] + Entries(t, c) <= off[d] || off[d] + Entries(t, d) <= off[c])
  }

  ghost predicate OffsetsOk(t: MagicType, off: seq<nat>) {
    OffsetsUpTo(t, off, 64, LookupSize(t))
  }

  lemma OffsetsStep(t: MagicType, off: seq<nat>, off': seq<nat>, n: nat, count: nat, add: nat)
    requires OffsetsUpTo(t, off, n, count) && |off'| == 64
    requires forall c: Coord :: Block(t, c) == n ==> off'[c] == count && Entries(t, c) <= add
    requires forall c: Coord :: Block(t, c) < n ==> off'[c] == off[c]
    ensures OffsetsUpTo(t, off', n + 1, count + add)
  {
    hide Block;
    hide Entries;
  }

  lemma EntriesBound(t: MagicType, c: Coord)
    ensures Entries(t, c) <= Pow2(InnerCells(t, c))
  {
    if t.RookType? {
      RookMaskBound(c);
    } else {
      BishopMaskBound(c);
    }
    Pow2Monotone(MaskBits(t, c), InnerCells(t, c));
  }

  function Larger(a: nat, b: nat): nat { if a < b then b else a }

  lemma SmallPowers()
    ensures Pow2(5) == 32 && Pow2(6) == 64 && Pow2(7) == 128 && Pow2(9) == 512
    ensures Pow2(10) == 1024 && Pow2(11) == 2048 && Pow2(12) == 4096
  {
    assert Pow2(4) == 16;
    assert Pow2(8) == 256;
  }

  /** Room for the rook block that starts at `c`, if one does. */
  function RookRoomAt(c: Coord): nat {
    var x, y := CoordX(c), CoordY(c);
    if x % 2 == 1 then 0
    else if (x == 0 && (y == 0 || y == 7)) || (x == 6 && (y == 1 || y == 6)) then 4096
    else if x == 0 || x == 6 || y <= 1 || y >= 6 then 2048
    else 1024
  }

  function RookLen(room: nat): nat {
    if room == 4096 then 12 else if room == 2048 then 11 else 10
  }

  lemma RookInner(c: Coord)
    ensures c > XorNine(c) <==> CoordX(c) % 2 == 1
    ensures c <= XorNine(c) ==> InnerCells(RookType, c) <= RookLen(RookRoomAt(c))
    ensures c <= XorNine(c) ==> InnerCells(RookType, XorNine(c)) <= RookLen(RookRoomAt(c))
  {
    hide RookLen;
    RookLenEnough(c);
    if c <= XorNine(c) {
      RookLenMate(c);
    }
    hide InnerCells;
    hide RookRoomAt;
  }

  lemma RookLenEnough(c: Coord)
    ensures CoordX(c) % 2 == 0 ==> InnerCells(RookType, c) <= RookLen(RookRoomAt(c))
  {}

  lemma RookLenMate(c: Coord)
    requires c <= XorNine(c)
    ensures InnerCells(RookType, XorNine(c)) <= RookLen(RookRoomAt(c))
  {}

  lemma RookRoomEnough(c: Coord)
    ensures c > XorNine(c) <==> CoordX(c) % 2 == 1
    ensures c <= XorNine(c) ==>
      Entries(RookType, c) <= RookRoomAt(c) && Entries(RookType, XorNine(c)) <= RookRoomAt(c)
  {
    hide Entries;
    hide InnerCells;
    hide XorNine;
    hide Pow2;
    EntriesBound(RookType, c);
    EntriesBound(RookType, XorNine(c));
    SmallPowers();
    RookInner(c);
    if c <= XorNine(c) {
      Pow2Monotone(InnerCells(RookType, c), RookLen(RookRoomAt(c)));
      Pow2Monotone(InnerCells(RookType, XorNine(c)), RookLen(RookRoomAt(c)));
    }
  }

  function RookRoom(n: nat): nat
    requires n <= 64
  {
    if n == 0 then 0 else RookRoom(n - 1) + RookRoomAt(n - 1)
  }

  lemma RookRoomNext(n: nat)
    requires n < 64
    ensures RookRoom(n + 1) == RookRoom(n) + RookRoomAt(n)
  {}

  /** Room for the blocks that start on row `x`. */
  function RookRowRoom(x: nat): nat {
    if x % 2 == 1 then 0 else if x == 0 || x == 6 then 20480 else 12288
  }

  lemma RookRoomInRow(x: nat, y: nat)
    requires x < 8 && y < 8
    ensures RookRoomAt(8 * x + y) ==
      if x % 2 == 1 then 0
      else if (x == 0 && (y == 0 || y == 7)) || (x == 6 && (y == 1 || y == 6)) then 4096
      else if x == 0 || x == 6 || y <= 1 || y >= 6 then 2048
      else 1024
  {
    assert CoordX(8 * x + y) == x && CoordY(8 * x + y) == y;
  }

  lemma RookRoomRow(x: nat)
    requires x < 8
    ensures RookRoom(8 * x + 8) == RookRoom(8 * x) + RookRowRoom(x)
  {
    hide RookRoom;
    hide RookRoomAt;
    var room := 0;
    for y: nat := 0 to 8
      invariant RookRoom(8 * x + y) == RookRoom(8 * x) + room
      invariant room == if x % 2 == 1 then 0
        else if x == 0 then 2048 * y + (if y >= 1 then 2048 else 0) + (if y == 8 then 2048 else 0)
        else if x == 6 then 2048 * y + (if y >= 2 then 2048 else 0) + (if y >= 7 then 2048 else 0)
        else (1024 * y + (if y >= 1 then 1024 else 0) + (if y >= 2 then 1024 else 0)
              + (if y >= 7 then 1024 else 0) + (if y == 8 then 1024 else 0))
    {
      RookRoomNext(8 * x + y);
      RookRoomInRow(x, y);
      room := room + RookRoomAt(8 * x + y);
    }
  }

  lemma RookRoomFits()
    ensures RookRoom(64) == ROOK_LOOKUP_SIZE
  {
    assert RookRoom(0) == 0;
    hide RookRoom;
    RookRoomRow(0);
    RookRoomRow(1);
    RookRoomRow(2);
    RookRoomRow(3);
    RookRoomRow(4);
    RookRoomRow(5);
    RookRoomRow(6);
    RookRoomRow(7);
  }

  /** Room for a bishop block. */
  function BishopRoomAt(block: nat): nat {
    if block == 7 || block == 8 then 512
    else if block == 6 || block == 9 then 128
    else if block == 0 || block == 2 || block == 13 || block == 15 then 64
    else 32
  }

  lemma BishopInner(c: Coord)
    ensures CoordY(c) == 0 || CoordY(c) == 7 ==> InnerCells(BishopType, c) <= 6
    ensures CoordX(c) == 0 || CoordX(c) == 7 ==> InnerCells(BishopType, c) <= 6
    ensures CoordY(c) == 0 || CoordY(c) == 7 ==> 1 <= CoordX(c) <= 6 ==> InnerCells(BishopType, c) <= 5
    ensures CoordX(c) == 0 || CoordX(c) == 7 ==> 1 <= CoordY(c) <= 6 ==> InnerCells(BishopType, c) <= 5
  {}

  lemma BishopInnerSecond(c: Coord)
    requires 1 <= CoordX(c) <= 6 && 1 <= CoordY(c) <= 6
    ensures CoordY(c) == 1 || CoordY(c) == 6 || CoordX(c) == 1 || CoordX(c) == 6 ==> InnerCells(BishopType, c) <= 5
  {
    var x, y := CoordX(c), CoordY(c);
    hide CoordX;
    hide CoordY;
  }

  lemma BishopInnerCentre(c: Coord)
    requires 2 <= CoordX(c) <= 5 && 2 <= CoordY(c) <= 5
    ensures InnerCells(BishopType, c) <= 9
    ensures CoordX(c) == 2 || CoordX(c) == 5 ==> InnerCells(BishopType, c) <= 7
  {
    hide CoordX;
    hide CoordY;
  }

  function BishopLen(room: nat): nat {
    if room == 512 then 9 else if room == 128 then 7 else if room == 64 then 6 else 5
  }

  lemma BishopLenEnough(c: Coord)
    ensures InnerCells(BishopType, c) <= BishopLen(BishopRoomAt(Block(BishopType, c)))
  {
    BishopInner(c);
    if 1 <= CoordX(c) <= 6 && 1 <= CoordY(c) <= 6 {
      BishopInnerSecond(c);
    }
    if 2 <= CoordX(c) <= 5 && 2 <= CoordY(c) <= 5 {
      BishopInnerCentre(c);
    }
    hide InnerCells;
  }

  lemma BishopBlocks(c: Coord)
    ensures Block(BishopType, c) < 16
  {}

  lemma BishopRoomEnough(c: Coord)
    ensures Block(BishopType, c) < 16 && Entries(BishopType, c) <= BishopRoomAt(Block(BishopType, c))
  {
    hide Entries;
    hide Block;
    hide InnerCells;
    hide Pow2;
    BishopBlocks(c);
    EntriesBound(BishopType, c);
    SmallPowers();
    BishopLenEnough(c);
    Pow2Monotone(InnerCells(BishopType, c), BishopLen(BishopRoomAt(Block(BishopType, c))));
  }

  function BishopRoom(n: nat): nat {
    if n == 0 then 0 else BishopRoom(n - 1) + BishopRoomAt(n - 1)
  }

  lemma BishopRoomFits()
    ensures BishopRoom(16) == BISHOP_LOOKUP_SIZE
  {
    assert BishopRoom(8) == 896;
  }

  lemma {:induction false} RoomsGrow(m: nat, n: nat)
    requires m <= n
    ensures n <= 64 ==> RookRoom(m) <= RookRoom(n)
    ensures BishopRoom(m) <= BishopRoom(n)
    decreases n - m
  {
    if m < n {
      RoomsGrow(m, n - 1);
    }
  }

  const STARTS: seq<nat> := [0, 1, 32, 33, 2, 10, 18, 26, 34, 42, 50, 58, 6, 7, 38, 39]
  const OFFSETS: seq<nat> := [8, 8, 8, 8, 1, 1, 1, 1, 1, 1, 1, 1, 8, 8, 8, 8]

  function GroupCell(idx: nat, i: nat): int
    requires idx < 16
  {
    STARTS[idx] + if OFFSETS[idx] == 8 then 8 * i else i
  }

  lemma GroupsAreBlocks(idx: nat, c: Coord)
    requires idx < 16
    ensures Block(BishopType, c) == idx <==>
      c == GroupCell(idx, 0) || c == GroupCell(idx, 1) || c == GroupCell(idx, 2) || c == GroupCell(idx, 3)
  {
    if 4 <= idx < 12 {
      RowGroups(idx, c);
    } else {
      ColumnGroups(idx, c);
    }
  }

  lemma RowGroups(idx: nat, c: Coord)
    requires 4 <= idx < 12
    ensures Block(BishopType, c) == idx <==>
      c == GroupCell(idx, 0) || c == GroupCell(idx, 1) || c == GroupCell(idx, 2) || c == GroupCell(idx, 3)
  {
    assert STARTS[idx] == 8 * (idx - 4) + 2 && OFFSETS[idx] == 1;
  }

  lemma ColumnGroups(idx: nat, c: Coord)
    requires idx < 4 || 12 <= idx < 16
    ensures Block(BishopType, c) == idx <==>
      c == GroupCell(idx, 0) || c == GroupCell(idx, 1) || c == GroupCell(idx, 2) || c == GroupCell(idx, 3)
  {
    var y := (if idx < 4 then 0 else 6) + idx % 2;
    var x := if idx % 4 < 2 then 0 else 4;
    assert STARTS[idx] == 8 * x + y && OFFSETS[idx] == 8;
    ColumnBlock(idx, x, y, c);
    hide Block;
  }

  lemma ColumnBlock(idx: nat, x: nat, y: nat, c: Coord)
    requires idx < 4 || 12 <= idx < 16
    requires y == (if idx < 4 then 0 else 6) + idx % 2 && x == if idx % 4 < 2 then 0 else 4
    ensures Block(BishopType, c) == idx <==> CoordY(c) == y && x <= CoordX(c) < x + 4
  {}

  /** Gives each block its place in the lookup table. */
  method InitOffsets(t: MagicType, bases: array<nat>)
    requires bases.Length == 64
    modifies bases
    ensures OffsetsOk(t, bases[..])
  {
    if t.RookType? {
      InitRookOffsets(bases);
    } else {
      InitBishopOffsets(bases);
    }
  }

  method InitRookOffsets(bases: array<nat>)
    requires bases.Length == 64
    modifies bases
    ensures OffsetsOk(RookType, bases[..])
  {
    hide OffsetsUpTo;
    hide RookRoomAt;
    hide XorNine;
    var count: nat := 0;
    NoBlocks(RookType, bases[..]);
    for c1 := 0 to 64
      invariant count <= RookRoom(c1)
      invariant OffsetsUpTo(RookType, bases[..], c1, count)
    {
      var c2 := XorNine(c1);
      RookRoomEnough(c1);
      if c1 > c2 {
        SkipRookBlock(bases[..], c1, count);
        continue;
      }
      count := PlaceRooks(bases, c1, c2, count);
    }
    AllRookBlocks(bases[..], count);
  }

  /** Places the block of `c1` and `c2` after the first `count` entries. */
  method PlaceRooks(bases: array<nat>, c1: Coord, c2: Coord, count: nat) returns (next: nat)
    requires bases.Length == 64 && c2 == XorNine(c1) && c1 <= c2
    requires OffsetsUpTo(RookType, bases[..], c1, count)
    modifies bases
    ensures OffsetsUpTo(RookType, bases[..], c1 + 1, next) && next <= count + RookRoomAt(c1)
  {
    RookRoomEnough(c1);
    RookBlock(c1);
    LargerFits(MaskBits(RookType, c1), MaskBits(RookType, c2), RookRoomAt(c1));
    hide OffsetsUpTo;
    hide RookRoomAt;
    hide XorNine;
    hide Block;
    hide MaskBits;
    hide Larger;
    hide Pow2;
    var maxLen := Larger(MaskBits(RookType, c1), MaskBits(RookType, c2));
    var add := Pow2(maxLen);
    ghost var off := bases[..];
    bases[c1] := count;
    bases[c2] := count;
    assert bases[..] == Twice(off, c1, c2, count);
    PlacedRooks(off, c1, c2, count, add);
    next := count + add;
  }

  lemma PlacedRooks(off: seq<nat>, c1: Coord, c2: Coord, count: nat, add: nat)
    requires OffsetsUpTo(RookType, off, c1, count) && |off| == 64 && c2 == XorNine(c1) && c1 <= c2
    requires Entries(RookType, c1) <= add && Entries(RookType, c2) <= add
    ensures OffsetsUpTo(RookType, Twice(off, c1, c2, count), c1 + 1, count + add)
  {
    RookBlock(c1);
    hide Block;
    hide Entries;
    hide XorNine;
    hide OffsetsUpTo;
    OffsetsStep(RookType, off, Twice(off, c1, c2, count), c1, count, add);
  }

  function Twice(off: seq<nat>, c1: Coord, c2: Coord, n: nat): (r: seq<nat>)
    requires |off| == 64
  {
    var half: seq<nat> := off[c1 := n];
    half[c2 := n]
  }

  lemma NoBlocks(t: MagicType, off: seq<nat>)
    requires |off| == 64
    ensures OffsetsUpTo(t, off, 0, 0)
  {}

  lemma SkipRookBlock(off: seq<nat>, c: Coord, count: nat)
    requires OffsetsUpTo(RookType, off, c, count) && c > XorNine(c)
    ensures OffsetsUpTo(RookType, off, c + 1, count)
  {
    RookBlock(c);
    hide Block;
    hide Entries;
    hide XorNine;
  }

  lemma AllRookBlocks(off: seq<nat>, count: nat)
    requires OffsetsUpTo(RookType, off, 64, count) && count <= RookRoom(64)
    ensures OffsetsOk(RookType, off)
  {
    RookRoomFits();
    hide RookRoom;
    hide Block;
    hide Entries;
  }

  lemma RookBlock(c: Coord)
    ensures c > XorNine(c) ==> forall d: Coord :: Block(RookType, d) != c
    ensures c <= XorNine(c) ==> forall d: Coord :: Block(RookType, d) == c <==> d == c || d == XorNine(c)
  {
    XorNineTwice(c);
    forall d: Coord
      ensures XorNine(XorNine(d)) == d
    {
      XorNineTwice(d);
    }
    hide XorNine;
  }

  /** The room of a block holds the larger of its members' tables. */
  lemma LargerFits(a: nat, b: nat, room: nat)
    requires Pow2(a) <= room && Pow2(b) <= room
    ensures Pow2(Larger(a, b)) <= room
    ensures Pow2(a) <= Pow2(Larger(a, b)) && Pow2(b) <= Pow2(Larger(a, b))
  {
    Pow2Monotone(a, Larger(a, b));
    Pow2Monotone(b, Larger(a, b));
  }

  /** The four cells of a bishop group and what they need. */
  lemma BishopGroup(idx: nat)
    requires idx < 16
    ensures forall i :: 0 <= i < 4 ==> 0 <= GroupCell(idx, i) < 64
    ensures forall c: Coord :: Block(BishopType, c) == idx <==>
      c == GroupCell(idx, 0) || c == GroupCell(idx, 1) || c == GroupCell(idx, 2) || c == GroupCell(idx, 3)
    ensures forall c: Coord :: Block(BishopType, c) == idx ==> Entries(BishopType, c) <= BishopRoomAt(idx)
  {
    forall c: Coord
      ensures Block(BishopType, c) == idx <==>
        c == GroupCell(idx, 0) || c == GroupCell(idx, 1) || c == GroupCell(idx, 2) || c == GroupCell(idx, 3)
      ensures Block(BishopType, c) == idx ==> Entries(BishopType, c) <= BishopRoomAt(idx)
    {
      GroupsAreBlocks(idx, c);
      BishopRoomEnough(c);
    }
  }

  method InitBishopOffsets(bases: array<nat>)
    requires bases.Length == 64
    modifies bases
    ensures OffsetsOk(BishopType, bases[..])
  {
    hide OffsetsUpTo;
    hide BishopRoomAt;
    var count: nat := 0;
    NoBlocks(BishopType, bases[..]);
    for idx := 0 to 16
      invariant count <= BishopRoom(idx)
      invariant OffsetsUpTo(BishopType, bases[..], idx, count)
    {
      count := PlaceBishops(bases, idx, count);
    }
    AllBishopBlocks(bases[..], count);
  }

  /** The largest mask of a bishop group. */
  function GroupLen(idx: nat): nat
    requires idx < 16
  {
    GroupsOnBoard(idx);
    Larger(
      Larger(MaskBits(BishopType, GroupCell(idx, 0)), MaskBits(BishopType, GroupCell(idx, 1))),
      Larger(MaskBits(BishopType, GroupCell(idx, 2)), MaskBits(BishopType, GroupCell(idx, 3))))
  }

  lemma GroupsOnBoard(idx: nat)
    requires idx < 16
    ensures forall i :: 0 <= i < 4 ==> 0 <= GroupCell(idx, i) < 64
  {}

  lemma GroupEntry(idx: nat, i: nat)
    requires idx < 16 && i < 4
    ensures 0 <= GroupCell(idx, i) < 64 && Pow2(MaskBits(BishopType, GroupCell(idx, i))) <= BishopRoomAt(idx)
  {
    hide Block;
    hide GroupCell;
    hide BishopRoomAt;
    hide MaskBits;
    hide Pow2;
    GroupsOnBoard(idx);
    var c: Coord := GroupCell(idx, i);
    GroupsAreBlocks(idx, c);
    assert i == 0 || i == 1 || i == 2 || i == 3;
    assert Block(BishopType, c) == idx;
    BishopRoomEnough(c);
  }

  lemma GroupLenFits(idx: nat)
    requires idx < 16
    ensures var most := Pow2(GroupLen(idx));
      && most <= BishopRoomAt(idx)
      && forall i :: 0 <= i < 4 ==>
           0 <= GroupCell(idx, i) < 64 && Pow2(MaskBits(BishopType, GroupCell(idx, i))) <= most
  {
    hide GroupCell;
    hide BishopRoomAt;
    hide MaskBits;
    hide Larger;
    hide Pow2;
    GroupEntry(idx, 0);
    GroupEntry(idx, 1);
    GroupEntry(idx, 2);
    GroupEntry(idx, 3);
    FourFit(MaskBits(BishopType, GroupCell(idx, 0)), MaskBits(BishopType, GroupCell(idx, 1)),
      MaskBits(BishopType, GroupCell(idx, 2)), MaskBits(BishopType, GroupCell(idx, 3)), BishopRoomAt(idx));
  }

  lemma GroupFits(idx: nat, c: Coord)
    requires idx < 16 && Block(BishopType, c) == idx
    ensures Entries(BishopType, c) <= Pow2(GroupLen(idx))
  {
    GroupLenFits(idx);
    GroupsAreBlocks(idx, c);
    hide Block;
    hide GroupCell;
    hide MaskBits;
    hide Pow2;
    hide GroupLen;
    if c == GroupCell(idx, 0) {
    } else if c == GroupCell(idx, 1) {
    } else if c == GroupCell(idx, 2) {
    }
  }

  lemma FourFit(a: nat, b: nat, c: nat, d: nat, room: nat)
    requires Pow2(a) <= room && Pow2(b) <= room && Pow2(c) <= room && Pow2(d) <= room
    ensures var most := Pow2(Larger(Larger(a, b), Larger(c, d)));
      most <= room && Pow2(a) <= most && Pow2(b) <= most && Pow2(c) <= most && Pow2(d) <= most
  {
    LargerFits(a, b, room);
    LargerFits(c, d, room);
    LargerFits(Larger(a, b), Larger(c, d), room);
    hide Pow2;
    hide Larger;
  }

  lemma GroupNext(idx: nat, i: nat, c: Coord)
    requires idx < 16 && i < 4 && Block(BishopType, c) == idx
    ensures c < GroupCell(idx, i + 1) <==> c < GroupCell(idx, i) || c == GroupCell(idx, i)
    ensures GroupCell(idx, 0) <= c < GroupCell(idx, 4)
  {
    GroupsAreBlocks(idx, c);
    hide Block;
  }

  method FillGroup(bases: array<nat>, idx: nat, count: nat)
    requires bases.Length == 64 && idx < 16
    modifies bases
    ensures forall c: Coord :: bases[c] == if Block(BishopType, c) == idx then count else old(bases[c])
  {
    BishopGroup(idx);
    forall c: Coord | Block(BishopType, c) == idx
      ensures forall i: nat :: i < 4 ==>
        (c < GroupCell(idx, i + 1) <==> c < GroupCell(idx, i) || c == GroupCell(idx, i))
      ensures GroupCell(idx, 0) <= c < GroupCell(idx, 4)
    {
      forall i: nat | i < 4
        ensures c < GroupCell(idx, i + 1) <==> c < GroupCell(idx, i) || c == GroupCell(idx, i)
      {
        GroupNext(idx, i, c);
      }
      GroupNext(idx, 0, c);
    }
    hide Block;
    hide GroupCell;
    for i := 0 to 4
      invariant forall c: Coord ::
        bases[c] == if Block(BishopType, c) == idx && c < GroupCell(idx, i) then count else old(bases[c])
    {
      var c: Coord := GroupCell(idx, i);
      assert Block(BishopType, c) == idx;
      bases[c] := count;
    }
  }

  method PlaceBishops(bases: array<nat>, idx: nat, count: nat) returns (next: nat)
    requires bases.Length == 64 && idx < 16 && OffsetsUpTo(BishopType, bases[..], idx, count)
    modifies bases
    ensures OffsetsUpTo(BishopType, bases[..], idx + 1, next) && next <= count + BishopRoomAt(idx)
  {
    hide Block;
    hide BishopRoomAt;
    hide OffsetsUpTo;
    hide GroupLen;
    hide Pow2;
    hide Entries;
    GroupLenFits(idx);
    forall c: Coord | Block(BishopType, c) == idx
      ensures Entries(BishopType, c) <= Pow2(GroupLen(idx))
    {
      GroupFits(idx, c);
    }
    var add := Pow2(GroupLen(idx));
    ghost var off := bases[..];
    FillGroup(bases, idx, count);
    OffsetsStep(BishopType, off, bases[..], idx, count, add);
    next := count + add;
  }

  lemma AllBishopBlocks(off: seq<nat>, count: nat)
    requires OffsetsUpTo(BishopType, off, 16, count) && count <= BishopRoom(16)
    ensures OffsetsOk(BishopType, off)
  {
    BishopRoomFits();
    forall c: Coord
      ensures Block(BishopType, c) < 16
    {
      BishopRoomEnough(c);
    }
    hide Block;
    hide Entries;
  }
}

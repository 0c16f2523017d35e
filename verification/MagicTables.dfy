/** The lookup tables of the sliders. Several cells OR their attacks into one block; the post-mask
    undoes the mixing, so that a look-up gives exactly what a walk along the rays gives. */
module MagicTables {
  import opened Types
  import opened Geometry
  import opened Bits
  import opened MagicGeometry
  import opened MagicOffsets
  import opened RayWalk

  type Word64 = n: nat | n < 0x1_0000_0000_0000_0000

  lemma MaskBitsBound(t: MagicType, c: Coord)
    ensures MaskBits(t, c) <= 64
  {
    if t.RookType? {
      RookMaskBound(c);
    } else {
      BishopMaskBound(c);
    }
    hide MaskBits;
  }

  function Quotient(x: nat, d: nat): (q: nat)
    requires d > 0
    ensures q * d <= x < (q + 1) * d
  {
    x / d
  }

  /** A product that has overflowed the word. */
  function Low64(product: nat): (x: nat)
    ensures x == product % Pow2(64) && x < Pow2(64)
  {
    hide Pow2;
    product % Pow2(64)
  }

  /** The highest `bits` bits of the product, which is taken modulo 2^64. */
  function HighBits(product: nat, bits: nat): (i: nat)
    requires bits <= 64
    ensures i < Pow2(bits)
    ensures i * Pow2(64 - bits) <= Low64(product) < (i + 1) * Pow2(64 - bits)
  {
    hide Pow2;
    hide Low64;
    hide Quotient;
    var x := Low64(product);
    HighBitsBound(x, bits, Quotient(x, Pow2(64 - bits)));
    Quotient(x, Pow2(64 - bits))
  }

  lemma HighBitsBound(x: nat, bits: nat, q: nat)
    requires bits <= 64 && x < Pow2(64) && q * Pow2(64 - bits) <= x
    ensures q < Pow2(bits)
  {
    hide Pow2;
    Pow2Adds(64 - bits, bits);
    ProductGrows(Pow2(64 - bits), Pow2(bits), q);
  }

  lemma ProductGrows(d: nat, m: nat, n: nat)
    ensures m <= n ==> d * m <= d * n
  {}

  /** The place of a relevant occupancy among the entries of its cell. */
  function Index(t: MagicType, c: Coord, magic: Word64, occupied: Bitboard): (i: nat)
    ensures i < Entries(t, c)
  {
    hide Pow2;
    hide HighBits;
    hide Word;
    hide MaskBits;
    MaskBitsBound(t, c);
    HighBits(Word(occupied) * magic, MaskBits(t, c))
  }

  /** No two relevant occupancies have the same hash. */
  ghost predicate Injective(t: MagicType, c: Coord, magic: Word64) {
    forall a: Bitboard, b: Bitboard ::
      a <= MagicMask(t, c) && b <= MagicMask(t, c) && Index(t, c, magic, a) == Index(t, c, magic, b) ==> a == b
  }

  /** The relevant occupancies with numbers below `n` have different places. */
  ghost predicate InjectiveBelow(t: MagicType, c: Coord, magic: Word64, n: nat) {
    forall r: nat, s: nat :: r < s < n ==>
      Index(t, c, magic, Deposit(r, MagicMask(t, c))) != Index(t, c, magic, Deposit(s, MagicMask(t, c)))
  }

  lemma InjectiveByNumber(t: MagicType, c: Coord, magic: Word64)
    ensures InjectiveBelow(t, c, magic, Entries(t, c)) <==> Injective(t, c, magic)
  {
    var mask := MagicMask(t, c);
    hide Index;
    hide MagicMask;
    hide Deposit;
    hide Extract;
    hide Pow2;
    if InjectiveBelow(t, c, magic, Entries(t, c)) {
      forall a: Bitboard, b: Bitboard |
        a <= mask && b <= mask && Index(t, c, magic, a) == Index(t, c, magic, b)
        ensures a == b
      {
        DepositExtract(a, mask);
        DepositExtract(b, mask);
        ExtractBound(a, mask);
        ExtractBound(b, mask);
      }
    }
    if Injective(t, c, magic) {
      forall r: nat, s: nat | r < s < Entries(t, c)
        ensures Index(t, c, magic, Deposit(r, mask)) != Index(t, c, magic, Deposit(s, mask))
      {
        ExtractDeposit(r, mask);
        ExtractDeposit(s, mask);
        assert Deposit(r, mask) <= mask && Deposit(s, mask) <= mask;
      }
    }
  }

  /** Tells by trying every relevant occupancy whether the magic number is collision-free. */
  method IsValidMagic(t: MagicType, c: Coord, magic: Word64) returns (ok: bool)
    ensures ok <==> Injective(t, c, magic)
  {
    InjectiveByNumber(t, c, magic);
    hide Injective;
    hide Index;
    hide MagicMask;
    hide Deposit;
    hide Entries;
    var mask := MagicMask(t, c);
    var submaskCnt := Entries(t, c);
    var used := new bool[submaskCnt](_ => false);
    for submask := 0 to submaskCnt
      invariant forall i :: 0 <= i < submaskCnt ==>
        (used[i] <==> exists s: nat :: s < submask && Index(t, c, magic, Deposit(s, mask)) == i)
      invariant InjectiveBelow(t, c, magic, submask)
    {
      var occupied := DepositBits(submask, mask);
      var idx := Index(t, c, magic, occupied);
      if used[idx] {
        return false;
      }
      used[idx] := true;
    }
    return true;
  }

  /** Two entries fall on one place only if they are the same or belong to block-mates. */
  lemma SlotsMeet(t: MagicType, off: seq<nat>, c: Coord, i: nat, d: Coord, j: nat)
    requires OffsetsOk(t, off) && i < Entries(t, c) && j < Entries(t, d) && off[c] + i == off[d] + j
    ensures Block(t, c) == Block(t, d) && (c == d ==> i == j)
  {
    hide Entries;
    BlocksAre64(t, c);
    BlocksAre64(t, d);
    hide Block;
  }

  lemma BlocksAre64(t: MagicType, c: Coord)
    ensures Block(t, c) < 64
  {}

  /** ORing what one cell sees into a shared entry leaks nothing to its other users, and clearing the
      cell itself takes nothing from them. */
  lemma SharedEntry(t: MagicType, c: Coord, o: Bitboard, d: Coord, p: Bitboard, before: Bitboard)
    requires Block(t, c) == Block(t, d) && (c == d ==> o == p)
    ensures before * MagicPostMask(t, d) <= Attacks(t, p, d) ==>
      (before + Attacks(t, o, c) - {c}) * MagicPostMask(t, d) <= Attacks(t, p, d)
    ensures Attacks(t, p, d) <= before ==> Attacks(t, p, d) <= before + Attacks(t, o, c) - {c}
  {
    MateIsOffLine(t, d, c);
    AttacksAre(t, p, d, c);
    forall e: Coord | e in Attacks(t, o, c) && e in MagicPostMask(t, d)
      ensures e in Attacks(t, p, d)
    {
      AttacksAre(t, o, c, e);
      if c != d {
        LeakIsSeen(t, d, c, e, p);
      }
      hide Attacks;
      hide MagicPostMask;
      hide OnLine;
      hide Block;
    }
    hide Attacks;
    hide MagicPostMask;
    hide OnLine;
    hide Block;
  }

  class MagicTable {
    const t: MagicType
    const magics: seq<Word64>
    const offsets: array<nat>
    const lookup: array<Bitboard>

    /** One collision-free magic number for each cell, and a table of the right size. */
    ghost predicate Shape() {
      && |magics| == 64 && offsets.Length == 64 && lookup.Length == LookupSize(t)
      && forall c: Coord :: Injective(t, c, magics[c])
    }

    function Slot(c: Coord, occupied: Bitboard): nat
      requires Shape()
      reads offsets
    {
      offsets[c] + Index(t, c, magics[c], occupied)
    }

    /** No entry holds a bit that its post-mask lets through and the slider does not see. */
    ghost predicate NoLeaks()
      requires Shape() && OffsetsOk(t, offsets[..])
      reads offsets, lookup
    {
      forall c: Coord, o: Bitboard :: o <= MagicMask(t, c) ==>
        SlotFits(c, o) && lookup[Slot(c, o)] * MagicPostMask(t, c) <= Attacks(t, o, c)
    }

    ghost predicate SlotFits(c: Coord, o: Bitboard)
      requires Shape()
      reads offsets
    {
      Slot(c, o) < lookup.Length
    }

    /** The entry of `c` and `o` holds all that the slider sees. */
    ghost predicate Holds(c: Coord, o: Bitboard)
      requires Shape()
      reads offsets, lookup
    {
      SlotFits(c, o) && Attacks(t, o, c) <= lookup[Slot(c, o)]
    }

    /** The walk from `p` in one direction, ORed into the entry. */
    method WalkRay(slot: nat, c: Coord, occupied: Bitboard, direction: nat)
      requires slot < lookup.Length && direction < 4 && c !in occupied
      modifies lookup
      ensures lookup[slot] == old(lookup[slot]) + {c} + RaySeen(occupied, c, Dx(t, direction), Dy(t, direction))
      ensures forall i :: 0 <= i < lookup.Length && i != slot ==> lookup[i] == old(lookup[i])
    {
      hide RaySeen;
      hide RayCells;
      hide AtStep;
      hide IsDirection;
      hide Visited;
      hide CoordX;
      hide CoordY;
      hide MakeCoord;
      hide Dx;
      hide Dy;
      DirectionsAre(t, direction);
      var dx, dy := Dx(t, direction), Dy(t, direction);
      var p: Coord := c;
      ghost var k: nat := 0;
      ghost var base := lookup[slot];
      WalkStarts(c, dx, dy);
      while true
        invariant k <= 7 && AtStep(c, dx, dy, k, p)
        invariant lookup[slot] + {p} == base + Visited(c, dx, dy, k)
        invariant forall i :: 0 <= i < lookup.Length && i != slot ==> lookup[i] == old(lookup[i])
        invariant forall e :: e in RayCells(c, dx, dy, k) && e in occupied ==> e == p
        invariant k == 0 ==> p == c
        decreases 7 - k
      {
        lookup[slot] := lookup[slot] + {p};
        WalkStep(c, dx, dy, k, p);
        var nx, ny := CoordX(p) + dx, CoordY(p) + dy;
        if nx < 0 || nx >= 8 || ny < 0 || ny >= 8 || p in occupied {
          RayEnd(occupied, c, dx, dy, k, p);
          VisitedAll(c, dx, dy, k);
          break;
        }
        p := MakeCoord(nx, ny);
        k := k + 1;
      }
    }

    /** All four walks for one relevant occupancy, after which the cell itself is cleared. */
    method FillEntry(slot: nat, c: Coord, occupied: Bitboard)
      requires slot < lookup.Length && c !in occupied
      modifies lookup
      ensures lookup[slot] == old(lookup[slot]) + Attacks(t, occupied, c) - {c}
      ensures forall i :: 0 <= i < lookup.Length && i != slot ==> lookup[i] == old(lookup[i])
    {
      hide RaySeen;
      hide Attacks;
      for direction := 0 to 4
        invariant lookup[slot] - {c} == old(lookup[slot]) + SeenUpTo(t, occupied, c, direction) - {c}
        invariant forall i :: 0 <= i < lookup.Length && i != slot ==> lookup[i] == old(lookup[i])
      {
        ghost var before := lookup[slot];
        WalkRay(slot, c, occupied, direction);
        ghost var ray := RaySeen(occupied, c, Dx(t, direction), Dy(t, direction));
        assert lookup[slot] - {c} == before - {c} + (ray - {c});
        assert SeenUpTo(t, occupied, c, direction + 1)
            == SeenUpTo(t, occupied, c, direction) + RaySeen(occupied, c, Dx(t, direction), Dy(t, direction));
      }
      RaysAreAttacks(t, occupied, c);
      lookup[slot] := lookup[slot] - {c};
    }

    method Fill(c: Coord, submask: nat)
      requires Shape() && OffsetsOk(t, offsets[..]) && NoLeaks()
      requires submask < Entries(t, c)
      modifies lookup
      ensures NoLeaks() && Holds(c, Deposit(submask, MagicMask(t, c)))
      ensures forall d: Coord, p: Bitboard :: p <= MagicMask(t, d) && old(Holds(d, p)) ==> Holds(d, p)
    {
      var mask := MagicMask(t, c);
      var occupied := DepositBits(submask, mask);
      CellIsNotRelevant(t, c, occupied);
      hide Attacks;
      hide MagicMask;
      hide MagicPostMask;
      hide Index;
      hide Entries;
      hide Deposit;
      hide OffsetsOk;
      hide Block;
      assert SlotFits(c, occupied);
      var slot := offsets[c] + Index(t, c, magics[c], occupied);
      ghost var before := lookup[..];
      FillEntry(slot, c, occupied);
      forall d: Coord, p: Bitboard | p <= MagicMask(t, d)
        ensures before[Slot(d, p)] * MagicPostMask(t, d) <= Attacks(t, p, d)
          ==> lookup[Slot(d, p)] * MagicPostMask(t, d) <= Attacks(t, p, d)
        ensures Attacks(t, p, d) <= before[Slot(d, p)] ==> Attacks(t, p, d) <= lookup[Slot(d, p)]
      {
        if Slot(d, p) == slot {
          SlotsMeet(t, offsets[..], c, Index(t, c, magics[c], occupied), d, Index(t, d, magics[d], p));
          SharedEntry(t, c, occupied, d, p, before[slot]);
        }
      }
    }

    /** The table is complete. */
    ghost predicate Filled()
      reads offsets, lookup
    {
      && Shape() && OffsetsOk(t, offsets[..]) && NoLeaks()
      && forall c: Coord, o: Bitboard :: o <= MagicMask(t, c) ==> Holds(c, o)
    }

    constructor (t: MagicType, magics: seq<Word64>)
      requires |magics| == 64 && forall c: Coord :: Injective(t, c, magics[c])
      ensures Filled() && this.t == t && this.magics == magics
    {
      this.t, this.magics := t, magics;
      offsets := new nat[64](_ => 0);
      lookup := new Bitboard[LookupSize(t)](_ => {});
      new;
      InitMagic();
    }

    method InitMagic()
      requires Shape() && forall i :: 0 <= i < lookup.Length ==> lookup[i] == {}
      modifies offsets, lookup
      ensures Filled()
    {
      hide Attacks;
      hide MagicMask;
      hide MagicPostMask;
      hide Injective;
      hide Index;
      hide OffsetsOk;
      hide LookupSize;
      hide MagicTable.Shape;
      AreaFits();
      InitOffsets(t, offsets);
      EmptyLeaksNothing();
      hide MagicTable.Holds;
      hide MagicTable.NoLeaks;
      for c := 0 to 64
        invariant OffsetsOk(t, offsets[..]) && NoLeaks()
        invariant forall d: Coord, p: Bitboard :: d < c && p <= MagicMask(t, d) ==> Holds(d, p)
      {
        FillCell(c);
      }
    }

    lemma AreaFits()
      requires Shape()
      ensures offsets.Length == 64
    {}

    lemma EmptyLeaksNothing()
      requires Shape() && OffsetsOk(t, offsets[..])
      requires forall i :: 0 <= i < lookup.Length ==> lookup[i] == {}
      ensures NoLeaks()
    {
      SlotsFit();
      hide Attacks;
      hide MagicMask;
      hide MagicPostMask;
      hide Injective;
      hide Index;
      hide OffsetsOk;
      hide LookupSize;
    }

    method FillCell(c: Coord)
      requires Shape() && OffsetsOk(t, offsets[..]) && NoLeaks()
      modifies lookup
      ensures NoLeaks() && forall p: Bitboard :: p <= MagicMask(t, c) ==> Holds(c, p)
      ensures forall d: Coord, p: Bitboard :: p <= MagicMask(t, d) && old(Holds(d, p)) ==> Holds(d, p)
    {
      hide MagicMask;
      hide OffsetsOk;
      hide Deposit;
      hide Shape;
      hide MagicTable.Holds;
      hide MagicTable.NoLeaks;
      var mask := MagicMask(t, c);
      var submaskCnt := Entries(t, c);
      for submask := 0 to submaskCnt
        invariant NoLeaks()
        invariant forall d: Coord, p: Bitboard :: p <= MagicMask(t, d) && old(Holds(d, p)) ==> Holds(d, p)
        invariant forall n: nat :: n < submask ==> Holds(c, Deposit(n, mask))
      {
        assert forall n: nat :: Deposit(n, mask) <= mask;
        Fill(c, submask);
      }
      forall p: Bitboard | p <= mask
        ensures Holds(c, p)
      {
        DepositExtract(p, mask);
        ExtractBound(p, mask);
      }
    }

    lemma SlotsFit()
      requires Shape() && OffsetsOk(t, offsets[..])
      ensures forall c: Coord, o: Bitboard :: SlotFits(c, o)
    {
      hide Entries;
      hide Block;
      forall c: Coord
        ensures Block(t, c) < 64
      {
        BlocksAre64(t, c);
      }
    }

    lemma EntryIsExact(c: Coord, o: Bitboard)
      requires Filled() && o <= MagicMask(t, c)
      ensures SlotFits(c, o) && lookup[Slot(c, o)] * MagicPostMask(t, c) == Attacks(t, o, c)
    {
      AttacksWithinPostMask(t, o, c);
      hide Attacks;
      hide MagicMask;
      hide MagicPostMask;
      hide Injective;
      hide Index;
      hide OffsetsOk;
      assert Holds(c, o);
      assert lookup[Slot(c, o)] * MagicPostMask(t, c) <= Attacks(t, o, c);
    }

    /** What a slider on `pos` attacks when `occupied` is taken: one look-up and one intersection. */
    function AttackBitboard(occupied: Bitboard, pos: Coord): (r: Bitboard)
      requires Filled()
      reads offsets, lookup
      ensures r == Attacks(t, occupied, pos)
    {
      MaskIsEnough(t, occupied, pos);
      EntryIsExact(pos, occupied * MagicMask(t, pos));
      hide Attacks;
      hide MagicMask;
      hide MagicPostMask;
      hide Index;
      hide MagicTable.NoLeaks;
      hide MagicTable.Holds;
      hide OffsetsOk;
      lookup[Slot(pos, occupied * MagicMask(t, pos))] * MagicPostMask(t, pos)
    }

    /** The same, narrowed to the cells of `postMask`; nothing is looked up when none is left. */
    function MaskedAttackBitboard(occupied: Bitboard, pos: Coord, postMask: Bitboard): (r: Bitboard)
      requires Filled()
      reads offsets, lookup
      ensures r == Attacks(t, occupied, pos) * postMask
    {
      MaskIsEnough(t, occupied, pos);
      EntryIsExact(pos, occupied * MagicMask(t, pos));
      hide Attacks;
      hide MagicMask;
      hide MagicPostMask;
      hide Index;
      hide MagicTable.NoLeaks;
      hide MagicTable.Holds;
      hide OffsetsOk;
      var entryPostMask := MagicPostMask(t, pos) * postMask;
      if entryPostMask == {} then {}
      else lookup[Slot(pos, occupied * MagicMask(t, pos))] * entryPostMask
    }
  }

  lemma AttacksWithinPostMask(t: MagicType, occupied: Bitboard, c: Coord)
    ensures Attacks(t, occupied, c) <= MagicPostMask(t, c)
  {
    forall d | d in Attacks(t, occupied, c)
      ensures d in MagicPostMask(t, c)
    {
      AttacksAre(t, occupied, c, d);
      PostMaskIsLine(t, c, d);
    }
  }

  lemma CellIsNotRelevant(t: MagicType, c: Coord, occupied: Bitboard)
    ensures c !in MagicMask(t, c) && c !in Attacks(t, occupied, c)
  {}
}

/** How many moves the two bounded buffers of the generator must hold: at most 8 captures for each of at
    most 16 men, and at most 4 promotions on each of 8 columns. */
module CaptureBound {
  import opened Types
  import opened Geometry
  import opened Rules
  import opened Invariants
  import opened MoveLists
  import opened MoveGenerator

  const BUFSZ_CAPTURES := 128
  const BUFSZ_SIMPLE_PROMOTES := 32

  type Place = (Coord, nat)

  // ---- Counting by an injection ----

  function Places(list: seq<Move>, place: Move -> Place): set<Place> {
    if list == [] then {} else Places(list[..|list| - 1], place) + {place(list[|list| - 1])}
  }

  lemma {:induction false} PlacesAre(list: seq<Move>, place: Move -> Place, r: Place)
    ensures r in Places(list, place) <==> exists i :: 0 <= i < |list| && place(list[i]) == r
  {
    if list != [] {
      var n := |list| - 1;
      PlacesAre(list[..n], place, r);
      if i :| 0 <= i < |list| && place(list[i]) == r {
        assert i < n ==> list[..n][i] == list[i];
      }
    }
  }

  lemma {:induction false} PlacesSize(list: seq<Move>, place: Move -> Place)
    requires forall i, j :: 0 <= i < j < |list| ==> place(list[i]) != place(list[j])
    ensures |Places(list, place)| == |list|
  {
    if list != [] {
      var n := |list| - 1;
      PlacesSize(list[..n], place);
      PlacesAre(list[..n], place, place(list[n]));
    }
  }

  /** All places on some cells, with `k` numbers for each. */
  function Slots(cells: Bitboard, k: nat): set<Place> {
    set c, i: nat | c in cells && i < k :: (c, i)
  }

  lemma {:induction false} RowSize(c: Coord, k: nat)
    ensures |Slots({c}, k)| == k
  {
    if k > 0 {
      RowSize(c, k - 1);
      assert Slots({c}, k) == Slots({c}, k - 1) + {(c, k - 1)};
    } else {
      assert Slots({c}, k) == {};
    }
  }

  lemma OneMoreRow(n: nat, k: nat)
    ensures (n + 1) * k == n * k + k
  {}

  lemma SlotsSplit(cells: Bitboard, c: Coord, k: nat)
    requires c in cells
    ensures Slots(cells, k) == Slots(cells - {c}, k) + Slots({c}, k)
    ensures Slots(cells - {c}, k) !! Slots({c}, k)
  {}

  lemma {:induction false} SlotsSize(cells: Bitboard, k: nat)
    ensures |Slots(cells, k)| == |cells| * k
  {
    if cells != {} {
      var c :| c in cells;
      SlotsSize(cells - {c}, k);
      RowSize(c, k);
      SlotsSplit(cells, c, k);
      hide Slots;
      OneMoreRow(|cells - {c}|, k);
    } else {
      assert Slots(cells, k) == {};
    }
  }

  lemma CountByPlaces(list: seq<Move>, place: Move -> Place, cells: Bitboard, k: nat)
    requires forall i, j :: 0 <= i < j < |list| ==> place(list[i]) != place(list[j])
    requires forall i :: 0 <= i < |list| ==> place(list[i]) in Slots(cells, k)
    ensures |list| <= |cells| * k
  {
    PlacesSize(list, place);
    forall r | r in Places(list, place)
      ensures r in Slots(cells, k)
    {
      PlacesAre(list, place, r);
    }
    SubsetCardinality(Places(list, place), Slots(cells, k));
    SlotsSize(cells, k);
  }

  // ---- The places of captures ----

  function Sign(n: int): int { if n > 0 then 1 else if n < 0 then -1 else 0 }

  /** Eight numbers for the eight directions. */
  function DirectionSlot(c: Coord, d: Coord): nat {
    var sx, sy := Sign(CoordX(d) - CoordX(c)), Sign(CoordY(d) - CoordY(c));
    if sx < 0 then sy + 1 else if sx > 0 then sy + 4 else if sy < 0 then 6 else 7
  }

  /** Eight numbers for the eight jumps. */
  function JumpSlot(c: Coord, d: Coord): nat {
    var dx, dy := CoordX(d) - CoordX(c), CoordY(d) - CoordY(c);
    (if dx == 2 || dx == -2 then 4 else 0) + (if dx > 0 then 2 else 0) + (if dy > 0 then 1 else 0)
  }

  /** Two sides, and four kinds of promotion on each. */
  function PawnSlot(m: Move): nat {
    (if CoordY(m.dst) > CoordY(m.src) then 4 else 0) +
    (match m.kind
     case PromoteBishop => 1
     case PromoteRook => 2
     case PromoteQueen => 3
     case _ => 0)
  }

  function CaptureSlot(p: Position, m: Move): nat {
    match p.cells[m.src]
    case Man(_, Pawn) => PawnSlot(m)
    case Man(_, Knight) => JumpSlot(m.src, m.dst)
    case _ => DirectionSlot(m.src, m.dst)
  }

  predicate IsCapturing(p: Position, m: Move) {
    PseudoLegal(p, m) && IsCapture(p, m)
  }

  /** Two cells in one direction that are both occupied and both seen are the same cell. */
  lemma OneSeen(occupied: Bitboard, c: Coord, d: Coord, e: Coord)
    requires RookSees(occupied, c, d) || BishopSees(occupied, c, d)
    requires RookSees(occupied, c, e) || BishopSees(occupied, c, e)
    requires d in occupied && e in occupied && DirectionSlot(c, d) == DirectionSlot(c, e)
    ensures d == e
  {
    InLine(c, d, e);
    assert !StrictlyBetween(c, e, d) && !StrictlyBetween(c, d, e);
    hide Open;
    hide StrictlyBetween;
    hide DirectionSlot;
    hide RookLine;
    hide BishopLine;
  }

  /** Of two cells in one direction one is nearer. */
  lemma InLine(c: Coord, d: Coord, e: Coord)
    requires RookLine(c, d) || BishopLine(c, d)
    requires RookLine(c, e) || BishopLine(c, e)
    requires DirectionSlot(c, d) == DirectionSlot(c, e)
    ensures d == e || StrictlyBetween(c, e, d) || StrictlyBetween(c, d, e)
  {
  }

  lemma SlotIsSmall(p: Position, m: Move)
    requires Sound(p) && IsCapturing(p, m)
    ensures CaptureSlot(p, m) < 8 && IsOwn(p.cells, p.side, m.src)
  {
    if m.kind.IsCastling() {
      CastlingCells(p, m);
    }
  }

  lemma PawnCapture(p: Position, m: Move)
    requires Sound(p) && IsCapturing(p, m) && p.cells[m.src] == Man(p.side, Pawn)
    ensures PawnStep(p.side, m.src, m.dst)
    ensures m.kind.Simple? || m.kind.Enpassant? || m.kind.IsPromote()
    ensures m.kind.Enpassant? <==> p.cells[m.dst] == Empty
    ensures m.kind.IsPromote() <==> CoordX(m.src) == PromoteSrcRow(p.side)
  {
    if m.kind.IsCastling() {
      CastlingCells(p, m);
    }
  }

  lemma PieceCapture(p: Position, m: Move)
    requires Sound(p) && IsCapturing(p, m) && p.cells[m.src] != Man(p.side, Pawn)
    ensures m.kind.Simple? && m.dst in Occupied(p.cells) && IsOwn(p.cells, p.side, m.src)
    ensures ManAttacks(p.cells[m.src], Occupied(p.cells), m.src, m.dst)
  {
    if m.kind.IsCastling() {
      CastlingCells(p, m);
    }
  }

  lemma PawnSide(c: Color, src: Coord, d: Coord, e: Coord)
    requires PawnStep(c, src, d) && PawnStep(c, src, e)
    requires CoordY(d) > CoordY(src) <==> CoordY(e) > CoordY(src)
    ensures d == e
  {}

  lemma PawnSlotTells(p: Position, m: Move, n: Move)
    requires Sound(p) && IsCapturing(p, m) && IsCapturing(p, n) && p.cells[m.src] == Man(p.side, Pawn)
    requires m.src == n.src && PawnSlot(m) == PawnSlot(n)
    ensures m == n
  {
    hide IsCapturing;
    hide Sound;
    PawnCapture(p, m);
    PawnCapture(p, n);
    hide PawnStep;
    hide CoordY;
    PawnSide(p.side, m.src, m.dst, n.dst);
  }

  lemma JumpTells(c: Coord, d: Coord, e: Coord)
    requires KnightStep(c, d) && KnightStep(c, e) && JumpSlot(c, d) == JumpSlot(c, e)
    ensures d == e
  {}

  lemma KingTells(c: Coord, d: Coord, e: Coord)
    requires KingStep(c, d) && KingStep(c, e) && DirectionSlot(c, d) == DirectionSlot(c, e)
    ensures d == e
  {}

  /** A man captures at most once in each of its eight ways. */
  lemma SlotTellsCapture(p: Position, m: Move, n: Move)
    requires Sound(p) && IsCapturing(p, m) && IsCapturing(p, n)
    requires m.src == n.src && CaptureSlot(p, m) == CaptureSlot(p, n)
    ensures m == n
  {
    hide IsCapturing;
    hide Sound;
    SlotIsSmall(p, m);
    hide DirectionSlot;
    hide JumpSlot;
    hide PawnSlot;
    if p.cells[m.src] == Man(p.side, Pawn) {
      PawnSlotTells(p, m, n);
    } else {
      PieceCapture(p, m);
      PieceCapture(p, n);
      hide KnightStep;
      hide KingStep;
      hide RookSees;
      hide BishopSees;
      match p.cells[m.src].piece
      case Knight => JumpTells(m.src, m.dst, n.dst);
      case King => KingTells(m.src, m.dst, n.dst);
      case _ => OneSeen(Occupied(p.cells), m.src, m.dst, n.dst);
    }
  }

  /** On a valid board the captures fit into their buffer, whatever the state of check asks for. */
  lemma CapturesFit(p: Position, check: CheckKind, checkMask: Bitboard, list: seq<Move>)
    requires Valid(p) && Lists(list, p, Asked(check, checkMask, false, true, false))
    ensures |list| <= BUFSZ_CAPTURES
  {
    var place := (m: Move) => (m.src, CaptureSlot(p, m));
    hide CaptureSlot;
    forall i | 0 <= i < |list|
      ensures IsCapturing(p, list[i]) && place(list[i]) in Slots(OfColor(p.cells, p.side), 8)
    {
      assert list[i] in list;
      assert Wanted(p, Asked(check, checkMask, false, true, false), list[i]);
      hide PseudoLegal;
      hide Sound;
      SlotIsSmall(p, list[i]);
    }
    hide IsCapturing;
    forall i, j | 0 <= i < j < |list|
      ensures place(list[i]) != place(list[j])
    {
      if place(list[i]) == place(list[j]) {
        SlotTellsCapture(p, list[i], list[j]);
      }
    }
    CountByPlaces(list, place, OfColor(p.cells, p.side), 8);
  }

  // ---- The places of promotions ----

  /** The column of a simple promotion, as a cell, and one of four kinds. */
  function PromotePlace(m: Move): Place {
    (CoordY(m.dst), PawnSlot(m) % 4)
  }

  lemma PushShape(p: Position, m: Move)
    requires Sound(p) && PseudoLegal(p, m) && PartOf(p, m) == PushPromote
    ensures m.kind.IsPromote() && CoordX(m.src) == PromoteSrcRow(p.side) && m.dst == m.src + PawnForwardDelta(p.side)
  {}

  lemma PushTells(c: Color, m: Move, n: Move)
    requires m.kind.IsPromote() && CoordX(m.src) == PromoteSrcRow(c) && m.dst == m.src + PawnForwardDelta(c)
    requires n.kind.IsPromote() && CoordX(n.src) == PromoteSrcRow(c) && n.dst == n.src + PawnForwardDelta(c)
    requires PromotePlace(m) == PromotePlace(n)
    ensures m == n
  {
    assert CoordY(m.src) == CoordY(m.dst) && CoordY(n.src) == CoordY(n.dst);
  }

  lemma PromotesFit(p: Position, check: CheckKind, checkMask: Bitboard, list: seq<Move>)
    requires Sound(p) && Lists(list, p, AskedPromotes(check, checkMask))
    ensures |list| <= BUFSZ_SIMPLE_PROMOTES
  {
    hide PromotePlace;
    forall i | 0 <= i < |list|
      ensures PseudoLegal(p, list[i]) && PartOf(p, list[i]) == PushPromote
      ensures PromotePlace(list[i]) in Slots(Row(0), 4)
    {
      assert list[i] in list;
      assert Wanted(p, AskedPromotes(check, checkMask), list[i]);
      hide PseudoLegal;
      hide Sound;
      PushInSlots(list[i]);
    }
    hide PseudoLegal;
    hide Sound;
    hide PartOf;
    forall i, j | 0 <= i < j < |list|
      ensures PromotePlace(list[i]) != PromotePlace(list[j])
    {
      if PromotePlace(list[i]) == PromotePlace(list[j]) {
        PushShape(p, list[i]);
        PushShape(p, list[j]);
        PushTells(p.side, list[i], list[j]);
      }
    }
    EightColumns();
    CountByPlaces(list, PromotePlace, Row(0), 4);
  }

  lemma PushInSlots(m: Move)
    ensures PromotePlace(m) in Slots(Row(0), 4)
  {
    assert CoordX(CoordY(m.dst)) == 0;
  }

  lemma EightColumns()
    ensures |Row(0)| == 8
  {
    assert Row(0) == {0, 1, 2, 3, 4, 5, 6, 7};
  }
}

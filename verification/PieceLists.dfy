/** Piece lists with swap-with-last removal: for each kind of man the list of its cells, and for each
    cell its place in the list. Changing one cell keeps them an exact index of the board. */
module PieceLists {
  import opened Types
  import opened Rules
  import opened Invariants
  import opened Bitboards

  const MAX_PIECE_COUNT := 16

  /** Colour in bit 3, kind in bits 0 to 2. */
  function PieceIndex(v: Cell): (i: nat)
    ensures i < 16
  {
    match v
    case Empty => 0
    case Man(c, piece) =>
      (if c.White? then 0 else 8) +
        match piece
        case Pawn => 1
        case Knight => 2
        case Bishop => 3
        case Rook => 4
        case Queen => 5
        case King => 6
  }

  lemma PieceIndexIsInjective(v: Cell, w: Cell)
    ensures PieceIndex(v) == PieceIndex(w) ==> v == w
  {}

  class Lists {
    const board: array<Cell>
    const pieceCount: array<nat>
    const listPos: array<nat>
    const pieces: array2<Coord>
    var allPiece: Bitboard
    var colWhite: Bitboard
    var colBlack: Bitboard
    var pieceBit: map<Cell, Bitboard>

    ghost predicate Shape() {
      && board.Length == 64 && pieceCount.Length == 16 && listPos.Length == 64 && pieceCount != listPos
      && pieces.Length0 == 16 && pieces.Length1 == MAX_PIECE_COUNT
    }

    /** The list of `v` holds exactly the cells of `s` with `v`, each at the place that it remembers. */
    ghost predicate ListOk(v: Cell, s: Cells)
      requires Shape()
      reads pieceCount, listPos, pieces
    {
      var k := PieceIndex(v);
      && pieceCount[k] <= MAX_PIECE_COUNT
      && (forall i: nat :: i < pieceCount[k] ==> s[pieces[k, i]] == v && listPos[pieces[k, i]] == i)
      && (forall c: Coord :: s[c] == v ==> listPos[c] < pieceCount[k] && pieces[k, listPos[c]] == c)
    }

    ghost predicate ListsOk(s: Cells)
      requires Shape()
      reads pieceCount, listPos, pieces
    {
      forall v: Cell :: v.Man? ==> ListOk(v, s)
    }

    ghost function Bits(): PieceBoards
      reads `colWhite, `colBlack, `pieceBit
    {
      PieceBoards(colWhite, colBlack, pieceBit)
    }

    ghost predicate BitsOk(s: Cells)
      reads this
    {
      Bits().Match(s) && allPiece == Occupied(s)
    }

    /** `board_ok`: lists, counts and bitboards are an exact index of the cells. */
    ghost predicate Ok()
      reads this, board, pieceCount, listPos, pieces
    {
      Shape() && ListsOk(board[..]) && BitsOk(board[..])
    }

    method DelList(cell: Coord, v: Cell, ghost s: Cells)
      requires Shape() && ListsOk(s) && v.Man? && s[cell] == v
      modifies pieceCount, listPos, pieces
      ensures ListsOk(s[cell := Empty])
      ensures pieceCount[PieceIndex(v)] == old(pieceCount[PieceIndex(v)]) - 1
    {
      forall w: Cell
        ensures PieceIndex(v) == PieceIndex(w) ==> v == w
      {
        PieceIndexIsInjective(v, w);
      }
      hide PieceIndex;
      var k := PieceIndex(v);
      assert ListOk(v, s);
      var lp, last := listPos[cell], pieceCount[k] - 1;
      if lp != last {
        pieces[k, lp] := pieces[k, last];
        listPos[pieces[k, lp]] := lp;
      }
      pieceCount[k] := last;
      forall w: Cell | w.Man?
        ensures ListOk(w, s[cell := Empty])
      {
        assert old(ListOk(w, s));
      }
    }

    method PushList(cell: Coord, v: Cell, ghost s: Cells)
      requires Shape() && ListsOk(s) && v.Man? && s[cell] == Empty && pieceCount[PieceIndex(v)] < MAX_PIECE_COUNT
      modifies pieceCount, listPos, pieces
      ensures ListsOk(s[cell := v])
    {
      forall w: Cell
        ensures PieceIndex(v) == PieceIndex(w) ==> v == w
      {
        PieceIndexIsInjective(v, w);
      }
      hide PieceIndex;
      var k := PieceIndex(v);
      assert ListOk(v, s);
      pieces[k, pieceCount[k]] := cell;
      listPos[cell] := pieceCount[k];
      pieceCount[k] := pieceCount[k] + 1;
      forall w: Cell | w.Man?
        ensures ListOk(w, s[cell := v])
      {
        assert old(ListOk(w, s));
      }
    }

    /** Takes the man off the lists and bitboards, but not off the board. */
    method DelVal(cell: Coord)
      requires Shape() && ListsOk(board[..]) && BitsOk(board[..])
      modifies this, pieceCount, listPos, pieces
      ensures ListsOk(board[..][cell := Empty]) && BitsOk(board[..][cell := Empty])
    {
      hide ListOk;
      hide ListsOk;
      var v := board[cell];
      if v == Empty {
        assert board[..][cell := Empty] == board[..];
        return;
      }
      DelList(cell, v, board[..]);
      BitsAfterDel(Bits(), board[..], cell);
      assert allPiece == Occupied(board[..]);
      allPiece := Xor(allPiece, {cell});
      if v.color.White? {
        colWhite := Xor(colWhite, {cell});
      } else {
        colBlack := Xor(colBlack, {cell});
      }
      pieceBit := pieceBit[v := Xor(pieceBit[v], {cell})];
    }

    /** Puts a man on the lists and bitboards of a board where the cell counts as empty. */
    method PushVal(cell: Coord, v: Cell, ghost s: Cells)
      requires Shape() && ListsOk(s) && BitsOk(s) && s[cell] == Empty && (v.Man? ==> |OfCell(s, v)| < MAX_PIECE_COUNT)
      modifies this, pieceCount, listPos, pieces
      ensures ListsOk(s[cell := v]) && BitsOk(s[cell := v])
    {
      if v == Empty {
        assert s[cell := v] == s;
        return;
      }
      CountIsSize(v, s);
      MatchIsTotal(Bits(), s);
      hide ListOk;
      hide ListsOk;
      hide OfCell;
      hide Occupied;
      hide Bitboards.PieceBoards.Match;
      hide Bitboards.PieceBoards.Insert;
      PushList(cell, v, s);
      BitsAfterPush(Bits(), s, cell, v);
      SetBit(cell, v);
    }

    method SetBit(cell: Coord, v: Cell)
      requires v.Man? && v in pieceBit
      modifies this
      ensures Bits() == old(Bits()).Insert(v.color, v, {cell}) && allPiece == old(allPiece) + {cell}
    {
      allPiece := allPiece + {cell};
      if v.color.White? {
        colWhite := colWhite + {cell};
      } else {
        colBlack := colBlack + {cell};
      }
      pieceBit := pieceBit[v := pieceBit[v] + {cell}];
    }

    method ChangePiece(cell: Coord, v: Cell)
      requires Ok() && (v.Man? ==> |OfCell(board[..][cell := Empty], v)| < MAX_PIECE_COUNT)
      modifies this, board, pieceCount, listPos, pieces
      ensures Ok() && board[..] == old(board[..])[cell := v]
    {
      hide ListsOk;
      hide Lists.BitsOk;
      DelVal(cell);
      PushVal(cell, v, board[..][cell := Empty]);
      assert board[..][cell := Empty][cell := v] == board[..][cell := v];
      board[cell] := v;
    }

    /** Builds lists and bitboards from the cells alone. */
    method RecalcBoard()
      requires Shape() && forall v: Cell :: v.Man? ==> |OfCell(board[..], v)| <= MAX_PIECE_COUNT
      modifies this, pieceCount, listPos, pieces
      ensures Ok()
    {
      ghost var s: Cells := board[..];
      hide OfCell;
      hide Bitboards.PieceBoards.Match;
      forall i | 0 <= i < 16 {
        pieceCount[i] := 0;
      }
      forall i | 0 <= i < 64 {
        listPos[i] := 0;
      }
      colWhite, colBlack, allPiece := {}, {}, {};
      pieceBit := map v: Cell | v in ALL_CELLS :: {};
      EmptyBits(s);
      for i := 0 to 64
        invariant board[..] == s && ListsOk(Prefix(s, i)) && BitsOk(Prefix(s, i))
      {
        PrefixStep(s, i);
        if board[i] != Empty {
          PushVal(i, board[i], Prefix(s, i));
        }
      }
      assert Prefix(s, 64) == s;
      assert colWhite + colBlack == allPiece by {
        ColorsAreAll(Bits(), s);
      }
      allPiece := colWhite + colBlack;
    }

    /** What `board_ok` compares: the counts, and for each man only that its own place holds it. */
    ghost predicate Checked(s: Cells)
      requires Shape() && forall k :: 0 <= k < 16 ==> pieceCount[k] <= MAX_PIECE_COUNT
      reads pieceCount, listPos, pieces
    {
      && (forall v: Cell :: v.Man? ==> pieceCount[PieceIndex(v)] == |OfCell(s, v)|)
      && forall c: Coord :: s[c].Man? ==>
          var k := PieceIndex(s[c]); listPos[c] < pieceCount[k] && pieces[k, listPos[c]] == c
    }

    /** The comparison leaves no room for anything else: the lists are exact in both directions. */
    lemma CheckedIsExact(s: Cells)
      requires Shape() && forall k :: 0 <= k < 16 ==> pieceCount[k] <= MAX_PIECE_COUNT
      ensures Checked(s) <==> ListsOk(s)
    {
      hide PieceIndex;
      if Checked(s) {
        forall v: Cell | v.Man?
          ensures ListOk(v, s)
        {
          var k, men := PieceIndex(v), OfCell(s, v);
          assert forall c :: c in men ==> s[c] == v && listPos[c] < pieceCount[k] && pieces[k, listPos[c]] == c;
          forall i: nat | i < pieceCount[k]
            ensures s[pieces[k, i]] == v && listPos[pieces[k, i]] == i
          {
            var c := Placed(men, listPos[..], i);
            assert c in men;
          }
        }
      }
      if ListsOk(s) {
        forall v: Cell | v.Man?
          ensures ListOk(v, s) && pieceCount[PieceIndex(v)] == |OfCell(s, v)|
        {
          CountIsSize(v, s);
        }
        hide OfCell;
      }
    }

    /** The counts are the numbers of men. */
    lemma CountIsSize(v: Cell, s: Cells)
      requires Shape() && ListsOk(s) && v.Man?
      ensures pieceCount[PieceIndex(v)] == |OfCell(s, v)|
    {
      var k := PieceIndex(v);
      assert ListOk(v, s);
      var n := pieceCount[k];
      var list := seq(n, i requires 0 <= i < n reads pieces => pieces[k, i]);
      assert forall c: Coord :: s[c] == v ==> list[listPos[c]] == c;
      assert forall i: nat, j: nat :: i < j < |list| ==> list[i] != list[j] by {
        forall i: nat, j: nat | i < j < |list|
          ensures list[i] != list[j]
        {
          assert listPos[pieces[k, i]] == i && listPos[pieces[k, j]] == j;
        }
      }
      DistinctSize(list, OfCell(s, v));
    }
  }

  /** As many different places below their number leave no place free. */
  lemma Placed(men: Bitboard, places: seq<nat>, i: nat) returns (c: Coord)
    requires |places| == 64 && i < |men|
    requires forall c, d :: c in men && d in men && places[c] == places[d] ==> c == d
    requires forall c :: c in men ==> places[c] < |men|
    ensures c in men && places[c] == i
  {
    var image := Image(men, places);
    ImageSize(men, places);
    if i !in image {
      var others := Range(|men|) - {i};
      assert image <= others;
      SubsetCardinality(image, others);
      assert false;
    }
    c :| c in men && places[c] == i;
  }

  function Image(men: Bitboard, places: seq<nat>): set<nat>
    requires |places| == 64
  {
    set c | c in men :: places[c]
  }

  lemma {:induction false} ImageSize(men: Bitboard, places: seq<nat>)
    requires |places| == 64
    requires forall c, d :: c in men && d in men && places[c] == places[d] ==> c == d
    ensures |Image(men, places)| == |men|
  {
    if men != {} {
      var c :| c in men;
      ImageSize(men - {c}, places);
      assert Image(men, places) == Image(men - {c}, places) + {places[c]};
    } else {
      assert Image(men, places) == {};
    }
  }

  function Range(n: nat): (r: set<nat>)
    ensures |r| == n && forall j: nat :: j in r <==> j < n
  {
    if n == 0 then {} else Range(n - 1) + {n - 1}
  }

  /** A list without repeats is as long as the set of its items. */
  lemma {:induction false} DistinctSize(list: seq<Coord>, items: Bitboard)
    requires forall i: nat, j: nat :: i < j < |list| ==> list[i] != list[j]
    requires forall c :: c in items <==> c in list
    ensures |items| == |list|
  {
    if list != [] {
      var n := |list| - 1;
      assert list == list[..n] + [list[n]];
      DistinctSize(list[..n], items - {list[n]});
    } else {
      assert items == {};
    }
  }

  lemma BitsAfterDel(b: PieceBoards, s: Cells, cell: Coord)
    requires b.Match(s) && s[cell].Man?
    ensures b.ToggleColor(s[cell].color, {cell}).TogglePiece(s[cell], {cell}).Match(s[cell := Empty])
    ensures Xor(Occupied(s), {cell}) == Occupied(s[cell := Empty])
  {
    ToggleOneMatch(b, s, cell, s[cell]);
    hide PieceBoards.Match;
    hide PieceBoards.ToggleColor;
    hide PieceBoards.TogglePiece;
  }

  lemma ColorsAreAll(b: PieceBoards, s: Cells)
    requires b.Match(s)
    ensures b.white + b.black == Occupied(s)
  {}
}

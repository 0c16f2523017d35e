/** Bitboards kept in step with the cells by toggling and clearing bits. */
module Bitboards {
  import opened Types
  import opened Rules
  import opened Invariants

  const ALL_CELLS: set<Cell> :=
    {Empty} + set c, p | c in {White, Black} && p in {Pawn, King, Knight, Bishop, Rook, Queen} :: Man(c, p)

  lemma AllCells(v: Cell)
    ensures v in ALL_CELLS
  {
    match v
    case Empty =>
    case Man(c, p) =>
      assert c == White || c == Black;
      assert p == Pawn || p == King || p == Knight || p == Bishop || p == Rook || p == Queen;
  }

  /** The colour and piece bitboards of a board. */
  datatype PieceBoards = PieceBoards(white: Bitboard, black: Bitboard, pieces: map<Cell, Bitboard>) {
    ghost predicate Match(s: Cells) {
      && white == OfColor(s, White)
      && black == OfColor(s, Black)
      && forall v: Cell :: v in pieces && pieces[v] == if v == Empty then {} else OfCell(s, v)
    }

    ghost predicate Total() {
      forall v: Cell :: v in pieces
    }

    function Color(c: Color): Bitboard {
      if c.White? then white else black
    }

    function ToggleColor(c: Color, bb: Bitboard): PieceBoards {
      if c.White? then this.(white := Xor(white, bb)) else this.(black := Xor(black, bb))
    }

    function TogglePiece(v: Cell, bb: Bitboard): PieceBoards {
      if v in pieces then this.(pieces := pieces[v := Xor(pieces[v], bb)]) else this
    }

    function Clear(c: Color, v: Cell, bb: Bitboard): PieceBoards {
      var b := if c.White? then this.(white := white - bb) else this.(black := black - bb);
      if v in pieces then b.(pieces := pieces[v := pieces[v] - bb]) else b
    }

    function Insert(c: Color, v: Cell, bb: Bitboard): PieceBoards {
      var b := if c.White? then this.(white := white + bb) else this.(black := black + bb);
      if v in pieces then b.(pieces := pieces[v := pieces[v] + bb]) else b
    }

    /** What castling toggles, in both directions. */
    function CastleKingside(c: Color): PieceBoards {
      var off := CastlingOffset(c);
      ToggleColor(c, {off + 4, off + 5, off + 6, off + 7})
        .TogglePiece(Man(c, Rook), {off + 5, off + 7}).TogglePiece(Man(c, King), {off + 4, off + 6})
    }

    function CastleQueenside(c: Color): PieceBoards {
      var off := CastlingOffset(c);
      ToggleColor(c, {off, off + 2, off + 3, off + 4})
        .TogglePiece(Man(c, Rook), {off, off + 3}).TogglePiece(Man(c, King), {off + 2, off + 4})
    }
  }

  /** The king of `c` stands on `k` and its rook on `r`, while `k'` and `r'` are empty. */
  predicate CastlingShape(s: Cells, c: Color, k: Coord, r: Coord, k': Coord, r': Coord) {
    s[k] == Man(c, King) && s[r] == Man(c, Rook) && s[k'] == s[r'] == Empty
  }

  lemma CastlingMatch(b: PieceBoards, s: Cells, t: Cells, c: Color, k: Coord, r: Coord, k': Coord, r': Coord)
    requires b.Match(s) && |{k, r, k', r'}| == 4
    requires forall i: Coord :: i !in {k, r, k', r'} ==> s[i] == t[i]
    requires CastlingShape(s, c, k, r, k', r') && CastlingShape(t, c, k', r', k, r)
    ensures b.ToggleColor(c, {k, r, k', r'}).TogglePiece(Man(c, Rook), {r, r'})
      .TogglePiece(Man(c, King), {k, k'}).Match(t)
  {
    var b1 := b.ToggleColor(c, {k, r, k', r'});
    var b' := b1.TogglePiece(Man(c, Rook), {r, r'}).TogglePiece(Man(c, King), {k, k'});
    CastlingColors(b, s, t, c, k, r, k', r');
    forall v: Cell | v != Empty
      ensures v in b'.pieces && b'.pieces[v] == OfCell(t, v)
    {
      CastlingPiece(s, t, c, k, r, k', r', v);
      hide OfCell;
      hide OfColor;
      hide Xor;
    }
    hide OfCell;
    hide OfColor;
  }

  lemma CastlingColors(b: PieceBoards, s: Cells, t: Cells, c: Color, k: Coord, r: Coord, k': Coord, r': Coord)
    requires b.Match(s) && |{k, r, k', r'}| == 4
    requires forall i: Coord :: i !in {k, r, k', r'} ==> s[i] == t[i]
    requires CastlingShape(s, c, k, r, k', r') && CastlingShape(t, c, k', r', k, r)
    ensures var b' := b.ToggleColor(c, {k, r, k', r'}); b'.white == OfColor(t, White) && b'.black == OfColor(t, Black)
  {}

  lemma CastlingPiece(s: Cells, t: Cells, c: Color, k: Coord, r: Coord, k': Coord, r': Coord, v: Cell)
    requires |{k, r, k', r'}| == 4 && v != Empty
    requires forall i: Coord :: i !in {k, r, k', r'} ==> s[i] == t[i]
    requires CastlingShape(s, c, k, r, k', r') && CastlingShape(t, c, k', r', k, r)
    ensures OfCell(t, v) ==
      if v == Man(c, Rook) then Xor(OfCell(s, v), {r, r'})
      else if v == Man(c, King) then Xor(OfCell(s, v), {k, k'})
      else OfCell(s, v)
  {}

  lemma TwoToggles(b: PieceBoards, c: Color, bb: Bitboard, v: Cell, x: Bitboard, w: Cell, y: Bitboard)
    requires b.Total()
    ensures var b' := b.ToggleColor(c, bb).TogglePiece(v, x).TogglePiece(w, y);
      && b'.Total()
      && b'.Color(c) == Xor(b.Color(c), bb) && b'.Color(c.Invert()) == b.Color(c.Invert())
      && forall u: Cell :: b'.pieces[u] == Xor(Xor(b.pieces[u], if u == v then x else {}), if u == w then y else {})
  {}

  lemma MatchIsTotal(b: PieceBoards, s: Cells)
    requires b.Match(s)
    ensures b.Total()
  {}

  lemma MatchByColor(b: PieceBoards, s: Cells, c: Color)
    ensures b.Match(s) <==>
      && b.Color(c) == OfColor(s, c) && b.Color(c.Invert()) == OfColor(s, c.Invert())
      && forall v: Cell :: v in b.pieces && b.pieces[v] == if v == Empty then {} else OfCell(s, v)
  {}

  lemma StepColors(s: Cells, c: Color, src: Coord, dst: Coord, v: Cell)
    requires src != dst && IsOwn(s, c, src) && !IsOwn(s, c, dst) && v.Man? && v.color == c
    ensures var t := s[src := Empty][dst := v];
      OfColor(t, c) == Xor(OfColor(s, c), {src, dst}) && OfColor(t, c.Invert()) == OfColor(s, c.Invert()) - {dst}
  {}

  /** The bitboard of one man after a man of `c` has gone from `src` to `dst`. */
  lemma StepSet(s: Cells, c: Color, src: Coord, dst: Coord, v: Cell, u: Cell)
    requires src != dst && IsOwn(s, c, src) && !IsOwn(s, c, dst) && v.Man? && v.color == c
    requires u != Empty
    ensures OfCell(s[src := Empty][dst := v], u) ==
      var moved := Xor(Xor(OfCell(s, u), if u == s[src] then {src} else {}), if u == v then {dst} else {});
      if u == s[dst] then OfCell(s, u) - {dst} else moved
    ensures u == s[dst] ==> u != s[src] && u != v
  {}

  lemma StepPiece(b: PieceBoards, s: Cells, c: Color, src: Coord, dst: Coord, v: Cell, u: Cell)
    requires b.Match(s) && src != dst && IsOwn(s, c, src) && !IsOwn(s, c, dst) && v.Man? && v.color == c
    ensures var b' := b.ToggleColor(c, {src, dst}).TogglePiece(s[src], {src}).TogglePiece(v, {dst})
                       .Clear(c.Invert(), s[dst], {dst});
      u in b'.pieces && b'.pieces[u] == if u == Empty then {} else OfCell(s[src := Empty][dst := v], u)
  {
    MatchIsTotal(b, s);
    assert u in b.pieces && b.pieces[u] == if u == Empty then {} else OfCell(s, u);
    hide OfColor;
    hide OfCell;
    hide Xor;
    hide PieceBoards.Match;
    hide PieceBoards.ToggleColor;
    hide PieceBoards.TogglePiece;
    TwoToggles(b, c, {src, dst}, s[src], {src}, v, {dst});
    NoToggles();
    if u != Empty {
      StepSet(s, c, src, dst, v, u);
    }
  }

  /** A man of `c` goes from `src` to `dst`, becoming `v`, and takes what stood there. */
  lemma StepMatch(b: PieceBoards, s: Cells, c: Color, src: Coord, dst: Coord, v: Cell)
    requires b.Match(s) && src != dst && IsOwn(s, c, src) && !IsOwn(s, c, dst) && v.Man? && v.color == c
    ensures b.ToggleColor(c, {src, dst}).TogglePiece(s[src], {src}).TogglePiece(v, {dst})
             .Clear(c.Invert(), s[dst], {dst}).Match(s[src := Empty][dst := v])
  {
    var b' := b.ToggleColor(c, {src, dst}).TogglePiece(s[src], {src}).TogglePiece(v, {dst})
      .Clear(c.Invert(), s[dst], {dst});
    var t: Cells := s[src := Empty][dst := v];
    StepColors(s, c, src, dst, v);
    MatchByColor(b, s, c);
    assert b'.Color(c) == OfColor(t, c) && b'.Color(c.Invert()) == OfColor(t, c.Invert()) by {
      hide OfColor;
      hide OfCell;
    }
    hide OfColor;
    hide OfCell;
    hide PieceBoards.Match;
    hide PieceBoards.ToggleColor;
    hide PieceBoards.TogglePiece;
    hide PieceBoards.Clear;
    hide PieceBoards.Color;
    forall u: Cell
      ensures u in b'.pieces && b'.pieces[u] == if u == Empty then {} else OfCell(t, u)
    {
      StepPiece(b, s, c, src, dst, v, u);
    }
    MatchByColor(b', t, c);
  }

  lemma StepBackColors(s: Cells, c: Color, src: Coord, dst: Coord, v: Cell, taken: Cell)
    requires src != dst && IsOwn(s, c, dst) && s[src] == Empty && v.Man? && v.color == c
    requires taken == Empty || taken.color == c.Invert()
    ensures var t := s[src := v][dst := taken];
      && OfColor(t, c) == Xor(OfColor(s, c), {src, dst})
      && OfColor(t, c.Invert()) == OfColor(s, c.Invert()) + if taken == Empty then {} else {dst}
  {}

  lemma StepBackPiece(b: PieceBoards, s: Cells, c: Color, src: Coord, dst: Coord, v: Cell, taken: Cell, u: Cell)
    requires b.Match(s) && src != dst && IsOwn(s, c, dst) && s[src] == Empty && v.Man? && v.color == c
    requires taken == Empty || taken.color == c.Invert()
    ensures var b1 := b.ToggleColor(c, {src, dst}).TogglePiece(v, {src}).TogglePiece(s[dst], {dst});
      var b' := if taken == Empty then b1 else b1.Insert(c.Invert(), taken, {dst});
      u in b'.pieces && b'.pieces[u] == if u == Empty then {} else OfCell(s[src := v][dst := taken], u)
  {
    MatchIsTotal(b, s);
    assert u in b.pieces && b.pieces[u] == if u == Empty then {} else OfCell(s, u);
    hide OfColor;
    hide OfCell;
    hide Xor;
    hide PieceBoards.Match;
    hide PieceBoards.ToggleColor;
    hide PieceBoards.TogglePiece;
    TwoToggles(b, c, {src, dst}, v, {src}, s[dst], {dst});
    if u == Empty {
      NoToggles();
    } else {
      StepBackSet(s, c, src, dst, v, taken, u);
    }
  }

  lemma NoToggles()
    ensures forall bb: Bitboard :: Xor(bb, {}) == bb
  {}

  lemma StepBackSet(s: Cells, c: Color, src: Coord, dst: Coord, v: Cell, taken: Cell, u: Cell)
    requires src != dst && IsOwn(s, c, dst) && s[src] == Empty && v.Man? && v.color == c
    requires taken == Empty || taken.color == c.Invert()
    requires u != Empty
    ensures OfCell(s[src := v][dst := taken], u) ==
      var moved := Xor(Xor(OfCell(s, u), if u == v then {src} else {}), if u == s[dst] then {dst} else {});
      if u == taken then moved + {dst} else moved
  {}

  /** Undoing a step gives back the bitboards before it. */
  lemma StepBackMatch(b: PieceBoards, s: Cells, c: Color, src: Coord, dst: Coord, v: Cell, taken: Cell)
    requires b.Match(s) && src != dst && IsOwn(s, c, dst) && s[src] == Empty && v.Man? && v.color == c
    requires taken == Empty || taken.color == c.Invert()
    ensures var b' := b.ToggleColor(c, {src, dst}).TogglePiece(v, {src}).TogglePiece(s[dst], {dst});
      (if taken == Empty then b' else b'.Insert(c.Invert(), taken, {dst})).Match(s[src := v][dst := taken])
  {
    var b1 := b.ToggleColor(c, {src, dst}).TogglePiece(v, {src}).TogglePiece(s[dst], {dst});
    var b' := if taken == Empty then b1 else b1.Insert(c.Invert(), taken, {dst});
    var t: Cells := s[src := v][dst := taken];
    StepBackColors(s, c, src, dst, v, taken);
    MatchByColor(b, s, c);
    assert b'.Color(c) == OfColor(t, c) && b'.Color(c.Invert()) == OfColor(t, c.Invert()) by {
      hide OfColor;
      hide OfCell;
    }
    hide OfColor;
    hide OfCell;
    hide PieceBoards.Match;
    hide PieceBoards.ToggleColor;
    hide PieceBoards.TogglePiece;
    hide PieceBoards.Insert;
    hide PieceBoards.Color;
    forall u: Cell
      ensures u in b'.pieces && b'.pieces[u] == if u == Empty then {} else OfCell(t, u)
    {
      StepBackPiece(b, s, c, src, dst, v, taken, u);
    }
    MatchByColor(b', t, c);
  }

  /** Toggling one man in two places at once is toggling it in each. */
  lemma ToggleTwice(b: PieceBoards, v: Cell, i: Coord, j: Coord)
    requires i != j
    ensures b.TogglePiece(v, {i}).TogglePiece(v, {j}) == b.TogglePiece(v, {i, j})
  {
    if v in b.pieces {
      assert Xor(Xor(b.pieces[v], {i}), {j}) == Xor(b.pieces[v], {i, j});
    }
  }

  /** A step of one man onto an empty cell. */
  lemma QuietStepMatch(b: PieceBoards, s: Cells, c: Color, src: Coord, dst: Coord)
    requires b.Match(s) && src != dst && IsOwn(s, c, src) && s[dst] == Empty
    ensures b.ToggleColor(c, {src, dst}).TogglePiece(s[src], {src, dst}).Match(s[src := Empty][dst := s[src]])
  {
    StepMatch(b, s, c, src, dst, s[src]);
    var b1 := b.ToggleColor(c, {src, dst});
    ToggleTwice(b1, s[src], src, dst);
    var b2 := b1.TogglePiece(s[src], {src, dst});
    assert b2.Clear(c.Invert(), Empty, {dst}).white == b2.white;
    assert b2.Clear(c.Invert(), Empty, {dst}).black == b2.black;
    assert b2.Clear(c.Invert(), Empty, {dst}).pieces == b2.pieces;
  }

  lemma ToggleOneMatch(b: PieceBoards, s: Cells, i: Coord, v: Cell)
    requires b.Match(s) && v.Man? && (s[i] == v || s[i] == Empty)
    ensures b.ToggleColor(v.color, {i}).TogglePiece(v, {i}).Match(s[i := if s[i] == v then Empty else v])
  {
    var t := s[i := if s[i] == v then Empty else v];
    var b' := b.ToggleColor(v.color, {i}).TogglePiece(v, {i});
    assert b'.white == OfColor(t, White) && b'.black == OfColor(t, Black);
    forall u: Cell | u != Empty
      ensures u in b'.pieces && b'.pieces[u] == OfCell(t, u)
    {
      if u != v {
        assert OfCell(t, u) == OfCell(s, u);
      }
    }
  }

  function BeforeKingside(s: Cells, c: Color): Cells {
    var off := CastlingOffset(c);
    s[off + 4 := Man(c, King)][off + 5 := Empty][off + 6 := Empty][off + 7 := Man(c, Rook)]
  }

  function BeforeQueenside(s: Cells, c: Color): Cells {
    var off := CastlingOffset(c);
    s[off := Man(c, Rook)][off + 2 := Empty][off + 3 := Empty][off + 4 := Man(c, King)]
  }

  lemma KingsideMatch(b: PieceBoards, s: Cells, c: Color, inverse: bool)
    requires b.Match(s)
    requires var off := CastlingOffset(c);
      if inverse then CastlingShape(s, c, off + 6, off + 5, off + 4, off + 7)
      else CastlingShape(s, c, off + 4, off + 7, off + 6, off + 5)
    ensures b.CastleKingside(c).Match(if inverse then BeforeKingside(s, c) else AfterKingside(s, c))
  {
    var off := CastlingOffset(c);
    assert {off + 7, off + 5} == {off + 5, off + 7} && {off + 6, off + 4} == {off + 4, off + 6};
    if inverse {
      assert {off + 6, off + 5, off + 4, off + 7} == {off + 4, off + 5, off + 6, off + 7};
      CastlingMatch(b, s, BeforeKingside(s, c), c, off + 6, off + 5, off + 4, off + 7);
    } else {
      assert {off + 4, off + 7, off + 6, off + 5} == {off + 4, off + 5, off + 6, off + 7};
      CastlingMatch(b, s, AfterKingside(s, c), c, off + 4, off + 7, off + 6, off + 5);
    }
  }

  lemma QueensideMatch(b: PieceBoards, s: Cells, c: Color, inverse: bool)
    requires b.Match(s)
    requires var off := CastlingOffset(c);
      if inverse then CastlingShape(s, c, off + 2, off + 3, off + 4, off)
      else CastlingShape(s, c, off + 4, off, off + 2, off + 3)
    ensures b.CastleQueenside(c).Match(if inverse then BeforeQueenside(s, c) else AfterQueenside(s, c))
  {
    var off := CastlingOffset(c);
    assert {off + 3, off} == {off, off + 3} && {off + 4, off + 2} == {off + 2, off + 4};
    if inverse {
      assert {off + 2, off + 3, off + 4, off} == {off, off + 2, off + 3, off + 4};
      CastlingMatch(b, s, BeforeQueenside(s, c), c, off + 2, off + 3, off + 4, off);
    } else {
      assert {off + 4, off, off + 2, off + 3} == {off, off + 2, off + 3, off + 4};
      CastlingMatch(b, s, AfterQueenside(s, c), c, off + 4, off, off + 2, off + 3);
    }
  }

  /** A capturing or quiet step of a man that stays what it is. */
  lemma SimpleStepMatch(b: PieceBoards, s: Cells, c: Color, src: Coord, dst: Coord)
    requires b.Match(s) && src != dst && IsOwn(s, c, src) && !IsOwn(s, c, dst)
    ensures b.ToggleColor(c, {src, dst}).TogglePiece(s[src], {src, dst}).Clear(c.Invert(), s[dst], {dst})
             .Match(s[src := Empty][dst := s[src]])
  {
    StepMatch(b, s, c, src, dst, s[src]);
    ToggleTwice(b.ToggleColor(c, {src, dst}), s[src], src, dst);
  }

  /** En passant is a quiet step and the removal of one enemy pawn; undoing it is the same. */
  lemma EnpassantMatch(b: PieceBoards, s: Cells, c: Color, src: Coord, dst: Coord, taken: Coord)
    requires b.Match(s) && src != dst && src != taken && dst != taken
    requires s[src] == Man(c, Pawn) && s[dst] == Empty
    requires s[taken] == Man(c.Invert(), Pawn) || s[taken] == Empty
    ensures b.ToggleColor(c, {src, dst}).TogglePiece(Man(c, Pawn), {src, dst})
             .ToggleColor(c.Invert(), {taken}).TogglePiece(Man(c.Invert(), Pawn), {taken})
             .Match(s[src := Empty][dst := s[src]]
                     [taken := if s[taken] == Empty then Man(c.Invert(), Pawn) else Empty])
  {
    QuietStepMatch(b, s, c, src, dst);
    ToggleOneMatch(b.ToggleColor(c, {src, dst}).TogglePiece(s[src], {src, dst}),
      s[src := Empty][dst := s[src]], taken, Man(c.Invert(), Pawn));
  }

  // ---- Boards read cell by cell ----

  lemma BitsAfterPush(b: PieceBoards, s: Cells, cell: Coord, v: Cell)
    requires b.Match(s) && s[cell] == Empty && v.Man?
    ensures b.Insert(v.color, v, {cell}).Match(s[cell := v])
    ensures Occupied(s) + {cell} == Occupied(s[cell := v])
  {
    var t := s[cell := v];
    assert forall c: Color :: OfColor(t, c) == if c == v.color then OfColor(s, c) + {cell} else OfColor(s, c);
    assert forall w: Cell :: w.Man? ==> OfCell(t, w) == if w == v then OfCell(s, w) + {cell} else OfCell(s, w);
  }

  /** The board of which only the first `n` cells have been read. */
  function Prefix(s: Cells, n: nat): Cells {
    seq(64, i requires 0 <= i < 64 => if i < n then s[i] else Empty)
  }

  /** One more cell is read; if it is empty, nothing changes. */
  lemma PrefixStep(s: Cells, n: nat)
    requires n < 64
    ensures Prefix(s, n)[n] == Empty && Prefix(s, n + 1) == Prefix(s, n)[n := s[n]]
    ensures s[n].Man? ==> |OfCell(Prefix(s, n), s[n])| < |OfCell(s, s[n])|
    ensures s[n] == Empty ==> Prefix(s, n + 1) == Prefix(s, n)
  {
    if s[n].Man? {
      SubsetCardinality(OfCell(Prefix(s, n), s[n]), OfCell(s, s[n]) - {n});
    }
  }

  lemma EmptyBits(s: Cells)
    ensures PieceBoards({}, {}, map v: Cell | v in ALL_CELLS :: {}).Match(Prefix(s, 0)) && Occupied(Prefix(s, 0)) == {}
  {
    forall v: Cell
      ensures v in ALL_CELLS
    {
      AllCells(v);
    }
  }

  lemma PrefixOfAll(s: Cells)
    ensures Prefix(s, 64) == s
  {}
}

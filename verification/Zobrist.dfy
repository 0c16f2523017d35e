/** Zobrist hashing. The keys are arbitrary, except that the key of an empty cell is zero. */
module Zobrist {
  import opened Types
  import opened Rules

  /** A 64-bit word, seen like a bitboard as the set of its one bits. */
  type Hash = Bitboard

  datatype Keys = Keys(
    piece: (Cell, Coord) -> Hash,
    moveSide: Hash,
    castling: set<CastlingFlag> -> Hash,
    enpassant: Coord -> Hash)
  {
    ghost predicate Ok() {
      forall c: Coord :: piece(Empty, c) == {}
    }

    /** Combined key of the four men that castling puts or takes on the king's side. */
    function PieceCastlingKingside(c: Color): Hash {
      var off, king, rook := CastlingOffset(c), Man(c, King), Man(c, Rook);
      Xor(Xor(Xor(piece(king, off + 4), piece(rook, off + 5)), piece(king, off + 6)), piece(rook, off + 7))
    }

    function PieceCastlingQueenside(c: Color): Hash {
      var off, king, rook := CastlingOffset(c), Man(c, King), Man(c, Rook);
      Xor(Xor(Xor(piece(rook, off), piece(king, off + 2)), piece(rook, off + 3)), piece(king, off + 4))
    }
  }

  function CellKey(keys: Keys, v: Cell, i: Coord): (h: Hash)
    ensures keys.Ok() ==> h == keys.piece(v, i)
  {
    if v == Empty then {} else keys.piece(v, i)
  }

  /** Hash of the men on the first `n` cells. */
  function HashCells(keys: Keys, s: Cells, n: nat): Hash
    requires n <= 64
  {
    if n == 0 then {} else Xor(HashCells(keys, s, n - 1), CellKey(keys, s[n - 1], n - 1))
  }

  function HashFlags(keys: Keys, side: Color, castling: set<CastlingFlag>, enpassant: EnpassantCoord): Hash {
    Xor(
      Xor(if side.White? then {} else keys.moveSide,
          if enpassant == -1 then {} else keys.enpassant(enpassant)),
      keys.castling(castling))
  }

  /** The hash of a position, computed from scratch. */
  function HashOf(keys: Keys, p: Position): Hash {
    Xor(HashFlags(keys, p.side, p.castling, p.enpassant), HashCells(keys, p.cells, 64))
  }

  /** Changing one cell changes the hash by the keys of the old and the new man. */
  lemma {:induction false} HashCellsUpdate(keys: Keys, s: Cells, i: Coord, v: Cell, n: nat)
    requires n <= 64
    ensures HashCells(keys, s[i := v], n) ==
      if i < n then Xor(HashCells(keys, s, n), Xor(CellKey(keys, s[i], i), CellKey(keys, v, i)))
      else HashCells(keys, s, n)
  {
    if n != 0 {
      HashCellsUpdate(keys, s, i, v, n - 1);
    }
  }

  lemma HashAfterStep(keys: Keys, s: Cells, src: Coord, dst: Coord, v: Cell)
    requires keys.Ok() && src != dst
    ensures HashCells(keys, s[src := Empty][dst := v], 64) ==
      Xor(HashCells(keys, s, 64), Xor(Xor(keys.piece(s[src], src), keys.piece(v, dst)), keys.piece(s[dst], dst)))
  {
    HashCellsUpdate(keys, s, src, Empty, 64);
    HashCellsUpdate(keys, s[src := Empty], dst, v, 64);
  }

  lemma HashAfterEnpassant(keys: Keys, s: Cells, src: Coord, dst: Coord, taken: Coord)
    requires keys.Ok() && src != dst && src != taken && dst != taken && s[dst] == Empty
    ensures HashCells(keys, s[src := Empty][dst := s[src]][taken := Empty], 64) ==
      Xor(HashCells(keys, s, 64),
        Xor(Xor(keys.piece(s[src], src), keys.piece(s[src], dst)), keys.piece(s[taken], taken)))
  {
    HashAfterStep(keys, s, src, dst, s[src]);
    HashCellsUpdate(keys, s[src := Empty][dst := s[src]], taken, Empty, 64);
  }

  lemma HashAfterKingside(keys: Keys, s: Cells, c: Color)
    requires keys.Ok()
    requires var off := CastlingOffset(c);
      s[off + 4] == Man(c, King) && s[off + 7] == Man(c, Rook) && s[off + 5] == s[off + 6] == Empty
    ensures HashCells(keys, AfterKingside(s, c), 64) == Xor(HashCells(keys, s, 64), keys.PieceCastlingKingside(c))
  {
    var off := CastlingOffset(c);
    HashCellsUpdate(keys, s, off + 4, Empty, 64);
    var s1 := s[off + 4 := Empty];
    HashCellsUpdate(keys, s1, off + 5, Man(c, Rook), 64);
    var s2 := s1[off + 5 := Man(c, Rook)];
    HashCellsUpdate(keys, s2, off + 6, Man(c, King), 64);
    var s3 := s2[off + 6 := Man(c, King)];
    HashCellsUpdate(keys, s3, off + 7, Empty, 64);
  }

  lemma HashAfterQueenside(keys: Keys, s: Cells, c: Color)
    requires keys.Ok()
    requires var off := CastlingOffset(c);
      s[off + 4] == Man(c, King) && s[off] == Man(c, Rook) && s[off + 2] == s[off + 3] == Empty
    ensures HashCells(keys, AfterQueenside(s, c), 64) == Xor(HashCells(keys, s, 64), keys.PieceCastlingQueenside(c))
  {
    var off := CastlingOffset(c);
    HashCellsUpdate(keys, s, off, Empty, 64);
    var s1 := s[off := Empty];
    HashCellsUpdate(keys, s1, off + 2, Man(c, King), 64);
    var s2 := s1[off + 2 := Man(c, King)];
    HashCellsUpdate(keys, s2, off + 3, Man(c, Rook), 64);
    var s3 := s2[off + 3 := Man(c, Rook)];
    HashCellsUpdate(keys, s3, off + 4, Empty, 64);
  }

  /** A change of the cells changes the whole hash by the same word. */
  lemma HashOfCells(keys: Keys, p: Position, t: Cells, delta: Hash)
    requires HashCells(keys, t, 64) == Xor(HashCells(keys, p.cells, 64), delta)
    ensures HashOf(keys, p.(cells := t)) == Xor(HashOf(keys, p), delta)
  {}

  lemma HashOfCastling(keys: Keys, p: Position, castling: set<CastlingFlag>)
    ensures HashOf(keys, p.(castling := castling))
      == Xor(Xor(HashOf(keys, p), keys.castling(p.castling)), keys.castling(castling))
  {}

  lemma HashOfTurn(keys: Keys, p: Position)
    ensures HashOf(keys, p.(side := p.side.Invert())) == Xor(HashOf(keys, p), keys.moveSide)
  {}
}

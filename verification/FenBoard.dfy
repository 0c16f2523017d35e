/** Writing a board as text and setting a board from text. The loops do what the text form says. */
module FenBoard {
  import opened Types
  import opened Rules
  import opened Boards
  import opened Runs
  import opened Fen

  lemma RowTextSplit(s: Cells, x: nat, j: nat, empty: nat, fen: string)
    requires x < 8 && empty <= j < 8
    ensures fen + RowText(s, x, j, empty) ==
      if s[8 * x + j] == Empty then fen + RowText(s, x, j + 1, empty + 1)
      else fen + Pending(empty) + [CellToChar(s[8 * x + j])] + RowText(s, x, j + 1, 0)
  {
    hide Pending;
    hide CellToChar;
  }

  /** Text of one row, behind what is already written. */
  method WriteRow(s: Cells, x: nat, before: string) returns (fen: string)
    requires x < 8
    ensures fen == before + RowText(s, x, 0, 0)
  {
    hide CellToChar;
    fen := before;
    var empty: nat := 0;
    for j := 0 to 8
      invariant empty <= j && fen + RowText(s, x, j, empty) == before + RowText(s, x, 0, 0)
    {
      ghost var written := fen;
      RowTextSplit(s, x, j, empty, written);
      hide RowText;
      var cur := s[8 * x + j];
      if cur == Empty {
        empty := empty + 1;
        continue;
      }
      if empty != 0 {
        fen := fen + [Digit(empty)];
      }
      assert fen == written + Pending(empty);
      empty := 0;
      fen := fen + [CellToChar(cur)];
    }
    if empty != 0 {
      fen := fen + [Digit(empty)];
    }
  }

  method WriteRows(s: Cells) returns (fen: string)
    ensures fen == RowsText(s, 0)
  {
    hide RowText;
    fen := "";
    for i := 0 to 8
      invariant fen + RowsText(s, i) == RowsText(s, 0)
    {
      if i != 0 {
        fen := fen + "/";
      }
      fen := WriteRow(s, i, fen);
    }
  }

  method AsFen(b: Board) returns (fen: string)
    requires b.Shape()
    ensures fen == FenText(b.Pos()) && |fen| < 120
  {
    hide RowsText;
    hide FenText;
    hide CastlingText;
    hide EnpassantText;
    hide Digits;
    ghost var p := b.Pos();
    fen := WriteRows(b.cells[..]);
    FenFits(p);
    FenInOrder(p, fen, CastlingText(p.castling), EnpassantText(p.side, p.enpassant),
      Digits(p.moveCounter), Digits(p.moveNumber));
    fen := fen + " " + [SideToChar(b.side)] + " " + CastlingText(b.castling) + " " +
      EnpassantText(b.side, b.enpassantCoord) + " " + Digits(b.moveCounter) + " " + Digits(b.moveNumber);
  }

  /** Reads the cells. The write position is always the cell at row `x` and column `y`, so it stays
      inside the board and is 64 at the end. */
  method ReadCells(b: Board, fen: string) returns (r: FenParseResult, rest: string)
    requires b.Shape()
    modifies b.cells
    ensures var scan := ScanCells(fen, 0, 0, []);
      if scan.Yes? then r == FenOk && b.cells[..] == scan.value && rest == scan.rest else r == scan.error != FenOk
  {
    var x, y, cur := 0, 0, 0;
    rest := fen;
    while true
      invariant 0 <= x < 8 && 0 <= y <= 8 && cur == 8 * x + y
      invariant ScanCells(rest, x, y, b.cells[..cur]) == ScanCells(fen, 0, 0, [])
      decreases |rest|
    {
      var c := Head(rest);
      ghost var acc := b.cells[..cur];
      if '1' <= c <= '8' {
        var add := c as int - '0' as int;
        if y + add > 8 {
          return BoardRowOverflow, rest;
        }
        for i := 0 to add
          invariant cur == 8 * x + y + i && b.cells[..cur] == acc + Blank(i)
        {
          b.cells[cur] := Empty;
          cur := cur + 1;
        }
        y := y + add;
        rest := Tail(rest);
        continue;
      }
      if c == '/' {
        if y != 8 {
          return BoardRowUnderflow, rest;
        }
        if x + 1 >= 8 {
          return BoardTooManyRows, rest;
        }
        x, y := x + 1, 0;
        rest := Tail(rest);
        continue;
      }
      if c == ' ' {
        if y != 8 {
          return BoardRowUnderflow, rest;
        }
        if x != 7 {
          return BoardNotEnoughRows, rest;
        }
        assert cur == 64;
        return FenOk, Tail(rest);
      }
      if y >= 8 {
        return BoardRowOverflow, rest;
      }
      var cell := CharToCell(c);
      if cell == Empty {
        return UnexpectedCharacter, rest;
      }
      b.cells[cur] := cell;
      cur, y := cur + 1, y + 1;
      assert b.cells[..cur] == acc + [cell];
      rest := Tail(rest);
    }
  }

  method ReadCastling(b: Board, fen: string) returns (r: FenParseResult, rest: string)
    modifies b`castling
    ensures var scan := ScanCastling(fen);
      if scan.Yes? then r == FenOk && b.castling == scan.value && rest == scan.rest else r == scan.error != FenOk
  {
    b.castling := {};
    rest := fen;
    if Head(rest) == '-' {
      rest := Tail(rest);
      if Head(rest) != ' ' {
        return ExpectedSpace, rest;
      }
      return FenOk, Tail(rest);
    }
    var hasCastling := false;
    while true
      invariant ScanFlags(rest, b.castling, hasCastling) == ScanFlags(fen, {}, false)
      decreases |rest|
    {
      var c := Head(rest);
      if IsFlagChar(c) {
        if CharToFlag(c) in b.castling {
          return CastlingDuplicate, rest;
        }
        b.castling := b.castling + {CharToFlag(c)};
        hasCastling := true;
        rest := Tail(rest);
        continue;
      }
      if c == ' ' {
        return if hasCastling then FenOk else CastlingFieldMissing, Tail(rest);
      }
      return UnexpectedCharacter, rest;
    }
  }

  /** Any text either sets the board to what it stands for, with every auxiliary field recomputed, or is
      refused for the first thing that is wrong. */
  method SetFromFen(b: Board, fen: string) returns (r: FenParseResult)
    requires b.Shape()
    modifies b, b.cells
    ensures var scan := ParseFen(fen);
      if scan.Yes? then r == FenOk && b.Consistent() && b.Pos() == Normalized(scan.value) else r == scan.error
  {
    hide ScanCells;
    hide ScanCastling;
    hide ScanUint16;
    hide SkipSpaces;
    hide Normalized;
    hide Board.Consistent;
    var rest;
    r, rest := ReadCells(b, fen);
    if r != FenOk {
      return;
    }
    var side := ScanSide(rest);
    if side.No? {
      return side.error;
    }
    b.side := side.value;
    r, rest := ReadCastling(b, side.rest);
    if r != FenOk {
      return;
    }
    var enpassant := ScanSpace(ScanEnpassant(rest, b.side));
    if enpassant.No? {
      return enpassant.error;
    }
    b.enpassantCoord := enpassant.value;
    var counter := ScanSpace(ScanUint16(enpassant.rest));
    if counter.No? {
      return counter.error;
    }
    b.moveCounter := counter.value;
    var number := ScanUint16(counter.rest);
    if number.No? {
      return number.error;
    }
    b.moveNumber := number.value;
    if SkipSpaces(number.rest) != "" {
      return RedundantData;
    }
    b.Update();
  }

  /** Setting another board from the text of a consistent one gives the same board in every field. */
  method CopyByFen(b: Board, c: Board)
    requires b.Consistent() && c.Shape() && c.keys == b.keys && c != b && c.cells != b.cells
    modifies c, c.cells
    ensures c.Consistent() && c.Pos() == b.Pos() && c.Aux() == b.Aux()
  {
    var fen := AsFen(b);
    FenRoundTrip(b.Pos());
    SettledIsNormal(b.Pos());
    hide ParseFen;
    hide FenText;
    hide Normalized;
    hide Settled;
    var r := SetFromFen(c, fen);
    SamePosSameAux(b, c);
  }
}

/** The text form of a board (Forsyth-Edwards Notation, section 16.1 of the PGN standard): what is
    written, what is read, and that reading back gives the same board. */
module Fen {
  import opened Types
  import opened Rules

  datatype FenParseResult =
    | FenOk
    | ExpectedSpace
    | ExpectedUint16
    | UnexpectedCharacter
    | BoardRowOverflow
    | BoardRowUnderflow
    | BoardNotEnoughRows
    | BoardTooManyRows
    | CastlingDuplicate
    | CastlingFieldMissing
    | EnpassantInvalidCell
    | RedundantData

  /** A value and the text behind it, or what is wrong. */
  datatype Parsed<+T> = Yes(value: T, rest: string) | No(error: FenParseResult)

  const EOS: char := '\0'

  /** The next character of a text that ends with a zero. */
  function Head(s: string): char { if s == "" then EOS else s[0] }

  function Tail(s: string): string { if s == "" then "" else s[1..] }

  // ---- Characters ----

  function CellToChar(v: Cell): char {
    match v
    case Empty => '.'
    case Man(White, piece) =>
      (match piece
       case Pawn => 'P'
       case King => 'K'
       case Knight => 'N'
       case Bishop => 'B'
       case Rook => 'R'
       case Queen => 'Q')
    case Man(Black, piece) =>
      (match piece
       case Pawn => 'p'
       case King => 'k'
       case Knight => 'n'
       case Bishop => 'b'
       case Rook => 'r'
       case Queen => 'q')
  }

  function AsciiToLower(c: char): char {
    if 'A' <= c <= 'Z' then c - 'A' + 'a' else c
  }

  /** The man that a letter stands for, if any. */
  function CharToCell(c: char): (v: Cell) {
    var lowC := AsciiToLower(c);
    var color := if c == lowC then Black else White;
    if lowC == 'p' then Man(color, Pawn)
    else if lowC == 'k' then Man(color, King)
    else if lowC == 'n' then Man(color, Knight)
    else if lowC == 'b' then Man(color, Bishop)
    else if lowC == 'r' then Man(color, Rook)
    else if lowC == 'q' then Man(color, Queen)
    else Empty
  }

  lemma CharRoundTrip(v: Cell)
    requires v.Man?
    ensures CharToCell(CellToChar(v)) == v
    ensures var c := CellToChar(v); !('1' <= c <= '8') && c != '/' && c != ' '
  {}

  function Digit(n: nat): char
    requires n < 10
  {
    '0' + n as char
  }

  // ---- Cells ----

  function Blank(n: nat): (r: seq<Cell>)
    ensures |r| == n && forall i :: 0 <= i < n ==> r[i] == Empty
  {
    seq(n, _ => Empty)
  }

  function Pending(empty: nat): string
    requires empty < 10
  {
    if empty == 0 then "" else [Digit(empty)]
  }

  /** The text of row `x` from column `j` on, when `empty` empty cells before it are not written yet. */
  function RowText(s: Cells, x: nat, j: nat, empty: nat): (t: string)
    requires x < 8 && empty <= j <= 8
    ensures |t| <= 8 - j + (if empty == 0 then 0 else 1)
    decreases 8 - j
  {
    if j == 8 then Pending(empty)
    else if s[8 * x + j] == Empty then RowText(s, x, j + 1, empty + 1)
    else Pending(empty) + [CellToChar(s[8 * x + j])] + RowText(s, x, j + 1, 0)
  }

  function RowsText(s: Cells, x: nat): (t: string)
    requires x <= 8
    ensures |t| <= 9 * (8 - x)
    decreases 8 - x
  {
    if x == 8 then "" else (if x == 0 then "" else "/") + RowText(s, x, 0, 0) + RowsText(s, x + 1)
  }

  /** Reads the cells. `acc` are those before column `y` of row `x`. */
  function ScanCells(s: string, x: nat, y: nat, acc: seq<Cell>): (r: Parsed<Cells>)
    requires x < 8 && y <= 8 && |acc| == 8 * x + y
    ensures r.No? ==> r.error != FenOk
    decreases |s|
  {
    var c := Head(s);
    if '1' <= c <= '8' then
      var add := c as int - '0' as int;
      if y + add > 8 then No(BoardRowOverflow) else ScanCells(Tail(s), x, y + add, acc + Blank(add))
    else if c == '/' then
      if y != 8 then No(BoardRowUnderflow)
      else if x + 1 >= 8 then No(BoardTooManyRows)
      else ScanCells(Tail(s), x + 1, 0, acc)
    else if c == ' ' then
      if y != 8 then No(BoardRowUnderflow)
      else if x != 7 then No(BoardNotEnoughRows)
      else Yes(acc, Tail(s))
    else if y >= 8 then No(BoardRowOverflow)
    else if CharToCell(c) == Empty then No(UnexpectedCharacter)
    else ScanCells(Tail(s), x, y + 1, acc + [CharToCell(c)])
  }

  lemma HeadTail(c: char, s: string)
    ensures Head([c] + s) == c && Tail([c] + s) == s
  {}

  /** Reading the digit of some empty cells. */
  lemma ScanPending(s: Cells, x: nat, j: nat, empty: nat, rest: string)
    requires x < 8 && empty <= j <= 8 && forall i :: 8 * x + j - empty <= i < 8 * x + j ==> s[i] == Empty
    ensures ScanCells(Pending(empty) + rest, x, j - empty, s[..8 * x + j - empty]) ==
      ScanCells(rest, x, j, s[..8 * x + j])
  {
    if empty > 0 {
      HeadTail(Digit(empty), rest);
      assert s[..8 * x + j - empty] + Blank(empty) == s[..8 * x + j];
    } else {
      assert Pending(empty) + rest == rest;
    }
  }

  lemma ScanLetter(v: Cell, rest: string, x: nat, y: nat, acc: seq<Cell>)
    requires v.Man? && x < 8 && y < 8 && |acc| == 8 * x + y
    ensures ScanCells([CellToChar(v)] + rest, x, y, acc) == ScanCells(rest, x, y + 1, acc + [v])
  {
    CharRoundTrip(v);
    HeadTail(CellToChar(v), rest);
    hide CellToChar;
    hide CharToCell;
  }

  lemma ScanSlash(rest: string, x: nat, acc: seq<Cell>)
    requires x < 7 && |acc| == 8 * x + 8
    ensures ScanCells(['/'] + rest, x, 8, acc) == ScanCells(rest, x + 1, 0, acc)
  {
    HeadTail('/', rest);
  }

  lemma ScanEnd(rest: string, acc: Cells)
    ensures ScanCells([' '] + rest, 7, 8, acc) == Yes(acc, rest)
  {
    HeadTail(' ', rest);
  }

  /** What is written for the rest of a row is read as the rest of that row; the cells from column `y` on
      are empty and not written yet. */
  lemma {:induction false} ScanRow(s: Cells, x: nat, y: nat, j: nat, rest: string)
    requires x < 8 && y <= j <= 8 && forall i :: 8 * x + y <= i < 8 * x + j ==> s[i] == Empty
    ensures ScanCells(RowText(s, x, j, j - y) + rest, x, y, s[..8 * x + y]) == ScanCells(rest, x, 8, s[..8 * x + 8])
    decreases 8 - j
  {
    hide ScanCells;
    hide Pending;
    hide CellToChar;
    if j == 8 {
      ScanPending(s, x, j, j - y, rest);
    } else if s[8 * x + j] == Empty {
      ScanRow(s, x, y, j + 1, rest);
    } else {
      var v := s[8 * x + j];
      var after := RowText(s, x, j + 1, 0) + rest;
      ScanRow(s, x, j + 1, j + 1, rest);
      ScanPending(s, x, j, j - y, [CellToChar(v)] + after);
      assert RowText(s, x, j, j - y) + rest == Pending(j - y) + ([CellToChar(v)] + after);
      assert s[..8 * x + j] + [v] == s[..8 * x + j + 1];
      ScanLetter(v, after, x, j, s[..8 * x + j]);
    }
  }

  lemma RowsTextSplit(s: Cells, x: nat, rest: string)
    requires x <= 8
    ensures RowsText(s, x) + " " + rest ==
      if x == 8 then [' '] + rest
      else if x == 0 then RowText(s, x, 0, 0) + (RowsText(s, x + 1) + " " + rest)
      else ['/'] + (RowText(s, x, 0, 0) + (RowsText(s, x + 1) + " " + rest))
  {
    hide RowText;
  }

  /** The rows from `x` on are read back; before row 0 nothing has been read, later a full row. */
  lemma {:induction false} ScanRows(s: Cells, x: nat, rest: string)
    requires x <= 8
    ensures ScanCells(RowsText(s, x) + " " + rest, if x == 0 then 0 else x - 1, if x == 0 then 0 else 8, s[..8 * x])
      == Yes(s, rest)
    decreases 8 - x
  {
    hide ScanCells;
    hide RowText;
    RowsTextSplit(s, x, rest);
    hide RowsText;
    if x == 8 {
      assert s[..64] == s;
      ScanEnd(rest, s);
    } else {
      var after := RowsText(s, x + 1) + " " + rest;
      ScanRows(s, x + 1, rest);
      ScanRow(s, x, 0, 0, after);
      if x > 0 {
        ScanSlash(RowText(s, x, 0, 0) + after, x - 1, s[..8 * x]);
      }
    }
  }

  // ---- Side and castling ----

  function SideToChar(c: Color): char { if c.White? then 'w' else 'b' }

  function ScanSpace<T>(r: Parsed<T>): Parsed<T> {
    if r.No? then r
    else if Head(r.rest) == ' ' then Yes(r.value, Tail(r.rest))
    else No(ExpectedSpace)
  }

  function ScanSide(s: string): Parsed<Color> {
    if Head(s) == 'w' then ScanSpace(Yes(White, Tail(s)))
    else if Head(s) == 'b' then ScanSpace(Yes(Black, Tail(s)))
    else No(UnexpectedCharacter)
  }

  const FLAGS: seq<CastlingFlag> := [WhiteKingside, WhiteQueenside, BlackKingside, BlackQueenside]

  function FlagToChar(f: CastlingFlag): char {
    match f
    case WhiteKingside => 'K'
    case WhiteQueenside => 'Q'
    case BlackKingside => 'k'
    case BlackQueenside => 'q'
  }

  /** The letters of the flags from number `n` on. */
  function FlagsText(castling: set<CastlingFlag>, n: nat): (t: string)
    requires n <= 4
    ensures |t| <= 4 - n
    decreases 4 - n
  {
    if n == 4 then ""
    else (if FLAGS[n] in castling then [FlagToChar(FLAGS[n])] else "") + FlagsText(castling, n + 1)
  }

  function CastlingText(castling: set<CastlingFlag>): (t: string)
    ensures |t| <= 4
  {
    if castling == {} then "-" else FlagsText(castling, 0)
  }

  predicate IsFlagChar(c: char) { c == 'K' || c == 'Q' || c == 'k' || c == 'q' }

  function CharToFlag(c: char): CastlingFlag
    requires IsFlagChar(c)
  {
    if c == 'K' then WhiteKingside else if c == 'Q' then WhiteQueenside
    else if c == 'k' then BlackKingside else BlackQueenside
  }

  function ScanFlags(s: string, castling: set<CastlingFlag>, hasCastling: bool): (r: Parsed<set<CastlingFlag>>)
    ensures r.No? ==> r.error != FenOk
    decreases |s|
  {
    var c := Head(s);
    if IsFlagChar(c) then
      if CharToFlag(c) in castling then No(CastlingDuplicate)
      else ScanFlags(Tail(s), castling + {CharToFlag(c)}, true)
    else if c == ' ' then
      if hasCastling then Yes(castling, Tail(s)) else No(CastlingFieldMissing)
    else No(UnexpectedCharacter)
  }

  function ScanCastling(s: string): (r: Parsed<set<CastlingFlag>>)
    ensures r.No? ==> r.error != FenOk
  {
    if Head(s) == '-' then ScanSpace(Yes({}, Tail(s))) else ScanFlags(s, {}, false)
  }

  /** The flags before number `n`. */
  function FlagsBefore(castling: set<CastlingFlag>, n: nat): set<CastlingFlag>
    requires n <= 4
  {
    set f | f in castling && f in FLAGS[..n]
  }

  lemma OneMoreFlag(castling: set<CastlingFlag>, n: nat)
    requires n < 4
    ensures FlagsBefore(castling, n + 1) ==
      if FLAGS[n] in castling then FlagsBefore(castling, n) + {FLAGS[n]} else FlagsBefore(castling, n)
    ensures FLAGS[n] !in FlagsBefore(castling, n)
    ensures IsFlagChar(FlagToChar(FLAGS[n])) && CharToFlag(FlagToChar(FLAGS[n])) == FLAGS[n]
  {
    assert FLAGS[..n + 1] == FLAGS[..n] + [FLAGS[n]];
  }

  lemma ScanFlag(f: CastlingFlag, rest: string, castling: set<CastlingFlag>, hasCastling: bool)
    requires f !in castling
    ensures ScanFlags([FlagToChar(f)] + rest, castling, hasCastling) == ScanFlags(rest, castling + {f}, true)
  {
    HeadTail(FlagToChar(f), rest);
  }

  lemma {:induction false} ScanFlagsText(castling: set<CastlingFlag>, n: nat, rest: string)
    requires n <= 4
    ensures ScanFlags(FlagsText(castling, n) + " " + rest, FlagsBefore(castling, n), FlagsBefore(castling, n) != {}) ==
      if castling == {} then No(CastlingFieldMissing) else Yes(castling, rest)
    decreases 4 - n
  {
    if n == 4 {
      assert FlagsText(castling, n) + " " + rest == [' '] + rest;
      HeadTail(' ', rest);
      AllFlags(castling);
    } else {
      OneMoreFlag(castling, n);
      hide ScanFlags;
      hide FlagsBefore;
      hide FlagToChar;
      ScanFlagsText(castling, n + 1, rest);
      FlagsTextSplit(castling, n, rest);
      hide FlagsText;
      if FLAGS[n] in castling {
        ScanFlag(FLAGS[n], FlagsText(castling, n + 1) + " " + rest,
          FlagsBefore(castling, n), FlagsBefore(castling, n) != {});
      } else {
        assert "" + (FlagsText(castling, n + 1) + " " + rest) == FlagsText(castling, n + 1) + " " + rest;
      }
    }
  }

  lemma FlagsTextSplit(castling: set<CastlingFlag>, n: nat, rest: string)
    requires n < 4
    ensures FlagsText(castling, n) + " " + rest ==
      (if FLAGS[n] in castling then [FlagToChar(FLAGS[n])] else "") + (FlagsText(castling, n + 1) + " " + rest)
  {}

  lemma AllFlags(castling: set<CastlingFlag>)
    ensures FlagsBefore(castling, 4) == castling && FlagsBefore(castling, 0) == {}
  {
    assert FLAGS[..4] == FLAGS;
    forall f: CastlingFlag
      ensures f in FLAGS
    {
      match f
      case WhiteKingside => assert FLAGS[0] == f;
      case WhiteQueenside => assert FLAGS[1] == f;
      case BlackKingside => assert FLAGS[2] == f;
      case BlackQueenside => assert FLAGS[3] == f;
    }
  }

  lemma ScanCastlingText(castling: set<CastlingFlag>, rest: string)
    ensures ScanCastling(CastlingText(castling) + " " + rest) == Yes(castling, rest)
  {
    if castling == {} {
      assert CastlingText(castling) + " " + rest == ['-'] + ([' '] + rest);
      HeadTail('-', [' '] + rest);
      HeadTail(' ', rest);
    } else {
      AllFlags(castling);
      ScanFlagsText(castling, 0, rest);
      FlagsTextHead(castling, 0, rest);
    }
  }

  lemma {:induction false} FlagsTextHead(castling: set<CastlingFlag>, n: nat, rest: string)
    requires n <= 4
    ensures Head(FlagsText(castling, n) + " " + rest) != '-'
    decreases 4 - n
  {
    if n < 4 {
      FlagsTextHead(castling, n + 1, rest);
      if FLAGS[n] !in castling {
        assert FlagsText(castling, n) == FlagsText(castling, n + 1);
      } else {
        assert (FlagsText(castling, n) + " " + rest)[0] == FlagToChar(FLAGS[n]);
      }
    } else {
      assert FlagsText(castling, n) + " " + rest == [' '] + rest;
    }
  }

  // ---- En passant ----

  function EnpassantText(side: Color, ep: EnpassantCoord): (t: string)
    ensures |t| <= 2
  {
    if ep == -1 then "-"
    else ['a' + CoordY(ep) as char, if side.White? then '6' else '3']
  }

  function ScanEnpassant(s: string, side: Color): Parsed<EnpassantCoord> {
    if Head(s) == '-' then Yes(INVALID_COORD, Tail(s))
    else
      var letter, number := Head(s), Head(Tail(s));
      if !('a' <= letter <= 'h') || !('1' <= number <= '8') then No(UnexpectedCharacter)
      else if '8' as int - number as int != EnpassantDstRow(side) then No(EnpassantInvalidCell)
      else
        var ep: EnpassantCoord := MakeCoord(EnpassantSrcRow(side), letter as int - 'a' as int);
        Yes(ep, Tail(Tail(s)))
  }

  /** The cell is read back when it is on the row that the side to move implies. */
  lemma ScanEnpassantText(side: Color, ep: EnpassantCoord, rest: string)
    requires ep == -1 || CoordX(ep) == EnpassantSrcRow(side)
    ensures ScanSpace(ScanEnpassant(EnpassantText(side, ep) + " " + rest, side)) == Yes(ep, rest)
  {
    HeadTail(' ', rest);
    if ep == -1 {
      HeadTail('-', [' '] + rest);
      assert EnpassantText(side, ep) + " " + rest == ['-'] + ([' '] + rest);
    } else {
      var letter, number := 'a' + CoordY(ep) as char, if side.White? then '6' else '3';
      HeadTail(number, [' '] + rest);
      HeadTail(letter, [number] + ([' '] + rest));
      assert EnpassantText(side, ep) + " " + rest == [letter] + ([number] + ([' '] + rest));
      SameCoord(ep, EnpassantSrcRow(side), CoordY(ep));
    }
  }

  lemma SameCoord(c: Coord, x: int, y: int)
    requires CoordX(c) == x && CoordY(c) == y
    ensures MakeCoord(x, y) == c
  {}

  // ---- Numbers ----

  predicate IsDigit(c: char) { '0' <= c <= '9' }

  /** Decimal digits without leading zeros. */
  function Digits(n: nat): (t: string)
    ensures t != ""
    ensures forall i :: 0 <= i < |t| ==> IsDigit(t[i])
    ensures n < 10 ==> |t| == 1
  {
    (if n < 10 then "" else Digits(n / 10)) + [Digit(n % 10)]
  }

  function NumberOf(t: string): nat
    requires forall i :: 0 <= i < |t| ==> IsDigit(t[i])
  {
    if t == "" then 0
    else
      assert IsDigit(t[|t| - 1]);
      10 * NumberOf(t[..|t| - 1]) + (t[|t| - 1] as int - '0' as int)
  }

  lemma {:induction false} DigitsRoundTrip(n: nat)
    ensures NumberOf(Digits(n)) == n
  {
    if n >= 10 {
      DigitsRoundTrip(n / 10);
      assert Digits(n)[..|Digits(n)| - 1] == Digits(n / 10);
    } else {
      assert Digits(n)[..0] == "";
    }
  }

  lemma DigitsBound(n: Uint16)
    ensures |Digits(n)| <= 5
  {
    assert n / 10 < 6554 && n / 10 / 10 < 656 && n / 10 / 10 / 10 < 66 && n / 10 / 10 / 10 / 10 < 7;
    assert |Digits(n / 10 / 10 / 10 / 10)| == 1;
    assert |Digits(n / 10 / 10 / 10)| <= 2;
    assert |Digits(n / 10 / 10)| <= 3;
    assert |Digits(n / 10)| <= 4;
  }

  predicate IsSpace(c: char) { c == '\n' || c == '\t' || c == '\r' || c == ' ' }

  /** Length of the token at the start. */
  function TokenEnd(s: string): (n: nat)
    ensures n <= |s|
  {
    if s == "" || IsSpace(s[0]) then 0 else 1 + TokenEnd(s[1..])
  }

  function SkipSpaces(s: string): string {
    if s != "" && IsSpace(s[0]) then SkipSpaces(s[1..]) else s
  }

  /** A whole token as an unsigned number of 16 bits. */
  function ScanUint16(s: string): Parsed<Uint16> {
    var token := s[..TokenEnd(s)];
    if token == "" || exists i :: 0 <= i < |token| && !IsDigit(token[i]) then No(ExpectedUint16)
    else if NumberOf(token) > 0xFFFF then No(ExpectedUint16)
    else Yes(NumberOf(token), s[TokenEnd(s)..])
  }

  lemma {:induction false} TokenAt(t: string, rest: string)
    requires forall i :: 0 <= i < |t| ==> !IsSpace(t[i])
    requires rest == "" || IsSpace(rest[0])
    ensures TokenEnd(t + rest) == |t|
  {
    if t != "" {
      TokenAt(t[1..], rest);
      assert (t + rest)[1..] == t[1..] + rest;
    } else {
      assert t + rest == rest;
    }
  }

  lemma ScanDigits(n: Uint16, rest: string)
    requires rest == "" || rest[0] == ' '
    ensures ScanUint16(Digits(n) + rest) == Yes(n, rest)
  {
    hide Digits;
    TokenAt(Digits(n), rest);
    DigitsRoundTrip(n);
    assert (Digits(n) + rest)[..|Digits(n)|] == Digits(n);
    assert (Digits(n) + rest)[|Digits(n)|..] == rest;
  }

  // ---- The whole line ----

  function CountersText(p: Position): string { Digits(p.moveCounter) + (" " + Digits(p.moveNumber)) }

  function FlagFieldsText(p: Position): string {
    CastlingText(p.castling) + " " + (EnpassantText(p.side, p.enpassant) + " " + CountersText(p))
  }

  function FenText(p: Position): string {
    RowsText(p.cells, 0) + " " + ([SideToChar(p.side)] + (" " + FlagFieldsText(p)))
  }

  /** The text and the final zero fit into the buffer that callers provide. */
  lemma FenFits(p: Position)
    ensures |FenText(p)| < 120
  {
    DigitsBound(p.moveCounter);
    DigitsBound(p.moveNumber);
    hide Digits;
    hide RowsText;
  }

  /** The fields one after the other. */
  lemma FenInOrder(p: Position, rows: string, castling: string, ep: string, counter: string, number: string)
    requires rows == RowsText(p.cells, 0) && castling == CastlingText(p.castling)
    requires ep == EnpassantText(p.side, p.enpassant)
    requires counter == Digits(p.moveCounter) && number == Digits(p.moveNumber)
    ensures FenText(p) ==
      rows + " " + [SideToChar(p.side)] + " " + castling + " " + ep + " " + counter + " " + number
  {
    hide RowsText;
    hide CastlingText;
    hide EnpassantText;
    hide Digits;
    hide SideToChar;
    assert FlagFieldsText(p) == castling + " " + ep + " " + counter + " " + number;
  }

  function ScanCounters(s: string): Parsed<(Uint16, Uint16)> {
    var counter := ScanSpace(ScanUint16(s));
    if counter.No? then No(counter.error)
    else
      var number := ScanUint16(counter.rest);
      if number.No? then No(number.error)
      else if SkipSpaces(number.rest) != "" then No(RedundantData)
      else Yes((counter.value, number.value), "")
  }

  function ScanFields(s: string, cells: Cells): Parsed<Position> {
    var side := ScanSide(s);
    if side.No? then No(side.error)
    else
      var castling := ScanCastling(side.rest);
      if castling.No? then No(castling.error)
      else
        var ep := ScanSpace(ScanEnpassant(castling.rest, side.value));
        if ep.No? then No(ep.error)
        else
          var counters := ScanCounters(ep.rest);
          if counters.No? then No(counters.error)
          else Yes(Position(cells, side.value, castling.value, ep.value, counters.value.0, counters.value.1), "")
  }

  /** What a line of text stands for, before the flags are corrected. */
  function ParseFen(s: string): Parsed<Position> {
    var cells := ScanCells(s, 0, 0, []);
    if cells.No? then No(cells.error) else ScanFields(cells.rest, cells.value)
  }

  lemma ScanCountersText(p: Position)
    ensures ScanCounters(CountersText(p)) == Yes((p.moveCounter, p.moveNumber), "")
  {
    var counter, number := Digits(p.moveCounter), Digits(p.moveNumber);
    hide Digits;
    hide ScanUint16;
    HeadTail(' ', number);
    ScanDigits(p.moveCounter, " " + number);
    ScanDigits(p.moveNumber, "");
    assert number + "" == number;
  }

  lemma ScanSideText(c: Color, rest: string)
    ensures ScanSide([SideToChar(c)] + (" " + rest)) == Yes(c, rest)
  {
    HeadTail(SideToChar(c), " " + rest);
    HeadTail(' ', rest);
  }

  /** Reading what was written gives every field back. */
  lemma FenRoundTrip(p: Position)
    requires EnpassantRowOk(p)
    ensures ParseFen(FenText(p)) == Yes(p, "")
  {
    hide ScanCells;
    hide ScanSide;
    hide ScanCastling;
    hide ScanEnpassant;
    hide ScanSpace;
    hide ScanCounters;
    hide RowsText;
    hide CastlingText;
    hide EnpassantText;
    hide CountersText;
    ScanRows(p.cells, 0, [SideToChar(p.side)] + (" " + FlagFieldsText(p)));
    assert p.cells[..0] == [];
    ScanSideText(p.side, FlagFieldsText(p));
    ScanCastlingText(p.castling, EnpassantText(p.side, p.enpassant) + " " + CountersText(p));
    ScanEnpassantText(p.side, p.enpassant, CountersText(p));
    ScanCountersText(p);
  }

  /** Different boards have different texts. */
  lemma FenIsInjective(p: Position, q: Position)
    requires EnpassantRowOk(p) && EnpassantRowOk(q) && FenText(p) == FenText(q)
    ensures p == q
  {
    FenRoundTrip(p);
    FenRoundTrip(q);
    hide ParseFen;
    hide FenText;
  }
}

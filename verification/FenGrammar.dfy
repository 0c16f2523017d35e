/** Which texts are boards: a text is parsed exactly when it consists of the fields of a board, each of them
    described here without a look at the parser. */
module FenGrammar {
  import opened Types
  import opened Rules
  import opened Fen

  // ---- Cells ----

  /** A digit stands for that many empty cells. */
  function Widened(c: char): (t: string)
    ensures t != ""
  {
    if '1' <= c <= '8' then Dots(c as int - '0' as int) else [c]
  }

  function Dots(n: nat): (t: string)
    ensures |t| == n && forall i :: 0 <= i < n ==> t[i] == '.'
  {
    seq(n, _ => '.')
  }

  function Picture(rows: string): string {
    if rows == "" then "" else Widened(rows[0]) + Picture(rows[1..])
  }

  predicate IsRowChar(c: char) {
    '1' <= c <= '8' || c == '/' || CharToCell(c) != Empty
  }

  /** The character of the picture of all 64 cells at place `k`; the rows are nine places apart. */
  function PictureAt(cells: seq<Cell>, k: nat): char
    requires k % 9 < 8 ==> 8 * (k / 9) + k % 9 < |cells|
  {
    if k % 9 == 8 then '/' else CellToChar(cells[8 * (k / 9) + k % 9])
  }

  /** The text draws eight rows of eight cells. */
  predicate Draws(rows: string, cells: Cells) {
    && (forall i :: 0 <= i < |rows| ==> IsRowChar(rows[i]))
    && |Picture(rows)| == 71 && forall k :: 0 <= k < 71 ==> Picture(rows)[k] == PictureAt(cells, k)
  }

  /** The rest of the text draws the cells from column `y` of row `x` on. */
  predicate DrawsFrom(rows: string, cells: Cells, x: nat, y: nat)
    requires x < 8 && y <= 8
  {
    && (forall i :: 0 <= i < |rows| ==> IsRowChar(rows[i]))
    && |Picture(rows)| == 71 - 9 * x - y
    && forall k :: 9 * x + y <= k < 71 ==> Picture(rows)[k - 9 * x - y] == PictureAt(cells, k)
  }

  lemma PlaceOf(x: nat, y: nat)
    requires y <= 8
    ensures (9 * x + y) / 9 == x && (9 * x + y) % 9 == y
  {}

  /** What is drawn first. */
  lemma DrawnFirst(c: char, rest: string, cells: Cells, x: nat, y: nat)
    requires x < 8 && y <= 8
    ensures Picture([c] + rest) == Widened(c) + Picture(rest)
    ensures ([c] + rest)[0] == c && ([c] + rest)[1..] == rest
  {}

  lemma CharOfCell(c: char, v: Cell)
    ensures CellToChar(v) == c && c != '.' ==> v.Man? && CharToCell(c) == v
    ensures CellToChar(v) == '.' <==> v == Empty
    ensures CharToCell(c) == v != Empty ==> CellToChar(v) == c
    ensures CellToChar(v) != '/' && CellToChar(v) != ' '
  {}

  /** What one character makes of the cells read so far. */
  predicate IsNext(c: char, x: nat, y: nat, x': nat, y': nat, more: seq<Cell>) {
    || ('1' <= c <= '8' && x' == x && y' == y + (c as int - '0' as int) && more == Blank(c as int - '0' as int))
    || (c == '/' && y == 8 && x' == x + 1 && y' == 0 && more == [])
    || (c != '/' && !('1' <= c <= '8') && CharToCell(c) != Empty && x' == x && y' == y + 1 && more == [CharToCell(c)])
  }

  lemma NextRead(s: string, x: nat, y: nat, acc: seq<Cell>) returns (x': nat, y': nat, more: seq<Cell>)
    requires x < 8 && y <= 8 && |acc| == 8 * x + y && ScanCells(s, x, y, acc).Yes? && Head(s) != ' '
    ensures s != "" && x' < 8 && y' <= 8 && |acc + more| == 8 * x' + y' && IsNext(s[0], x, y, x', y', more)
    ensures ScanCells(s, x, y, acc) == ScanCells(s[1..], x', y', acc + more)
  {
    var c := Head(s);
    hide CharToCell;
    if '1' <= c <= '8' {
      x', y', more := x, y + (c as int - '0' as int), Blank(c as int - '0' as int);
    } else if c == '/' {
      x', y', more := x + 1, 0, [];
      assert acc + more == acc;
    } else {
      EosIsNoCell();
      x', y', more := x, y + 1, [CharToCell(c)];
    }
  }

  lemma EosIsNoCell()
    ensures CharToCell(EOS) == Empty
  {}

  /** What was read is a drawing. */
  lemma {:induction false} CellsAreDrawn(s: string, x: nat, y: nat, acc: seq<Cell>) returns (rows: string)
    requires x < 8 && y <= 8 && |acc| == 8 * x + y && ScanCells(s, x, y, acc).Yes?
    ensures var r := ScanCells(s, x, y, acc);
      s == rows + " " + r.rest && acc <= r.value && DrawsFrom(rows, r.value, x, y)
    decreases |s|
  {
    var r := ScanCells(s, x, y, acc);
    rows := "";
    if Head(s) == ' ' {
      assert s == " " + Tail(s);
    } else {
      var x', y', more := NextRead(s, x, y, acc);
      hide ScanCells;
      hide DrawsFrom;
      hide IsNext;
      var rest := CellsAreDrawn(s[1..], x', y', acc + more);
      rows := [s[0]] + rest;
      assert s == [s[0]] + s[1..] == rows + " " + r.rest;
      OneMoreDrawn(s[0], rest, r.value, acc, more, x, y, x', y');
    }
  }

  /** One character is drawn as the cells that it was read as. */
  lemma PlaceIsDrawn(
    c: char, cells: Cells, acc: seq<Cell>, more: seq<Cell>, x: nat, y: nat, x': nat, y': nat, i: nat)
    requires x < 8 && x' < 8 && y <= 8 && y' <= 8 && |acc| == 8 * x + y && acc + more <= cells
    requires IsNext(c, x, y, x', y', more) && i < |Widened(c)|
    ensures PictureAt(cells, 9 * x + y + i) == Widened(c)[i]
  {
    PlaceOf(x, y + i);
    if c != '/' {
      assert cells[8 * x + y + i] == (acc + more)[8 * x + y + i] == more[i];
      CharOfCell(c, more[i]);
    }
  }

  lemma NextPlace(c: char, x: nat, y: nat, x': nat, y': nat, more: seq<Cell>)
    requires IsNext(c, x, y, x', y', more)
    ensures 9 * x' + y' == 9 * x + y + |Widened(c)| && IsRowChar(c)
  {}

  lemma OneMoreDrawn(
    c: char, rest: string, cells: Cells, acc: seq<Cell>, more: seq<Cell>, x: nat, y: nat, x': nat, y': nat)
    requires x < 8 && x' < 8 && y <= 8 && y' <= 8 && |acc| == 8 * x + y && acc + more <= cells
    requires DrawsFrom(rest, cells, x', y') && IsNext(c, x, y, x', y', more)
    ensures acc <= cells && DrawsFrom([c] + rest, cells, x, y)
  {
    hide IsNext;
    hide IsRowChar;
    hide PictureAt;
    DrawnFirst(c, rest, cells, x, y);
    NextPlace(c, x, y, x', y', more);
    hide Picture;
    hide Widened;
    assert acc <= cells;
    forall k | 9 * x + y <= k < 71
      ensures Picture([c] + rest)[k - 9 * x - y] == PictureAt(cells, k)
    {
      if k < 9 * x' + y' {
        PlaceIsDrawn(c, cells, acc, more, x, y, x', y', k - 9 * x - y);
      } else {
        assert Picture([c] + rest)[k - 9 * x - y] == Picture(rest)[k - 9 * x' - y'];
      }
    }
    forall i | 0 <= i < |[c] + rest|
      ensures IsRowChar(([c] + rest)[i])
    {
      assert i > 0 ==> ([c] + rest)[i] == rest[i - 1];
    }
  }

  /** What the first character of a drawing stands for. */
  lemma FirstDrawn(c: char, rest: string, cells: Cells, x: nat, y: nat)
    returns (x': nat, y': nat, more: seq<Cell>)
    requires x < 8 && y <= 8 && DrawsFrom([c] + rest, cells, x, y)
    ensures x' < 8 && y' <= 8 && DrawsFrom(rest, cells, x', y') && IsNext(c, x, y, x', y', more)
    ensures cells[..8 * x + y] + more == cells[..8 * x' + y']
  {
    DrawnFirst(c, rest, cells, x, y);
    var n := |Widened(c)|;
    assert IsRowChar(([c] + rest)[0]);
    FirstFits(c, rest, cells, x, y);
    x', y' := if c == '/' then x + 1 else x, if c == '/' then 0 else y + n;
    more := if c == '/' then [] else if '1' <= c <= '8' then Blank(c as int - '0' as int) else [CharToCell(c)];
    forall k | 9 * x' + y' <= k < 71
      ensures Picture(rest)[k - 9 * x' - y'] == PictureAt(cells, k)
    {
      assert Picture([c] + rest)[k - 9 * x - y] == Picture(rest)[k - 9 * x' - y'];
    }
    forall i | 0 <= i < |rest|
      ensures IsRowChar(rest[i])
    {
      assert rest[i] == ([c] + rest)[i + 1];
    }
  }

  /** One character of the picture of what is drawn first. */
  lemma FirstFitsAt(c: char, rest: string, cells: Cells, x: nat, y: nat, i: nat)
    requires x < 8 && y <= 8 && DrawsFrom([c] + rest, cells, x, y) && i < |Widened(c)| && y + i <= 8
    ensures if y + i == 8 then c == '/' && x < 7 else c != '/' && CellToChar(cells[8 * x + y + i]) == Widened(c)[i]
  {
    DrawnFirst(c, rest, cells, x, y);
    var k := 9 * x + y + i;
    assert Picture([c] + rest)[k - 9 * x - y] == PictureAt(cells, k) == Widened(c)[i];
    PlaceOf(x, y + i);
    if y + i < 8 {
      CharOfCell(c, cells[8 * x + y + i]);
    }
  }

  lemma FirstFits(c: char, rest: string, cells: Cells, x: nat, y: nat)
    requires x < 8 && y <= 8 && DrawsFrom([c] + rest, cells, x, y) && IsRowChar(c)
    ensures if c == '/' then x < 7 && y == 8 else y + |Widened(c)| <= 8
    ensures c != '/' && !('1' <= c <= '8') ==> cells[8 * x + y] == CharToCell(c)
    ensures '1' <= c <= '8' ==> forall j :: 8 * x + y <= j < 8 * x + y + |Widened(c)| ==> cells[j] == Empty
  {
    FirstFitsAt(c, rest, cells, x, y, 0);
    if c != '/' {
      if y + |Widened(c)| > 8 {
        FirstFitsAt(c, rest, cells, x, y, 8 - y);
      }
      forall j | 8 * x + y <= j < 8 * x + y + |Widened(c)|
        ensures CellToChar(cells[j]) == Widened(c)[j - 8 * x - y]
      {
        FirstFitsAt(c, rest, cells, x, y, j - 8 * x - y);
      }
      CharOfCell(c, cells[8 * x + y]);
    }
  }

  lemma NextIsRead(c: char, rest: string, x: nat, y: nat, x': nat, y': nat, acc: seq<Cell>, more: seq<Cell>)
    requires x < 8 && y <= 8 && x' < 8 && y' <= 8 && |acc| == 8 * x + y && IsNext(c, x, y, x', y', more)
    ensures |acc + more| == 8 * x' + y'
    ensures ScanCells([c] + rest, x, y, acc) == ScanCells(rest, x', y', acc + more)
  {
    HeadTail(c, rest);
    SpaceIsNoCell();
    hide CharToCell;
    assert acc + [] == acc;
  }

  lemma SpaceIsNoCell()
    ensures CharToCell(' ') == Empty
  {}

  /** A drawing is read as what it draws. */
  lemma {:induction false} DrawnIsRead(rows: string, cells: Cells, x: nat, y: nat, rest: string)
    requires x < 8 && y <= 8 && DrawsFrom(rows, cells, x, y)
    ensures ScanCells(rows + " " + rest, x, y, cells[..8 * x + y]) == Yes(cells, rest)
    decreases |rows|
  {
    if rows == "" {
      assert rows + " " + rest == [' '] + rest;
      assert cells[..64] == cells;
      ScanEnd(rest, cells);
      assert x == 7 && y == 8;
    } else {
      var c, tail := rows[0], rows[1..];
      assert rows == [c] + tail && rows + " " + rest == [c] + (tail + " " + rest);
      var x', y', more := FirstDrawn(c, tail, cells, x, y);
      NextIsRead(c, tail + " " + rest, x, y, x', y', cells[..8 * x + y], more);
      hide ScanCells;
      hide DrawsFrom;
      hide IsNext;
      DrawnIsRead(tail, cells, x', y', rest);
    }
  }

  // ---- Side and castling ----

  lemma SplitHead(s: string)
    ensures Head(s) != EOS ==> s != "" && s == [Head(s)] + Tail(s)
  {}

  lemma SpaceIsRead<T>(r: Parsed<T>, value: T, rest: string)
    ensures ScanSpace(r) == Yes(value, rest) <==> r == Yes(value, " " + rest)
  {
    HeadTail(' ', rest);
    if r.Yes? {
      SplitHead(r.rest);
    }
  }

  lemma SideIsRead(s: string, c: Color, rest: string)
    ensures ScanSide(s) == Yes(c, rest) <==> s == [SideToChar(c)] + (" " + rest)
  {
    SplitHead(s);
    HeadTail(SideToChar(c), " " + rest);
    SpaceIsRead(Yes(White, Tail(s)), c, rest);
    SpaceIsRead(Yes(Black, Tail(s)), c, rest);
    hide ScanSpace;
  }

  /** Different letters of rights, which are added to those in `before`. */
  predicate Grants(t: string, before: set<CastlingFlag>, castling: set<CastlingFlag>) {
    && (forall i :: 0 <= i < |t| ==> IsFlagChar(t[i]))
    && (forall i, j :: 0 <= i < j < |t| ==> t[i] != t[j])
    && forall f: CastlingFlag ::
      (f in castling <==> f in before || FlagToChar(f) in t) && (f in before ==> FlagToChar(f) !in t)
  }

  /** The text of the rights: a dash for none, else the letters in any order, each of them once. */
  predicate IsCastlingText(t: string, castling: set<CastlingFlag>) {
    (t == "-" && castling == {}) || (t != "" && Grants(t, {}, castling))
  }

  lemma FlagOfChar(c: char)
    ensures IsFlagChar(c) ==> FlagToChar(CharToFlag(c)) == c
    ensures forall f :: IsFlagChar(FlagToChar(f)) && CharToFlag(FlagToChar(f)) == f
    ensures IsFlagChar(c) ==> c != ' ' && c != '-' && c != EOS
  {}

  lemma OneMoreGranted(c: char, t: string, before: set<CastlingFlag>, castling: set<CastlingFlag>)
    requires IsFlagChar(c)
    ensures Grants([c] + t, before, castling) <==>
      CharToFlag(c) !in before && Grants(t, before + {CharToFlag(c)}, castling)
  {
    FlagOfChar(c);
    assert forall i :: 0 <= i < |t| ==> ([c] + t)[i + 1] == t[i];
    assert forall f :: FlagToChar(f) == c <==> f == CharToFlag(c);
    assert forall f :: FlagToChar(f) in [c] + t <==> f == CharToFlag(c) || FlagToChar(f) in t;
    hide FlagToChar;
    hide CharToFlag;
    hide IsFlagChar;
    if Grants([c] + t, before, castling) {
      assert ([c] + t)[0] == c;
      assert c !in t;
      assert forall i :: 0 <= i < |t| ==> t[i] == ([c] + t)[i + 1];
    }
  }

  lemma {:induction false} FlagsAreGranted(s: string, before: set<CastlingFlag>, has: bool) returns (t: string)
    requires ScanFlags(s, before, has).Yes?
    ensures var r := ScanFlags(s, before, has);
      s == t + " " + r.rest && Grants(t, before, r.value) && (has || t != "")
    decreases |s|
  {
    SplitHead(s);
    FlagOfChar(Head(s));
    t := "";
    if Head(s) != ' ' {
      var c, rest := Head(s), ScanFlags(s, before, has).rest;
      var more := FlagsAreGranted(Tail(s), before + {CharToFlag(c)}, true);
      OneMoreGranted(c, more, before, ScanFlags(s, before, has).value);
      t := [c] + more;
      assert s == t + " " + rest;
    } else {
      assert s == "" + " " + Tail(s);
    }
  }

  lemma {:induction false} GrantedIsRead(
    t: string, before: set<CastlingFlag>, castling: set<CastlingFlag>, has: bool, rest: string)
    requires Grants(t, before, castling) && (has || t != "")
    ensures ScanFlags(t + " " + rest, before, has) == Yes(castling, rest)
    decreases |t|
  {
    if t == "" {
      assert t + " " + rest == [' '] + rest;
      HeadTail(' ', rest);
      assert castling == before;
    } else {
      var c, more := t[0], t[1..];
      assert t == [c] + more && t + " " + rest == [c] + (more + " " + rest);
      FlagOfChar(c);
      HeadTail(c, more + " " + rest);
      OneMoreGranted(c, more, before, castling);
      GrantedIsRead(more, before + {CharToFlag(c)}, castling, true, rest);
    }
  }

  /** The rights are read from exactly those texts. */
  lemma CastlingIsRead(s: string) returns (t: string)
    requires ScanCastling(s).Yes?
    ensures s == t + (" " + ScanCastling(s).rest) && IsCastlingText(t, ScanCastling(s).value)
  {
    if Head(s) == '-' {
      t := "-";
      SplitHead(s);
      SpaceIsRead<set<CastlingFlag>>(Yes({}, Tail(s)), {}, ScanCastling(s).rest);
    } else {
      t := FlagsAreGranted(s, {}, false);
      assert t + " " + ScanCastling(s).rest == t + (" " + ScanCastling(s).rest);
    }
  }

  lemma CastlingTextIsRead(t: string, castling: set<CastlingFlag>, rest: string)
    requires IsCastlingText(t, castling)
    ensures ScanCastling(t + (" " + rest)) == Yes(castling, rest)
  {
    if t == "-" {
      HeadTail('-', " " + rest);
      SpaceIsRead<set<CastlingFlag>>(Yes({}, " " + rest), {}, rest);
      FlagOfChar('-');
      assert castling == {};
    } else {
      FlagOfChar(t[0]);
      assert t + (" " + rest) == t + " " + rest == [t[0]] + (t[1..] + " " + rest);
      HeadTail(t[0], t[1..] + " " + rest);
      GrantedIsRead(t, {}, castling, false, rest);
    }
  }

  // ---- En passant and numbers ----

  /** The cell that was passed, on the row that the side to move implies, or a dash. */
  lemma EnpassantIsRead(s: string, side: Color, ep: EnpassantCoord, rest: string)
    ensures ScanEnpassant(s, side) == Yes(ep, rest) <==>
      (ep == -1 || CoordX(ep) == EnpassantSrcRow(side)) && s == EnpassantText(side, ep) + rest
  {
    SplitHead(s);
    SplitHead(Tail(s));
    if ep == -1 {
      HeadTail('-', rest);
    } else {
      var letter, number := 'a' + CoordY(ep) as char, if side.White? then '6' else '3';
      HeadTail(number, rest);
      HeadTail(letter, [number] + rest);
      assert EnpassantText(side, ep) + rest == [letter] + ([number] + rest);
      if CoordX(ep) == EnpassantSrcRow(side) {
        SameCoord(ep, EnpassantSrcRow(side), CoordY(ep));
      }
    }
  }

  /** Decimal digits of a number of 16 bits. */
  predicate IsNumber(t: string, n: Uint16) {
    t != "" && (forall i :: 0 <= i < |t| ==> IsDigit(t[i])) && NumberOf(t) == n
  }

  lemma {:induction false} TokenHasNoSpace(s: string)
    ensures forall i :: 0 <= i < TokenEnd(s) ==> !IsSpace(s[i])
    ensures TokenEnd(s) < |s| ==> IsSpace(s[TokenEnd(s)])
  {
    if s != "" && !IsSpace(s[0]) {
      TokenHasNoSpace(s[1..]);
      assert forall i :: 0 < i < |s| ==> s[i] == s[1..][i - 1];
    }
  }

  lemma NumberIsRead(s: string) returns (t: string)
    requires ScanUint16(s).Yes?
    ensures var r := ScanUint16(s); s == t + r.rest && IsNumber(t, r.value) && (r.rest == "" || IsSpace(r.rest[0]))
  {
    t := s[..TokenEnd(s)];
    TokenHasNoSpace(s);
    hide NumberOf;
    hide TokenEnd;
  }

  lemma NumberTextIsRead(t: string, n: Uint16, rest: string)
    requires IsNumber(t, n) && (rest == "" || IsSpace(rest[0]))
    ensures ScanUint16(t + rest) == Yes(n, rest)
  {
    TokenAt(t, rest);
    assert (t + rest)[..|t|] == t && (t + rest)[|t|..] == rest;
    hide NumberOf;
    hide TokenEnd;
  }

  // ---- The whole line ----

  /** The parts of the text that the board does not determine. */
  datatype Parts = Parts(rows: string, castling: string, counter: string, number: string, spaces: string)

  function CountersOf(parts: Parts): string { parts.counter + (" " + (parts.number + parts.spaces)) }

  function EnpassantOf(parts: Parts, p: Position): string {
    EnpassantText(p.side, p.enpassant) + (" " + CountersOf(parts))
  }

  function FieldsOf(parts: Parts, p: Position): string {
    [SideToChar(p.side)] + (" " + (parts.castling + (" " + EnpassantOf(parts, p))))
  }

  /** The fields of a board, with one space between them. */
  ghost predicate IsFen(s: string, parts: Parts, p: Position) {
    && s == parts.rows + " " + FieldsOf(parts, p)
    && Draws(parts.rows, p.cells) && IsCastlingText(parts.castling, p.castling) && EnpassantRowOk(p)
    && IsNumber(parts.counter, p.moveCounter) && IsNumber(parts.number, p.moveNumber)
    && SkipSpaces(parts.spaces) == ""
  }

  lemma CountersAreRead(s: string) returns (counter: string, number: string, spaces: string)
    requires ScanCounters(s).Yes?
    ensures s == counter + (" " + (number + spaces)) && SkipSpaces(spaces) == ""
    ensures IsNumber(counter, ScanCounters(s).value.0) && IsNumber(number, ScanCounters(s).value.1)
  {
    hide ScanUint16;
    hide SkipSpaces;
    hide IsNumber;
    var first := ScanUint16(s);
    counter := NumberIsRead(s);
    SpaceIsRead(first, first.value, ScanSpace(first).rest);
    hide ScanSpace;
    var second := ScanUint16(ScanSpace(first).rest);
    number := NumberIsRead(ScanSpace(first).rest);
    spaces := second.rest;
  }

  lemma CountersTextIsRead(counter: string, number: string, spaces: string, a: Uint16, b: Uint16)
    requires IsNumber(counter, a) && IsNumber(number, b) && SkipSpaces(spaces) == ""
    ensures ScanCounters(counter + (" " + (number + spaces))) == Yes((a, b), "")
  {
    assert spaces == "" || IsSpace(spaces[0]);
    hide ScanUint16;
    hide SkipSpaces;
    hide IsNumber;
    NumberTextIsRead(counter, a, " " + (number + spaces));
    SpaceIsRead(Yes(a, " " + (number + spaces)), a, number + spaces);
    hide ScanSpace;
    NumberTextIsRead(number, b, spaces);
  }

  lemma DrawsFromStart(rows: string, cells: Cells)
    ensures Draws(rows, cells) <==> DrawsFrom(rows, cells, 0, 0)
  {}

  /** Whatever is parsed consists of the fields of the board. */
  lemma ParsedIsFen(s: string) returns (parts: Parts)
    requires ParseFen(s).Yes?
    ensures IsFen(s, parts, ParseFen(s).value)
  {
    hide ScanCells;
    hide ScanSide;
    hide ScanCastling;
    hide ScanEnpassant;
    hide ScanSpace;
    hide ScanCounters;
    hide SkipSpaces;
    hide EnpassantText;
    hide IsNumber;
    hide IsCastlingText;
    hide Draws;
    hide DrawsFrom;
    hide SideToChar;
    var p, cells := ParseFen(s).value, ScanCells(s, 0, 0, []);
    var rows := CellsAreDrawn(s, 0, 0, []);
    DrawsFromStart(rows, p.cells);
    var side := ScanSide(cells.rest);
    SideIsRead(cells.rest, p.side, side.rest);
    var castling := CastlingIsRead(side.rest);
    var afterCastling := ScanCastling(side.rest).rest;
    var ep := ScanEnpassant(afterCastling, p.side);
    SpaceIsRead(ep, p.enpassant, ScanSpace(ep).rest);
    EnpassantIsRead(afterCastling, p.side, p.enpassant, " " + ScanSpace(ep).rest);
    var counter, number, spaces := CountersAreRead(ScanSpace(ep).rest);
    parts := Parts(rows, castling, counter, number, spaces);
  }

  /** A text is parsed exactly when it consists of the fields of a board, and then as that board. */
  lemma FenIsParsed(s: string, p: Position)
    ensures ParseFen(s) == Yes(p, "") <==> exists parts :: IsFen(s, parts, p)
  {
    if parts: Parts :| IsFen(s, parts, p) {
      FieldsAreParsed(s, parts, p);
    }
    if ParseFen(s) == Yes(p, "") {
      var parts := ParsedIsFen(s);
    }
    hide IsFen;
    hide ParseFen;
  }

  lemma FieldsAreParsed(s: string, parts: Parts, p: Position)
    requires IsFen(s, parts, p)
    ensures ParseFen(s) == Yes(p, "")
  {
    hide ScanCells;
    hide ScanSide;
    hide ScanCastling;
    hide ScanEnpassant;
    hide ScanSpace;
    hide ScanCounters;
    hide SkipSpaces;
    hide EnpassantText;
    hide IsNumber;
    hide IsCastlingText;
    hide Draws;
    hide DrawsFrom;
    hide SideToChar;
    DrawsFromStart(parts.rows, p.cells);
    DrawnIsRead(parts.rows, p.cells, 0, 0, FieldsOf(parts, p));
    assert p.cells[..0] == [];
    var counters := CountersOf(parts);
    var ep := EnpassantOf(parts, p);
    SideIsRead(FieldsOf(parts, p), p.side, parts.castling + (" " + ep));
    CastlingTextIsRead(parts.castling, p.castling, ep);
    EnpassantIsRead(ep, p.side, p.enpassant, " " + counters);
    SpaceIsRead(Yes(p.enpassant, " " + counters), p.enpassant, counters);
    CountersTextIsRead(parts.counter, parts.number, parts.spaces, p.moveCounter, p.moveNumber);
  }
}

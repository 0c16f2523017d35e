/** The SoFGameSet text format: one command a line. What is written for a list of games is read back as
    exactly those games. */
module GameSet {
  import opened Types
  import opened Geometry
  import opened Rules
  import opened Invariants
  import opened Legality
  import opened Runs
  import opened Boards
  import Bitboards
  import opened Attacks
  import opened Fen
  import opened MoveText

  datatype Option<+T> = None | Some(value: T)

  datatype Winner = Unknown | WhiteWins | BlackWins | Draw

  datatype Command =
    | GameCommand(winner: Winner, gameLabel: Option<string>)
    | TitleCommand(title: string)
    | BoardCommand(board: Position)
    | MovesCommand(moves: seq<Move>)

  /** A game: its header, its title if it has one, and the commands that make up its boards. */
  datatype Game = Game(winner: Winner, gameLabel: Option<string>, title: Option<string>, commands: seq<Command>)

  // ---- The initial position ----

  function BackRow(c: Color): (r: seq<Cell>)
    ensures |r| == 8
  {
    [Man(c, Rook), Man(c, Knight), Man(c, Bishop), Man(c, Queen),
      Man(c, King), Man(c, Bishop), Man(c, Knight), Man(c, Rook)]
  }

  function PawnRow(c: Color): (r: seq<Cell>)
    ensures |r| == 8
  {
    [Man(c, Pawn), Man(c, Pawn), Man(c, Pawn), Man(c, Pawn), Man(c, Pawn), Man(c, Pawn), Man(c, Pawn), Man(c, Pawn)]
  }

  function InitialCells(): Cells { BackRow(Black) + PawnRow(Black) + Blank(32) + PawnRow(White) + BackRow(White) }

  function InitialPosition(): Position { Position(InitialCells(), White, ALL_CASTLING, -1, 0, 1) }

  function Slash(row: string, rest: string): string { "/" + row + rest }

  function InitialRowsText(): string {
    "rnbqkbnr" + Slash("pppppppp", Slash("8", Slash("8", Slash("8",
      Slash("8", Slash("PPPPPPPP", Slash("RNBQKBNR", "")))))))
  }

  /** "rnbqkbnr/pppppppp/8/8/8/8/PPPPPPPP/RNBQKBNR w KQkq - 0 1" */
  const INITIAL_POSITION_FEN: string :=
    InitialRowsText() + " " + "w" + " " + "KQkq" + " " + "-" + " " + "0" + " " + "1"

  // ---- Writing ----

  function WinnerToChar(w: Winner): char {
    match w
    case Unknown => '?'
    case WhiteWins => 'W'
    case BlackWins => 'B'
    case Draw => 'D'
  }

  function WinnerFromChar(c: char): Option<Winner> {
    if c == '?' then Some(Unknown) else if c == 'W' then Some(WhiteWins)
    else if c == 'B' then Some(BlackWins) else if c == 'D' then Some(Draw) else None
  }

  function MovesText(moves: seq<Move>): string {
    if moves == [] then "" else " " + MoveToStr(moves[0]) + MovesText(moves[1..])
  }

  /** The line of a command, without its end. */
  function CommandText(cmd: Command): string {
    match cmd
    case GameCommand(winner, gameLabel) =>
      "game " + ([WinnerToChar(winner)] + " " + if gameLabel.Some? then gameLabel.value else "-")
    case TitleCommand(title) => "title " + title
    case BoardCommand(board) =>
      if FenText(board) == INITIAL_POSITION_FEN then "start" else "board " + FenText(board)
    case MovesCommand(moves) => "moves" + MovesText(moves)
  }

  function CommandsText(commands: seq<Command>): string {
    if commands == [] then "" else CommandText(commands[0]) + "\n" + CommandsText(commands[1..])
  }

  /** The commands of a game in the order in which they are written. */
  function AllCommands(g: Game): (r: seq<Command>)
    ensures r != []
  {
    [GameCommand(g.winner, g.gameLabel)] + (if g.title.Some? then [TitleCommand(g.title.value)] else []) + g.commands
  }

  function GameText(g: Game): string { CommandsText(AllCommands(g)) + "\n" }

  function GamesText(games: seq<Game>): string {
    if games == [] then "" else GameText(games[0]) + GamesText(games[1..])
  }

  // ---- Reading one line ----

  function TrimRight(s: string): string {
    if s != "" && IsSpace(s[|s| - 1]) then TrimRight(s[..|s| - 1]) else s
  }

  function Trim(s: string): string { TrimRight(SkipSpaces(s)) }

  /** What one line amounts to, and the board that later moves apply to. */
  datatype LineResult =
    | Skip
    | Fail(message: string, board: Option<Position>)
    | Read(command: Command, board: Option<Position>)

  /** The test of the reader: the move is well-formed, pseudo-legal, and keeps its king safe. Without a king
      of the side to move nothing is accepted; the engine has no defined answer there. */
  predicate Accepts(p: Position, m: Move) {
    IsWellFormed(m, p.side) && PseudoLegal(p, m) && KeepsKing(p, m)
  }

  datatype MovesResult = Illegal(number: nat, last: Position) | Legal(moves: seq<Move>, last: Position)

  lemma SkipSpacesShrinks(s: string)
    ensures |SkipSpaces(s)| <= |s|
    ensures SkipSpaces(s) != "" ==> !IsSpace(SkipSpaces(s)[0])
  {}

  /** Reads the moves one by one, each on the board after those before it. */
  function ReadMoves(s: string, p: Position, done: seq<Move>): MovesResult
    decreases |s|
  {
    SkipSpacesShrinks(s);
    var t := SkipSpaces(s);
    if t == "" then Legal(done, p)
    else
      var m := MoveParse(t[..TokenEnd(t)], p);
      if !Accepts(p, m) then Illegal(|done| + 1, p)
      else ReadMoves(t[TokenEnd(t)..], Play(p, m), done + [m])
  }

  function ReadHeader(body: string, last: Option<Position>): LineResult {
    var n := TokenEnd(body);
    var rest := SkipSpaces(body[n..]);
    var gameLabel := rest[..TokenEnd(rest)];
    if n != 1 then Fail("Winner must be a single character", last)
    else if gameLabel == "" then Fail("Label must be non-empty", last)
    else
      match WinnerFromChar(body[0])
      case None => Fail("Invalid winner character", last)
      case Some(winner) => Read(GameCommand(winner, if gameLabel == "-" then None else Some(gameLabel)), None)
  }

  function Dispatch(name: string, body: string, last: Option<Position>): LineResult {
    if name == "game" then ReadHeader(body, last)
    else if name == "title" then Read(TitleCommand(body), last)
    else if name == "start" then Read(BoardCommand(InitialPosition()), Some(InitialPosition()))
    else if name == "board" then
      match ParseFen(body)
      case Yes(p, _) => Read(BoardCommand(Boards.Normalized(p)), Some(Boards.Normalized(p)))
      case No(_) => Fail("Error parsing FEN", last)
    else if name == "moves" then
      if last.None? then Fail("No preceding boards found", last)
      else if body == "" then Fail("No moves specified", last)
      else
        match ReadMoves(body, last.value, [])
        case Legal(moves, p) => Read(MovesCommand(moves), Some(p))
        case Illegal(_, p) => Fail("Move is illegal", Some(p))
    else Skip
  }

  function ParseLine(raw: string, last: Option<Position>): LineResult {
    var line := Trim(raw);
    if line == "" || line[0] == '#' then Skip
    else Dispatch(line[..TokenEnd(line)], SkipSpaces(line[TokenEnd(line)..]), last)
  }

  // ---- Well-formed games ----

  predicate NoSpaces(s: string) { forall i :: 0 <= i < |s| ==> !IsSpace(s[i]) && s[i] != EOS }

  predicate LabelOk(gameLabel: Option<string>) {
    gameLabel.Some? ==> gameLabel.value != "" && gameLabel.value != "-" && NoSpaces(gameLabel.value)
  }

  /** One line, with no spaces at its ends. */
  predicate TitleOk(title: string) {
    && (forall i :: 0 <= i < |title| ==> title[i] != '\n' && title[i] != EOS)
    && (title != "" ==> !IsSpace(title[0]) && !IsSpace(title[|title| - 1]))
  }

  /** Each move passes the test of the reader on its board. */
  predicate AcceptedRun(p: Position, moves: seq<Move>)
    decreases moves
  {
    moves == [] || (Sound(p) && Accepts(p, moves[0]) && AcceptedRun(Play(p, moves[0]), moves[1..]))
  }

  /** The command can be written after commands that left the board `last`. */
  predicate CommandOk(cmd: Command, last: Option<Position>) {
    match cmd
    case GameCommand(_, gameLabel) => LabelOk(gameLabel)
    case TitleCommand(title) => TitleOk(title)
    case BoardCommand(board) => Settled(board)
    case MovesCommand(moves) => moves != [] && last.Some? && AcceptedRun(last.value, moves)
  }

  /** The board after a command. */
  function BoardAfter(cmd: Command, last: Option<Position>): Option<Position> {
    match cmd
    case GameCommand(_, _) => None
    case TitleCommand(_) => last
    case BoardCommand(board) => Some(board)
    case MovesCommand(moves) => if last.Some? then Some(PlayRun(last.value, moves)) else last
  }

  // ---- The start line ----

  lemma FullRow(s: Cells, x: nat, row: seq<Cell>, text: string)
    requires x < 8 && |row| == |text| == 8 && s[8 * x..8 * x + 8] == row
    requires forall j :: 0 <= j < 8 ==> row[j].Man? && text[j] == CellToChar(row[j])
    ensures RowText(s, x, 0, 0) == text
  {
    hide CellToChar;
    for j := 8 downto 0
      invariant RowText(s, x, j, 0) == text[j..]
    {
      assert s[8 * x + j] == row[j];
      assert text[j..] == [text[j]] + text[j + 1..];
    }
  }

  lemma EmptyRow(s: Cells, x: nat)
    requires x < 8 && s[8 * x..8 * x + 8] == Blank(8)
    ensures RowText(s, x, 0, 0) == "8"
  {
    for j := 8 downto 0
      invariant RowText(s, x, j, j) == "8"
    {
      assert s[8 * x + j] == Blank(8)[j];
    }
  }

  lemma BackRowText(s: Cells, x: nat, c: Color)
    requires x < 8 && s[8 * x..8 * x + 8] == BackRow(c)
    ensures RowText(s, x, 0, 0) == if c.White? then "RNBQKBNR" else "rnbqkbnr"
  {
    FullRow(s, x, BackRow(c), if c.White? then "RNBQKBNR" else "rnbqkbnr");
  }

  lemma PawnRowText(s: Cells, x: nat, c: Color)
    requires x < 8 && s[8 * x..8 * x + 8] == PawnRow(c)
    ensures RowText(s, x, 0, 0) == if c.White? then "PPPPPPPP" else "pppppppp"
  {
    FullRow(s, x, PawnRow(c), if c.White? then "PPPPPPPP" else "pppppppp");
  }

  lemma InitialSlices()
    ensures var s := InitialCells();
      && s[0..8] == BackRow(Black) && s[8..16] == PawnRow(Black)
      && s[16..24] == s[24..32] == s[32..40] == s[40..48] == Blank(8)
      && s[48..56] == PawnRow(White) && s[56..64] == BackRow(White)
  {
    hide BackRow;
    hide PawnRow;
  }

  lemma NextRow(s: Cells, x: nat, row: string, rest: string)
    requires x < 8 && RowText(s, x, 0, 0) == row && RowsText(s, x + 1) == rest
    ensures RowsText(s, x) == if x == 0 then row + rest else Slash(row, rest)
  {
    hide RowText;
    assert "" + row == row;
  }

  lemma NoRows(s: Cells)
    ensures RowsText(s, 8) == ""
  {}

  lemma EightRows(s: Cells, a: string, b: string, c: string, d: string, e: string, f: string, g: string, h: string)
    requires RowText(s, 0, 0, 0) == a && RowText(s, 1, 0, 0) == b
      && RowText(s, 2, 0, 0) == c && RowText(s, 3, 0, 0) == d
    requires RowText(s, 4, 0, 0) == e && RowText(s, 5, 0, 0) == f
      && RowText(s, 6, 0, 0) == g && RowText(s, 7, 0, 0) == h
    ensures RowsText(s, 0) ==
      a + Slash(b, Slash(c, Slash(d, Slash(e, Slash(f, Slash(g, Slash(h, "")))))))
  {
    hide RowText;
    hide RowsText;
    hide Slash;
    NoRows(s);
    NextRow(s, 7, h, "");
    NextRow(s, 6, g, RowsText(s, 7));
    NextRow(s, 5, f, RowsText(s, 6));
    NextRow(s, 4, e, RowsText(s, 5));
    NextRow(s, 3, d, RowsText(s, 4));
    NextRow(s, 2, c, RowsText(s, 3));
    NextRow(s, 1, b, RowsText(s, 2));
    NextRow(s, 0, a, RowsText(s, 1));
  }

  lemma InitialRows()
    ensures RowsText(InitialCells(), 0) == InitialRowsText()
  {
    var s := InitialCells();
    hide RowText;
    hide RowsText;
    hide InitialCells;
    hide Slash;
    InitialSlices();
    BackRowText(s, 0, Black);
    PawnRowText(s, 1, Black);
    EmptyRow(s, 2);
    EmptyRow(s, 3);
    EmptyRow(s, 4);
    EmptyRow(s, 5);
    PawnRowText(s, 6, White);
    BackRowText(s, 7, White);
    EightRows(s, "rnbqkbnr", "pppppppp", "8", "8", "8", "8", "PPPPPPPP", "RNBQKBNR");
  }

  /** The text that is written as "start" is the text of the initial position, and of no other. */
  lemma InitialText()
    ensures FenText(InitialPosition()) == INITIAL_POSITION_FEN
  {
    InitialRows();
    InitialFields();
    var p := InitialPosition();
    hide RowsText;
    hide InitialCells;
    hide InitialRowsText;
    hide CastlingText;
    hide EnpassantText;
    hide Digits;
    hide FenText;
    FenInOrder(p, RowsText(p.cells, 0), CastlingText(p.castling), EnpassantText(p.side, p.enpassant),
      Digits(p.moveCounter), Digits(p.moveNumber));
  }

  lemma InitialFields()
    ensures CastlingText(ALL_CASTLING) == "KQkq"
    ensures EnpassantText(White, -1) == "-" && Digits(0) == "0" && Digits(1) == "1"
  {
    assert FlagsText(ALL_CASTLING, 4) == "";
    assert FlagsText(ALL_CASTLING, 3) == "q";
    assert FlagsText(ALL_CASTLING, 2) == "kq";
    assert FlagsText(ALL_CASTLING, 1) == "Qkq";
    assert FlagsText(ALL_CASTLING, 0) == "KQkq";
  }

  // ---- One line is read back ----

  lemma {:induction false} SkipsNothing(s: string)
    requires s == "" || !IsSpace(s[0])
    ensures SkipSpaces(s) == s
  {}

  lemma SkipOne(s: string)
    requires s == "" || !IsSpace(s[0])
    ensures SkipSpaces(" " + s) == s
  {
    assert (" " + s)[1..] == s;
    SkipsNothing(s);
  }

  lemma TrimKeeps(s: string)
    requires s != "" ==> !IsSpace(s[0]) && !IsSpace(s[|s| - 1])
    ensures Trim(s) == s
  {}

  /** A name, a space and a body. */
  lemma NamedLine(name: string, body: string, last: Option<Position>)
    requires name != "" && NoSpaces(name) && name[0] != '#'
    requires body != "" ==> !IsSpace(body[0]) && !IsSpace(body[|body| - 1])
    ensures ParseLine(name + " " + body, last) == Dispatch(name, body, last)
  {
    var line := name + " " + body;
    hide Dispatch;
    if body == "" {
      assert line[..|line| - 1] == name;
      assert SkipSpaces(line) == line;
      TrimKeeps(name);
      assert Trim(line) == name;
      TokenAt(name, "");
      assert name + "" == name;
    } else {
      TrimKeeps(line);
      TokenAt(name, " " + body);
      assert line == name + (" " + body);
      assert line[|name|..] == " " + body;
      SkipOne(body);
    }
  }

  lemma HeaderLine(winner: Winner, gameLabel: string, last: Option<Position>)
    requires gameLabel != "" && NoSpaces(gameLabel)
    ensures ReadHeader([WinnerToChar(winner)] + " " + gameLabel, last) ==
      Read(GameCommand(winner, if gameLabel == "-" then None else Some(gameLabel)), None)
  {
    var w := [WinnerToChar(winner)];
    var body := w + " " + gameLabel;
    TokenAt(w, " " + gameLabel);
    assert body == w + (" " + gameLabel);
    assert body[1..] == " " + gameLabel;
    SkipOne(gameLabel);
    TokenAt(gameLabel, "");
    assert gameLabel + "" == gameLabel;
  }

  /** The text of the moves begins with a space, ends without one and has no line end. */
  lemma {:induction false} MovesTextEnds(moves: seq<Move>)
    ensures moves != [] ==> |MovesText(moves)| >= 2
    ensures MovesText(moves) != "" ==> MovesText(moves)[0] == ' ' && !IsSpace(MovesText(moves)[|MovesText(moves)| - 1])
    ensures OneLine(MovesText(moves))
  {
    if moves != [] {
      MovesTextEnds(moves[1..]);
      MoveTextChars(moves[0]);
      hide MoveToStr;
    }
  }

  predicate OneLine(s: string) { forall i :: 0 <= i < |s| ==> s[i] != '\n' }

  lemma MoveTextChars(m: Move)
    ensures NoSpaces(MoveToStr(m)) && OneLine(MoveToStr(m)) && |MoveToStr(m)| >= 4
  {}

  lemma ReadOneMove(s: string, rest: string, p: Position, m: Move, done: seq<Move>)
    requires s != "" && NoSpaces(s) && (rest == "" || IsSpace(rest[0]))
    requires MoveParse(s, p) == m && Accepts(p, m)
    ensures ReadMoves(" " + s + rest, p, done) == ReadMoves(rest, Play(p, m), done + [m])
  {
    hide MoveParse;
    hide Accepts;
    hide Play;
    assert " " + s + rest == " " + (s + rest);
    SkipOne(s + rest);
    TokenAt(s, rest);
    assert (s + rest)[..|s|] == s && (s + rest)[|s|..] == rest;
  }

  lemma ReadNoMoves(p: Position, done: seq<Move>)
    ensures ReadMoves("", p, done) == Legal(done, p)
  {}

  lemma AcceptedMoveText(p: Position, m: Move)
    requires Sound(p) && Accepts(p, m)
    ensures MoveParse(MoveToStr(m), p) == m
  {
    hide MoveParse;
    hide MoveToStr;
    hide Sound;
    hide PseudoLegal;
    MoveRoundTrip(p, m);
  }

  /** Legal moves are read back one by one, each on its board. */
  lemma {:induction false} ReadMovesText(moves: seq<Move>, p: Position, done: seq<Move>)
    requires AcceptedRun(p, moves)
    ensures ReadMoves(MovesText(moves), p, done) == Legal(done + moves, PlayRun(p, moves))
    decreases moves
  {
    hide MoveToStr;
    hide MoveParse;
    hide Accepts;
    hide Play;
    hide Sound;
    hide ReadMoves;
    hide NoSpaces;
    if moves == [] {
      ReadNoMoves(p, done);
      assert done + moves == done;
    } else {
      var m, rest := moves[0], moves[1..];
      AcceptedMoveText(p, m);
      MoveTextChars(m);
      MovesTextEnds(rest);
      ReadOneMove(MoveToStr(m), MovesText(rest), p, m, done);
      ReadMovesText(rest, Play(p, m), done + [m]);
      assert (done + [m]) + rest == done + moves;
    }
  }

  lemma {:induction false} ReadMovesExtend(s: string, p: Position, done: seq<Move>)
    ensures ReadMoves(s, p, done).Legal? ==> done <= ReadMoves(s, p, done).moves
    decreases |s|
  {
    hide MoveParse;
    hide Accepts;
    hide Play;
    SkipSpacesShrinks(s);
    var t := SkipSpaces(s);
    if t != "" {
      var m := MoveParse(t[..TokenEnd(t)], p);
      if Accepts(p, m) {
        ReadMovesExtend(t[TokenEnd(t)..], Play(p, m), done + [m]);
      }
    }
  }

  /** Moves that are read back have all passed the test of the reader. */
  lemma {:induction false} ReadBackIsAccepted(moves: seq<Move>, p: Position, done: seq<Move>)
    requires Sound(p)
    requires ReadMoves(MovesText(moves), p, done).Legal? && ReadMoves(MovesText(moves), p, done).moves == done + moves
    ensures AcceptedRun(p, moves)
    decreases moves
  {
    hide MoveToStr;
    hide MoveParse;
    hide PseudoLegal;
    hide IsWellFormed;
    hide KeepsKing;
    hide Play;
    hide Sound;
    hide NoSpaces;
    if moves != [] {
      var text, rest := MoveToStr(moves[0]), moves[1..];
      var m := MoveParse(text, p);
      MoveTextChars(moves[0]);
      MovesTextEnds(rest);
      if Accepts(p, m) {
        hide ReadMoves;
        ReadOneMove(text, MovesText(rest), p, m, done);
        ReadMovesExtend(MovesText(rest), Play(p, m), done + [m]);
        assert m == (done + [m])[|done|] == (done + moves)[|done|] == moves[0];
        assert (done + [m]) + rest == done + moves;
        PlayKeepsSound(p, m);
        ReadBackIsAccepted(rest, Play(p, m), done + [m]);
      } else {
        RefusesOneMove(text, MovesText(rest), p, done);
      }
    }
  }

  lemma RefusesOneMove(s: string, rest: string, p: Position, done: seq<Move>)
    requires s != "" && NoSpaces(s) && (rest == "" || IsSpace(rest[0]))
    requires !Accepts(p, MoveParse(s, p))
    ensures ReadMoves(" " + s + rest, p, done) == Illegal(|done| + 1, p)
  {
    hide MoveParse;
    hide Accepts;
    hide Play;
    assert " " + s + rest == " " + (s + rest);
    SkipOne(s + rest);
    TokenAt(s, rest);
    assert (s + rest)[..|s|] == s && (s + rest)[|s|..] == rest;
  }

  // ---- The test of the reader on a board that is changed in place ----

  /** Whatever boards come up, they are sound, and there is a king wherever the reader looks for it. */
  ghost predicate Readable(s: string, p: Position)
    decreases |s|
  {
    SkipSpacesShrinks(s);
    var t := SkipSpaces(s);
    t == "" ||
    var m := MoveParse(t[..TokenEnd(t)], p);
    && Sound(p) && (PseudoLegal(p, m) ==> HasKing(p.cells, p.side))
    && (Accepts(p, m) ==> Readable(t[TokenEnd(t)..], Play(p, m)))
  }

  /** The answers of the three functions that the reader asks, taken together. */
  method TestMove(b: Board, m: Move) returns (r: bool)
    requires b.Consistent() && Sound(b.Pos()) && (PseudoLegal(b.Pos(), m) ==> HasKing(b.cells[..], b.side))
    ensures r <==> Accepts(b.Pos(), m)
    ensures OneKing(b.cells[..], b.side) ==> (r <==> IsLegal(b.Pos(), m))
  {
    hide Board.HashOk;
    hide Bitboards.PieceBoards.Match;
    hide Settled;
    hide Sound;
    hide PseudoLegal;
    hide IsWellFormed;
    hide KeepsKing;
    hide Play;
    hide KingExposed;
    hide OneKing;
    if PseudoLegal(b.Pos(), m) {
      PseudoLegalIsWellFormed(b.Pos(), m);
    }
    if !IsWellFormed(m, b.side) || !IsMoveValid(b, m) {
      return false;
    }
    r := IsMoveLegal(b, m);
  }

  /** Tests and makes the moves of a text one by one. */
  method ReadMovesInPlace(b: Board, body: string) returns (r: MovesResult)
    requires b.Consistent() && Readable(body, b.Pos())
    modifies b, b.cells
    ensures b.Consistent() && r == ReadMoves(body, old(b.Pos()), []) && r.last == b.Pos()
  {
    hide Board.HashOk;
    hide Bitboards.PieceBoards.Match;
    hide Settled;
    hide Sound;
    hide PseudoLegal;
    hide Accepts;
    hide Play;
    hide MoveParse;
    var moves, rest := [], body;
    while true
      invariant b.Consistent() && Readable(rest, b.Pos())
      invariant ReadMoves(rest, b.Pos(), moves) == ReadMoves(body, old(b.Pos()), [])
      decreases |rest|
    {
      SkipSpacesShrinks(rest);
      var t := SkipSpaces(rest);
      if t == "" {
        return Legal(moves, b.Pos());
      }
      var m := MoveParse(t[..TokenEnd(t)], b.Pos());
      var accepted := TestMove(b, m);
      if !accepted {
        return Illegal(|moves| + 1, b.Pos());
      }
      AcceptedIsPlayable(b.Pos(), m);
      moves, rest := moves + [m], t[TokenEnd(t)..];
      var _ := b.MoveMake(m);
    }
  }

  lemma AcceptedIsPlayable(p: Position, m: Move)
    requires Accepts(p, m)
    ensures PseudoLegal(p, m) && Playable(p, m)
  {}

  /** On a valid board any text may be read. */
  lemma {:induction false} ValidIsReadable(s: string, p: Position)
    requires Valid(p)
    ensures Readable(s, p)
    decreases |s|
  {
    hide MoveParse;
    hide PseudoLegal;
    hide KeepsKing;
    hide KingExposed;
    hide Play;
    hide IsWellFormed;
    SkipSpacesShrinks(s);
    var t := SkipSpaces(s);
    if t != "" {
      var m := MoveParse(t[..TokenEnd(t)], p);
      assert OneKing(p.cells, p.side);
      if Accepts(p, m) {
        KeepsTheKing(p, m);
        PlayKeepsValid(p, m);
        ValidIsReadable(t[TokenEnd(t)..], Play(p, m));
      }
    }
  }

  /** The text of moves that the reader accepts may be read. */
  lemma {:induction false} AcceptedIsReadable(moves: seq<Move>, p: Position)
    requires AcceptedRun(p, moves)
    ensures Readable(MovesText(moves), p)
    decreases moves
  {
    hide MoveParse;
    hide MoveToStr;
    hide PseudoLegal;
    hide Play;
    hide IsWellFormed;
    hide Sound;
    hide NoSpaces;
    if moves != [] {
      var m, text, rest := moves[0], MoveToStr(moves[0]), MovesText(moves[1..]);
      AcceptedMoveText(p, m);
      MoveTextChars(m);
      MovesTextEnds(moves[1..]);
      AcceptedIsReadable(moves[1..], Play(p, m));
      assert " " + text + rest == " " + (text + rest);
      SkipOne(text + rest);
      TokenAt(text, rest);
      assert (text + rest)[..|text|] == text && (text + rest)[|text|..] == rest;
    }
  }

  /** From a valid board on the reader accepts every run of legal moves. */
  lemma {:induction false} LegalIsAccepted(p: Position, moves: seq<Move>)
    requires Valid(p) && LegalRun(p, moves)
    ensures AcceptedRun(p, moves)
    decreases moves
  {
    hide PseudoLegal;
    hide IsWellFormed;
    hide KingExposed;
    hide KeepsKing;
    hide Play;
    if moves != [] {
      PseudoLegalIsWellFormed(p, moves[0]);
      KeepsTheKing(p, moves[0]);
      assert OneKing(p.cells, p.side);
      PlayKeepsValid(p, moves[0]);
      LegalIsAccepted(Play(p, moves[0]), moves[1..]);
    }
  }

  /** "r3k3/8/8/8/8/8/8/K3K3 w - - 0 1": two white kings. */
  function TwoKings(): Position {
    Position(seq(64, i => if i == 0 then Man(Black, Rook) else if i == 4 then Man(Black, King)
      else if i == 56 || i == 60 then Man(White, King) else Empty), White, {}, -1, 0, 1)
  }

  /** "a1a2" steps into the view of the rook and is refused, although no side's one king is attacked after it. */
  lemma TwoKingsAreRefused()
    ensures var p, m := TwoKings(), Move(Simple, 56, 48);
      Sound(p) && IsLegal(p, m) && !Accepts(p, m)
  {
    var p, m := TwoKings(), Move(Simple, 56, 48);
    assert p.cells[56] == p.cells[60] == Man(White, King);
    var t := CellsAfter(p, m);
    assert t[48] == t[60] == Man(White, King) && t[0] == Man(Black, Rook);
    assert RookSees(Occupied(t), 0, 48);
    assert 0 in Attackers(t, Black, 48);
  }

  /** A name and a text that begins with a space. */
  lemma SplitLine(name: string, text: string, last: Option<Position>)
    requires name != "" && NoSpaces(name) && name[0] != '#'
    requires text != "" && IsSpace(text[0]) && !IsSpace(text[|text| - 1])
    ensures ParseLine(name + text, last) == Dispatch(name, SkipSpaces(text), last)
  {
    var line := name + text;
    hide Dispatch;
    TrimKeeps(line);
    TokenAt(name, text);
    assert line[|name|..] == text && line[..|name|] == name;
  }

  lemma MovesLine(moves: seq<Move>, p: Position)
    requires moves != [] && AcceptedRun(p, moves)
    ensures ParseLine("moves" + MovesText(moves), Some(p)) == Read(MovesCommand(moves), Some(PlayRun(p, moves)))
  {
    var text := MovesText(moves);
    hide AcceptedRun;
    hide MovesText;
    hide ReadMoves;
    hide ParseLine;
    hide SkipSpaces;
    hide PlayRun;
    ReadMovesText(moves, p, []);
    assert [] + moves == moves;
    MovesTextEnds(moves);
    ReadAfterSkip(text, p, []);
    BodyIsThere(text);
    SplitLine("moves", text, Some(p));
  }

  lemma ReadAfterSkip(s: string, p: Position, done: seq<Move>)
    ensures ReadMoves(SkipSpaces(s), p, done) == ReadMoves(s, p, done)
  {
    SkipSpacesShrinks(s);
    SkipsNothing(SkipSpaces(s));
  }

  lemma {:induction false} BodyIsThere(s: string)
    requires s != "" && !IsSpace(s[|s| - 1])
    ensures SkipSpaces(s) != ""
  {
    if IsSpace(s[0]) {
      assert |s| > 1;
      BodyIsThere(s[1..]);
    }
  }

  // ---- Boards ----

  lemma NoSpacesJoined(a: string, b: string)
    requires NoSpaces(a) && NoSpaces(b)
    ensures NoSpaces(a + b)
  {}

  lemma {:induction false} RowTextChars(s: Cells, x: nat, j: nat, empty: nat)
    requires x < 8 && empty <= j <= 8
    ensures NoSpaces(RowText(s, x, j, empty)) && (j < 8 || empty > 0 ==> RowText(s, x, j, empty) != "")
    decreases 8 - j
  {
    if j < 8 {
      if s[8 * x + j] == Empty {
        RowTextChars(s, x, j + 1, empty + 1);
      } else {
        RowTextChars(s, x, j + 1, 0);
      }
    }
  }

  lemma {:induction false} RowsTextChars(s: Cells, x: nat)
    requires x <= 8
    ensures NoSpaces(RowsText(s, x)) && (x == 0 ==> RowsText(s, x) != "")
    decreases 8 - x
  {
    hide RowText;
    if x < 8 {
      RowTextChars(s, x, 0, 0);
      RowsTextChars(s, x + 1);
      var slash := if x == 0 then "" else "/";
      assert NoSpaces(slash);
      hide NoSpaces;
      NoSpacesJoined(slash, RowText(s, x, 0, 0));
      NoSpacesJoined(slash + RowText(s, x, 0, 0), RowsText(s, x + 1));
    }
  }

  lemma FieldChars(p: Position)
    ensures OneLine(CastlingText(p.castling)) && OneLine(EnpassantText(p.side, p.enpassant))
  {
    CastlingChars(p.castling);
    EnpassantChars(p.side, p.enpassant);
    hide CastlingText;
    hide EnpassantText;
  }

  lemma {:induction false} FlagsChars(castling: set<CastlingFlag>, i: nat)
    requires i <= 4
    ensures OneLine(FlagsText(castling, i))
    decreases 4 - i
  {
    if i < 4 {
      FlagsChars(castling, i + 1);
    }
  }

  lemma CastlingChars(castling: set<CastlingFlag>)
    ensures OneLine(CastlingText(castling))
  {
    FlagsChars(castling, 0);
    hide FlagsText;
  }

  lemma EnpassantChars(side: Color, enpassant: EnpassantCoord)
    ensures OneLine(EnpassantText(side, enpassant))
  {}

  lemma DigitsEnd(n: nat)
    ensures OneLine(Digits(n)) && Digits(n) != "" && !IsSpace(Digits(n)[|Digits(n)| - 1])
  {
    hide Digits;
    assert IsDigit(Digits(n)[|Digits(n)| - 1]);
  }

  /** Text of one line that does not end with a space. */
  predicate EndsWell(s: string) { OneLine(s) && s != "" && !IsSpace(s[|s| - 1]) }

  lemma Joined(a: string, b: string)
    requires OneLine(a)
    ensures EndsWell(b) ==> EndsWell(a + b)
    ensures OneLine(b) ==> OneLine(a + b)
  {}

  lemma CountersEnd(p: Position)
    ensures EndsWell(CountersText(p))
  {
    DigitsEnd(p.moveCounter);
    DigitsEnd(p.moveNumber);
    hide Digits;
    Joined(" ", Digits(p.moveNumber));
    Joined(Digits(p.moveCounter), " " + Digits(p.moveNumber));
  }

  lemma FlagFieldsEnd(p: Position)
    ensures EndsWell(FlagFieldsText(p))
  {
    hide CountersText;
    hide CastlingText;
    hide EnpassantText;
    CountersEnd(p);
    FieldChars(p);
    hide EndsWell;
    hide OneLine;
    SpaceIsOneLine();
    Joined(EnpassantText(p.side, p.enpassant), " ");
    Joined(EnpassantText(p.side, p.enpassant) + " ", CountersText(p));
    Joined(CastlingText(p.castling), " ");
    Joined(CastlingText(p.castling) + " ", EnpassantText(p.side, p.enpassant) + " " + CountersText(p));
  }

  lemma SpaceIsOneLine()
    ensures OneLine(" ") && forall c: Color :: OneLine([SideToChar(c)])
  {}

  lemma FenTextEnds(p: Position)
    ensures EndsWell(FenText(p)) && !IsSpace(FenText(p)[0])
  {
    hide FlagFieldsText;
    hide RowsText;
    RowsTextChars(p.cells, 0);
    FlagFieldsEnd(p);
    assert FenText(p)[0] == RowsText(p.cells, 0)[0];
    SpaceIsOneLine();
    hide OneLine;
    Joined(" ", FlagFieldsText(p));
    Joined([SideToChar(p.side)], " " + FlagFieldsText(p));
    Joined(RowsText(p.cells, 0), " ");
    Joined(RowsText(p.cells, 0) + " ", [SideToChar(p.side)] + (" " + FlagFieldsText(p)));
  }

  lemma StartLine(last: Option<Position>)
    ensures ParseLine("start", last) == Read(BoardCommand(InitialPosition()), Some(InitialPosition()))
  {
    hide InitialPosition;
    TrimKeeps("start");
    TokenAt("start", "");
    assert "start" + "" == "start";
  }

  /** A board is read back, as "start" or from its text. */
  lemma BoardLine(board: Position, last: Option<Position>)
    requires Settled(board)
    ensures ParseLine(CommandText(BoardCommand(board)), last) == Read(BoardCommand(board), Some(board))
  {
    hide FenText;
    hide ParseFen;
    hide ParseLine;
    hide InitialPosition;
    if FenText(board) == INITIAL_POSITION_FEN {
      InitialText();
      InitialRowOk();
      FenIsInjective(board, InitialPosition());
      StartLine(last);
    } else {
      FenRoundTrip(board);
      SettledIsNormal(board);
      FenTextEnds(board);
      NamedLine("board", FenText(board), last);
      assert CommandText(BoardCommand(board)) == "board" + " " + FenText(board);
    }
  }

  lemma InitialRowOk()
    ensures EnpassantRowOk(InitialPosition())
  {}

  // ---- Every command ----

  lemma DispatchHeader(body: string, last: Option<Position>)
    ensures Dispatch("game", body, last) == ReadHeader(body, last)
  {
    hide ReadHeader;
  }

  lemma HeaderEnds(winner: Winner, text: string)
    requires text != "" && NoSpaces(text)
    ensures var body := [WinnerToChar(winner)] + " " + text;
      body != "" && !IsSpace(body[0]) && !IsSpace(body[|body| - 1])
  {}

  lemma NamesAndSpaces()
    ensures "game" + " " == "game " && "title" + " " == "title "
  {}

  lemma GameLine(winner: Winner, gameLabel: Option<string>, last: Option<Position>)
    requires LabelOk(gameLabel)
    ensures ParseLine(CommandText(GameCommand(winner, gameLabel)), last) == Read(GameCommand(winner, gameLabel), None)
  {
    var text := if gameLabel.Some? then gameLabel.value else "-";
    assert text != "" && NoSpaces(text);
    var body := [WinnerToChar(winner)] + " " + text;
    HeaderEnds(winner, text);
    hide ParseLine;
    hide ReadHeader;
    hide WinnerToChar;
    hide IsSpace;
    hide Dispatch;
    HeaderLine(winner, text, last);
    DispatchHeader(body, last);
    NamedLine("game", body, last);
    NamesAndSpaces();
    assert CommandText(GameCommand(winner, gameLabel)) == "game " + body;
  }

  lemma TitleLine(title: string, last: Option<Position>)
    requires TitleOk(title)
    ensures ParseLine(CommandText(TitleCommand(title)), last) == Read(TitleCommand(title), last)
  {
    hide ParseLine;
    NamedLine("title", title, last);
    NamesAndSpaces();
  }

  /** Each command is read back from its line, and leaves the board that it should. */
  lemma CommandLine(cmd: Command, last: Option<Position>)
    requires CommandOk(cmd, last)
    ensures ParseLine(CommandText(cmd), last) == Read(cmd, BoardAfter(cmd, last))
  {
    hide ParseLine;
    match cmd
    case GameCommand(winner, gameLabel) =>
      hide CommandText;
      GameLine(winner, gameLabel, last);
    case TitleCommand(title) =>
      hide CommandText;
      TitleLine(title, last);
    case BoardCommand(board) =>
      hide Settled;
      hide CommandText;
      BoardLine(board, last);
    case MovesCommand(moves) =>
      hide AcceptedRun;
      hide MovesText;
      MovesLine(moves, last.value);
  }

  lemma CommandIsOneLine(cmd: Command, last: Option<Position>)
    requires CommandOk(cmd, last)
    ensures OneLine(CommandText(cmd))
  {
    NamesAreOneLine();
    match cmd
    case GameCommand(winner, gameLabel) =>
      var text := if gameLabel.Some? then gameLabel.value else "-";
      assert OneLine(text) && OneLine([WinnerToChar(winner)] + " ");
      hide OneLine;
      Joined([WinnerToChar(winner)] + " ", text);
      Joined("game ", [WinnerToChar(winner)] + " " + text);
    case TitleCommand(title) =>
      Joined("title ", title);
    case BoardCommand(board) =>
      FenTextEnds(board);
      hide FenText;
      hide OneLine;
      Joined("board ", FenText(board));
    case MovesCommand(moves) =>
      MovesTextEnds(moves);
      hide MovesText;
      hide OneLine;
      Joined("moves", MovesText(moves));
  }

  lemma NamesAreOneLine()
    ensures OneLine("game ") && OneLine("title ") && OneLine("board ") && OneLine("moves") && OneLine("start")
  {}

  /** The four results as the format names them. */
  lemma WinnerLetters()
    ensures CommandText(GameCommand(WhiteWins, None)) == "game W -"
    ensures CommandText(GameCommand(BlackWins, None)) == "game B -"
    ensures CommandText(GameCommand(Draw, None)) == "game D -"
    ensures CommandText(GameCommand(Unknown, None)) == "game ? -"
  {
    assert ['W'] + " " + "-" == "W -" && ['B'] + " " + "-" == "B -";
    assert ['D'] + " " + "-" == "D -" && ['?'] + " " + "-" == "? -";
  }
}

/** Reading games from a text, with one command of look-ahead. */
module GameReading {
  import opened Types
  import opened Rules
  import opened Runs
  import opened GameSet

  /** What is left of the text, how many lines were read, and the board for later moves. */
  datatype Stream = Stream(text: string, line: nat, board: Option<Position>)

  datatype Status = Got(command: Command) | Bad(line: nat, message: string) | EndOfStream

  datatype GameResult = GameOk(game: Game) | GameErr(error: Status)

  function LineEnd(s: string): (n: nat)
    ensures n <= |s|
  {
    if s == "" || s[0] == '\n' then 0 else 1 + LineEnd(s[1..])
  }

  /** The text behind the first line and its end. */
  function AfterLine(s: string): (r: string)
    ensures s != "" ==> |r| < |s|
  {
    if LineEnd(s) == |s| then "" else s[LineEnd(s) + 1..]
  }

  /** The next command; blank lines, comments and unknown commands are skipped. */
  function ReadCommand(st: Stream): (r: (Status, Stream))
    ensures r.0.Got? ==> |r.1.text| < |st.text|
    decreases |st.text|
  {
    if st.text == "" then (EndOfStream, st)
    else
      var rest, n := AfterLine(st.text), st.line + 1;
      match ParseLine(st.text[..LineEnd(st.text)], st.board)
      case Skip => ReadCommand(Stream(rest, n, st.board))
      case Fail(message, board) => (Bad(n, message), Stream(rest, n, board))
      case Read(command, board) => (Got(command), Stream(rest, n, board))
  }

  function Apply(g: Game, cmd: Command): Game {
    match cmd
    case TitleCommand(title) => g.(title := Some(title))
    case GameCommand(_, _) => g
    case _ => g.(commands := g.commands + [cmd])
  }

  /** The commands up to the next header, the end or an error; and the command that was read last. */
  function ReadBody(st: Stream, g: Game): (GameResult, Status, Stream)
    decreases |st.text|
  {
    var (status, next) := ReadCommand(st);
    match status
    case EndOfStream => (GameOk(g), status, next)
    case Bad(_, _) => (GameErr(status), status, next)
    case Got(cmd) =>
      if cmd.GameCommand? then (GameOk(g), status, next) else ReadBody(next, Apply(g, cmd))
  }

  class GameReader {
    var stream: Stream
    var lastCommand: Status

    constructor (text: string)
      ensures var (status, next) := ReadCommand(Stream(text, 0, None)); lastCommand == status && stream == next
    {
      stream := Stream(text, 0, None);
      new;
      lastCommand := Next();
    }

    /** Reads lines until one of them is a command. */
    method Next() returns (status: Status)
      modifies `stream
      ensures (status, stream) == ReadCommand(old(stream))
    {
      while true
        invariant ReadCommand(stream) == ReadCommand(old(stream))
        decreases |stream.text|
      {
        if stream.text == "" {
          return EndOfStream;
        }
        var raw, n := stream.text[..LineEnd(stream.text)], stream.line + 1;
        var rest, result := AfterLine(stream.text), ParseLine(raw, stream.board);
        match result
        case Skip =>
          stream := Stream(rest, n, stream.board);
        case Fail(message, board) =>
          stream := Stream(rest, n, board);
          return Bad(n, message);
        case Read(command, board) =>
          stream := Stream(rest, n, board);
          return Got(command);
      }
    }

    /** Reads one game. The header of the next one, or the end, is kept for the next call. */
    method NextGame() returns (r: GameResult)
      modifies this
      ensures old(lastCommand).Got? && old(lastCommand).command.GameCommand? ==>
        (r, lastCommand, stream) == ReadBody(old(stream),
          Game(old(lastCommand).command.winner, old(lastCommand).command.gameLabel, None, []))
      ensures old(lastCommand).Got? && !old(lastCommand).command.GameCommand? ==>
        r.GameErr? && r.error.Bad? && lastCommand == old(lastCommand) && stream == old(stream)
      ensures !old(lastCommand).Got? ==>
        r == GameErr(old(lastCommand)) && lastCommand == old(lastCommand) && stream == old(stream)
    {
      if !lastCommand.Got? {
        return GameErr(lastCommand);
      }
      if !lastCommand.command.GameCommand? {
        return GameErr(Bad(stream.line, "First command must be \"game\""));
      }
      hide ReadCommand;
      var game := Game(lastCommand.command.winner, lastCommand.command.gameLabel, None, []);
      ghost var all := ReadBody(stream, game);
      while true
        invariant ReadBody(stream, game) == all
        decreases |stream.text|
      {
        CommandsShorten(stream);
        var status := Next();
        if !status.Got? {
          lastCommand := status;
          return if status.EndOfStream? then GameOk(game) else GameErr(status);
        }
        if status.command.GameCommand? {
          lastCommand := status;
          return GameOk(game);
        }
        game := Apply(game, status.command);
      }
    }
  }

  lemma CommandsShorten(st: Stream)
    ensures ReadCommand(st).0.Got? ==> |ReadCommand(st).1.text| < |st.text|
  {}

  // ---- Well-formed games ----

  ghost predicate CommandsOk(commands: seq<Command>, last: Option<Position>)
    decreases commands
  {
    commands == [] ||
    (CommandOk(commands[0], last) && !commands[0].GameCommand?
      && CommandsOk(commands[1..], BoardAfter(commands[0], last)))
  }

  /** A header, at most one title before the boards, and legal moves on the boards that precede them. */
  ghost predicate GameIsOk(g: Game) {
    && LabelOk(g.gameLabel) && (g.title.Some? ==> TitleOk(g.title.value))
    && CommandsOk(g.commands, None)
    && forall i :: 0 <= i < |g.commands| ==> g.commands[i].BoardCommand? || g.commands[i].MovesCommand?
  }

  /** The text of a game behind its first line. */
  function BodyText(g: Game): string { CommandsText(AllCommands(g)[1..]) + "\n" }

  // ---- Reading back ----

  lemma {:induction false} FirstLine(t: string, rest: string)
    requires OneLine(t)
    ensures LineEnd(t + "\n" + rest) == |t| && (t + "\n" + rest)[..|t|] == t && AfterLine(t + "\n" + rest) == rest
  {
    LineEndAt(t, rest);
    assert (t + "\n" + rest)[..|t|] == t;
    assert (t + "\n" + rest)[|t| + 1..] == rest;
  }

  lemma {:induction false} LineEndAt(t: string, rest: string)
    requires OneLine(t)
    ensures LineEnd(t + "\n" + rest) == |t|
  {
    if t == "" {
      assert (t + "\n" + rest)[0] == '\n';
    } else {
      LineEndAt(t[1..], rest);
      assert (t + "\n" + rest)[1..] == t[1..] + "\n" + rest;
    }
  }

  /** A written command is the next command that is read. */
  lemma ReadWritten(cmd: Command, rest: string, line: nat, last: Option<Position>)
    requires CommandOk(cmd, last)
    ensures ReadCommand(Stream(CommandText(cmd) + "\n" + rest, line, last)) ==
      (Got(cmd), Stream(rest, line + 1, BoardAfter(cmd, last)))
  {
    hide ParseLine;
    hide CommandText;
    hide CommandOk;
    hide BoardAfter;
    hide LineEnd;
    hide AfterLine;
    CommandLine(cmd, last);
    CommandIsOneLine(cmd, last);
    FirstLine(CommandText(cmd), rest);
  }

  lemma ReadBlank(rest: string, line: nat, last: Option<Position>)
    ensures ReadCommand(Stream("\n" + rest, line, last)) == ReadCommand(Stream(rest, line + 1, last))
  {
    FirstLine("", rest);
    assert "" + "\n" + rest == "\n" + rest;
    BlankLine(last);
    hide ParseLine;
    hide LineEnd;
    hide AfterLine;
  }

  lemma BlankLine(last: Option<Position>)
    ensures ParseLine("", last) == Skip
  {}

  function ApplyAll(g: Game, commands: seq<Command>): Game
    decreases commands
  {
    if commands == [] then g else ApplyAll(Apply(g, commands[0]), commands[1..])
  }

  function BoardAfterAll(commands: seq<Command>, last: Option<Position>): Option<Position>
    decreases commands
  {
    if commands == [] then last else BoardAfterAll(commands[1..], BoardAfter(commands[0], last))
  }

  /** The written commands of a game are read one by one into it. */
  lemma {:induction false} ReadCommands(
    commands: seq<Command>, tail: string, line: nat, last: Option<Position>, g: Game)
    requires CommandsOk(commands, last)
    ensures ReadBody(Stream(CommandsText(commands) + tail, line, last), g) ==
      ReadBody(Stream(tail, line + |commands|, BoardAfterAll(commands, last)), ApplyAll(g, commands))
    decreases commands
  {
    hide ReadCommand;
    hide CommandText;
    hide CommandOk;
    hide BoardAfter;
    hide Apply;
    if commands == [] {
      assert CommandsText(commands) + tail == tail;
    } else {
      var cmd, rest := commands[0], CommandsText(commands[1..]) + tail;
      assert CommandsText(commands) + tail == CommandText(cmd) + "\n" + rest;
      ReadWritten(cmd, rest, line, last);
      ReadCommands(commands[1..], tail, line + 1, BoardAfter(cmd, last), Apply(g, cmd));
    }
  }

  /** A reader that is about to give back exactly these games. */
  ghost predicate Holds(lastCommand: Status, stream: Stream, games: seq<Game>) {
    if games == [] then lastCommand == EndOfStream
    else
      && lastCommand == Got(GameCommand(games[0].winner, games[0].gameLabel))
      && stream.text == BodyText(games[0]) + GamesText(games[1..])
      && stream.board == None
  }

  /** After the end of a game the next header is read, or the end. */
  lemma NextHeader(games: seq<Game>, line: nat, last: Option<Position>)
    requires forall i :: 0 <= i < |games| ==> GameIsOk(games[i])
    ensures var (status, next) := ReadCommand(Stream(GamesText(games), line, last)); Holds(status, next, games)
  {
    if games != [] {
      var g := games[0];
      var cmd := GameCommand(g.winner, g.gameLabel);
      var rest := BodyText(g) + GamesText(games[1..]);
      assert AllCommands(g)[0] == cmd;
      assert GamesText(games) == CommandText(cmd) + "\n" + rest;
      assert CommandOk(cmd, last);
      ReadWritten(cmd, rest, line, last);
    }
  }

  /** The commands of a game rebuild it from its header. */
  lemma Rebuilt(g: Game)
    requires GameIsOk(g)
    ensures CommandsOk(AllCommands(g)[1..], None)
    ensures ApplyAll(Game(g.winner, g.gameLabel, None, []), AllCommands(g)[1..]) == g
  {
    var empty := Game(g.winner, g.gameLabel, None, []);
    if g.title.Some? {
      var cmd := TitleCommand(g.title.value);
      assert AllCommands(g)[1..] == [cmd] + g.commands;
      assert ([cmd] + g.commands)[1..] == g.commands;
      AddCommands(empty.(title := g.title), g.commands);
    } else {
      assert AllCommands(g)[1..] == g.commands;
      AddCommands(empty, g.commands);
    }
  }

  lemma {:induction false} AddCommands(g: Game, commands: seq<Command>)
    requires forall i :: 0 <= i < |commands| ==> commands[i].BoardCommand? || commands[i].MovesCommand?
    ensures ApplyAll(g, commands) == g.(commands := g.commands + commands)
    decreases commands
  {
    if commands == [] {
      assert g.commands + commands == g.commands;
    } else {
      AddCommands(Apply(g, commands[0]), commands[1..]);
      assert g.commands + [commands[0]] + commands[1..] == g.commands + commands;
    }
  }

  /** The next header, or the end, closes a game. */
  lemma BodyEnds(st: Stream, g: Game, rest: seq<Game>)
    requires Holds(ReadCommand(st).0, ReadCommand(st).1, rest)
    ensures ReadBody(st, g) == (GameOk(g), ReadCommand(st).0, ReadCommand(st).1)
  {
    hide ReadCommand;
  }

  lemma HeldText(lastCommand: Status, stream: Stream, games: seq<Game>)
    requires Holds(lastCommand, stream, games) && games != []
    ensures lastCommand == Got(GameCommand(games[0].winner, games[0].gameLabel)) && stream.board == None
    ensures stream.text == CommandsText(AllCommands(games[0])[1..]) + ("\n" + GamesText(games[1..]))
  {
    hide CommandsText;
    hide GamesText;
  }

  /** Reading a game up to the next header, or to the end. */
  lemma WholeGame(g: Game, rest: seq<Game>, line: nat) returns (status: Status, next: Stream)
    requires GameIsOk(g) && forall i :: 0 <= i < |rest| ==> GameIsOk(rest[i])
    ensures ReadBody(Stream(CommandsText(AllCommands(g)[1..]) + ("\n" + GamesText(rest)), line, None),
      Game(g.winner, g.gameLabel, None, [])) == (GameOk(g), status, next)
    ensures Holds(status, next, rest)
  {
    hide ReadCommand;
    hide ReadBody;
    hide Holds;
    hide GameIsOk;
    hide CommandsOk;
    hide AllCommands;
    hide CommandsText;
    hide GamesText;
    hide ApplyAll;
    hide BoardAfterAll;
    var commands := AllCommands(g)[1..];
    var n := line + |commands|;
    Rebuilt(g);
    var board := BoardAfterAll(commands, None);
    ReadCommands(commands, "\n" + GamesText(rest), line, None, Game(g.winner, g.gameLabel, None, []));
    ReadBlank(GamesText(rest), n, board);
    NextHeader(rest, n + 1, board);
    BodyEnds(Stream("\n" + GamesText(rest), n, board), g, rest);
    status, next := ReadCommand(Stream(GamesText(rest), n + 1, board)).0,
      ReadCommand(Stream(GamesText(rest), n + 1, board)).1;
  }

  /** Reading the first of the games leaves a reader that holds the others. */
  lemma FirstGame(games: seq<Game>, lastCommand: Status, stream: Stream)
    requires games != [] && forall i :: 0 <= i < |games| ==> GameIsOk(games[i])
    requires Holds(lastCommand, stream, games)
    ensures lastCommand == Got(GameCommand(games[0].winner, games[0].gameLabel))
    ensures var (r, status, next) := ReadBody(stream, Game(games[0].winner, games[0].gameLabel, None, []));
      r == GameOk(games[0]) && Holds(status, next, games[1..])
  {
    hide ReadBody;
    hide Holds;
    hide GameIsOk;
    hide AllCommands;
    hide CommandsText;
    hide GamesText;
    HeldText(lastCommand, stream, games);
    var status, next := WholeGame(games[0], games[1..], stream.line);
  }

  lemma NothingHeld(lastCommand: Status, stream: Stream)
    requires Holds(lastCommand, stream, [])
    ensures lastCommand == EndOfStream
  {}

  /** What was written for any list of well-formed games is read back as these games, in order, and then
      the end of the stream. */
  method ReadBack(games: seq<Game>) returns (read: seq<Game>, last: GameResult)
    requires forall i :: 0 <= i < |games| ==> GameIsOk(games[i])
    ensures read == games && last == GameErr(EndOfStream)
  {
    hide GameIsOk;
    hide ReadCommand;
    hide ReadBody;
    hide Holds;
    hide GamesText;
    NextHeader(games, 0, None);
    var reader := new GameReader(GamesText(games));
    read := [];
    for i := 0 to |games|
      invariant read == games[..i] && fresh(reader)
      invariant Holds(reader.lastCommand, reader.stream, games[i..])
    {
      assert games[i..][1..] == games[i + 1..] && games[i..][0] == games[i];
      FirstGame(games[i..], reader.lastCommand, reader.stream);
      var r := reader.NextGame();
      read := read + [r.game];
    }
    assert games[|games|..] == [];
    NothingHeld(reader.lastCommand, reader.stream);
    last := reader.NextGame();
  }
}

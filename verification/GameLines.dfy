/** Which lines of a game set are read, which are refused and which are skipped. */
module GameLines {
  import opened Types
  import opened Rules
  import opened Runs
  import opened Invariants
  import Boards
  import opened Fen
  import opened MoveText
  import opened GameSet

  const NAMES: set<string> := {"game", "title", "start", "board", "moves"}

  predicate IsBlank(s: string) { forall i :: 0 <= i < |s| ==> IsSpace(s[i]) }

  lemma {:induction false} BlankIsSkipped(s: string)
    ensures SkipSpaces(s) == "" <==> IsBlank(s)
  {
    if s != "" && IsSpace(s[0]) {
      BlankIsSkipped(s[1..]);
      assert forall i :: 0 < i < |s| ==> s[i] == s[1..][i - 1];
    }
  }

  /** One letter of a winner, a space, and something behind it. */
  predicate IsHeader(body: string) {
    && |body| >= 2 && (body[0] == '?' || body[0] == 'W' || body[0] == 'B' || body[0] == 'D')
    && IsSpace(body[1]) && !IsBlank(body[1..])
  }

  lemma HeaderIsRead(body: string, last: Option<Position>)
    ensures ReadHeader(body, last).Read? <==> IsHeader(body)
    ensures ReadHeader(body, last).Fail? <==> !IsHeader(body)
    ensures ReadHeader(body, last).board == if IsHeader(body) then None else last
  {
    if body != "" && !IsSpace(body[0]) {
      assert TokenEnd(body) == 1 + TokenEnd(body[1..]);
      assert |body| > 1 ==> body[1..][0] == body[1];
      BlankIsSkipped(body[1..]);
      if TokenEnd(body) == 1 {
        SkipSpacesShrinks(body[1..]);
      }
    }
  }

  /** The words of a line. */
  function Words(s: string): seq<string>
    decreases |s|
  {
    SkipSpacesShrinks(s);
    var t := SkipSpaces(s);
    if t == "" then [] else [t[..TokenEnd(t)]] + Words(t[TokenEnd(t)..])
  }

  /** The moves are what the first words mean, each on the board after those before it. */
  predicate MeansMoves(words: seq<string>, p: Position, moves: seq<Move>)
    decreases moves
  {
    moves == [] ||
    (words != [] && moves[0] == MoveParse(words[0], p) && MeansMoves(words[1..], Play(p, moves[0]), moves[1..]))
  }

  /** What the reader makes of the words of a line: `moves` are accepted, and then either there are no more words,
      or the next one is refused, by its number and on the board that those moves lead to. */
  ghost predicate IsReading(words: seq<string>, p: Position, n: nat, r: MovesResult, moves: seq<Move>) {
    && MeansMoves(words, p, moves) && AcceptedRun(p, moves) && r.last == PlayRun(p, moves)
    && if r.Legal? then |moves| == |words|
       else |moves| < |words| && r.number == n + |moves| + 1 && !Accepts(r.last, MoveParse(words[|moves|], r.last))
  }

  lemma {:induction false} MovesAreRead(s: string, p: Position, done: seq<Move>) returns (moves: seq<Move>)
    requires Sound(p)
    ensures IsReading(Words(s), p, |done|, ReadMoves(s, p, done), moves)
    ensures ReadMoves(s, p, done).Legal? ==> ReadMoves(s, p, done).moves == done + moves
    decreases |s|
  {
    hide MoveParse;
    hide Accepts;
    hide Sound;
    hide Play;
    SkipSpacesShrinks(s);
    var t := SkipSpaces(s);
    moves := [];
    if t != "" {
      var word, rest := t[..TokenEnd(t)], t[TokenEnd(t)..];
      var m := MoveParse(word, p);
      if Accepts(p, m) {
        AcceptedKeepsSound(p, m);
        var more := MovesAreRead(rest, Play(p, m), done + [m]);
        moves := [m] + more;
        assert moves[1..] == more && Words(s) == [word] + Words(rest) && Words(s)[1..] == Words(rest);
      }
    }
  }

  lemma AcceptedKeepsSound(p: Position, m: Move)
    requires Sound(p) && Accepts(p, m)
    ensures Sound(Play(p, m))
  {
    PlayKeepsSound(p, m);
  }

  /** The line does not do what its name asks for. */
  ghost predicate IsRefused(name: string, body: string, last: Option<Position>) {
    || (name == "game" && !IsHeader(body))
    || (name == "board" && ParseFen(body).No?)
    || (name == "moves" && (last.None? || body == "" || ReadMoves(body, last.value, []).Illegal?))
  }

  /** A refused line leaves the board alone, except that the moves before an illegal one have been made. */
  function BoardAfterRefusal(name: string, body: string, last: Option<Position>): Option<Position> {
    if name == "moves" && last.Some? && body != "" then Some(ReadMoves(body, last.value, []).last) else last
  }

  /** A line is refused for what is wrong with it, skipped if its name is unknown, and read otherwise. */
  lemma LinesAreSorted(name: string, body: string, last: Option<Position>)
    ensures Dispatch(name, body, last).Skip? <==> name !in NAMES
    ensures Dispatch(name, body, last).Fail? <==> IsRefused(name, body, last)
    ensures Dispatch(name, body, last).Fail? ==>
      Dispatch(name, body, last).board == BoardAfterRefusal(name, body, last)
  {
    hide ParseFen;
    hide ReadMoves;
    hide Boards.Normalized;
    HeaderIsRead(body, last);
    hide ReadHeader;
  }

  /** Blank lines and comments are skipped as well. */
  lemma CommentsAreSkipped(raw: string, last: Option<Position>)
    ensures ParseLine(raw, last).Skip? <==>
      Trim(raw) == "" || Trim(raw)[0] == '#' || Trim(raw)[..TokenEnd(Trim(raw))] !in NAMES
  {
    var line := Trim(raw);
    if line != "" && line[0] != '#' {
      LinesAreSorted(line[..TokenEnd(line)], SkipSpaces(line[TokenEnd(line)..]), last);
    }
    hide Dispatch;
  }
}

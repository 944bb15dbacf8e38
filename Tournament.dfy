/** The round-robin harness of scripts/tournament.py. An engine is driven
    over a text channel: the commands written to its standard input are
    recorded in `sent`, and what the engine prints is a scripted sequence of
    events, each either a line or the moment a 30-second wait runs out,
    that is, the clock check before the next read fails (a read itself
    blocks, so an engine that stays silent is not timed out).
    Launching a process and waiting for it to exit are reduced to the
    outcome the operating system reports (`Env`). */
module Tournament {
  import opened Fen

  /** Plies after which a game is declared drawn. */
  const MAX_MOVES: nat := 300

  // ---------------------------------------------------------------- text

  predicate StartsWith(s: string, prefix: string)
  {
    |prefix| <= |s| && s[..|prefix|] == prefix
  }

  function StripStart(s: string): (r: string)
    ensures |r| <= |s| && r == s[|s| - |r|..]
    ensures r == [] || !IsSpace(r[0])
  {
    if s != [] && IsSpace(s[0]) then StripStart(s[1..]) else s
  }

  function StripEnd(s: string): (r: string)
    ensures |r| <= |s| && r == s[..|r|]
    ensures r == [] || !IsSpace(r[|r| - 1])
  {
    if s != [] && IsSpace(s[|s| - 1]) then StripEnd(s[..|s| - 1]) else s
  }

  /** `str.strip()`: the line without white space at either end. */
  function Strip(s: string): (r: string)
    ensures r == [] || (!IsSpace(r[0]) && !IsSpace(r[|r| - 1]))
  {
    StripEnd(StripStart(s))
  }

  // ---------------------------------------------------------------- options

  /** A dictionary of engine options: keys in insertion order. */
  type Options = seq<(string, string)>

  predicate DistinctKeys(opts: Options)
  {
    forall i, j :: 0 <= i < j < |opts| ==> opts[i].0 != opts[j].0
  }

  predicate HasKey(opts: Options, key: string)
  {
    exists i :: 0 <= i < |opts| && opts[i].0 == key
  }

  /** What the file system says about the default tablebase directory and
      opening-book file next to the script. */
  datatype Install = Install(syzygyPath: string, syzygyIsDir: bool, bookPath: string, bookIsFile: bool)

  /** Setting a key a dictionary lacks appends it. */
  function SetNew(opts: Options, key: string, value: string): (r: Options)
    requires DistinctKeys(opts) && !HasKey(opts, key)
    ensures |r| == |opts| + 1 && r[..|opts|] == opts && r[|opts|] == (key, value)
    ensures DistinctKeys(r) && HasKey(r, key)
  {
    var r := opts + [(key, value)];
    assert r[|opts|].0 == key;
    r
  }

  /** Add `key` with `value` when `wanted` and the key is not given yet. */
  function AddDefault(opts: Options, key: string, value: string, wanted: bool): (r: Options)
    requires DistinctKeys(opts)
    ensures DistinctKeys(r)
    ensures |opts| <= |r| <= |opts| + 1 && r[..|opts|] == opts
    ensures forall i :: |opts| <= i < |r| ==> r[i] == (key, value)
    ensures forall k :: HasKey(r, k) <==> HasKey(opts, k) || (k == key && wanted)
  {
    if wanted && !HasKey(opts, key) then
      var r := SetNew(opts, key, value);
      assert forall k :: HasKey(opts, k) ==> HasKey(r, k) by {
        forall k | HasKey(opts, k) ensures HasKey(r, k) {
          var i :| 0 <= i < |opts| && opts[i].0 == k;
          assert r[i] == opts[i];
        }
      }
      assert forall k :: HasKey(r, k) ==> HasKey(opts, k) || k == key by {
        forall k | HasKey(r, k) ensures HasKey(opts, k) || k == key {
          var i :| 0 <= i < |r| && r[i].0 == k;
          if i < |opts| {
            assert opts[i] == r[i];
          }
        }
      }
      r
    else
      opts
  }

  /** The options an engine starts with: the given ones, then the default
      tablebase path and book path when enabled, not given, and present. */
  function WithDefaults(opts: Options, useSyzygy: bool, useBook: bool, fs: Install): (r: Options)
    requires DistinctKeys(opts)
  {
    var a := AddDefault(opts, "SyzygyPath", fs.syzygyPath, useSyzygy && fs.syzygyIsDir);
    AddDefault(a, "BookPath", fs.bookPath, useBook && fs.bookIsFile)
  }

  /** Given options are kept in order and never overwritten; the defaults
      are added after them only when enabled and present. */
  lemma WithDefaultsSpec(opts: Options, useSyzygy: bool, useBook: bool, fs: Install)
    requires DistinctKeys(opts)
    ensures var r := WithDefaults(opts, useSyzygy, useBook, fs);
      && DistinctKeys(r)
      && |opts| <= |r| && r[..|opts|] == opts
      && (forall i :: |opts| <= i < |r| ==> r[i] == ("SyzygyPath", fs.syzygyPath) || r[i] == ("BookPath", fs.bookPath))
      && (HasKey(r, "SyzygyPath") <==> HasKey(opts, "SyzygyPath") || (useSyzygy && fs.syzygyIsDir))
      && (HasKey(r, "BookPath") <==> HasKey(opts, "BookPath") || (useBook && fs.bookIsFile))
  {
    var a := AddDefault(opts, "SyzygyPath", fs.syzygyPath, useSyzygy && fs.syzygyIsDir);
    var r := AddDefault(a, "BookPath", fs.bookPath, useBook && fs.bookIsFile);
    assert "SyzygyPath"[0] != "BookPath"[0];
    assert r[..|opts|] == r[..|a|][..|opts|];
  }

  function SetOption(opt: (string, string)): string
  {
    "setoption name " + opt.0 + " value " + opt.1
  }

  /** One `setoption` command per option, in dictionary order. */
  function SetOptions(opts: Options): (r: seq<string>)
    ensures |r| == |opts|
    ensures forall i :: 0 <= i < |opts| ==> r[i] == SetOption(opts[i])
  {
    if opts == [] then [] else SetOptions(opts[..|opts| - 1]) + [SetOption(opts[|opts| - 1])]
  }

  // ---------------------------------------------------------------- channel

  /** What the engine's standard output delivers next: a line, or the
      point where the current wait's clock check, made before each read,
      finds its deadline passed. `readline` itself blocks, so silence alone
      never ends a wait. */
  datatype Event = Line(text: string) | Deadline

  datatype Channel = Channel(sent: seq<string>, inbox: seq<Event>)

  /** `_wait_for`: read lines until one, stripped, starts with `expected`,
      and return it with the events left. A deadline ends the wait with
      nothing; so does the end of the output, where every further read gives
      the empty line. */
  function Await(inbox: seq<Event>, expected: string): (r: (Option<string>, seq<Event>))
    ensures r.0.Some? ==> StartsWith(r.0.value, expected)
    decreases |inbox|
  {
    if inbox == [] then (if StartsWith("", expected) then Some("") else None, [])
    else match inbox[0]
      case Deadline => (None, inbox[1..])
      case Line(text) =>
        if StartsWith(Strip(text), expected) then (Some(Strip(text)), inbox[1..])
        else Await(inbox[1..], expected)
  }

  /** The line at index i answers a wait: every event before it is a line
      that does not start with `expected`. */
  predicate Skipped(inbox: seq<Event>, expected: string, i: nat)
    requires i <= |inbox|
  {
    forall k :: 0 <= k < i ==> inbox[k].Line? && !StartsWith(Strip(inbox[k].text), expected)
  }

  lemma {:induction false} AwaitFinds(inbox: seq<Event>, expected: string, i: nat)
    requires i < |inbox| && Skipped(inbox, expected, i)
    requires inbox[i].Line? && StartsWith(Strip(inbox[i].text), expected)
    ensures Await(inbox, expected) == (Some(Strip(inbox[i].text)), inbox[i + 1..])
  {
    if i > 0 {
      AwaitFinds(inbox[1..], expected, i - 1);
      assert inbox[1..][i - 1 + 1..] == inbox[i + 1..];
    }
  }

  lemma AwaitLine(inbox: seq<Event>, expected: string, i: nat, line: string)
    requires i < |inbox| && Skipped(inbox, expected, i)
    requires inbox[i] == Line(line) && Strip(line) == line && StartsWith(line, expected)
    ensures Await(inbox, expected).0 == Some(line)
  {
    AwaitFinds(inbox, expected, i);
  }

  lemma {:induction false} AwaitTimesOut(inbox: seq<Event>, expected: string, i: nat)
    requires i < |inbox| && Skipped(inbox, expected, i) && inbox[i] == Deadline
    ensures Await(inbox, expected) == (None, inbox[i + 1..])
  {
    if i > 0 {
      AwaitTimesOut(inbox[1..], expected, i - 1);
      assert inbox[1..][i - 1 + 1..] == inbox[i + 1..];
    }
  }

  // ---------------------------------------------------------------- commands

  /** The `position` command for the start position or a FEN, with the moves
      played so far. */
  function PositionCommand(fen: string, moves: seq<string>): string
  {
    var movesText := if |moves| > 0 then " moves " + Join(moves) else "";
    if fen == "startpos" then "position startpos" + movesText
    else "position fen " + fen + movesText
  }

  /** `go movetime` when a non-zero move time is given, else `go depth`. */
  function GoCommand(depth: int, movetime: Option<int>): string
  {
    if movetime.Some? && movetime.value != 0 then "go movetime " + IntToString(movetime.value)
    else "go depth " + IntToString(depth)
  }

  /** The second word of the `bestmove` line, if there is one. */
  function BestMoveToken(line: Option<string>): (r: Option<string>)
    ensures r.Some? ==> line.Some? && |Words(line.value)| >= 2 && r.value == Words(line.value)[1]
    ensures line.Some? && |Words(line.value)| >= 2 ==> r.Some?
  {
    if line.Some? && line.value != "" then
      var parts := Words(line.value);
      if |parts| >= 2 then Some(parts[1]) else None
    else None
  }

  /** The harness's reading of a reply as "the engine has no move". */
  predicate NoMove(move: Option<string>)
  {
    move.None? || move.value == "" || move.value == "0000" || move.value == "(none)"
  }

  function StartOn(c: Channel, opts: Options): Channel
  {
    var afterUci := Await(c.inbox, "uciok").1;
    Channel(c.sent + ["uci"] + SetOptions(opts) + ["isready"], Await(afterUci, "readyok").1)
  }

  function NewGameOn(c: Channel): Channel
  {
    Channel(c.sent + ["ucinewgame", "isready"], Await(c.inbox, "readyok").1)
  }

  function QuitOn(c: Channel): Channel
  {
    Channel(c.sent + ["quit"], c.inbox)
  }

  function GetMoveOn(c: Channel, fen: string, moves: seq<string>, depth: int, movetime: Option<int>): (Option<string>, Channel)
  {
    var (line, rest) := Await(c.inbox, "bestmove");
    (BestMoveToken(line), Channel(c.sent + [PositionCommand(fen, moves), GoCommand(depth, movetime)], rest))
  }

  lemma StripUnchanged(s: string)
    requires s != [] && !IsSpace(s[0]) && !IsSpace(s[|s| - 1])
    ensures Strip(s) == s
  {
  }

  /** The line `bestmove <token>` is read back unchanged and yields the token. */
  lemma BestMoveLine(token: string)
    requires |token| > 0 && NoSpace(token)
    ensures Strip("bestmove " + token) == "bestmove " + token
    ensures StartsWith("bestmove " + token, "bestmove")
    ensures BestMoveToken(Some("bestmove " + token)) == Some(token)
  {
    var line := "bestmove " + token;
    assert line[|line| - 1] == token[|token| - 1];
    StripUnchanged(line);
    assert line[..8] == "bestmove";
    assert line == Join(["bestmove", token]);
    WordsOfJoin(["bestmove", token]);
  }

  /** A reply that carries a move token makes `get_move` return that token. */
  lemma GetMoveReturnsToken(c: Channel, fen: string, moves: seq<string>, depth: int, movetime: Option<int>, i: nat, token: string)
    requires i < |c.inbox| && Skipped(c.inbox, "bestmove", i)
    requires c.inbox[i] == Line("bestmove " + token) && |token| > 0 && NoSpace(token)
    ensures GetMoveOn(c, fen, moves, depth, movetime).0 == Some(token)
  {
    var line := "bestmove " + token;
    BestMoveLine(token);
    AwaitLine(c.inbox, "bestmove", i, line);
  }

  // ---------------------------------------------------------------- engine

  /** What the operating system does during one game: whether each engine's
      process can be launched, and whether it exits within the two seconds
      `stop` waits for it. */
  datatype Env = Env(whiteSpawns: bool, blackSpawns: bool, whiteExits: bool, blackExits: bool)

  /** Both engines launch and both exit in time. */
  predicate Smooth(e: Env)
  {
    e.whiteSpawns && e.blackSpawns && e.whiteExits && e.blackExits
  }

  /** Every game of a tournament runs smoothly. */
  ghost predicate AllSmooth(env: nat -> Env)
  {
    forall g :: Smooth(env(g))
  }

  class Engine {
    const name: string
    const path: string
    const options: Options
    /** `process` is set. */
    var running: bool
    var sent: seq<string>
    var inbox: seq<Event>

    function Chan(): Channel
      reads this
    {
      Channel(sent, inbox)
    }

    constructor (name: string, path: string, given: Options, useSyzygy: bool, useBook: bool, fs: Install, replies: seq<Event>)
      requires DistinctKeys(given)
      ensures this.name == name && this.path == path
      ensures options == WithDefaults(given, useSyzygy, useBook, fs)
      ensures !running && sent == [] && inbox == replies
    {
      this.name := name;
      this.path := path;
      this.options := WithDefaults(given, useSyzygy, useBook, fs);
      running := false;
      sent := [];
      inbox := replies;
    }

    method Send(command: string)
      requires running
      modifies this`sent
      ensures sent == old(sent) + [command]
    {
      sent := sent + [command];
    }

    method WaitFor(expected: string) returns (line: Option<string>)
      requires running
      modifies this`inbox
      ensures (line, inbox) == Await(old(inbox), expected)
    {
      while true
        invariant Await(inbox, expected) == Await(old(inbox), expected)
        decreases |inbox|
      {
        if inbox == [] {
          // the output is closed: every read gives "" until the deadline
          line := if StartsWith("", expected) then Some("") else None;
          return;
        }
        var event := inbox[0];
        inbox := inbox[1..];
        if event.Deadline? {
          line := None;
          return;
        }
        var text := Strip(event.text);
        if StartsWith(text, expected) {
          line := Some(text);
          return;
        }
      }
    }

    /** `start`: launch, `uci`, options, `isready`. The replies to the two
        waits are not checked: a wait that times out does not stop it. */
    method Start(spawns: bool) returns (ok: bool)
      modifies this
      ensures ok == spawns
      ensures !spawns ==> unchanged(this)
      ensures spawns ==> running && Chan() == StartOn(old(Chan()), options)
    {
      if !spawns {
        return false;
      }
      running := true;
      Send("uci");
      var ack := WaitFor("uciok");
      var i := 0;
      while i < |options|
        invariant 0 <= i <= |options| && running
        invariant sent == old(sent) + ["uci"] + SetOptions(options[..i])
        invariant inbox == Await(old(inbox), "uciok").1
      {
        assert options[..i + 1][..i] == options[..i];
        Send(SetOption(options[i]));
        i := i + 1;
      }
      assert options[..i] == options;
      Send("isready");
      ack := WaitFor("readyok");
      ok := true;
    }

    /** `stop`: `quit`, then wait up to two seconds; a process that does not
        exit raises, and `process` stays set. */
    method Stop(exits: bool) returns (ok: bool)
      modifies this
      ensures !old(running) ==> ok && unchanged(this)
      ensures old(running) ==> Chan() == QuitOn(old(Chan())) && ok == exits && running == !exits
    {
      if running {
        Send("quit");
        if !exits {
          return false;
        }
        running := false;
      }
      ok := true;
    }

    method NewGame()
      requires running
      modifies this
      ensures running && Chan() == NewGameOn(old(Chan()))
    {
      Send("ucinewgame");
      Send("isready");
      var ack := WaitFor("readyok");
    }

    method GetMove(fen: string, moves: seq<string>, depth: int, movetime: Option<int>) returns (move: Option<string>)
      requires running
      modifies this
      ensures running && (move, Chan()) == GetMoveOn(old(Chan()), fen, moves, depth, movetime)
    {
      Send(PositionCommand(fen, moves));
      Send(GoCommand(depth, movetime));
      var line := WaitFor("bestmove");
      move := BestMoveToken(line);
      assert sent == old(sent) + [PositionCommand(fen, moves), GoCommand(depth, movetime)];
    }
  }


  // ---------------------------------------------------------------- one game

  /** The `result` field of a game record. */
  datatype Verdict = WhiteWins | BlackWins | Drawn
  {
    function Text(): string
    {
      match this
      case WhiteWins => "1-0"
      case BlackWins => "0-1"
      case Drawn => "1/2-1/2"
    }
  }

  /** The `reason` field of a game record. */
  datatype Reason = Checkmate | MaxMoves
  {
    function Text(): string
    {
      match this
      case Checkmate => "checkmate"
      case MaxMoves => "max moves"
    }
  }

  datatype GameResult = GameResult(white: string, black: string, verdict: Verdict, moves: nat, reason: Reason)

  datatype Setup = Setup(white: string, black: string, depth: int, movetime: Option<int>)

  datatype Play = Play(result: GameResult, white: Channel, black: Channel)

  /** The move loop of `_play_game` from ply `|moves|` on: White is asked on
      even plies and Black on odd ones; a missing move ends the game as a
      win for the other side; 300 plies end it as a draw. */
  function PlayFrom(w: Channel, b: Channel, moves: seq<string>, s: Setup): Play
    requires |moves| <= MAX_MOVES
    decreases MAX_MOVES - |moves|
  {
    if |moves| == MAX_MOVES then
      Play(GameResult(s.white, s.black, Drawn, |moves|, MaxMoves), w, b)
    else if |moves| % 2 == 0 then
      var (move, w') := GetMoveOn(w, "startpos", moves, s.depth, s.movetime);
      if NoMove(move) then Play(GameResult(s.white, s.black, BlackWins, |moves|, Checkmate), w', b)
      else PlayFrom(w', b, moves + [move.value], s)
    else
      var (move, b') := GetMoveOn(b, "startpos", moves, s.depth, s.movetime);
      if NoMove(move) then Play(GameResult(s.white, s.black, WhiteWins, |moves|, Checkmate), w, b')
      else PlayFrom(w, b', moves + [move.value], s)
  }

  /** Every game ends with one of the three results: a draw, for reaching
      the move limit, exactly when 300 plies were played; otherwise a win
      for the side that was not to move at the last ply. */
  lemma {:induction false} PlayOutcome(w: Channel, b: Channel, moves: seq<string>, s: Setup)
    requires |moves| <= MAX_MOVES
    ensures var r := PlayFrom(w, b, moves, s).result;
      && r.white == s.white && r.black == s.black
      && |moves| <= r.moves <= MAX_MOVES
      && (r.verdict == Drawn <==> r.moves == MAX_MOVES)
      && (r.reason == MaxMoves <==> r.verdict == Drawn)
      && (r.verdict == BlackWins <==> r.moves < MAX_MOVES && r.moves % 2 == 0)
    decreases MAX_MOVES - |moves|
  {
    var n := |moves|;
    if n < MAX_MOVES {
      if n % 2 == 0 {
        var (move, w') := GetMoveOn(w, "startpos", moves, s.depth, s.movetime);
        if !NoMove(move) {
          PlayOutcome(w', b, moves + [move.value], s);
        }
      } else {
        var (move, b') := GetMoveOn(b, "startpos", moves, s.depth, s.movetime);
        if !NoMove(move) {
          PlayOutcome(w, b', moves + [move.value], s);
        }
      }
    }
  }

  /** When the engine to move answers with the null move `0000`, the game
      ends at that ply and the opponent wins. */
  lemma NullMoveEndsGame(w: Channel, b: Channel, moves: seq<string>, s: Setup, i: nat)
    requires |moves| < MAX_MOVES
    requires var c := if |moves| % 2 == 0 then w else b;
      i < |c.inbox| && Skipped(c.inbox, "bestmove", i) && c.inbox[i] == Line("bestmove 0000")
    ensures var r := PlayFrom(w, b, moves, s).result;
      && r.moves == |moves| && r.reason == Checkmate
      && r.verdict == (if |moves| % 2 == 0 then BlackWins else WhiteWins)
  {
    var c := if |moves| % 2 == 0 then w else b;
    assert "bestmove 0000" == "bestmove " + "0000";
    GetMoveReturnsToken(c, "startpos", moves, s.depth, s.movetime, i, "0000");
  }

  /** A read that times out before the `bestmove` line is taken for "no
      move" as well: the game ends at that ply, the opponent wins, and the
      record gives the reason as checkmate. */
  lemma TimeoutEndsGame(w: Channel, b: Channel, moves: seq<string>, s: Setup, i: nat)
    requires |moves| < MAX_MOVES
    requires var c := if |moves| % 2 == 0 then w else b;
      i < |c.inbox| && Skipped(c.inbox, "bestmove", i) && c.inbox[i] == Deadline
    ensures var r := PlayFrom(w, b, moves, s).result;
      && r.moves == |moves| && r.reason == Checkmate
      && r.verdict == (if |moves| % 2 == 0 then BlackWins else WhiteWins)
  {
    var c := if |moves| % 2 == 0 then w else b;
    AwaitTimesOut(c.inbox, "bestmove", i);
  }

  datatype Failure = SpawnFailed | StopTimedOut

  datatype Outcome = Finished(result: GameResult) | Raised(failure: Failure)

  /** The `finally` clause of `_play_game`: stop White, then Black. A stop
      that raises skips whatever follows it. */
  method Conclude(white: Engine, black: Engine, result: GameResult, env: Env) returns (out: Outcome)
    requires white != black && white.running && black.running
    modifies white, black
    ensures white.Chan() == QuitOn(old(white.Chan())) && white.running == !env.whiteExits
    ensures black.Chan() == (if env.whiteExits then QuitOn(old(black.Chan())) else old(black.Chan()))
    ensures black.running == !(env.whiteExits && env.blackExits)
    ensures out == (if env.whiteExits && env.blackExits then Finished(result) else Raised(StopTimedOut))
  {
    var ok := white.Stop(env.whiteExits);
    if !ok {
      return Raised(StopTimedOut);
    }
    ok := black.Stop(env.blackExits);
    if !ok {
      return Raised(StopTimedOut);
    }
    out := Finished(result);
  }

  function Prepared(c: Channel, opts: Options): Channel
  {
    NewGameOn(StartOn(c, opts))
  }

  /** `_play_game`. Start-up happens before the `try`: when Black cannot be
      launched, White is left running. Once the move loop has begun, both
      engines are sent `quit` on every way out, unless White's stop raises. */
  method PlayGame(white: Engine, black: Engine, depth: int, movetime: Option<int>, env: Env) returns (out: Outcome)
    requires white != black
    modifies white, black
    ensures !env.whiteSpawns ==> out == Raised(SpawnFailed) && unchanged(white) && unchanged(black)
    ensures env.whiteSpawns && !env.blackSpawns ==>
      && out == Raised(SpawnFailed) && unchanged(black)
      && white.running && white.Chan() == StartOn(old(white.Chan()), white.options)
    ensures env.whiteSpawns && env.blackSpawns ==>
      var p := PlayFrom(Prepared(old(white.Chan()), white.options), Prepared(old(black.Chan()), black.options),
                        [], Setup(white.name, black.name, depth, movetime));
      && white.Chan() == QuitOn(p.white) && white.running == !env.whiteExits
      && black.Chan() == (if env.whiteExits then QuitOn(p.black) else p.black)
      && black.running == !(env.whiteExits && env.blackExits)
      && out == (if env.whiteExits && env.blackExits then Finished(p.result) else Raised(StopTimedOut))
    ensures out.Finished? ==> out.result.white == white.name && out.result.black == black.name
  {
    var ok := white.Start(env.whiteSpawns);
    if !ok {
      return Raised(SpawnFailed);
    }
    ok := black.Start(env.blackSpawns);
    if !ok {
      return Raised(SpawnFailed);
    }
    white.NewGame();
    black.NewGame();
    ghost var setup := Setup(white.name, black.name, depth, movetime);
    ghost var play := PlayFrom(white.Chan(), black.Chan(), [], setup);
    PlayOutcome(white.Chan(), black.Chan(), [], setup);
    var moves: seq<string> := [];
    var moveNum := 0;
    while moveNum < MAX_MOVES
      invariant moveNum == |moves| <= MAX_MOVES
      invariant white.running && black.running
      invariant PlayFrom(white.Chan(), black.Chan(), moves, setup) == play
    {
      var current := if moveNum % 2 == 0 then white else black;
      var move := current.GetMove("startpos", moves, depth, movetime);
      if NoMove(move) {
        var verdict := if moveNum % 2 == 0 then BlackWins else WhiteWins;
        out := Conclude(white, black, GameResult(white.name, black.name, verdict, |moves|, Checkmate), env);
        return;
      }
      moves := moves + [move.value];
      moveNum := moveNum + 1;
    }
    out := Conclude(white, black, GameResult(white.name, black.name, Drawn, |moves|, MaxMoves), env);
  }

  // ---------------------------------------------------------------- schedule

  /** The games of one ordered pairing: the first engine has White in even
      games, the second in odd ones. */
  function Games(i: nat, j: nat, k: int): (r: seq<(nat, nat)>)
    ensures |r| == (if k > 0 then k else 0)
    decreases k
  {
    if k <= 0 then [] else Games(i, j, k - 1) + [if (k - 1) % 2 == 0 then (i, j) else (j, i)]
  }

  /** Colours alternate within a pairing, the first engine starting with White. */
  lemma {:induction false} GamesAlternate(i: nat, j: nat, k: int)
    ensures forall g :: 0 <= g < |Games(i, j, k)| ==> Games(i, j, k)[g] == (if g % 2 == 0 then (i, j) else (j, i))
    decreases k
  {
    if k > 0 {
      GamesAlternate(i, j, k - 1);
    }
  }

  /** The first c games of a pairing are the games of a c-game pairing. */
  lemma {:induction false} GamesPrefix(i: nat, j: nat, c: nat, k: int)
    requires c <= k
    ensures IsPrefix(Games(i, j, c), Games(i, j, k))
    decreases k - c
  {
    if c < k {
      GamesPrefix(i, j, c, k - 1);
      PrefixTransitive(Games(i, j, c), Games(i, j, k - 1), Games(i, j, k));
    }
  }

  /** The games engine i plays as first engine against engines 0 .. j - 1. */
  function Row(i: nat, j: nat, k: int): seq<(nat, nat)>
  {
    if j == 0 then [] else Row(i, j - 1, k) + (if i == j - 1 then [] else Games(i, j - 1, k))
  }

  /** The games of the first i engines of an n-engine roster as first
      engine, in the order `run_round_robin` plays them. */
  function Rows(n: nat, i: nat, k: int): seq<(nat, nat)>
  {
    if i == 0 then [] else Rows(n, i - 1, k) + Row(i - 1, n, k)
  }

  function Plan(n: nat, k: int): seq<(nat, nat)> { Rows(n, n, k) }

  lemma {:induction false} RowCount(i: nat, j: nat, k: nat)
    ensures |Row(i, j, k)| == (if i < j then j - 1 else j) * k
  {
    if j > 0 {
      RowCount(i, j - 1, k);
      if i < j - 1 {
        assert (j - 1) * k == (j - 2) * k + k;
      } else if i > j - 1 {
        assert j * k == (j - 1) * k + k;
      }
    }
  }

  lemma {:induction false} RowsCount(n: nat, i: nat, k: nat)
    requires i <= n
    ensures |Rows(n, i, k)| == i * ((n - 1) * k)
  {
    if i > 0 {
      var m := (n - 1) * k;
      RowsCount(n, i - 1, k);
      RowCount(i - 1, n, k);
      assert i * m == (i - 1) * m + m;
    }
  }

  /** A round robin of n engines and k games per ordered pairing plays
      n * (n - 1) * k games. */
  lemma PlanCount(n: nat, k: nat)
    ensures |Plan(n, k)| == n * (n - 1) * k
  {
    RowsCount(n, n, k);
    assert n * ((n - 1) * k) == n * (n - 1) * k;
  }

  predicate PairsWithin(plan: seq<(nat, nat)>, n: nat)
  {
    forall g :: 0 <= g < |plan| ==> plan[g].0 < n && plan[g].1 < n && plan[g].0 != plan[g].1
  }

  lemma PairsWithinAppend(a: seq<(nat, nat)>, b: seq<(nat, nat)>, n: nat)
    requires PairsWithin(a, n) && PairsWithin(b, n)
    ensures PairsWithin(a + b, n)
  {
    forall g | 0 <= g < |a + b|
      ensures (a + b)[g].0 < n && (a + b)[g].1 < n && (a + b)[g].0 != (a + b)[g].1
    {
      if g >= |a| {
        assert (a + b)[g] == b[g - |a|];
      }
    }
  }

  /** The games of one pairing of two different engines of the roster. */
  lemma GamesWithin(n: nat, i: nat, j: nat, k: int)
    requires i < n && j < n && i != j
    ensures PairsWithin(Games(i, j, k), n)
  {
    GamesAlternate(i, j, k);
  }

  lemma {:induction false} RowWithin(n: nat, i: nat, j: nat, k: int)
    requires i < n && j <= n
    ensures PairsWithin(Row(i, j, k), n)
  {
    if j > 0 {
      RowWithin(n, i, j - 1, k);
      if i != j - 1 {
        GamesWithin(n, i, j - 1, k);
        PairsWithinAppend(Row(i, j - 1, k), Games(i, j - 1, k), n);
      } else {
        assert Row(i, j, k) == Row(i, j - 1, k) + [];
      }
    }
  }

  /** Every scheduled game pairs two different engines of the roster. */
  lemma {:induction false} PlanWithin(n: nat, i: nat, k: int)
    requires i <= n
    ensures PairsWithin(Rows(n, i, k), n)
  {
    if i > 0 {
      PlanWithin(n, i - 1, k);
      RowWithin(n, i - 1, n, k);
      PairsWithinAppend(Rows(n, i - 1, k), Row(i - 1, n, k), n);
    }
  }

  /** Two engines, three games per pairing: over the whole tournament the
      first engine has White in games 0, 2 and 4. */
  lemma TwoEnginesThreeGames()
    ensures Plan(2, 3) == [(0, 1), (1, 0), (0, 1), (1, 0), (0, 1), (1, 0)]
  {
    assert Games(0, 1, 3) == [(0, 1), (1, 0), (0, 1)];
    assert Games(1, 0, 3) == [(1, 0), (0, 1), (1, 0)];
    assert Row(0, 1, 3) == [];
    assert Row(0, 2, 3) == Games(0, 1, 3);
    assert Row(1, 1, 3) == Games(1, 0, 3);
    assert Row(1, 2, 3) == Games(1, 0, 3);
  }

  lemma Associative<T>(a: seq<T>, b: seq<T>, c: seq<T>)
    ensures (a + b) + c == a + (b + c)
  {
  }

  predicate IsPrefix<T(==)>(a: seq<T>, b: seq<T>) { |a| <= |b| && b[..|a|] == a }

  lemma PrefixTransitive<T>(a: seq<T>, b: seq<T>, c: seq<T>)
    requires IsPrefix(a, b) && IsPrefix(b, c)
    ensures IsPrefix(a, c)
  {
    assert c[..|a|] == c[..|b|][..|a|];
  }

  lemma {:induction false} RowPrefix(i: nat, j: nat, j': nat, k: int)
    requires j <= j'
    ensures IsPrefix(Row(i, j, k), Row(i, j', k))
    decreases j' - j
  {
    if j < j' {
      RowPrefix(i, j, j' - 1, k);
      PrefixTransitive(Row(i, j, k), Row(i, j' - 1, k), Row(i, j', k));
    }
  }

  lemma {:induction false} RowsPrefix(n: nat, i: nat, i': nat, k: int)
    requires i <= i'
    ensures IsPrefix(Rows(n, i, k), Rows(n, i', k))
    decreases i' - i
  {
    if i < i' {
      RowsPrefix(n, i, i' - 1, k);
      PrefixTransitive(Rows(n, i, k), Rows(n, i' - 1, k), Rows(n, i', k));
    }
  }

  /** The games of a row played before game `game` of pairing (i, j) are a
      proper prefix of the whole row. */
  lemma RowCut(i: nat, j: nat, n: nat, game: nat, k: int)
    requires j < n && i != j && game < |Games(i, j, k)|
    ensures var before := Row(i, j, k) + Games(i, j, game);
      |before| < |Row(i, n, k)| && before == Row(i, n, k)[..|before|]
  {
    var row, games, played := Row(i, j, k), Games(i, j, k), Games(i, j, game);
    RowNext(i, j, k);
    GamesPrefix(i, j, game, k);
    RowPrefix(i, j + 1, n, k);
    PrefixExtend(row, played, games);
    PrefixTransitive(row + played, row + games, Row(i, n, k));
    assert IsPrefix(row + played, Row(i, n, k));
  }

  /** Row i grows by the games against engine j, unless j is i itself. */
  lemma RowNext(i: nat, j: nat, k: int)
    requires i != j
    ensures Row(i, j + 1, k) == Row(i, j, k) + Games(i, j, k)
  {
  }

  lemma PrefixExtend<T>(a: seq<T>, b: seq<T>, c: seq<T>)
    requires IsPrefix(b, c)
    ensures IsPrefix(a + b, a + c)
  {
    assert (a + c)[..|a + b|] == a + c[..|b|];
  }

  /** Stopping part-way through row i leaves a proper prefix of the plan. */
  lemma PlanCut(n: nat, i: nat, m: nat, k: int)
    requires i < n && m < |Row(i, n, k)|
    ensures var before := Rows(n, i, k) + Row(i, n, k)[..m];
      |before| < |Plan(n, k)| && before == Plan(n, k)[..|before|]
  {
    var rows, row := Rows(n, i, k), Row(i, n, k);
    assert Rows(n, i + 1, k) == rows + row;
    RowsPrefix(n, i + 1, n, k);
    PrefixTransitive(rows + row[..m], rows + row, Plan(n, k));
  }

  /** After a whole pairing the results follow the row one engine further. */
  lemma RowAdvance(played: seq<GameResult>, more: seq<GameResult>, i: nat, j: nat, k: int, es: seq<Engine>)
    requires i != j && Follows(played, Row(i, j, k), es) && Follows(more, Games(i, j, k), es)
    ensures Follows(played + more, Row(i, j + 1, k), es)
  {
    FollowsConcat(played, Row(i, j, k), more, Games(i, j, k), es);
  }

  /** A pairing cut short leaves results following a proper prefix of the row. */
  lemma RowStop(played: seq<GameResult>, more: seq<GameResult>, i: nat, j: nat, n: nat, count: nat, k: int, es: seq<Engine>)
    requires j < n && i != j && Follows(played, Row(i, j, k), es)
    requires count < |Games(i, j, k)| && Follows(more, Games(i, j, count), es)
    ensures |played + more| < |Row(i, n, k)| && Follows(played + more, Row(i, n, k)[..|played + more|], es)
  {
    FollowsConcat(played, Row(i, j, k), more, Games(i, j, count), es);
    RowCut(i, j, n, count, k);
  }

  /** After a whole row the results follow the schedule one row further. */
  lemma PlanAdvance(played: seq<GameResult>, more: seq<GameResult>, n: nat, i: nat, k: int, es: seq<Engine>)
    requires Follows(played, Rows(n, i, k), es) && Follows(more, Row(i, n, k), es)
    ensures Follows(played + more, Rows(n, i + 1, k), es)
  {
    FollowsConcat(played, Rows(n, i, k), more, Row(i, n, k), es);
  }

  /** A row cut short leaves results following a proper prefix of the plan. */
  lemma PlanStop(played: seq<GameResult>, more: seq<GameResult>, n: nat, i: nat, k: int, es: seq<Engine>)
    requires i < n && Follows(played, Rows(n, i, k), es)
    requires |more| < |Row(i, n, k)| && Follows(more, Row(i, n, k)[..|more|], es)
    ensures |played + more| < |Plan(n, k)| && Follows(played + more, Plan(n, k)[..|played + more|], es)
  {
    FollowsConcat(played, Rows(n, i, k), more, Row(i, n, k)[..|more|], es);
    PlanCut(n, i, |more|, k);
  }

  // ---------------------------------------------------------------- scores

  predicate Distinct(ns: seq<string>)
  {
    forall a, b :: 0 <= a < b < |ns| ==> ns[a] != ns[b]
  }

  /** The names of a roster without repeats, in order of first appearance:
      the key order of the score dictionary. */
  function FirstOccurrences(ns: seq<string>): (r: seq<string>)
    ensures Distinct(r)
    ensures forall x :: x in r <==> x in ns
  {
    if ns == [] then []
    else
      var d := FirstOccurrences(ns[..|ns| - 1]);
      assert forall x :: x in ns <==> x in ns[..|ns| - 1] || x == ns[|ns| - 1];
      if ns[|ns| - 1] in d then d else d + [ns[|ns| - 1]]
  }

  /** A score of zero for every name. */
  function Zeros(ns: seq<string>): (s: map<string, real>)
    ensures s.Keys == set x | x in ns
  {
    map x | x in ns :: 0.0
  }

  /** The points one game result is worth to a name: one for a win, half
      for each side of a draw that the name played. */
  function PointsOf(r: GameResult, name: string): real
  {
    match r.verdict
    case WhiteWins => if r.white == name then 1.0 else 0.0
    case BlackWins => if r.black == name then 1.0 else 0.0
    case Drawn => (if r.white == name then 0.5 else 0.0) + (if r.black == name then 0.5 else 0.0)
  }

  /** The points a sequence of results is worth to a name. */
  function Points(rs: seq<GameResult>, name: string): real
  {
    if rs == [] then 0.0 else Points(rs[..|rs| - 1], name) + PointsOf(rs[|rs| - 1], name)
  }

  lemma {:induction false} PointsConcat(a: seq<GameResult>, b: seq<GameResult>, name: string)
    ensures Points(a + b, name) == Points(a, name) + Points(b, name)
    decreases |b|
  {
    if b == [] {
      assert a + b == a;
    } else {
      assert (a + b)[..|a + b| - 1] == a + b[..|b| - 1];
      PointsConcat(a, b[..|b| - 1], name);
    }
  }

  function Credit(s: map<string, real>, name: string, points: real): (r: map<string, real>)
    requires name in s
    ensures r.Keys == s.Keys
  {
    s[name := s[name] + points]
  }

  /** `_update_scores`: every name gains exactly the points the result is
      worth to it. */
  function Scored(s: map<string, real>, r: GameResult): (t: map<string, real>)
    requires r.white in s && r.black in s
    ensures t.Keys == s.Keys
    ensures forall x :: x in s ==> t[x] == s[x] + PointsOf(r, x)
  {
    match r.verdict
    case WhiteWins => Credit(s, r.white, 1.0)
    case BlackWins => Credit(s, r.black, 1.0)
    case Drawn => Credit(Credit(s, r.white, 0.5), r.black, 0.5)
  }

  predicate Named(rs: seq<GameResult>, keys: set<string>)
  {
    forall g :: 0 <= g < |rs| ==> rs[g].white in keys && rs[g].black in keys
  }

  function Total(ns: seq<string>, s: map<string, real>): real
    requires forall x :: x in ns ==> x in s
  {
    if ns == [] then 0.0 else Total(ns[..|ns| - 1], s) + s[ns[|ns| - 1]]
  }

  /** The points of one result summed over a list of names. */
  function Handed(ns: seq<string>, r: GameResult): real
  {
    if ns == [] then 0.0 else Handed(ns[..|ns| - 1], r) + PointsOf(r, ns[|ns| - 1])
  }

  /** A result hands out one point in total among names that include both
      of its players once each. */
  lemma {:induction false} HandedOne(ns: seq<string>, r: GameResult)
    requires Distinct(ns)
    ensures Handed(ns, r) == (if r.verdict == Drawn then (if r.white in ns then 0.5 else 0.0) + (if r.black in ns then 0.5 else 0.0)
                              else if r.verdict == WhiteWins then (if r.white in ns then 1.0 else 0.0)
                              else (if r.black in ns then 1.0 else 0.0))
  {
    if ns != [] {
      var init, last := ns[..|ns| - 1], ns[|ns| - 1];
      assert Distinct(init);
      HandedOne(init, r);
      assert forall x :: x in ns <==> x in init || x == last;
      assert last !in init;
    }
  }

  lemma {:induction false} TotalStep(ns: seq<string>, s: map<string, real>, t: map<string, real>, r: GameResult)
    requires forall x :: x in ns ==> x in s && x in t && t[x] == s[x] + PointsOf(r, x)
    ensures Total(ns, t) == Total(ns, s) + Handed(ns, r)
  {
    if ns != [] {
      TotalStep(ns[..|ns| - 1], s, t, r);
    }
  }

  /** Each recorded result hands out exactly one point in total, so the
      scores of a tournament sum to the number of games played. */
  lemma {:induction false} TotalCountsGames(ns: seq<string>, s: map<string, real>, rs: seq<GameResult>)
    requires Distinct(ns) && Named(rs, set x | x in ns)
    requires forall x :: x in ns ==> x in s && s[x] == Points(rs, x)
    ensures Total(ns, s) == |rs| as real
  {
    if rs == [] {
      TotalZero(ns, s);
    } else {
      var init, r := rs[..|rs| - 1], rs[|rs| - 1];
      var before := map x | x in ns :: Points(init, x);
      assert Named(init, set x | x in ns);
      TotalCountsGames(ns, before, init);
      TotalStep(ns, before, s, r);
      HandedOne(ns, r);
    }
  }

  lemma {:induction false} TotalZero(ns: seq<string>, s: map<string, real>)
    requires forall x :: x in ns ==> x in s && s[x] == 0.0
    ensures Total(ns, s) == 0.0
  {
    if ns != [] {
      TotalZero(ns[..|ns| - 1], s);
    }
  }

  predicate Plays(r: GameResult, name: string) { r.white == name || r.black == name }
  predicate Wins(r: GameResult, name: string)
  {
    (r.white == name && r.verdict == WhiteWins) || (r.black == name && r.verdict == BlackWins)
  }

  predicate Draws(r: GameResult, name: string) { Plays(r, name) && r.verdict == Drawn }

  function CountGames(rs: seq<GameResult>, name: string): nat
  {
    if rs == [] then 0 else CountGames(rs[..|rs| - 1], name) + (if Plays(rs[|rs| - 1], name) then 1 else 0)
  }

  function CountWins(rs: seq<GameResult>, name: string): nat
  {
    if rs == [] then 0 else CountWins(rs[..|rs| - 1], name) + (if Wins(rs[|rs| - 1], name) then 1 else 0)
  }

  function CountDraws(rs: seq<GameResult>, name: string): nat
  {
    if rs == [] then 0 else CountDraws(rs[..|rs| - 1], name) + (if Draws(rs[|rs| - 1], name) then 1 else 0)
  }

  /** Wins and draws never add up to more than the games played, so the
      losses printed in the standings are never negative. */
  lemma {:induction false} WinsDrawsWithinGames(rs: seq<GameResult>, name: string)
    ensures CountWins(rs, name) + CountDraws(rs, name) <= CountGames(rs, name)
  {
    if rs != [] {
      WinsDrawsWithinGames(rs[..|rs| - 1], name);
    }
  }

  /** When no game pits a name against itself, a name's points are its
      wins plus half its draws. */
  lemma {:induction false} PointsAreWinsAndHalfDraws(rs: seq<GameResult>, name: string)
    requires forall g :: 0 <= g < |rs| ==> rs[g].white != rs[g].black
    ensures Points(rs, name) == CountWins(rs, name) as real + CountDraws(rs, name) as real / 2.0
  {
    if rs != [] {
      PointsAreWinsAndHalfDraws(rs[..|rs| - 1], name);
    }
  }

  // ---------------------------------------------------------------- standings

  datatype Standing = Standing(name: string, score: real, games: nat, wins: nat, draws: nat, losses: int)

  predicate Descending(items: seq<(string, real)>)
  {
    forall a, b :: 0 <= a < b < |items| ==> items[a].1 >= items[b].1
  }

  /** Place x after every item scoring at least as much. */
  function Insert(sorted: seq<(string, real)>, x: (string, real)): seq<(string, real)>
  {
    if sorted == [] || sorted[|sorted| - 1].1 >= x.1 then sorted + [x]
    else Insert(sorted[..|sorted| - 1], x) + [sorted[|sorted| - 1]]
  }

  lemma {:induction false} InsertPermutes(sorted: seq<(string, real)>, x: (string, real))
    ensures multiset(Insert(sorted, x)) == multiset(sorted) + multiset{x}
  {
    if !(sorted == [] || sorted[|sorted| - 1].1 >= x.1) {
      var init := sorted[..|sorted| - 1];
      InsertPermutes(init, x);
      assert sorted == init + [sorted[|sorted| - 1]];
    }
  }

  lemma {:induction false} InsertSorts(sorted: seq<(string, real)>, x: (string, real))
    requires Descending(sorted)
    ensures Descending(Insert(sorted, x))
    ensures |Insert(sorted, x)| == |sorted| + 1
    ensures Insert(sorted, x)[0].1 >= x.1 || (sorted != [] && Insert(sorted, x)[0] == sorted[0])
  {
    if !(sorted == [] || sorted[|sorted| - 1].1 >= x.1) {
      var init := sorted[..|sorted| - 1];
      var last := sorted[|sorted| - 1];
      InsertSorts(init, x);
      InsertPermutes(init, x);
      var r := Insert(init, x);
      forall a | 0 <= a < |r|
        ensures r[a].1 >= last.1
      {
        assert r[a] in multiset(init) + multiset{x};
        if r[a] in multiset(init) {
          var b :| 0 <= b < |init| && init[b] == r[a];
        }
      }
    }
  }

  /** `sorted(items, key=score, reverse=True)`. */
  function Ranked(items: seq<(string, real)>): seq<(string, real)>
  {
    if items == [] then [] else Insert(Ranked(items[..|items| - 1]), items[|items| - 1])
  }

  lemma {:induction false} RankedPermutes(items: seq<(string, real)>)
    ensures multiset(Ranked(items)) == multiset(items)
  {
    if items != [] {
      var init, x := items[..|items| - 1], items[|items| - 1];
      assert items == init + [x];
      assert multiset(items) == multiset(init) + multiset{x};
      RankedPermutes(init);
      InsertPermutes(Ranked(init), x);
    }
  }

  lemma {:induction false} RankedSorts(items: seq<(string, real)>)
    ensures Descending(Ranked(items))
  {
    if items != [] {
      RankedSorts(items[..|items| - 1]);
      InsertSorts(Ranked(items[..|items| - 1]), items[|items| - 1]);
    }
  }

  /** Ranking puts the items in non-increasing order of score and loses or
      adds none. */
  lemma RankedSpec(items: seq<(string, real)>)
    ensures Descending(Ranked(items))
    ensures multiset(Ranked(items)) == multiset(items)
  {
    RankedSorts(items);
    RankedPermutes(items);
  }

  /** The items with score v, in their order. */
  function WithScore(items: seq<(string, real)>, v: real): seq<(string, real)>
  {
    if items == [] then []
    else WithScore(items[..|items| - 1], v) + (if items[|items| - 1].1 == v then [items[|items| - 1]] else [])
  }

  lemma {:induction false} WithScoreAppend(a: seq<(string, real)>, b: seq<(string, real)>, v: real)
    ensures WithScore(a + b, v) == WithScore(a, v) + WithScore(b, v)
    decreases |b|
  {
    if b != [] {
      assert (a + b)[..|a + b| - 1] == a + b[..|b| - 1];
      WithScoreAppend(a, b[..|b| - 1], v);
    } else {
      assert a + b == a;
    }
  }

  lemma {:induction false} InsertStable(sorted: seq<(string, real)>, x: (string, real), v: real)
    requires Descending(sorted)
    ensures WithScore(Insert(sorted, x), v) == WithScore(sorted, v) + (if x.1 == v then [x] else [])
    decreases |sorted|
  {
    if sorted == [] || sorted[|sorted| - 1].1 >= x.1 {
      WithScoreAppend(sorted, [x], v);
    } else {
      var init := sorted[..|sorted| - 1];
      var last := sorted[|sorted| - 1];
      InsertStable(init, x, v);
      WithScoreAppend(Insert(init, x), [last], v);
      WithScoreAppend(init, [last], v);
      assert sorted == init + [last];
    }
  }

  /** The sort is stable: items with equal scores keep their relative order. */
  lemma {:induction false} RankedStable(items: seq<(string, real)>, v: real)
    ensures WithScore(Ranked(items), v) == WithScore(items, v)
  {
    if items != [] {
      var init := items[..|items| - 1];
      RankedStable(init, v);
      RankedSpec(init);
      InsertStable(Ranked(init), items[|items| - 1], v);
    }
  }

  function Items(ns: seq<string>, s: map<string, real>): (r: seq<(string, real)>)
    requires forall x :: x in ns ==> x in s
    ensures |r| == |ns| && forall i :: 0 <= i < |ns| ==> r[i] == (ns[i], s[ns[i]])
  {
    seq(|ns|, i requires 0 <= i < |ns| => (ns[i], s[ns[i]]))
  }

  function StandingOf(item: (string, real), rs: seq<GameResult>): Standing
  {
    var games := CountGames(rs, item.0);
    var wins := CountWins(rs, item.0);
    var draws := CountDraws(rs, item.0);
    Standing(item.0, item.1, games, wins, draws, games - wins - draws)
  }

  /** `_print_standings`: one row per score entry, best score first. */
  function Standings(ns: seq<string>, s: map<string, real>, rs: seq<GameResult>): seq<Standing>
    requires forall x :: x in ns ==> x in s
  {
    var ranked := Ranked(Items(ns, s));
    seq(|ranked|, i requires 0 <= i < |ranked| => StandingOf(ranked[i], rs))
  }

  /** Rows are ordered by score, every row is a name with its own score,
      and each row's wins, draws and losses add up to its games with no
      negative count. */
  lemma StandingsSpec(ns: seq<string>, s: map<string, real>, rs: seq<GameResult>)
    requires forall x :: x in ns ==> x in s
    ensures var t := Standings(ns, s, rs);
      && |t| == |ns|
      && (forall a, b :: 0 <= a < b < |t| ==> t[a].score >= t[b].score)
      && (forall i :: 0 <= i < |t| ==> t[i].name in ns && t[i].score == s[t[i].name])
      && (forall i :: 0 <= i < |t| ==> t[i].losses >= 0 && t[i].wins + t[i].draws + t[i].losses == t[i].games)
  {
    var items := Items(ns, s);
    var ranked := Ranked(items);
    RankedSpec(items);
    assert |ranked| == |multiset(ranked)| == |multiset(items)| == |items|;
    forall i | 0 <= i < |ranked|
      ensures ranked[i].0 in ns && ranked[i].1 == s[ranked[i].0]
    {
      assert ranked[i] in multiset(items);
      var j :| 0 <= j < |items| && items[j] == ranked[i];
    }
    forall i | 0 <= i < |ranked|
      ensures StandingOf(ranked[i], rs).losses >= 0
    {
      WinsDrawsWithinGames(rs, ranked[i].0);
    }
  }

  // ---------------------------------------------------------------- tournament

  /** Who had White and who had Black in each recorded game. */
  function Seats(rs: seq<GameResult>): (r: seq<(string, string)>)
    ensures |r| == |rs|
  {
    if rs == [] then [] else Seats(rs[..|rs| - 1]) + [(rs[|rs| - 1].white, rs[|rs| - 1].black)]
  }

  function NameAt(es: seq<Engine>, i: nat): string
  {
    if i < |es| then es[i].name else ""
  }

  /** The names a schedule seats at White and at Black, game by game. */
  function Seating(plan: seq<(nat, nat)>, es: seq<Engine>): (r: seq<(string, string)>)
    ensures |r| == |plan|
  {
    if plan == [] then []
    else
      var p := plan[|plan| - 1];
      Seating(plan[..|plan| - 1], es) + [(NameAt(es, p.0), NameAt(es, p.1))]
  }

  /** The recorded results follow a schedule: each result is the game the
      schedule's entry at the same position sets up, between the engines
      of `es`. */
  predicate Follows(rs: seq<GameResult>, plan: seq<(nat, nat)>, es: seq<Engine>)
  {
    Seats(rs) == Seating(plan, es)
  }

  lemma {:induction false} SeatsAt(rs: seq<GameResult>)
    ensures forall g :: 0 <= g < |rs| ==> Seats(rs)[g] == (rs[g].white, rs[g].black)
  {
    if rs != [] {
      SeatsAt(rs[..|rs| - 1]);
    }
  }

  lemma {:induction false} SeatingAt(plan: seq<(nat, nat)>, es: seq<Engine>)
    ensures forall g :: 0 <= g < |plan| ==> Seating(plan, es)[g] == (NameAt(es, plan[g].0), NameAt(es, plan[g].1))
  {
    if plan != [] {
      SeatingAt(plan[..|plan| - 1], es);
    }
  }

  /** Following a schedule over the engines `es` means: the g-th result
      was played by the engines the g-th entry names, with the same colours. */
  lemma FollowsMeans(rs: seq<GameResult>, plan: seq<(nat, nat)>, es: seq<Engine>)
    requires PairsWithin(plan, |es|)
    ensures Follows(rs, plan, es) <==>
      && |rs| == |plan|
      && forall g :: 0 <= g < |rs| ==> rs[g].white == es[plan[g].0].name && rs[g].black == es[plan[g].1].name
  {
    SeatsAt(rs);
    SeatingAt(plan, es);
    if |rs| == |plan| && forall g :: 0 <= g < |rs| ==> rs[g].white == es[plan[g].0].name && rs[g].black == es[plan[g].1].name {
      assert forall g :: 0 <= g < |rs| ==> Seats(rs)[g] == Seating(plan, es)[g];
    }
  }

  lemma FollowsAppend(rs: seq<GameResult>, plan: seq<(nat, nat)>, es: seq<Engine>, r: GameResult, p: (nat, nat))
    requires Follows(rs, plan, es)
    requires r.white == NameAt(es, p.0) && r.black == NameAt(es, p.1)
    ensures Follows(rs + [r], plan + [p], es)
  {
    assert (rs + [r])[..|rs|] == rs;
    assert (plan + [p])[..|plan|] == plan;
  }

  lemma {:induction false} SeatsConcat(a: seq<GameResult>, b: seq<GameResult>)
    ensures Seats(a + b) == Seats(a) + Seats(b)
    decreases |b|
  {
    if b == [] {
      assert a + b == a;
    } else {
      assert (a + b)[..|a + b| - 1] == a + b[..|b| - 1];
      SeatsConcat(a, b[..|b| - 1]);
    }
  }

  lemma {:induction false} SeatingConcat(a: seq<(nat, nat)>, b: seq<(nat, nat)>, es: seq<Engine>)
    ensures Seating(a + b, es) == Seating(a, es) + Seating(b, es)
    decreases |b|
  {
    if b == [] {
      assert a + b == a;
    } else {
      assert (a + b)[..|a + b| - 1] == a + b[..|b| - 1];
      SeatingConcat(a, b[..|b| - 1], es);
    }
  }

  lemma FollowsConcat(a: seq<GameResult>, pa: seq<(nat, nat)>, b: seq<GameResult>, pb: seq<(nat, nat)>, es: seq<Engine>)
    requires Follows(a, pa, es) && Follows(b, pb, es)
    ensures Follows(a + b, pa + pb, es)
  {
    SeatsConcat(a, b);
    SeatingConcat(pa, pb, es);
  }

  /** The names of a list of engines, in order. */
  function NamesOf(es: seq<Engine>): (r: seq<string>)
    ensures |r| == |es| && forall i :: 0 <= i < |es| ==> r[i] == es[i].name
  {
    if es == [] then [] else NamesOf(es[..|es| - 1]) + [es[|es| - 1].name]
  }

  /** Recording one more result and scoring it keeps the score table
      equal to the points of every recorded result. */
  lemma Recorded(scores: map<string, real>, results: seq<GameResult>, r: GameResult)
    requires r.white in scores && r.black in scores && Named(results, scores.Keys)
    requires forall x {:trigger scores[x]} :: x in scores ==> scores[x] == Points(results, x)
    ensures Named(results + [r], scores.Keys)
    ensures var t := Scored(scores, r);
      forall x {:trigger t[x]} :: x in t ==> t[x] == Points(results + [r], x)
  {
    assert (results + [r])[..|results|] == results;
  }

  class Tournament {
    const engines: seq<Engine>
    /** The keys of `scores`, in insertion order. */
    const names: seq<string>
    var results: seq<GameResult>
    var scores: map<string, real>

    /** The score table is always the scoring of the recorded results,
        starting from zero for every name. */
    ghost predicate Valid()
      reads this
    {
      && Distinct(names)
      && scores.Keys == (set x | x in names)
      && (forall i :: 0 <= i < |engines| ==> engines[i].name in names)
      && (forall a, b :: 0 <= a < b < |engines| ==> engines[a] != engines[b])
      && Named(results, scores.Keys)
      && forall x {:trigger scores[x]} :: x in scores ==> scores[x] == Points(results, x)
    }

    constructor (engines: seq<Engine>)
      requires forall a, b :: 0 <= a < b < |engines| ==> engines[a] != engines[b]
      ensures this.engines == engines && Valid()
      ensures names == FirstOccurrences(NamesOf(engines))
      ensures results == [] && scores == Zeros(names)
    {
      this.engines := engines;
      var roster := NamesOf(engines);
      var ns := FirstOccurrences(roster);
      names := ns;
      results := [];
      scores := map x | x in ns :: 0.0;
      new;
      assert forall i :: 0 <= i < |engines| ==> roster[i] in ns;
    }

    method UpdateScores(r: GameResult)
      requires r.white in scores && r.black in scores
      modifies this`scores
      ensures scores == Scored(old(scores), r)
    {
      match r.verdict
      case WhiteWins =>
        scores := scores[r.white := scores[r.white] + 1.0];
      case BlackWins =>
        scores := scores[r.black := scores[r.black] + 1.0];
      case Drawn =>
        scores := scores[r.white := scores[r.white] + 0.5];
        scores := scores[r.black := scores[r.black] + 0.5];
    }

    /** One game of the schedule: play it, record the result and score it. */
    method PlayAndRecord(w: nat, b: nat, depth: int, movetime: Option<int>, env: Env) returns (out: Outcome)
      requires Valid() && w < |engines| && b < |engines| && w != b
      modifies this, engines[w], engines[b]
      ensures Valid()
      ensures out.Raised? <==> !Smooth(env)
      ensures out.Raised? ==> results == old(results) && scores == old(scores)
      ensures out.Finished? ==>
        && out.result == PlayFrom(Prepared(old(engines[w].Chan()), engines[w].options),
                                  Prepared(old(engines[b].Chan()), engines[b].options),
                                  [], Setup(engines[w].name, engines[b].name, depth, movetime)).result
        && out.result.white == engines[w].name && out.result.black == engines[b].name
        && results == old(results) + [out.result]
        && scores == Scored(old(scores), out.result)
    {
      out := PlayGame(engines[w], engines[b], depth, movetime, env);
      if out.Finished? {
        Recorded(scores, results, out.result);
        results := results + [out.result];
        UpdateScores(out.result);
      }
    }

    /** One pass of the inner loop of `run_round_robin`: game number `game`
        of the pairing (i, j), engine i having White when it is even. */
    method PlayScheduled(i: nat, j: nat, game: nat, depth: int, movetime: Option<int>, env: Env,
                         ghost start: seq<GameResult>, ghost played: seq<GameResult>)
      returns (failure: Option<Failure>, ghost played': seq<GameResult>)
      requires Valid() && i < |engines| && j < |engines| && i != j
      requires results == start + played && Follows(played, Games(i, j, game), engines)
      modifies this, set e | e in engines
      ensures Valid()
      ensures failure.Some? <==> !Smooth(env)
      ensures failure.Some? ==> results == old(results) && played' == played
      ensures failure.None? ==>
        && results == start + played' && |played'| == |played| + 1
        && Follows(played', Games(i, j, game + 1), engines)
    {
      var white, black := i, j;
      if game % 2 != 0 {
        white, black := j, i;
      }
      var out := PlayAndRecord(white, black, depth, movetime, env);
      if out.Raised? {
        return Some(out.failure), played;
      }
      FollowsAppend(played, Games(i, j, game), engines, out.result, (white, black));
      failure, played' := None, played + [out.result];
    }

    /** The inner loop of `run_round_robin` for the ordered pairing (i, j). */
    method PlayPairing(i: nat, j: nat, k: int, depth: int, movetime: Option<int>, env: nat -> Env, gameNum0: nat)
      returns (failure: Option<Failure>, gameNum: nat, ghost played: seq<GameResult>, ghost count: nat)
      requires Valid() && i < |engines| && j < |engines| && i != j
      modifies this, set e | e in engines
      ensures Valid()
      ensures results == old(results) + played && gameNum == gameNum0 + |played|
      ensures failure.None? ==> Follows(played, Games(i, j, k), engines)
      ensures failure.Some? ==> count < |Games(i, j, k)| && Follows(played, Games(i, j, count), engines)
      ensures AllSmooth(env) ==> failure.None?
    {
      failure, count := None, 0;
      gameNum := gameNum0;
      played := [];
      var game := 0;
      while game < k && failure.None?
        invariant 0 <= game <= |Games(i, j, k)| && Valid()
        invariant results == old(results) + played && gameNum == gameNum0 + |played|
        invariant failure.None? ==> Follows(played, Games(i, j, game), engines)
        invariant failure.Some? ==> count < |Games(i, j, k)| && Follows(played, Games(i, j, count), engines)
        invariant AllSmooth(env) ==> failure.None?
      {
        failure, played := PlayScheduled(i, j, game, depth, movetime, env(gameNum + 1), old(results), played);
        if failure.Some? {
          count := game;
        } else {
          gameNum := gameNum + 1;
        }
        game := game + 1;
      }
    }

    /** One pass of the middle loop of `run_round_robin`: engine i against
        engine j, skipped when they are the same engine. */
    method PlayOpponent(i: nat, j: nat, k: int, depth: int, movetime: Option<int>, env: nat -> Env, gameNum0: nat,
                        ghost start: seq<GameResult>, ghost played: seq<GameResult>)
      returns (failure: Option<Failure>, gameNum: nat, ghost played': seq<GameResult>)
      requires Valid() && i < |engines| && j < |engines| && gameNum0 >= |played|
      requires results == start + played && Follows(played, Row(i, j, k), engines)
      modifies this, set e | e in engines
      ensures Valid() && results == start + played' && gameNum == gameNum0 + |played'| - |played|
      ensures failure.None? ==> Follows(played', Row(i, j + 1, k), engines)
      ensures failure.Some? ==>
        && |played'| < |Row(i, |engines|, k)|
        && Follows(played', Row(i, |engines|, k)[..|played'|], engines)
      ensures AllSmooth(env) ==> failure.None?
    {
      if i != j {
        ghost var more, count;
        failure, gameNum, more, count := PlayPairing(i, j, k, depth, movetime, env, gameNum0);
        Associative(start, played, more);
        if failure.Some? {
          RowStop(played, more, i, j, |engines|, count, k, engines);
        } else {
          RowAdvance(played, more, i, j, k, engines);
        }
        played' := played + more;
      } else {
        assert Row(i, j + 1, k) == Row(i, j, k) + [] == Row(i, j, k);
        failure, gameNum, played' := None, gameNum0, played;
      }
    }

    /** The middle loop of `run_round_robin`: engine i as first engine
        against every other engine in roster order. */
    method PlayRow(i: nat, k: int, depth: int, movetime: Option<int>, env: nat -> Env, gameNum0: nat)
      returns (failure: Option<Failure>, gameNum: nat, ghost played: seq<GameResult>)
      requires Valid() && i < |engines|
      modifies this, set e | e in engines
      ensures Valid()
      ensures results == old(results) + played && gameNum == gameNum0 + |played|
      ensures failure.None? ==> Follows(played, Row(i, |engines|, k), engines)
      ensures failure.Some? ==> |played| < |Row(i, |engines|, k)| && Follows(played, Row(i, |engines|, k)[..|played|], engines)
      ensures AllSmooth(env) ==> failure.None?
    {
      var n := |engines|;
      failure := None;
      gameNum := gameNum0;
      played := [];
      var j := 0;
      while j < n && failure.None?
        invariant 0 <= j <= n && Valid()
        invariant results == old(results) + played && gameNum == gameNum0 + |played|
        invariant failure.None? ==> Follows(played, Row(i, j, k), engines)
        invariant failure.Some? ==> |played| < |Row(i, n, k)| && Follows(played, Row(i, n, k)[..|played|], engines)
        invariant AllSmooth(env) ==> failure.None?
      {
        failure, gameNum, played := PlayOpponent(i, j, k, depth, movetime, env, gameNum, old(results), played);
        j := j + 1;
      }
    }

    /** One pass of the outer loop of `run_round_robin`: row i, with the
        results so far following the rows before it. */
    method PlayRound(i: nat, k: int, depth: int, movetime: Option<int>, env: nat -> Env, gameNum0: nat,
                     ghost start: seq<GameResult>, ghost played: seq<GameResult>)
      returns (failure: Option<Failure>, gameNum: nat, ghost played': seq<GameResult>)
      requires Valid() && i < |engines| && gameNum0 == |played|
      requires results == start + played && Follows(played, Rows(|engines|, i, k), engines)
      modifies this, set e | e in engines
      ensures Valid() && results == start + played' && gameNum == |played'|
      ensures failure.None? ==> Follows(played', Rows(|engines|, i + 1, k), engines)
      ensures failure.Some? ==>
        && |played'| < |Plan(|engines|, k)|
        && Follows(played', Plan(|engines|, k)[..|played'|], engines)
      ensures AllSmooth(env) ==> failure.None?
    {
      ghost var more;
      failure, gameNum, more := PlayRow(i, k, depth, movetime, env, gameNum0);
      Associative(start, played, more);
      if failure.Some? {
        PlanStop(played, more, |engines|, i, k, engines);
      } else {
        PlanAdvance(played, more, |engines|, i, k, engines);
      }
      played' := played + more;
    }

    /** `run_round_robin`: every ordered pair of distinct engines plays
        `gamesPerPairing` games with alternating colours. `env(n)` is what
        the system does during game number n. A game that raises ends the
        tournament with the results so far. */
    method RunRoundRobin(gamesPerPairing: int, depth: int, movetime: Option<int>, env: nat -> Env)
      returns (failure: Option<Failure>, ghost played: seq<GameResult>)
      requires Valid()
      modifies this, set e | e in engines
      ensures Valid()
      ensures results == old(results) + played
      ensures failure.None? ==> Follows(played, Plan(|engines|, gamesPerPairing), engines)
      ensures failure.Some? ==>
        && |played| < |Plan(|engines|, gamesPerPairing)|
        && Follows(played, Plan(|engines|, gamesPerPairing)[..|played|], engines)
      ensures AllSmooth(env) ==> failure.None?
      ensures AllSmooth(env) && gamesPerPairing >= 0 ==>
        |played| == |engines| * (|engines| - 1) * gamesPerPairing
    {
      failure := None;
      played := [];
      var gameNum := 0;
      var i := 0;
      while i < |engines| && failure.None?
        invariant i <= |engines| && Valid()
        invariant results == old(results) + played && gameNum == |played|
        invariant failure.None? ==> Follows(played, Rows(|engines|, i, gamesPerPairing), engines)
        invariant failure.Some? ==>
          && |played| < |Plan(|engines|, gamesPerPairing)|
          && Follows(played, Plan(|engines|, gamesPerPairing)[..|played|], engines)
        invariant AllSmooth(env) ==> failure.None?
      {
        failure, gameNum, played := PlayRound(i, gamesPerPairing, depth, movetime, env, gameNum, old(results), played);
        i := i + 1;
      }
      if failure.None? && gamesPerPairing >= 0 {
        PlanWithin(|engines|, |engines|, gamesPerPairing);
        FollowsMeans(played, Plan(|engines|, gamesPerPairing), engines);
        PlanCount(|engines|, gamesPerPairing);
      }
    }
  }
}

/** The UCI front end of src/UCI.cpp: how a command line is split, how a
    move in UCI notation is matched against the legal moves, how the `go`
    parameters are read and turned into a time limit, and what the
    `position`, `go`, `setoption` and `ucinewgame` handlers do to the game.
    Reading standard input and printing are left to the caller: a handler
    takes the text after the command word and returns the line it prints.
    The move search behind `getAIMove` is a parameter that reports the move,
    whether a search ran, and the hash it left on the position. */
module UciProtocol {
  import opened Types
  import opened Positions
  import opened Fen
  import opened PositionClass
  import opened MoveGen
  import opened Search
  import opened Game
  import Tournament

  const DEFAULT_DEPTH: int := 6
  /** Milliseconds kept back from an explicit `movetime`. */
  const MOVETIME_MARGIN: int := 50
  /** Moves assumed left in the game when `movestogo` is not given. */
  const DEFAULT_MOVES_TO_GO: int := 30
  const MIN_THINK: int := 100
  const CLOCK_RESERVE: int := 100
  const ABSOLUTE_MIN: int := 10
  const NULL_MOVE_TEXT: string := "0000"

  // ---------------------------------------------------------------- command lines

  /** The text left once the whitespace at its front is skipped. */
  function DropSpaces(s: string): (r: string)
    ensures |r| <= |s| && r == s[|s| - |r|..]
    ensures r == [] || !IsSpace(r[0])
  {
    if s != [] && IsSpace(s[0]) then DropSpaces(s[1..]) else s
  }

  /** `loop` (src/UCI.cpp:42-51): the first word of a line is the command,
      and the rest of the line, less one leading space, its arguments. */
  function SplitCommand(line: string): (string, string)
  {
    var s := DropSpaces(line);
    var command := Word(s);
    var rest := s[|command|..];
    (command, if rest != [] && rest[0] == ' ' then rest[1..] else rest)
  }

  predicate Spaceless(ws: seq<string>)
  {
    forall i :: 0 <= i < |ws| ==> |ws[i]| > 0 && NoSpace(ws[i])
  }

  lemma {:induction false} JoinAppend(xs: seq<string>, ys: seq<string>)
    requires |xs| > 0 && |ys| > 0
    ensures Join(xs + ys) == Join(xs) + " " + Join(ys)
    decreases |xs|
  {
    if |xs| == 1 {
      assert (xs + ys)[1..] == ys;
    } else {
      assert (xs + ys)[1..] == xs[1..] + ys;
      JoinAppend(xs[1..], ys);
    }
  }

  /** A line made of a command word, a space and the rest is split into
      that word and the rest. */
  lemma SplitLine(command: string, rest: string)
    requires |command| > 0 && NoSpace(command)
    ensures SplitCommand(command + " " + rest) == (command, rest)
  {
    var tail := " " + rest;
    var line := command + " " + rest;
    assert line == command + tail;
    assert line[0] == command[0];
    assert DropSpaces(line) == line;
    WordOfJoin(command, tail);
    assert line[|command|..] == tail;
  }

  // ---------------------------------------------------------------- numbers

  /** The decimal digits at the front of a text. */
  function DigitRun(s: string): (d: string)
    ensures |d| <= |s| && d == s[..|d|] && AllDigits(d)
    ensures |d| < |s| ==> !IsDigit(s[|d|])
  {
    if s == [] || !IsDigit(s[0]) then [] else [s[0]] + DigitRun(s[1..])
  }

  lemma {:induction false} DigitRunAll(s: string)
    requires AllDigits(s)
    ensures DigitRun(s) == s
    decreases |s|
  {
    if s != [] {
      DigitRunAll(s[1..]);
      assert s == [s[0]] + s[1..];
    }
  }

  /** What a number read from the front of a word finds: no digits after
      the optional sign, or a value and the number of characters it used. */
  datatype NumberRead = NoNumber | Number(value: int, length: nat)

  function SignLength(w: string): nat
  {
    if |w| > 0 && (w[0] == '-' || w[0] == '+') then 1 else 0
  }

  /** An optional sign followed by as many decimal digits as there are, as
      both `>> int` and `std::stoi` read them. */
  function ReadNumber(w: string): (r: NumberRead)
    ensures r.Number? ==> 0 < r.length <= |w|
  {
    var sign := SignLength(w);
    var digits := DigitRun(w[sign..]);
    if digits == [] then NoNumber
    else
      var v: int := DigitsValue(digits);
      Number(if sign == 1 && w[0] == '-' then -v else v, sign + |digits|)
  }

  /** A whole word that reads as an `int` reads as its value. */
  lemma ReadIntWord(w: string)
    requires IsIntWord(w)
    ensures ReadNumber(w) == Number(ParseInt(w), |w|)
  {
    var sign := SignLength(w);
    assert w[sign..] == Magnitude(w);
    DigitRunAll(Magnitude(w));
  }

  /** `std::stoi`: the number at the front of the text; None where it
      throws, for want of digits or for a value out of the range of `int`. */
  function Stoi(s: string): (r: Option<int>)
    ensures r.Some? ==> INT_MIN <= r.value <= INT_MAX
  {
    match ReadNumber(s)
    case NoNumber => None
    case Number(v, _) => if INT_MIN <= v <= INT_MAX then Some(v) else None
  }

  /** The result of `iss >> n` on the words still to be read: nothing left
      (n keeps its value), a value and the words after it (a word whose
      front is a number leaves its remainder as the next word), or a
      failure that stores 0, or the nearest bound of `int` on overflow, and
      ends every later read. */
  datatype IntRead = EndOfInput | Read(value: int, rest: seq<string>) | Failed(value: int)

  function ReadStreamInt(ws: seq<string>): (r: IntRead)
    ensures r.Read? ==> |r.rest| <= |ws| && INT_MIN <= r.value <= INT_MAX
    ensures r.Failed? ==> INT_MIN <= r.value <= INT_MAX
  {
    if ws == [] then EndOfInput
    else
      match ReadNumber(ws[0])
      case NoNumber => Failed(0)
      case Number(v, len) =>
        if v < INT_MIN then Failed(INT_MIN)
        else if v > INT_MAX then Failed(INT_MAX)
        else Read(v, if len == |ws[0]| then ws[1..] else [ws[0][len..]] + ws[1..])
  }

  lemma ReadStreamIntWord(w: string, rest: seq<string>)
    requires IsIntWord(w)
    ensures ReadStreamInt([w] + rest) == Read(ParseInt(w), rest)
  {
    ReadIntWord(w);
    assert ([w] + rest)[0] == w && ([w] + rest)[1..] == rest;
  }

  // ---------------------------------------------------------------- parsing a move

  /** The promotion letters `parseMove` accepts: lower case only. */
  function UciPromotion(c: char): Option<PromotionPiece>
  {
    if c == 'n' then Some(KNIGHT)
    else if c == 'b' then Some(BISHOP)
    else if c == 'r' then Some(ROOK)
    else if c == 'q' then Some(QUEEN)
    else None
  }

  /** The move goes from `from` to `to`, and is a promotion to the asked
      piece when one is asked for and no promotion otherwise. */
  predicate Names(m: Move, from: Square, to: Square, promo: Option<PromotionPiece>)
  {
    FromSquare(m) == from && ToSquare(m) == to &&
    if promo.Some? then MoveType(m) == PROMOTION && PromotionType(m) == promo.value
    else MoveType(m) != PROMOTION
  }

  /** The first move of the list with those squares and that promotion. */
  function FirstNamed(moves: seq<Move>, from: Square, to: Square, promo: Option<PromotionPiece>): (r: Option<Move>)
    ensures r.Some? ==> r.value in moves && Names(r.value, from, to, promo)
    ensures r.None? <==> forall m :: m in moves ==> !Names(m, from, to, promo)
  {
    if moves == [] then None
    else if Names(moves[0], from, to, promo) then Some(moves[0])
    else FirstNamed(moves[1..], from, to, promo)
  }

  /** The squares and promotion a UCI word asks for. */
  datatype MoveText = MoveText(from: Square, to: Square, promo: Option<PromotionPiece>)

  /** The checks of `parseMove` before it looks at the legal moves
      (src/UCI.cpp:302-342): at least four characters, files a-h and ranks
      1-8 in the first four, and for a word of exactly five characters a
      lower-case n, b, r or q at the end; any other length asks for no
      promotion. */
  function ReadMoveText(s: string): (r: Option<MoveText>)
    ensures r.Some? <==> |s| >= 4 && StringToSquare(s[..2]) != NO_SQUARE && StringToSquare(s[2..4]) != NO_SQUARE &&
                         (|s| == 5 ==> UciPromotion(s[4]).Some?)
    ensures r.Some? ==> r.value.from == StringToSquare(s[..2]) && r.value.to == StringToSquare(s[2..4]) &&
                        r.value.promo == (if |s| == 5 then UciPromotion(s[4]) else None)
  {
    if |s| < 4 then None
    else
      var from, to := StringToSquare(s[..2]), StringToSquare(s[2..4]);
      if from == NO_SQUARE || to == NO_SQUARE then None
      else if |s| == 5 then
        match UciPromotion(s[4])
        case None => None
        case Some(pt) => Some(MoveText(from, to, Some(pt)))
      else Some(MoveText(from, to, None))
  }

  /** `parseMove` (src/UCI.cpp:300-361): the first legal move with the
      squares and promotion the word asks for, if any. */
  function ReadUciMove(b: Board, s: string): (r: Option<Move>)
    requires Ready(b)
    ensures r.Some? ==> ReadMoveText(s).Some? && r.value in LegalMoves(b)
    ensures r.Some? ==> var t := ReadMoveText(s).value; Names(r.value, t.from, t.to, t.promo)
    ensures r.None? && ReadMoveText(s).Some? ==>
      var t := ReadMoveText(s).value; forall m :: m in LegalMoves(b) ==> !Names(m, t.from, t.to, t.promo)
  {
    match ReadMoveText(s)
    case None => None
    case Some(t) => FirstNamed(LegalMoves(b), t.from, t.to, t.promo)
  }

  /** No legal move is the null move 0. */
  lemma LegalNotNull(b: Board, m: Move)
    requires Ready(b) && m in LegalMoves(b)
    ensures m != 0
  {
    LegalMovesIff(b, m);
  }

  /** The printed move's characters are letters and digits, starting with a file. */
  lemma MoveTextShape(m: Move)
    ensures var s := MoveToString(m);
      |s| >= 4 && NoSpace(s) && 'a' <= s[0] <= 'h'
  {
    var s := MoveToString(m);
    PrintedSquares(m);
    assert 'a' <= s[0] <= 'h' && '1' <= s[1] <= '8';
    assert s[2..4][0] == s[2] && s[2..4][1] == s[3];
    assert 'a' <= s[2] <= 'h' && '1' <= s[3] <= '8';
    if |s| == 5 {
      assert s[4] in PROMOTION_CHARS;
    }
  }

  /** What a move asks for when printed. */
  function TextOf(m: Move): MoveText
  {
    MoveText(FromSquare(m), ToSquare(m), if MoveType(m) == PROMOTION then Some(PromotionType(m)) else None)
  }

  /** A printed move passes the checks of `parseMove` and asks for its own
      squares and promotion. */
  lemma ReadPrintedText(m: Move)
    ensures ReadMoveText(MoveToString(m)) == Some(TextOf(m))
  {
    var s := MoveToString(m);
    PrintedSquares(m);
    if MoveType(m) == PROMOTION {
      assert UciPromotion(s[4]) == Some(PromotionType(m));
    }
  }

  /** Two moves that ask for the same squares and promotion print alike. */
  lemma SameTextPrintsAlike(m: Move, n: Move)
    requires Names(n, FromSquare(m), ToSquare(m), TextOf(m).promo)
    ensures MoveToString(n) == MoveToString(m)
  {
    var s, t := MoveToString(m), MoveToString(n);
    assert t[..2] == s[..2] && t[2..4] == s[2..4];
    if MoveType(m) == PROMOTION {
      assert t == t[..2] + t[2..4] + [t[4]];
      assert s == s[..2] + s[2..4] + [s[4]];
    } else {
      assert t == t[..2] + t[2..4];
      assert s == s[..2] + s[2..4];
    }
  }

  /** Reading a legal move's printed text back finds a legal move that
      prints the same: the same squares and the same promotion. */
  lemma ReadPrintedUciMove(b: Board, m: Move)
    requires Ready(b) && m in LegalMoves(b)
    ensures var r := ReadUciMove(b, MoveToString(m));
      r.Some? && r.value in LegalMoves(b) && MoveToString(r.value) == MoveToString(m)
  {
    ReadPrintedText(m);
    var t := TextOf(m);
    assert Names(m, t.from, t.to, t.promo);
    var r := ReadUciMove(b, MoveToString(m));
    SameTextPrintsAlike(m, r.value);
  }

  /** The loop of `parseMove` over the legal moves (src/UCI.cpp:347-360). */
  method FindNamed(moves: seq<Move>, from: Square, to: Square, promo: Option<PromotionPiece>) returns (move: Move)
    requires forall m :: m in moves ==> m != 0
    ensures var r := FirstNamed(moves, from, to, promo); move == if r.Some? then r.value else 0
  {
    var i := 0;
    while i < |moves|
      invariant 0 <= i <= |moves|
      invariant FirstNamed(moves, from, to, promo) == FirstNamed(moves[i..], from, to, promo)
    {
      var m := moves[i];
      assert moves[i..][1..] == moves[i + 1..];
      if FromSquare(m) == from && ToSquare(m) == to {
        if promo.Some? && MoveType(m) == PROMOTION {
          if PromotionType(m) == promo.value {
            return m;
          }
        } else if promo.None? && MoveType(m) != PROMOTION {
          return m;
        }
      }
      i := i + 1;
    }
    return 0;
  }

  // ---------------------------------------------------------------- go

  datatype GoParams = GoParams(depth: int, depthSpecified: bool, movetime: int, wtime: int, btime: int,
                               winc: int, binc: int, movestogo: int, infinite: bool)

  /** The values `handleGo` starts from (src/UCI.cpp:148-158). */
  function GoDefaults(searchDepth: int): GoParams
  {
    GoParams(searchDepth, false, -1, -1, -1, 0, 0, -1, false)
  }

  /** The `go` keywords followed by a number. */
  predicate IsIntParam(token: string)
  {
    token == "depth" || token == "movetime" || token == "wtime" || token == "btime" ||
    token == "winc" || token == "binc" || token == "movestogo"
  }

  /** The parameter a keyword names, set to v. */
  function SetParam(g: GoParams, token: string, v: int): GoParams
  {
    if token == "depth" then g.(depth := v)
    else if token == "movetime" then g.(movetime := v)
    else if token == "wtime" then g.(wtime := v)
    else if token == "btime" then g.(btime := v)
    else if token == "winc" then g.(winc := v)
    else if token == "binc" then g.(binc := v)
    else if token == "movestogo" then g.(movestogo := v)
    else g
  }

  /** The token loop of `handleGo` (src/UCI.cpp:159-178) over the words
      still to be read: `infinite` is a flag, unknown words are skipped,
      and a keyword takes the number after it; `depth` marks the depth as
      given even when no number follows. A failed read ends the loop. */
  function GoFrom(ws: seq<string>, g: GoParams): GoParams
    decreases |ws|
  {
    if ws == [] then g
    else if ws[0] == "infinite" then GoFrom(ws[1..], g.(infinite := true))
    else if !IsIntParam(ws[0]) then GoFrom(ws[1..], g)
    else
      var marked := if ws[0] == "depth" then g.(depthSpecified := true) else g;
      match ReadStreamInt(ws[1..])
      case EndOfInput => marked
      case Failed(v) => SetParam(marked, ws[0], v)
      case Read(v, rest) => GoFrom(rest, SetParam(marked, ws[0], v))
  }

  function GoOf(args: string, searchDepth: int): GoParams
  {
    GoFrom(Words(args), GoDefaults(searchDepth))
  }

  /** The parameter loop of `handleGo`. */
  method ReadGoParams(args: string, searchDepth: int) returns (g: GoParams)
    ensures g == GoOf(args, searchDepth)
  {
    var rest := Words(args);
    g := GoDefaults(searchDepth);
    var reading := true;
    while reading && rest != []
      invariant reading ==> GoFrom(rest, g) == GoOf(args, searchDepth)
      invariant !reading ==> g == GoOf(args, searchDepth)
      decreases reading, |rest|
    {
      var token := rest[0];
      if token == "infinite" {
        g := g.(infinite := true);
        rest := rest[1..];
      } else if IsIntParam(token) {
        if token == "depth" {
          g := g.(depthSpecified := true);
        }
        var r := ReadStreamInt(rest[1..]);
        match r {
          case EndOfInput =>
            reading := false;
          case Failed(v) =>
            g := SetParam(g, token, v);
            reading := false;
          case Read(v, after) =>
            g := SetParam(g, token, v);
            rest := after;
        }
      } else {
        rest := rest[1..];
      }
    }
  }

  /** The time allowance from the clock (src/UCI.cpp:193-217): the
      remaining time shared over the moves to go plus three quarters of the
      increment, at most a tenth of the remaining time, at least 100 ms,
      at most the remaining time less 100 ms, and never below 10 ms. */
  function ClockTime(ourTime: int, ourInc: int, movestogo: int): (t: int)
    requires ourTime > 0
    ensures ABSOLUTE_MIN <= t <= Max(ourTime - CLOCK_RESERVE, ABSOLUTE_MIN)
    ensures ourTime >= 1000 ==> MIN_THINK <= t <= ourTime / 10
  {
    var movesLeft := if movestogo > 0 then movestogo else DEFAULT_MOVES_TO_GO;
    var share := ourTime / movesLeft + Quot(ourInc * 3, 4);
    var maxTime := ourTime / 10;
    var capped := if share > maxTime then maxTime else share;
    var floored := if capped < MIN_THINK then MIN_THINK else capped;
    var reserved := if floored > ourTime - CLOCK_RESERVE then ourTime - CLOCK_RESERVE else floored;
    if reserved < ABSOLUTE_MIN then ABSOLUTE_MIN else reserved
  }

  /** With no increment and no `movestogo`, a clock of at least three
      seconds gives a thirtieth of the remaining time. */
  lemma ClockTimeShare(ourTime: int)
    requires ourTime >= 3000
    ensures ClockTime(ourTime, 0, -1) == ourTime / DEFAULT_MOVES_TO_GO
  {
    assert ourTime / 30 <= ourTime / 10;
    assert ourTime / 30 >= 100;
  }

  /** `timeForMove` (src/UCI.cpp:181-224): no limit for `infinite` or an
      explicit depth; `movetime` less the 50 ms margin; otherwise the clock
      of the side to move, or no limit when it has no time given. */
  function TimeForMove(g: GoParams, stm: Color): int
  {
    if g.infinite || g.depthSpecified then 0
    else if g.movetime > 0 then g.movetime - MOVETIME_MARGIN
    else
      var ourTime := if stm == WHITE then g.wtime else g.btime;
      var ourInc := if stm == WHITE then g.winc else g.binc;
      if ourTime > 0 then ClockTime(ourTime, ourInc, g.movestogo) else 0
  }

  /** A `movetime` of at most 50 ms gives a limit of zero or below. Zero
      means no limit, and a negative limit, compared as an unsigned number
      of milliseconds, is not reached for hundreds of millions of years: the
      search runs to its full depth instead of answering within the time. */
  lemma ShortMovetimeNeverStops(g: GoParams, stm: Color, start: nat, now: nat)
    requires !g.infinite && !g.depthSpecified && 0 < g.movetime <= MOVETIME_MARGIN
    requires start <= now < UINT64 && now - start < UINT64 - MOVETIME_MARGIN
    ensures TimeForMove(g, stm) <= 0
    ensures !ShouldStop(TimeForMove(g, stm), start, now)
  {
    var t := TimeForMove(g, stm);
    if t == 0 {
      ShouldStopPositive(t, start, now);
    } else {
      NegativeLimitNeverStops(t, start, now);
    }
  }

  /** The allowance as evidently intended: an explicit `movetime` keeps the
      margin only when it is longer than the margin, and is used as it is
      otherwise, so the limit is always positive. */
  function CorrectedTimeForMove(g: GoParams, stm: Color): int
  {
    if !g.infinite && !g.depthSpecified && 0 < g.movetime <= MOVETIME_MARGIN then g.movetime
    else TimeForMove(g, stm)
  }

  /** With the corrected allowance an explicit `movetime` gives a positive
      limit within it, and the search stops once that much time is gone. */
  lemma CorrectedMovetimeStops(g: GoParams, stm: Color, start: nat, now: nat)
    requires !g.infinite && !g.depthSpecified && 0 < g.movetime <= INT_MAX
    requires start <= now < UINT64
    ensures 0 < CorrectedTimeForMove(g, stm) <= g.movetime
    ensures now - start >= g.movetime ==> ShouldStop(CorrectedTimeForMove(g, stm), start, now)
  {
    ShouldStopPositive(CorrectedTimeForMove(g, stm), start, now);
  }

  /** The line `handleGo` prints for the move found (src/UCI.cpp:244-249). */
  function BestMoveReply(m: Move): string
  {
    if m != 0 then "bestmove " + MoveToString(m) else "bestmove " + NULL_MOVE_TEXT
  }

  /** A printed move is one word that the harness does not take for "no move". */
  lemma MoveTextIsMove(m: Move)
    ensures var s := MoveToString(m); |s| > 0 && NoSpace(s) && !Tournament.NoMove(Some(s))
  {
    MoveTextShape(m);
    var s := MoveToString(m);
    assert s != NULL_MOVE_TEXT by {
      assert NULL_MOVE_TEXT[0] == '0';
    }
    assert s != "(none)" by {
      assert "(none)"[0] == '(';
    }
  }

  lemma NullTextIsNoMove()
    ensures |NULL_MOVE_TEXT| > 0 && NoSpace(NULL_MOVE_TEXT) && Tournament.NoMove(Some(NULL_MOVE_TEXT))
  {
  }

  /** The harness reads back the printed move, and takes the reply for "no
      move" exactly when the engine found none. */
  lemma HarnessReadsReply(m: Move)
    ensures var token := Tournament.BestMoveToken(Some(BestMoveReply(m)));
      token == Some(if m != 0 then MoveToString(m) else NULL_MOVE_TEXT) &&
      (Tournament.NoMove(token) <==> m == 0)
  {
    if m != 0 {
      MoveTextIsMove(m);
      Tournament.BestMoveLine(MoveToString(m));
    } else {
      NullTextIsNoMove();
      Tournament.BestMoveLine(NULL_MOVE_TEXT);
    }
  }

  /** `go <keyword> <number>` is split into `go` and those two words. */
  lemma GoLineWords(key: string, v: int)
    requires |key| > 0 && NoSpace(key)
    ensures var (command, args) := SplitCommand("go" + " " + (key + " " + IntToString(v)));
      command == "go" && Words(args) == [key, IntToString(v)]
  {
    var n := IntToString(v);
    assert Join([key, n]) == key + " " + n by {
      assert [key, n][1..] == [n];
    }
    CommandSpaceless();
    SplitLine("go", key + " " + n);
    WordsOfJoin([key, n]);
  }

  /** A keyword and a printed number set that parameter and nothing else. */
  lemma GoFromPair(key: string, v: int, g: GoParams)
    requires IsIntParam(key) && INT_MIN <= v <= INT_MAX
    ensures GoFrom([key, IntToString(v)], g) == SetParam(if key == "depth" then g.(depthSpecified := true) else g, key, v)
  {
    var n := IntToString(v);
    IntStringRoundTrip(v);
    ReadStreamIntWord(n, []);
    assert [key, n][1..] == [n] + [];
    assert key != "infinite";
  }

  /** The harness's `go movetime` is read as that move time, which a
      positive value turns into the move time less the margin. */
  lemma HarnessGoMovetime(depth: int, v: int, searchDepth: int, stm: Color)
    requires v != 0 && INT_MIN <= v <= INT_MAX
    ensures var (command, args) := SplitCommand(Tournament.GoCommand(depth, Some(v)));
      command == "go" && GoOf(args, searchDepth) == GoDefaults(searchDepth).(movetime := v) &&
      (v > 0 ==> TimeForMove(GoOf(args, searchDepth), stm) == v - MOVETIME_MARGIN)
  {
    assert Tournament.GoCommand(depth, Some(v)) == "go" + " " + ("movetime" + " " + IntToString(v));
    GoLineWords("movetime", v);
    GoFromPair("movetime", v, GoDefaults(searchDepth));
  }

  /** The harness's `go depth` is read as that depth, with no time limit. */
  lemma HarnessGoDepth(depth: int, movetime: Option<int>, searchDepth: int, stm: Color)
    requires INT_MIN <= depth <= INT_MAX && (movetime.None? || movetime.value == 0)
    ensures var (command, args) := SplitCommand(Tournament.GoCommand(depth, movetime));
      command == "go" && GoOf(args, searchDepth) == GoDefaults(searchDepth).(depth := depth, depthSpecified := true) &&
      TimeForMove(GoOf(args, searchDepth), stm) == 0
  {
    assert Tournament.GoCommand(depth, movetime) == "go" + " " + ("depth" + " " + IntToString(depth));
    GoLineWords("depth", depth);
    GoFromPair("depth", depth, GoDefaults(searchDepth));
  }

  // ---------------------------------------------------------------- setoption

  /** What a `setoption` line asks for. */
  datatype OptionRequest = NoRequest | DebugRequest(on: bool) | DepthRequest(depth: Option<int>)

  /** `handleSetOption` (src/UCI.cpp:261-283): the words must be `name`,
      the option, `value` and the value (which may be missing); `Debug` is
      on for the value `true`, and `Depth` takes the value through
      `std::stoi`, with None where that throws. Other options are ignored. */
  function OptionOf(args: string): OptionRequest
  {
    var w := Words(args);
    if |w| < 3 || w[0] != "name" || w[2] != "value" then NoRequest
    else
      var value := if |w| >= 4 then w[3] else "";
      if w[1] == "Debug" then DebugRequest(value == "true")
      else if w[1] == "Depth" then DepthRequest(Stoi(value))
      else NoRequest
  }

  /** A whole-number word is read by `std::stoi` as `>> int` reads it. */
  lemma StoiIntWord(w: string)
    requires IsIntWord(w)
    ensures Stoi(w) == Some(ParseInt(w))
  {
    ReadIntWord(w);
  }

  /** Four words joined by single spaces. */
  lemma JoinFour(a: string, b: string, c: string, d: string)
    ensures Join([a, b, c, d]) == a + " " + b + " " + c + " " + d
  {
    var ws := [a, b, c, d];
    assert ws[1..] == [b, c, d] && ws[1..][1..] == [c, d] && ws[1..][1..][1..] == [d];
    assert Join([d]) == d;
    assert Join([c, d]) == c + " " + d;
    assert Join([b, c, d]) == b + " " + (c + " " + d);
  }

  /** The harness's `setoption` line is split into `setoption` and the four
      words `name`, the option, `value` and the value. */
  lemma OptionLineWords(name: string, value: string)
    requires |name| > 0 && NoSpace(name) && |value| > 0 && NoSpace(value)
    ensures var (command, args) := SplitCommand(Tournament.SetOption((name, value)));
      command == "setoption" && Words(args) == ["name", name, "value", value]
  {
    var ws := ["name", name, "value", value];
    JoinFour("name", name, "value", value);
    assert Tournament.SetOption((name, value)) == "setoption" + " " + Join(ws) by {
      assert "setoption name " == "setoption" + " " + "name" + " ";
      assert " value " == " " + "value" + " ";
    }
    CommandSpaceless();
    SplitLine("setoption", Join(ws));
    WordsOfJoin(ws);
  }

  /** The harness's `setoption` for `Depth` with a printed number asks for
      that depth. */
  lemma HarnessDepthOption(n: int)
    requires INT_MIN <= n <= INT_MAX
    ensures var (command, args) := SplitCommand(Tournament.SetOption(("Depth", IntToString(n))));
      command == "setoption" && OptionOf(args) == DepthRequest(Some(n))
  {
    var v := IntToString(n);
    OptionLineWords("Depth", v);
    IntStringRoundTrip(n);
    StoiIntWord(v);
  }

  // ---------------------------------------------------------------- position

  /** What a `position` line asks for: the start position or a FEN, each
      with the move words after `moves`; moves on from the current
      position; or nothing. */
  datatype PositionRequest =
    | NoPosition
    | StartposLine(moves: seq<string>)
    | FenLine(fen: string, moves: seq<string>)
    | MovesLine(moves: seq<string>)

  /** The index of the first `moves` at or after k, or the number of words. */
  function MovesIndex(w: seq<string>, k: nat): (j: nat)
    requires k <= |w|
    ensures k <= j <= |w| && (j < |w| ==> w[j] == "moves")
    ensures forall i :: k <= i < j ==> w[i] != "moves"
    decreases |w| - k
  {
    if k == |w| || w[k] == "moves" then k else MovesIndex(w, k + 1)
  }

  /** The reading of `handlePosition` (src/UCI.cpp:95-122): after
      `startpos` the moves follow only when the next word is `moves`; after
      `fen` the words up to `moves`, joined by single spaces, are the FEN. */
  function PositionOf(args: string): PositionRequest
  {
    PositionOfWords(Words(args))
  }

  function PositionOfWords(w: seq<string>): PositionRequest
  {
    if w == [] then NoPosition
    else if w[0] == "startpos" then StartposLine(if |w| >= 2 && w[1] == "moves" then w[2..] else [])
    else if w[0] == "fen" then
      var k := MovesIndex(w, 1);
      FenLine(Join(w[1..k]), if k < |w| then w[k + 1..] else [])
    else if w[0] == "moves" then MovesLine(w[1..])
    else NoPosition
  }

  /** The words the harness puts after its position: `moves` and the moves,
      or nothing when there are none. */
  function MovesTail(moves: seq<string>): seq<string>
  {
    if |moves| > 0 then ["moves"] + moves else []
  }

  lemma {:induction false} SpacelessAppend(xs: seq<string>, ys: seq<string>)
    requires Spaceless(xs) && Spaceless(ys)
    ensures Spaceless(xs + ys)
  {
    assert forall i :: |xs| <= i < |xs + ys| ==> (xs + ys)[i] == ys[i - |xs|];
  }

  lemma CommandSpaceless()
    ensures NoSpace("position") && NoSpace("go") && NoSpace("setoption")
  {
  }

  lemma KeywordsSpaceless()
    ensures Spaceless(["startpos"]) && Spaceless(["fen"]) && Spaceless(["moves"])
  {
    assert NoSpace("startpos") && NoSpace("fen") && NoSpace("moves");
  }

  /** A command word followed by words joined by single spaces is split
      into the command and those words. */
  lemma WordsAfterCommand(command: string, ws: seq<string>)
    requires |command| > 0 && NoSpace(command) && |ws| > 0 && Spaceless(ws)
    ensures SplitCommand(command + " " + Join(ws)) == (command, Join(ws)) && Words(Join(ws)) == ws
  {
    SplitLine(command, Join(ws));
    WordsOfJoin(ws);
  }

  /** The harness's move list, with the keyword `moves` in front, joined. */
  lemma MovesTailJoin(moves: seq<string>)
    requires |moves| > 0
    ensures Join(MovesTail(moves)) == "moves" + " " + Join(moves)
  {
    JoinAppend(["moves"], moves);
  }

  lemma StartposText(j: string)
    ensures "position startpos" + (" moves " + j) == "position" + " " + ("startpos" + " " + ("moves" + " " + j))
  {
  }

  lemma FenText(fen: string, j: string)
    ensures "position fen " + fen + (" moves " + j) == "position" + " " + (("fen" + " " + fen) + " " + ("moves" + " " + j))
    ensures "position fen " + fen == "position" + " " + ("fen" + " " + fen)
  {
  }

  /** The harness's `position startpos` line is split into `position` and
      the words `startpos`, `moves` and the moves. */
  lemma StartposLineWords(moves: seq<string>)
    requires Spaceless(moves)
    ensures var (command, args) := SplitCommand(Tournament.PositionCommand("startpos", moves));
      command == "position" && Words(args) == ["startpos"] + MovesTail(moves)
  {
    var ws := ["startpos"] + MovesTail(moves);
    KeywordsSpaceless();
    if |moves| > 0 {
      MovesTailJoin(moves);
      SpacelessAppend(["moves"], moves);
      JoinAppend(["startpos"], MovesTail(moves));
      StartposText(Join(moves));
    } else {
      assert ws == ["startpos"];
    }
    SpacelessAppend(["startpos"], MovesTail(moves));
    CommandSpaceless();
    var line := Tournament.PositionCommand("startpos", moves);
    assert line == "position" + " " + Join(ws);
    WordsAfterCommand("position", ws);
    assert SplitCommand(line) == ("position", Join(ws));
  }

  /** The harness's `position fen` line, as a command word and words. */
  lemma FenCommandText(fenWords: seq<string>, moves: seq<string>)
    requires |fenWords| > 0 && Join(fenWords) != "startpos"
    ensures Tournament.PositionCommand(Join(fenWords), moves) ==
            "position" + " " + Join(["fen"] + fenWords + MovesTail(moves))
  {
    if |moves| > 0 {
      FenCommandWithMoves(fenWords, moves);
    } else {
      JoinAppend(["fen"], fenWords);
      FenText(Join(fenWords), Join(moves));
      assert ["fen"] + fenWords + MovesTail(moves) == ["fen"] + fenWords;
    }
  }

  lemma FenCommandWithMoves(fenWords: seq<string>, moves: seq<string>)
    requires |fenWords| > 0 && Join(fenWords) != "startpos" && |moves| > 0
    ensures Tournament.PositionCommand(Join(fenWords), moves) ==
            "position" + " " + Join(["fen"] + fenWords + MovesTail(moves))
  {
    var head := ["fen"] + fenWords;
    var fen, j := Join(fenWords), Join(moves);
    JoinAppend(["fen"], fenWords);
    MovesTailJoin(moves);
    JoinAppend(head, MovesTail(moves));
    assert Join(head + MovesTail(moves)) == ("fen" + " " + fen) + " " + ("moves" + " " + j);
    FenText(fen, j);
    assert Tournament.PositionCommand(fen, moves) == "position fen " + fen + (" moves " + j);
  }

  /** The harness's `position fen` line is split into `position` and the
      words `fen`, the FEN's words, `moves` and the moves. */
  lemma FenLineWords(fenWords: seq<string>, moves: seq<string>)
    requires Spaceless(fenWords) && Spaceless(moves) && |fenWords| > 0 && Join(fenWords) != "startpos"
    ensures var (command, args) := SplitCommand(Tournament.PositionCommand(Join(fenWords), moves));
      command == "position" && Words(args) == ["fen"] + fenWords + MovesTail(moves)
  {
    var head := ["fen"] + fenWords;
    var ws := head + MovesTail(moves);
    KeywordsSpaceless();
    SpacelessAppend(["fen"], fenWords);
    if |moves| > 0 {
      SpacelessAppend(["moves"], moves);
    }
    SpacelessAppend(head, MovesTail(moves));
    CommandSpaceless();
    FenCommandText(fenWords, moves);
    WordsAfterCommand("position", ws);
  }

  /** Where the FEN's words end among the harness's `position fen` words. */
  lemma FenWordsEnd(fenWords: seq<string>, moves: seq<string>)
    requires forall i :: 0 <= i < |fenWords| ==> fenWords[i] != "moves"
    ensures var ws := ["fen"] + fenWords + MovesTail(moves);
      MovesIndex(ws, 1) == |fenWords| + 1 && ws[1..|fenWords| + 1] == fenWords &&
      (|moves| > 0 ==> ws[|fenWords| + 2..] == moves) && (|moves| == 0 ==> |ws| == |fenWords| + 1)
  {
    var ws := ["fen"] + fenWords + MovesTail(moves);
    var e := |fenWords| + 1;
    assert ws[1..e] == fenWords;
    assert forall i :: 1 <= i < e ==> ws[i] == fenWords[i - 1];
    if e < |ws| {
      assert ws[e] == "moves";
      assert ws[e + 1..] == moves;
    }
  }

  /** The harness's `position startpos` asks for the start position and
      its moves. */
  lemma HarnessStartpos(moves: seq<string>)
    requires Spaceless(moves)
    ensures var (command, args) := SplitCommand(Tournament.PositionCommand("startpos", moves));
      command == "position" && PositionOf(args) == StartposLine(moves)
  {
    StartposLineWords(moves);
    StartposWordsRead(moves);
  }

  lemma StartposWordsRead(moves: seq<string>)
    ensures PositionOfWords(["startpos"] + MovesTail(moves)) == StartposLine(moves)
  {
    var ws := ["startpos"] + MovesTail(moves);
    if |moves| > 0 {
      assert ws[2..] == moves;
    }
  }

  /** The harness's `position fen` asks for its FEN and moves, when the
      FEN is written with single spaces and has no word `moves`. */
  lemma HarnessFen(fenWords: seq<string>, moves: seq<string>)
    requires Spaceless(fenWords) && Spaceless(moves) && |fenWords| > 0 && Join(fenWords) != "startpos"
    requires forall i :: 0 <= i < |fenWords| ==> fenWords[i] != "moves"
    ensures var (command, args) := SplitCommand(Tournament.PositionCommand(Join(fenWords), moves));
      command == "position" && PositionOf(args) == FenLine(Join(fenWords), moves)
  {
    FenLineWords(fenWords, moves);
    FenWordsRead(fenWords, moves);
  }

  lemma FenWordsRead(fenWords: seq<string>, moves: seq<string>)
    requires forall i :: 0 <= i < |fenWords| ==> fenWords[i] != "moves"
    ensures PositionOfWords(["fen"] + fenWords + MovesTail(moves)) == FenLine(Join(fenWords), moves)
  {
    FenWordsEnd(fenWords, moves);
  }

  /** The board invariant holds of a position when it holds of its board. */
  lemma ConsistentOfView(p: Pos)
    requires Consistent(View(p))
    ensures Consistent(p)
  {
  }

  /** Every position the move words reach can generate its moves and
      settle each of them, up to the first word that names no legal move. */
  ghost predicate LineSettles(b: Board, ws: seq<string>)
    decreases |ws|
  {
    MovesSettle(b) &&
    (ws != [] ==>
      match ReadUciMove(b, ws[0])
      case None => true
      case Some(m) => LegalMovesIff(b, m); LineSettles(Play(b, m), ws[1..]))
  }

  /** The board after the moves the words name, stopping at the first word
      that names no legal move (src/UCI.cpp:122-141). */
  ghost function LineBoard(b: Board, ws: seq<string>): (r: Board)
    requires LineSettles(b, ws)
    ensures MovesSettle(r)
    decreases |ws|
  {
    if ws == [] then b
    else
      match ReadUciMove(b, ws[0])
      case None => b
      case Some(m) => LegalMovesIff(b, m); LineBoard(Play(b, m), ws[1..])
  }

  /** Whether the first move word names a legal move, so that the line
      plays at least one move. */
  ghost predicate Plays(b: Board, ws: seq<string>)
    requires Ready(b)
  {
    ws != [] && ReadUciMove(b, ws[0]).Some?
  }

  /** The moves the words name, made on the whole position: the clocks, the
      history and the rest of the state, not just the board. */
  ghost function LinePos(p: Pos, ws: seq<string>): Pos
    requires LineSettles(View(p), ws)
    decreases |ws|
  {
    if ws == [] then p
    else
      match ReadUciMove(View(p), ws[0])
      case None => p
      case Some(m) =>
        LegalMovesIff(View(p), m);
        ConsistentOfView(p);
        PlayView(p, m);
        LinePos(ApplyMove(p, m), ws[1..])
  }

  /** The replay on positions agrees with the replay on boards. */
  lemma {:induction false} LinePosView(p: Pos, ws: seq<string>)
    requires LineSettles(View(p), ws)
    ensures View(LinePos(p, ws)) == LineBoard(View(p), ws)
    decreases |ws|
  {
    if ws != [] {
      match ReadUciMove(View(p), ws[0])
      case None =>
      case Some(m) =>
        LegalMovesIff(View(p), m);
        ConsistentOfView(p);
        PlayView(p, m);
        LinePosView(ApplyMove(p, m), ws[1..]);
    }
  }

  /** The replay does not read the hashes either. */
  lemma {:induction false} LinePosUnhashed(p: Pos, q: Pos, ws: seq<string>)
    requires LineSettles(View(p), ws) && Unhashed(p) == Unhashed(q)
    ensures View(q) == View(p) && Unhashed(LinePos(p, ws)) == Unhashed(LinePos(q, ws))
    decreases |ws|
  {
    assert View(q) == View(p);
    if ws != [] {
      match ReadUciMove(View(p), ws[0])
      case None =>
      case Some(m) =>
        LegalMovesIff(View(p), m);
        ConsistentOfView(p);
        ApplyUnhashed(p, q, m);
        PlayView(p, m);
        LinePosUnhashed(ApplyMove(p, m), ApplyMove(q, m), ws[1..]);
    }
  }

  /** The word names a legal move of `p`, and `now` is `p` after it,
      hashes aside. */
  ghost predicate WordPlayed(p: Pos, word: string, now: Pos)
    requires Ready(View(p))
  {
    ReadUciMove(View(p), word).Some? && MovedTo(p, ReadUciMove(View(p), word).value, now)
  }

  /** `now` is the replay of the words from `p0`, hashes aside. */
  ghost predicate Replayed(p0: Pos, ws: seq<string>, now: Pos)
    requires LineSettles(View(p0), ws)
  {
    View(now) == LineBoard(View(p0), ws) && Unhashed(now) == Unhashed(LinePos(p0, ws))
  }

  /** The result after the last move of a line onto board `f`: decided by
      the board when it has no legal move, otherwise the earlier result `r0`
      or a draw by the draw rules. */
  ghost predicate Concluded(f: Board, r0: GameResult, result: GameResult)
    requires Ready(f)
  {
    && (LegalMoves(f) == [] ==> result == NextResult(f, InProgress, false))
    && (LegalMoves(f) != [] ==> result == r0 || result == Draw)
  }

  /** Partway through the words: `cur` has `ws[i..]` still to play, and
      playing them from `cur` ends where playing all of `ws` from `p0` does. */
  ghost predicate OnLine(p0: Pos, ws: seq<string>, i: nat, cur: Pos)
    requires i <= |ws| && LineSettles(View(p0), ws)
  {
    && LineSettles(View(cur), ws[i..])
    && LineBoard(View(cur), ws[i..]) == LineBoard(View(p0), ws)
    && Unhashed(LinePos(cur, ws[i..])) == Unhashed(LinePos(p0, ws))
  }

  /** A word that names a legal move moves the replay one word on. */
  lemma OnLineStep(p0: Pos, ws: seq<string>, i: nat, cur: Pos, now: Pos)
    requires i < |ws| && LineSettles(View(p0), ws) && OnLine(p0, ws, i, cur)
    requires Consistent(cur) && WordPlayed(cur, ws[i], now)
    ensures OnLine(p0, ws, i + 1, now)
  {
    var b := View(cur);
    var m := ReadUciMove(b, ws[i]).value;
    assert ws[i..][0] == ws[i] && ws[i..][1..] == ws[i + 1..];
    LegalMovesIff(b, m);
    PlayView(cur, m);
    LinePosUnhashed(ApplyMove(cur, m), now, ws[i + 1..]);
  }

  /** Where the words run out, or the next one names no legal move, the
      replay is over: a position with the same board and the same state
      but for hashes is the replay of the whole line. */
  lemma OnLineStop(p0: Pos, ws: seq<string>, i: nat, cur: Pos, now: Pos)
    requires i <= |ws| && LineSettles(View(p0), ws) && OnLine(p0, ws, i, cur)
    requires i < |ws| ==> ReadUciMove(View(cur), ws[i]).None?
    requires Unhashed(now) == Unhashed(cur)
    ensures Replayed(p0, ws, now)
  {
    assert View(now) == View(cur);
    if i < |ws| {
      assert ws[i..][0] == ws[i];
    } else {
      assert ws[i..] == [];
    }
  }

  /** The next result keeps the verdict of the board it is computed for. */
  lemma ConcludedNext(f: Board, r0: GameResult, before: GameResult, drawn: bool)
    requires Settled(f) && (before == r0 || before == Draw)
    ensures Concluded(f, r0, NextResult(f, before, drawn))
  {
  }

  /** The state of the move loop of `handlePosition` after `i` words, with
      `going` false once a word named no legal move: where the replay
      stands, and what the result is so far. */
  ghost predicate LineState(p0: Pos, ws: seq<string>, r0: GameResult, i: nat, going: bool, cur: Pos, result: GameResult)
    requires i <= |ws| && LineSettles(View(p0), ws)
  {
    && Consistent(cur) && Settled(View(cur))
    && (going ==> OnLine(p0, ws, i, cur))
    && (!going ==> Replayed(p0, ws, cur))
    && (i == 0 ==> result == r0 && View(cur) == View(p0))
    && (i == 0 && !going ==> !Plays(View(p0), ws))
    && (i > 0 ==> Plays(View(p0), ws) && Concluded(View(cur), r0, result))
  }

  /** Before the first word. */
  lemma LineStateStart(p0: Pos, ws: seq<string>, r0: GameResult)
    requires Consistent(p0) && LineSettles(View(p0), ws)
    ensures LineState(p0, ws, r0, 0, true, p0, r0)
  {
    assert ws[0..] == ws;
  }

  /** What one move word does: a word naming a legal move of `p` plays it
      and updates the result from the new board; any other word changes
      nothing but the hash. */
  ghost predicate WordOutcome(p: Pos, r0: GameResult, word: string, played: bool, now: Pos, result: GameResult,
                              drawn: bool)
    requires Ready(View(p))
  {
    && played == ReadUciMove(View(p), word).Some?
    && (played ==> WordPlayed(p, word, now) && Settled(View(now)) && result == NextResult(View(now), r0, drawn))
    && (!played ==> now.(hash := {}) == p.(hash := {}) && Unhashed(now) == Unhashed(p) && result == r0)
  }

  /** One word of the loop: a legal move moves the replay one word on and
      the result follows the new board; any other word ends the line where
      it stands. */
  lemma LineStateNext(p0: Pos, ws: seq<string>, r0: GameResult, i: nat, cur: Pos, before: GameResult,
                      played: bool, now: Pos, result: GameResult, drawn: bool)
    requires i < |ws| && LineSettles(View(p0), ws) && LineState(p0, ws, r0, i, true, cur, before)
    requires WordOutcome(cur, before, ws[i], played, now, result, drawn) && Consistent(now)
    ensures played ==> LineState(p0, ws, r0, i + 1, true, now, result)
    ensures !played ==> LineState(p0, ws, r0, i, false, now, result)
  {
    if played {
      OnLineStep(p0, ws, i, cur, now);
      assert ReadUciMove(View(cur), ws[i]).value in LegalMoves(View(cur));
      assert before == r0 || before == Draw;
      ConcludedNext(View(now), r0, before, drawn);
    } else {
      assert View(now) == View(cur);
      OnLineStop(p0, ws, i, cur, now);
    }
  }

  /** After the loop: the position is the replay of the line, and the result
      is concluded from the final board once a move was played. */
  lemma LineStateEnd(p0: Pos, ws: seq<string>, r0: GameResult, i: nat, going: bool, cur: Pos, result: GameResult)
    requires i <= |ws| && LineSettles(View(p0), ws) && LineState(p0, ws, r0, i, going, cur, result)
    requires going ==> i == |ws|
    ensures Replayed(p0, ws, cur)
    ensures Plays(View(p0), ws) ==> Concluded(LineBoard(View(p0), ws), r0, result)
    ensures !Plays(View(p0), ws) ==> result == r0
  {
    if going {
      OnLineStop(p0, ws, i, cur, cur);
    }
  }

  /** A legal move's printed text, replayed, plays a legal move that prints
      the same, and the rest of the words go on from there. */
  lemma LineReplaysPrinted(b: Board, m: Move, rest: seq<string>)
    requires LineSettles(b, [MoveToString(m)] + rest) && m in LegalMoves(b)
    ensures var r := ReadUciMove(b, MoveToString(m));
      r.Some? && r.value in LegalMoves(b) && MoveToString(r.value) == MoveToString(m) &&
      (LegalMovesIff(b, r.value);
       LineSettles(Play(b, r.value), rest) && LineBoard(b, [MoveToString(m)] + rest) == LineBoard(Play(b, r.value), rest))
  {
    var ws := [MoveToString(m)] + rest;
    ReadPrintedUciMove(b, m);
    var r := ReadUciMove(b, ws[0]).value;
    assert ws[1..] == rest;
    LegalMovesIff(b, r);
    assert LineSettles(Play(b, r), rest);
  }

  /** What a `position` line needs of the positions it reaches: a FEN the
      parser keeps defined, and move generation on every board the moves
      pass through. */
  ghost predicate PositionReady(args: string, current: Board)
  {
    PositionReadyWords(Words(args)) &&
    (PositionOf(args).MovesLine? ==> LineSettles(current, PositionOf(args).moves))
  }

  /** The part of `PositionReady` that does not depend on the current board. */
  ghost predicate PositionReadyWords(w: seq<string>)
  {
    match PositionOfWords(w)
    case NoPosition => true
    case StartposLine(ws) => LineSettles(View(StartPosition()), ws)
    case FenLine(fen, ws) =>
      WellFormedFen(fen) && PlacesOnEmpty(Start(), Field(Words(fen), 0)) &&
      (FromFen(fen).0 ==> LineSettles(View(FromFen(fen).1), ws))
    case MovesLine(_) => true
  }

  // ---------------------------------------------------------------- the engine

  /** What `getAIMove` reports: the move; whether it searched, which it does
      when neither the opening book nor the tablebase answers and which ages
      the transposition table; and the hash the position is left with, since
      the search makes and takes back moves on it and `unmakeMove` leaves piece
      keys behind (Positions.UnmakeMoveKeepsMovedKeys). */
  datatype SearchRun = SearchRun(move: Move, searched: bool, hash: Hash)

  class UCI {
    const game: Game
    var searchDepth: int
    var debug: bool

    ghost predicate Valid()
      reads this, game, game.position
    {
      game.Valid()
    }

    /** `UCI()` (src/UCI.cpp:12-13): a new game at the default depth, with
        debugging off. */
    constructor ()
      ensures Valid() && game.position.State() == StartPosition() && game.result == InProgress
      ensures searchDepth == DEFAULT_DEPTH && !debug && game.ai.depth == DEFAULT_DEPTH && game.ai.timeLimit == 0
      ensures game.ai.Valid() && game.ai.searchStartTime == 0
    {
      game := new Game();
      searchDepth := DEFAULT_DEPTH;
      debug := false;
      new;
      game.ai.depth := searchDepth;
    }

    /** `handleNewGame` (src/UCI.cpp:88-93): the start position, and the
        search depth handed to the engine again. */
    method HandleNewGame()
      requires Valid()
      modifies game, game.position, game.position.byType, game.position.byColor, game.position.board, game.ai
      ensures Valid() && game.position.State() == StartPosition() && game.result == InProgress
      ensures game.ai.depth == searchDepth && game.ai.timeLimit == old(game.ai.timeLimit)
      ensures game.ai.searchStartTime == old(game.ai.searchStartTime)
    {
      game.Reset();
      game.ai.depth := searchDepth;
    }

    /** `parseMove` (src/UCI.cpp:300-361): the legal move the word names,
        or 0. Generating the moves leaves the position as it was but for
        its hash. */
    method ParseMove(text: string) returns (move: Move)
      requires Valid() && Consistent(game.position.State()) && Ready(View(game.position.State()))
      modifies game.position, game.position.byType, game.position.byColor, game.position.board
      ensures Valid() && game.position.State() == old(game.position.State()).(hash := game.position.hash)
      ensures var r := ReadUciMove(View(old(game.position.State())), text);
        move == if r.Some? then r.value else 0
    {
      ghost var b := View(game.position.State());
      if |text| < 4 {
        return 0;
      }
      var fromFile := text[0] as int - 'a' as int;
      var fromRank := text[1] as int - '1' as int;
      var toFile := text[2] as int - 'a' as int;
      var toRank := text[3] as int - '1' as int;
      if fromFile < 0 || fromFile > 7 || fromRank < 0 || fromRank > 7 ||
         toFile < 0 || toFile > 7 || toRank < 0 || toRank > 7 {
        return 0;
      }
      assert text[..2][0] == text[0] && text[..2][1] == text[1];
      assert text[2..4][0] == text[2] && text[2..4][1] == text[3];
      var from := StringToSquare(text[..2]);
      var to := StringToSquare(text[2..4]);
      var promo: Option<PromotionPiece> := None;
      if |text| == 5 {
        promo := UciPromotion(text[4]);
        if promo.None? {
          return 0;
        }
      }
      var legalMoves := GenerateLegalMoves(game.position);
      forall m | m in legalMoves
        ensures m != 0
      {
        LegalNotNull(b, m);
      }
      move := FindNamed(legalMoves, from, to, promo);
    }

    /** One move word of `handlePosition` (src/UCI.cpp:124-139): a word
        that names a legal move plays it through `Game::makeMove`, which
        makes it and updates the result; any other word stops the line and
        leaves everything but the hash as it was. */
    method PlayMoveWord(word: string, isDraw: Pos -> bool) returns (played: bool)
      requires Valid() && Consistent(game.position.State()) && MovesSettle(View(game.position.State()))
      modifies game, game.position, game.position.byType, game.position.byColor, game.position.board
      ensures Valid() && Consistent(game.position.State())
      ensures WordOutcome(old(game.position.State()), old(game.result), word, played,
                          game.position.State(), game.result, isDraw(game.position.State()))
    {
      ghost var p := game.position.State();
      ghost var b := View(p);
      var move := ParseMove(word);
      assert View(game.position.State()) == b;
      ghost var r := ReadUciMove(b, word);
      if r.Some? {
        LegalNotNull(b, r.value);
      }
      if move == 0 {
        ConsistentOfView(game.position.State());
        return false;
      }
      ghost var before := game.position.State();
      assert Unhashed(before) == Unhashed(p);
      played := game.MakeMove(move, isDraw);
      ConsistentOfView(game.position.State());
      ConsistentOfView(p);
      MovedToUnhashed(p, before, move, game.position.State());
    }

    /** The move loop of `handlePosition` (src/UCI.cpp:122-141): the words
        are played up to the first one that names no legal move. The
        position is then the replay of the line, hashes aside; the result
        is the verdict of the final board when it has no legal move and
        the line played a move, and otherwise the earlier result or a draw
        by the draw rules. */
    method PlayMoveWords(ws: seq<string>, isDraw: Pos -> bool)
      requires Valid() && Consistent(game.position.State()) && LineSettles(View(game.position.State()), ws)
      modifies game, game.position, game.position.byType, game.position.byColor, game.position.board
      ensures Valid() && Replayed(old(game.position.State()), ws, game.position.State())
      ensures Plays(View(old(game.position.State())), ws) ==>
        Concluded(LineBoard(View(old(game.position.State())), ws), old(game.result), game.result)
      ensures !Plays(View(old(game.position.State())), ws) ==> game.result == old(game.result)
    {
      ghost var p0 := game.position.State();
      ghost var r0 := game.result;
      LineStateStart(p0, ws, r0);
      var i := 0;
      var going := true;
      while going && i < |ws|
        invariant 0 <= i <= |ws|
        invariant Valid() && Consistent(game.position.State()) && Settled(View(game.position.State()))
        invariant going ==> OnLine(p0, ws, i, game.position.State())
        invariant !going ==> Replayed(p0, ws, game.position.State())
        invariant i == 0 ==> game.result == r0 && View(game.position.State()) == View(p0)
        invariant i == 0 && !going ==> !Plays(View(p0), ws)
        invariant i > 0 ==> Plays(View(p0), ws) && Concluded(View(game.position.State()), r0, game.result)
        decreases |ws| - i, going
      {
        ghost var cur := game.position.State();
        ghost var before := game.result;
        var played := PlayMoveWord(ws[i], isDraw);
        LineStateNext(p0, ws, r0, i, cur, before, played, game.position.State(), game.result,
                      isDraw(game.position.State()));
        if played {
          i := i + 1;
        } else {
          going := false;
        }
      }
      LineStateEnd(p0, ws, r0, i, going, game.position.State(), game.result);
    }

    /** `handlePosition` (src/UCI.cpp:95-142): the start position or the
        FEN, each after a reset and with the search depth handed on again,
        then the moves; a FEN the parser turns down leaves its partial
        position and no moves are played. After the moves the position is
        their replay, hashes aside, and the game is over only as the final
        board or the draw rules say. */
    method HandlePosition(args: string, isDraw: Pos -> bool)
      requires Valid() && PositionReady(args, View(game.position.State()))
      modifies game, game.position, game.position.byType, game.position.byColor, game.position.board, game.ai
      ensures Valid() && game.ai.searchStartTime == old(game.ai.searchStartTime)
      ensures match PositionOf(args)
        case NoPosition =>
          game.position.State() == old(game.position.State()) && game.result == old(game.result) &&
          game.ai.depth == old(game.ai.depth)
        case StartposLine(ws) =>
          game.ai.depth == searchDepth && StartposAfter(ws)
        case FenLine(fen, ws) =>
          game.ai.depth == searchDepth && FenAfter(fen, ws)
        case MovesLine(ws) =>
          Replayed(old(game.position.State()), ws, game.position.State()) &&
          (Plays(View(old(game.position.State())), ws) ==>
             Concluded(LineBoard(View(old(game.position.State())), ws), old(game.result), game.result)) &&
          (!Plays(View(old(game.position.State())), ws) ==> game.result == old(game.result)) &&
          game.ai.depth == old(game.ai.depth)
    {
      var w := Words(args);
      if w == [] {
        return;
      }
      var token := w[0];
      if token == "startpos" {
        var moveWords := if |w| >= 2 && w[1] == "moves" then w[2..] else [];
        SetUpStartpos(moveWords, isDraw);
      } else if token == "fen" {
        SetUpFen(w, isDraw);
      } else if token == "moves" {
        ConsistentOfView(game.position.State());
        PlayMoveWords(w[1..], isDraw);
      }
    }

    /** The state a `position startpos moves ...` line leaves: the replay
        of the moves from the start position, hashes aside, with the game in
        progress unless the final board or the draw rules end it. */
    ghost predicate StartposAfter(ws: seq<string>)
      reads this, game, game.position, game.position.byType, game.position.byColor, game.position.board
      requires Valid() && LineSettles(View(StartPosition()), ws)
    {
      FromLine(StartPosition(), ws, Plays(View(StartPosition()), ws))
    }

    /** The state a `position fen ... moves ...` line leaves: a FEN the
        parser turns down leaves its partial position and the game in
        progress, as the reset before it left it; otherwise the moves
        are replayed from the FEN's position, hashes aside, and the result
        is concluded from the final board, whether or not a move was
        played. */
    ghost predicate FenAfter(fen: string, ws: seq<string>)
      reads this, game, game.position, game.position.byType, game.position.byColor, game.position.board
      requires Valid() && WellFormedFen(fen) && (FromFen(fen).0 ==> LineSettles(View(FromFen(fen).1), ws))
    {
      && (!FromFen(fen).0 ==> game.position.State() == FromFen(fen).1 && game.result == InProgress)
      && (FromFen(fen).0 ==> FromLine(FromFen(fen).1, ws, true))
    }

    /** After a reset to `p0` and the words `ws`: the position is their
        replay, and the result is concluded from the final board when
        `decided` (and is still in progress otherwise). */
    ghost predicate FromLine(p0: Pos, ws: seq<string>, decided: bool)
      reads this, game, game.position, game.position.byType, game.position.byColor, game.position.board
      requires Valid() && LineSettles(View(p0), ws)
    {
      && Replayed(p0, ws, game.position.State())
      && (decided ==> Concluded(LineBoard(View(p0), ws), InProgress, game.result))
      && (!decided ==> game.result == InProgress)
    }

    /** The `startpos` branch of `handlePosition` (src/UCI.cpp:100-103,
        122-141). */
    method SetUpStartpos(moveWords: seq<string>, isDraw: Pos -> bool)
      requires Valid() && LineSettles(View(StartPosition()), moveWords)
      modifies game, game.position, game.position.byType, game.position.byColor, game.position.board, game.ai
      ensures Valid() && game.ai.depth == searchDepth && game.ai.searchStartTime == old(game.ai.searchStartTime)
      ensures StartposAfter(moveWords)
    {
      game.Reset();
      game.ai.depth := searchDepth;
      ConsistentOfView(game.position.State());
      if moveWords != [] {
        PlayMoveWords(moveWords, isDraw);
      }
    }

    /** The `fen` branch of `handlePosition` (src/UCI.cpp:104-119, 122-141). */
    method SetUpFen(w: seq<string>, isDraw: Pos -> bool)
      requires Valid() && |w| > 0 && w[0] == "fen" && Spaceless(w) && PositionReadyWords(w)
      modifies game, game.position, game.position.byType, game.position.byColor, game.position.board, game.ai
      ensures Valid() && game.ai.depth == searchDepth && game.ai.searchStartTime == old(game.ai.searchStartTime)
      ensures var request := PositionOfWords(w);
        FenAfter(request.fen, request.moves)
    {
      var k, fen := ReadFenWords(w);
      var moveWords := if k < |w| then w[k + 1..] else [];
      assert PositionOfWords(w) == FenLine(fen, moveWords);
      LoadFenLine(fen, moveWords, isDraw);
    }

    /** The FEN of a `fen` line loaded into the game, then its moves played. */
    method LoadFenLine(fen: string, moveWords: seq<string>, isDraw: Pos -> bool)
      requires Valid() && WellFormedFen(fen) && PlacesOnEmpty(Start(), Field(Words(fen), 0))
      requires FromFen(fen).0 ==> LineSettles(View(FromFen(fen).1), moveWords)
      modifies game, game.position, game.position.byType, game.position.byColor, game.position.board, game.ai
      ensures Valid() && game.ai.depth == searchDepth && game.ai.searchStartTime == old(game.ai.searchStartTime)
      ensures FenAfter(fen, moveWords)
    {
      game.Reset();
      game.ai.depth := searchDepth;
      var ok := game.LoadFen(fen, isDraw);
      if !ok {
        return;
      }
      ghost var loaded := FromFen(fen).1;
      ghost var b0 := View(loaded);
      assert View(game.position.State()) == b0;
      assert Unhashed(game.position.State()) == Unhashed(loaded);
      ConsistentOfView(game.position.State());
      LinePosUnhashed(loaded, game.position.State(), moveWords);
      if moveWords != [] {
        ghost var r0 := game.result;
        PlayMoveWords(moveWords, isDraw);
        if Plays(b0, moveWords) {
          ghost var m := ReadUciMove(b0, moveWords[0]).value;
          assert m in LegalMoves(b0);
        }
      }
    }

    /** `handleGo` (src/UCI.cpp:144-250): the parameters, the time limit
        they give for the side to move, the depth handed to the engine, the
        move `search` finds at that depth and limit, the limit cleared
        again, and the `bestmove` line. The one-argument `findBestMove`
        (src/Game.cpp:93) leaves the start time as it was, so the search
        measures its limit from it; a search ages the transposition table
        (src/AI.cpp:195, an 8-bit counter) and leaves the position with a
        new hash and otherwise as it was. */
    method HandleGo(args: string, search: (Pos, int, int, nat) -> SearchRun) returns (reply: string)
      requires Valid() && game.ai.Valid()
      modifies game.ai, game.position
      ensures Valid() && game.ai.Valid()
      ensures var g := GoOf(args, searchDepth);
        var t := TimeForMove(g, old(game.position.State()).stm);
        var run := search(old(game.position.State()), g.depth, t, old(game.ai.searchStartTime));
        && game.ai.depth == g.depth && game.ai.timeLimit == 0
        && reply == BestMoveReply(run.move)
        && game.ai.ttAge == (if run.searched then (old(game.ai.ttAge) + 1) % 256 else old(game.ai.ttAge))
        && game.position.State() == old(game.position.State()).(hash := run.hash)
      ensures game.ai.searchStartTime == old(game.ai.searchStartTime) && game.ai.openingBook == old(game.ai.openingBook)
    {
      ghost var p := game.position.State();
      var g := ReadGoParams(args, searchDepth);
      var timeForMove := TimeForMove(g, game.position.State().stm);
      game.ai.timeLimit := timeForMove;
      game.ai.depth := g.depth;
      assert game.position.State() == p;
      var run := search(game.position.State(), game.ai.depth, game.ai.timeLimit, game.ai.searchStartTime);
      if run.searched {
        game.ai.ttAge := (game.ai.ttAge + 1) % 256;
      }
      game.position.hash := run.hash;
      assert game.position.State() == p.(hash := run.hash);
      game.ai.timeLimit := 0;
      var bestMove := run.move;
      if bestMove != 0 {
        reply := "bestmove " + MoveToString(bestMove);
      } else {
        reply := "bestmove " + NULL_MOVE_TEXT;
      }
    }

    /** `handleSetOption` (src/UCI.cpp:261-283). `terminated` is set where
        `std::stoi` throws, which nothing catches: the program ends there. */
    method HandleSetOption(args: string) returns (terminated: bool)
      requires Valid()
      modifies this, game.ai
      ensures Valid() && game.ai.searchStartTime == old(game.ai.searchStartTime)
      ensures match OptionOf(args)
        case NoRequest =>
          !terminated && debug == old(debug) && searchDepth == old(searchDepth) && game.ai.depth == old(game.ai.depth)
        case DebugRequest(on) =>
          !terminated && debug == on && searchDepth == old(searchDepth) && game.ai.depth == old(game.ai.depth)
        case DepthRequest(d) =>
          terminated == d.None? && debug == old(debug) &&
          (d.Some? ==> searchDepth == d.value && game.ai.depth == d.value) &&
          (d.None? ==> searchDepth == old(searchDepth) && game.ai.depth == old(game.ai.depth))
    {
      var w := Words(args);
      terminated := false;
      if |w| < 1 || w[0] != "name" {
        return;
      }
      if |w| < 3 || w[2] != "value" {
        return;
      }
      var name := w[1];
      var value := if |w| >= 4 then w[3] else "";
      if name == "Debug" {
        debug := value == "true";
      } else if name == "Depth" {
        var n := Stoi(value);
        if n.None? {
          return true;
        }
        searchDepth := n.value;
        game.ai.depth := searchDepth;
      }
    }
  }

  /** The FEN words of `handlePosition` (src/UCI.cpp:106-110): the words
      after `fen` up to `moves`, joined by single spaces. */
  method ReadFenWords(w: seq<string>) returns (k: nat, fen: string)
    requires |w| > 0 && Spaceless(w)
    ensures k == MovesIndex(w, 1) && fen == Join(w[1..k])
  {
    k := 1;
    fen := "";
    while k < |w| && w[k] != "moves"
      invariant 1 <= k <= |w|
      invariant MovesIndex(w, k) == MovesIndex(w, 1)
      invariant fen == Join(w[1..k])
      invariant fen == "" <==> k == 1
    {
      if fen != "" {
        fen := fen + " ";
        JoinAppend(w[1..k], [w[k]]);
        assert w[1..k + 1] == w[1..k] + [w[k]];
      } else {
        assert w[1..k + 1] == [w[k]];
      }
      fen := fen + w[k];
      k := k + 1;
    }
  }
}

/** The bookkeeping around the engine's search (src/AI.cpp, inc/AI.h): the
    killer-move slots, the history table, the game phase, the move-ordering
    score and the ordering itself, the transposition-table store and probe of
    `negamax`, the time check, and the text opening book with its probe.

    The search itself (`findBestMove`, `negamax`, `quiescence`) and the
    evaluation are not modelled; the static exchange evaluation that the
    ordering score consults is a parameter `see`. */
module Search {
  import opened Types
  import opened Positions
  import opened Fen
  import opened PositionClass
  import opened MoveGen

  const MAX_PLY: int := 64
  const HISTORY_LIMIT: int := 10000

  /** `TT_SIZE`: 128 MiB of transposition entries of 24 bytes each (the
      entry's size with the usual 64-bit alignment). */
  const TT_SIZE: int := 5592405

  const UINT64: int := 0x1_0000_0000_0000_0000

  // ordering scores of `getMoveScore`
  const TT_MOVE_SCORE: int := 1000000
  const GOOD_CAPTURE: int := 20000
  const EQUAL_CAPTURE: int := 10000
  const BAD_CAPTURE: int := 5000
  const COUNTERMOVE_BONUS: int := 9500
  const KILLER_BONUS: int := 9000
  const PROMOTION_BONUS: int := 15000

  /** The largest entry of the piece values `see` uses (the king's). */
  const KING_VALUE: int := 20000

  /** Number of leading book moves `probeOpeningBook` chooses among. */
  const BOOK_CHOICES: int := 3

  function Min(a: int, b: int): int { if a <= b then a else b }

  function Max(a: int, b: int): int { if a >= b then a else b }

  // ---------------------------------------------------------------- time check

  /** `shouldStop` (src/AI.cpp:43-47) at clock reading `now`: a zero limit
      never stops; otherwise the unsigned 64-bit elapsed time is compared with
      the limit converted to an unsigned 64-bit value. */
  function ShouldStop(timeLimit: int, start: nat, now: nat): bool
    requires start < UINT64 && now < UINT64
  {
    timeLimit != 0 && (now - start) % UINT64 >= timeLimit % UINT64
  }

  /** With a positive limit and a clock that has not wrapped, the search stops
      exactly once the limit has elapsed; with no limit it never stops. */
  lemma ShouldStopPositive(timeLimit: int, start: nat, now: nat)
    requires start <= now < UINT64 && timeLimit < UINT64
    ensures timeLimit == 0 ==> !ShouldStop(timeLimit, start, now)
    ensures timeLimit > 0 ==> (ShouldStop(timeLimit, start, now) <==> now - start >= timeLimit)
  {
    assert (now - start) % UINT64 == now - start;
  }

  /** A negative limit becomes a huge unsigned one: the search does not stop
      until the elapsed time comes within |limit| of 2^64 milliseconds. */
  lemma NegativeLimitNeverStops(timeLimit: int, start: nat, now: nat)
    requires start <= now < UINT64 && -UINT64 < timeLimit < 0
    requires now - start < UINT64 + timeLimit
    ensures !ShouldStop(timeLimit, start, now)
  {
    assert (now - start) % UINT64 == now - start;
    assert timeLimit % UINT64 == UINT64 + timeLimit;
  }

  /** The one-argument `findBestMove`, which `go` uses, never sets the start
      time: it stays 0 from the constructor (src/AI.cpp:21, 159), so the
      elapsed time is the clock reading itself. With a positive limit the
      check before depth 1 (src/AI.cpp:207-212) stops the search as soon as
      the clock reads at least the limit, and the first root move is played
      unsearched. */
  lemma UnsetStartStopsAtOnce(timeLimit: int, now: nat)
    requires 0 < timeLimit <= now < UINT64
    ensures ShouldStop(timeLimit, 0, now)
  {
    assert (now - 0) % UINT64 == now;
    assert timeLimit % UINT64 == timeLimit;
  }

  // ---------------------------------------------------------------- killer slots

  /** What `storeKiller` does to the two killer slots of one ply. */
  function KillerStore(slots: (Move, Move), move: Move): (Move, Move)
  {
    if slots.0 != move then (move, slots.0) else slots
  }

  /** After a store the move is the first killer, the previous first killer is
      still a killer, and nothing else is; storing the same move again changes
      nothing. */
  lemma KillerStoreSpec(slots: (Move, Move), move: Move)
    ensures KillerStore(slots, move).0 == move
    ensures slots.0 in {KillerStore(slots, move).0, KillerStore(slots, move).1}
    ensures KillerStore(slots, move).1 in {move, slots.0, slots.1}
    ensures KillerStore(KillerStore(slots, move), move) == KillerStore(slots, move)
  {
    if slots.0 != move {
      assert KillerStore(slots, move) == (move, slots.0);
    }
  }

  // ---------------------------------------------------------------- history table

  /** `updateHistory` on one entry (src/AI.cpp:1296-1313): add the bonus less
      the entry's share of it (C++ truncating division), then clamp to
      [-10000, 10000]. */
  function HistoryAfter(h: int, bonus: int): (r: int)
    ensures -HISTORY_LIMIT <= r <= HISTORY_LIMIT
  {
    var raw := h + (bonus - Quot(h * Abs(bonus), HISTORY_LIMIT));
    if raw > HISTORY_LIMIT then HISTORY_LIMIT
    else if raw < -HISTORY_LIMIT then -HISTORY_LIMIT
    else raw
  }

  /** The gravity term never outweighs the bonus: for an entry already within
      the clamp and a bonus no larger than the clamp, a cutoff never lowers the
      entry, and raises it unless it is already at the top. */
  lemma {:induction false} HistoryNeverDrops(h: int, bonus: int)
    requires -HISTORY_LIMIT <= h <= HISTORY_LIMIT && 0 <= bonus <= HISTORY_LIMIT
    ensures h <= HistoryAfter(h, bonus)
    ensures bonus > 0 && h < HISTORY_LIMIT ==> h < HistoryAfter(h, bonus)
  {
    var x := h * bonus;
    if h >= 0 {
      assert x <= HISTORY_LIMIT * bonus by { MulLeq(h, HISTORY_LIMIT, bonus); }
      assert Quot(x, HISTORY_LIMIT) == x / HISTORY_LIMIT;
      assert x / HISTORY_LIMIT <= bonus;
      if bonus > 0 && h < HISTORY_LIMIT {
        assert x < HISTORY_LIMIT * bonus by { MulLess(h, HISTORY_LIMIT, bonus); }
        assert x / HISTORY_LIMIT < bonus;
      }
    } else {
      assert x <= 0 by { MulLeq(h, 0, bonus); }
      assert Quot(x, HISTORY_LIMIT) <= 0;
      if bonus > 0 {
        assert Quot(x, HISTORY_LIMIT) < bonus;
      }
    }
  }

  lemma MulLeq(a: int, b: int, c: nat)
    requires a <= b
    ensures a * c <= b * c
  {
  }

  lemma MulLess(a: int, b: int, c: nat)
    requires a < b && c > 0
    ensures a * c < b * c
  {
  }

  // ---------------------------------------------------------------- game phase

  /** Phase points of the material on the board: one per minor piece, two per
      rook, four per queen, both colours. */
  function PhasePoints(p: Pos): nat
  {
    |Pieces(p, WHITE, KNIGHT)| + |Pieces(p, BLACK, KNIGHT)| +
    |Pieces(p, WHITE, BISHOP)| + |Pieces(p, BLACK, BISHOP)| +
    2 * (|Pieces(p, WHITE, ROOK)| + |Pieces(p, BLACK, ROOK)|) +
    4 * (|Pieces(p, WHITE, QUEEN)| + |Pieces(p, BLACK, QUEEN)|)
  }

  /** `getGamePhase` (src/AI.cpp:1009-1032): the phase points scaled from 24 to
      256 with rounding, capped at 256. */
  function GamePhase(p: Pos): (r: int)
    ensures 0 <= r <= 256
  {
    PhaseScale(PhasePoints(p))
  }

  function PhaseScale(points: nat): (r: int)
    ensures 0 <= r <= 256
  {
    Min(256, (points * 256 + 12) / 24)
  }

  /** Full starting material (24 points) or more is the opening phase 256, no
      minor or major piece is the endgame phase 0, and the phase never falls
      when material is added. */
  lemma {:induction false} PhaseScaleSpec(a: nat, b: nat)
    requires a <= b
    ensures a >= 24 ==> PhaseScale(a) == 256
    ensures a == 0 ==> PhaseScale(a) == 0
    ensures PhaseScale(a) <= PhaseScale(b)
  {
    DivMonotone(a * 256 + 12, b * 256 + 12, 24);
    if a >= 24 {
      DivMonotone(24 * 256 + 12, a * 256 + 12, 24);
    }
  }

  lemma DivMonotone(x: nat, y: nat, d: nat)
    requires x <= y && d > 0
    ensures x / d <= y / d
  {
    if x / d > y / d {
      assert x / d * d >= (y / d + 1) * d by { MulLeq(y / d + 1, x / d, d); }
      assert false;
    }
  }

  lemma GamePhaseSpec(p: Pos, q: Pos)
    requires PhasePoints(p) <= PhasePoints(q)
    ensures PhasePoints(p) >= 24 ==> GamePhase(p) == 256
    ensures PhasePoints(p) == 0 ==> GamePhase(p) == 0
    ensures GamePhase(p) <= GamePhase(q)
  {
    PhaseScaleSpec(PhasePoints(p), PhasePoints(q));
  }

  // ---------------------------------------------------------------- ordering score parts

  /** Captures by the sign of their static exchange value. */
  function CaptureScore(see: int): (r: int)
    ensures see > 0 ==> r > GOOD_CAPTURE
    ensures see == 0 ==> r == EQUAL_CAPTURE
    ensures see < 0 ==> r < BAD_CAPTURE
  {
    if see > 0 then GOOD_CAPTURE + see
    else if see == 0 then EQUAL_CAPTURE
    else BAD_CAPTURE + see
  }

  // ---------------------------------------------------------------- ordering

  /** The first n scores never increase. */
  predicate Descending(keys: seq<int>, n: int)
  {
    0 <= n <= |keys| && forall a, b :: 0 <= a < b < n ==> keys[a] >= keys[b]
  }

  /** Insertion of the key at j into the descending keys before i: every
      other pair up to i is in order, and the key at j is above all keys
      after it. */
  predicate Sinking(keys: seq<int>, i: int, j: int)
  {
    0 <= j <= i < |keys| &&
    (forall a, b :: 0 <= a < b <= i && a != j && b != j ==> keys[a] >= keys[b]) &&
    (forall b :: j < b <= i ==> keys[j] > keys[b])
  }

  lemma SinkingStep(keys: seq<int>, i: int, j: int)
    requires Sinking(keys, i, j) && j > 0 && keys[j - 1] < keys[j]
    ensures Sinking(Swap(keys, j - 1, j), i, j - 1)
  {
  }

  lemma SinkingDone(keys: seq<int>, i: int, j: int)
    requires Sinking(keys, i, j) && (j == 0 || keys[j - 1] >= keys[j])
    ensures Descending(keys, i + 1)
  {
  }

  /** The sequence with the elements at a and b exchanged. */
  function Swap<T>(s: seq<T>, a: int, b: int): (r: seq<T>)
    requires 0 <= a < |s| && 0 <= b < |s|
    ensures |r| == |s| && r[a] == s[b] && r[b] == s[a]
    ensures forall k :: 0 <= k < |s| && k != a && k != b ==> r[k] == s[k]
  {
    s[a := s[b]][b := s[a]]
  }

  lemma SwapPermutes<T>(s: seq<T>, a: int, b: int)
    requires 0 <= a < |s| && 0 <= b < |s|
    ensures multiset(Swap(s, a, b)) == multiset(s)
  {
  }

  // ---------------------------------------------------------------- transposition table

  datatype TTFlag = Exact | LowerBound | UpperBound

  datatype TTEntry = TTEntry(key: nat, depth: int, score: int, flag: TTFlag, bestMove: Move, age: nat)

  /** A value-initialised entry: key 0 marks it empty. */
  const EMPTY_ENTRY: TTEntry := TTEntry(0, 0, 0, Exact, 0, 0)

  /** The bound a search result gives (src/AI.cpp:578-584). */
  function BoundFlag(maxScore: int, alphaOrig: int, beta: int): (f: TTFlag)
    ensures f == UpperBound <==> maxScore <= alphaOrig
    ensures f == LowerBound <==> alphaOrig < maxScore && beta <= maxScore
    ensures f == Exact <==> alphaOrig < maxScore < beta
  {
    if maxScore <= alphaOrig then UpperBound
    else if maxScore >= beta then LowerBound
    else Exact
  }

  /** Depth-preferred replacement (src/AI.cpp:564-568). */
  predicate Replaces(e: TTEntry, hash: nat, depth: int, age: nat)
  {
    e.key == 0 || e.key == hash || e.depth <= depth || e.age != age
  }

  /** The slot after `negamax` stores its result in it. */
  function StoreInto(e: TTEntry, hash: nat, depth: int, maxScore: int, alphaOrig: int, beta: int,
                     bestMove: Move, age: nat): TTEntry
  {
    if Replaces(e, hash, depth, age)
    then TTEntry(hash, depth, maxScore, BoundFlag(maxScore, alphaOrig, beta), bestMove, age)
    else e
  }

  datatype Probe = Cutoff(score: int) | Continue(alpha: int, beta: int)

  /** The probe at the top of `negamax` (src/AI.cpp:302-316): an entry for the
      same position searched at least as deep returns an exact score, or
      narrows the window and returns its score once the window closes. */
  function ProbeEntry(e: TTEntry, hash: nat, depth: int, alpha: int, beta: int): (r: Probe)
    ensures r.Cutoff? ==> e.key == hash && e.depth >= depth && r.score == e.score
    ensures r.Continue? ==> (alpha <= r.alpha && r.beta <= beta && r.alpha < r.beta) || r == Continue(alpha, beta)
    ensures e.key != hash || e.depth < depth ==> r == Continue(alpha, beta)
  {
    if e.key == hash && e.depth >= depth then
      if e.flag == Exact then Cutoff(e.score)
      else
        var a := if e.flag == LowerBound then Max(alpha, e.score) else alpha;
        var b := if e.flag == UpperBound then Min(beta, e.score) else beta;
        if a >= b then Cutoff(e.score) else Continue(a, b)
    else Continue(alpha, beta)
  }

  /** Within an open window a bound cuts off only when it lies outside the
      window: a lower bound at or above beta, an upper bound at or below alpha. */
  lemma ProbeCutoffBound(e: TTEntry, hash: nat, depth: int, alpha: int, beta: int)
    requires alpha < beta && ProbeEntry(e, hash, depth, alpha, beta).Cutoff?
    ensures e.flag == LowerBound ==> e.score >= beta
    ensures e.flag == UpperBound ==> e.score <= alpha
  {
  }

  /** Store then probe: when the store replaced the slot, probing the same
      position no deeper returns the stored score for an exact result, and any
      cut-off it gives returns that same score. */
  lemma {:induction false} StoreThenProbe(e: TTEntry, hash: nat, depth: int, maxScore: int, alphaOrig: int,
                                          beta: int, bestMove: Move, age: nat, d: int, alpha: int, b: int)
    requires Replaces(e, hash, depth, age) && d <= depth
    ensures var r := ProbeEntry(StoreInto(e, hash, depth, maxScore, alphaOrig, beta, bestMove, age), hash, d, alpha, b);
      (alphaOrig < maxScore < beta ==> r == Cutoff(maxScore)) &&
      (r.Cutoff? ==> r.score == maxScore)
  {
    var s := StoreInto(e, hash, depth, maxScore, alphaOrig, beta, bestMove, age);
    assert s.key == hash && s.depth == depth && s.score == maxScore;
  }

  // ---------------------------------------------------------------- opening book text

  predicate IsBlank(c: char) { c == ' ' || c == '\t' }

  /** Index of the first occurrence of c in s, or -1 (`find` with `npos`). */
  function IndexOf(s: string, c: char): (i: int)
    ensures -1 <= i < |s|
    ensures i >= 0 ==> s[i] == c && c !in s[..i]
    ensures i == -1 <==> c !in s
  {
    if s == [] then -1
    else if s[0] == c then 0
    else
      var j := IndexOf(s[1..], c);
      if j < 0 then -1 else assert s[..j + 1] == [s[0]] + s[1..][..j]; j + 1
  }

  function TrimFront(s: string): (t: string)
    ensures |t| <= |s| && t == s[|s| - |t|..]
    ensures t != [] ==> !IsBlank(t[0])
    ensures forall i :: 0 <= i < |s| - |t| ==> IsBlank(s[i])
  {
    if s != [] && IsBlank(s[0]) then TrimFront(s[1..]) else s
  }

  function TrimBack(s: string): (t: string)
    ensures |t| <= |s| && t == s[..|t|]
    ensures t != [] ==> !IsBlank(t[|t| - 1])
    ensures forall i :: |t| <= i < |s| ==> IsBlank(s[i])
  {
    if s != [] && IsBlank(s[|s| - 1]) then TrimBack(s[..|s| - 1]) else s
  }

  /** Blanks and tabs trimmed from both ends (src/AI.cpp:75-76). */
  function Trim(s: string): string { TrimBack(TrimFront(s)) }

  datatype BookLine = Skipped | Entry(fen: string, words: seq<string>)

  /** One line of the book file (src/AI.cpp:64-77): empty lines, comment lines
      and lines without '|' are skipped; otherwise the trimmed text before the
      first '|' is the FEN and the words after it are the moves. */
  function ParseBookLine(line: string): (r: BookLine)
    ensures r.Skipped? <==> line == [] || line[0] == '#' || '|' !in line
    ensures r.Entry? ==> exists i :: 0 <= i < |line| && line[i] == '|' && '|' !in line[..i] &&
                                     r.fen == Trim(line[..i]) && r.words == Words(line[i + 1..])
  {
    if line == [] || line[0] == '#' then Skipped
    else
      var bar := IndexOf(line, '|');
      if bar < 0 then Skipped else Entry(Trim(line[..bar]), Words(line[bar + 1..]))
  }

  /** A book move word as `loadOpeningBook` reads it: squares computed from the
      first four characters with no range check, and a promotion piece only
      for a five-character word ending in q, r, b or n. */
  datatype BookMove = BookMove(from: int, to: int, promotion: Option<PromotionPiece>)

  function ReadBookMove(w: string): (bm: BookMove)
    requires |w| >= 4
    ensures bm.promotion.Some? ==> |w| == 5 && w[4] in "qrbn"
  {
    var from := ((w[1] as int) - ('1' as int)) * 8 + ((w[0] as int) - ('a' as int));
    var to := ((w[3] as int) - ('1' as int)) * 8 + ((w[2] as int) - ('a' as int));
    var promotion :=
      if |w| != 5 then None
      else if w[4] == 'q' then Some(QUEEN)
      else if w[4] == 'r' then Some(ROOK)
      else if w[4] == 'b' then Some(BISHOP)
      else if w[4] == 'n' then Some(KNIGHT)
      else None;
    BookMove(from, to, promotion)
  }

  predicate MatchesBook(m: Move, bm: BookMove)
  {
    FromSquare(m) == bm.from && ToSquare(m) == bm.to &&
    (bm.promotion.None? || PromotionType(m) == bm.promotion.value)
  }

  /** The first of the legal moves that the word names. */
  function BookMatch(legal: seq<Move>, bm: BookMove): (r: Option<Move>)
    ensures r.Some? ==> r.value in legal && MatchesBook(r.value, bm)
    ensures r.None? <==> forall m :: m in legal ==> !MatchesBook(m, bm)
  {
    if legal == [] then None
    else if MatchesBook(legal[0], bm) then Some(legal[0])
    else BookMatch(legal[1..], bm)
  }

  /** The book moves of one line: each word of four or more characters that
      matches a legal move of the line's position contributes that move. */
  function BookMovesOf(b: Board, words: seq<string>): seq<Move>
    requires Ready(b)
    decreases |words|
  {
    if words == [] then []
    else
      var w := words[|words| - 1];
      var pre := BookMovesOf(b, words[..|words| - 1]);
      if |w| < 4 then pre
      else match BookMatch(LegalMoves(b), ReadBookMove(w))
        case None => pre
        case Some(m) => pre + [m]
  }

  lemma {:induction false} BookMovesLegal(b: Board, words: seq<string>)
    requires Ready(b)
    ensures |BookMovesOf(b, words)| <= |words|
    ensures forall m :: m in BookMovesOf(b, words) ==> m in LegalMoves(b)
    decreases |words|
  {
    if words != [] {
      BookMovesLegal(b, words[..|words| - 1]);
    }
  }

  /** What a book line needs for `loadOpeningBook` to stay defined: its FEN
      text is one `setFromFEN` reads, and a FEN it accepts describes a
      position the move generator can work on. */
  ghost predicate LineReady(line: string)
  {
    ParseBookLine(line).Entry? ==>
      var fen := ParseBookLine(line).fen;
      WellFormedFen(fen) && (FromFen(fen).0 ==> Ready(View(FromFen(fen).1)))
  }

  ghost predicate LinesReady(lines: seq<string>)
  {
    forall i :: 0 <= i < |lines| ==> LineReady(lines[i])
  }

  /** The book after one entry line: a FEN that `setFromFEN` accepts and whose
      words name at least one legal move gets those moves. */
  function AddBookEntry(book: map<string, seq<Move>>, fen: string, words: seq<string>): map<string, seq<Move>>
    requires WellFormedFen(fen) && (FromFen(fen).0 ==> Ready(View(FromFen(fen).1)))
  {
    if !FromFen(fen).0 then book
    else
      var moves := BookMovesOf(View(FromFen(fen).1), words);
      if moves == [] then book else book[fen := moves]
  }

  /** The book after one more line. */
  function AddBookLine(book: map<string, seq<Move>>, line: string): map<string, seq<Move>>
    requires LineReady(line)
  {
    match ParseBookLine(line)
    case Skipped => book
    case Entry(fen, words) => AddBookEntry(book, fen, words)
  }

  /** The book after the remaining lines, in file order. */
  function BookOf(book: map<string, seq<Move>>, lines: seq<string>): map<string, seq<Move>>
    requires LinesReady(lines)
    decreases |lines|
  {
    if lines == [] then book else BookOf(AddBookLine(book, lines[0]), lines[1..])
  }

  /** Every book entry is keyed by a FEN that `setFromFEN` accepts and holds a
      non-empty list of moves legal in that position. */
  ghost predicate BookSound(book: map<string, seq<Move>>)
  {
    forall fen :: fen in book ==>
      WellFormedFen(fen) && FromFen(fen).0 && Ready(View(FromFen(fen).1)) && book[fen] != [] &&
      forall m :: m in book[fen] ==> m in LegalMoves(View(FromFen(fen).1))
  }

  lemma AddBookEntrySound(book: map<string, seq<Move>>, fen: string, words: seq<string>)
    requires WellFormedFen(fen) && (FromFen(fen).0 ==> Ready(View(FromFen(fen).1))) && BookSound(book)
    ensures BookSound(AddBookEntry(book, fen, words))
  {
    if FromFen(fen).0 {
      var moves := BookMovesOf(View(FromFen(fen).1), words);
      BookMovesLegal(View(FromFen(fen).1), words);
      if moves != [] {
        var r := book[fen := moves];
        forall f | f in r
          ensures WellFormedFen(f) && FromFen(f).0 && Ready(View(FromFen(f).1)) && r[f] != [] &&
                  forall m :: m in r[f] ==> m in LegalMoves(View(FromFen(f).1))
        {
          if f != fen {
            assert f in book && r[f] == book[f];
          }
        }
      }
    }
  }

  lemma AddBookLineSound(book: map<string, seq<Move>>, line: string)
    requires LineReady(line) && BookSound(book)
    ensures BookSound(AddBookLine(book, line))
  {
    match ParseBookLine(line)
    case Skipped =>
    case Entry(fen, words) => AddBookEntrySound(book, fen, words);
  }

  /** Loading keeps only legal moves, and no FEN gets an empty entry. */
  lemma {:induction false} BookOfSound(book: map<string, seq<Move>>, lines: seq<string>)
    requires LinesReady(lines) && BookSound(book)
    ensures BookSound(BookOf(book, lines))
    decreases |lines|
  {
    if lines != [] {
      AddBookLineSound(book, lines[0]);
      BookOfSound(AddBookLine(book, lines[0]), lines[1..]);
    }
  }

  // ---------------------------------------------------------------- the AI object

  class AI {
    var depth: int
    var timeLimit: int
    /** The clock reading the time limit is measured from. */
    var searchStartTime: nat
    var ttAge: int
    var openingBook: map<string, seq<Move>>
    const killers: array2<Move>
    const history: array2<int>
    const pvTable: array2<Move>
    const pvLength: array<int>
    const countermoves: array2<Move>
    const table: array<TTEntry>

    ghost predicate Valid()
      reads this
    {
      killers.Length0 == MAX_PLY && killers.Length1 == 2 &&
      history.Length0 == 64 && history.Length1 == 64 &&
      pvTable.Length0 == MAX_PLY && pvTable.Length1 == MAX_PLY && pvLength.Length == MAX_PLY &&
      countermoves.Length0 == 64 && countermoves.Length1 == 64 &&
      table.Length == TT_SIZE && 0 <= ttAge < 256 && searchStartTime < UINT64 &&
      killers != pvTable && killers != countermoves && pvTable != countermoves
    }

    /** Every history entry lies within the clamp. */
    ghost predicate HistoryBounded()
      reads this, history
      requires Valid()
    {
      forall i, j :: 0 <= i < 64 && 0 <= j < 64 ==> -HISTORY_LIMIT <= history[i, j] <= HISTORY_LIMIT
    }

    /** `AI(int depth)` (src/AI.cpp:16-35): zeroed tables, no time limit, an
        empty book. */
    constructor (d: int)
      ensures Valid() && HistoryBounded()
      ensures depth == d && timeLimit == 0 && searchStartTime == 0 && ttAge == 0 && openingBook == map[]
      ensures forall i :: 0 <= i < TT_SIZE ==> table[i] == EMPTY_ENTRY
      ensures forall i, j :: 0 <= i < MAX_PLY && 0 <= j < 2 ==> killers[i, j] == 0
      ensures forall i, j :: 0 <= i < 64 && 0 <= j < 64 ==> history[i, j] == 0 && countermoves[i, j] == 0
      ensures forall i :: 0 <= i < MAX_PLY ==> pvLength[i] == 0
    {
      depth := d;
      timeLimit := 0;
      searchStartTime := 0;
      ttAge := 0;
      openingBook := map[];
      killers := new Move[MAX_PLY, 2]((_, _) => 0);
      history := new int[64, 64]((_, _) => 0);
      pvTable := new Move[MAX_PLY, MAX_PLY]((_, _) => 0);
      pvLength := new int[MAX_PLY](_ => 0);
      countermoves := new Move[64, 64]((_, _) => 0);
      table := new TTEntry[TT_SIZE](_ => EMPTY_ENTRY);
    }

    // ------------------------------------------------------------ time limit

    /** `shouldStop` with the clock reading `now`. */
    predicate StopNow(now: nat)
      reads this
      requires Valid() && now < UINT64
    {
      ShouldStop(timeLimit, searchStartTime, now)
    }

    /** The two-argument `findBestMove` (src/AI.cpp:157-162) before it hands
        over to the search: the limit is set and the clock reading `now`
        becomes the start time, so a positive limit does not stop the search
        at the outset and stops it once that many milliseconds have passed. */
    method StartTimedSearch(timeMs: int, now: nat)
      requires Valid() && now < UINT64 && timeMs < UINT64
      modifies this
      ensures Valid() && timeLimit == timeMs && searchStartTime == now
      ensures depth == old(depth) && ttAge == old(ttAge) && openingBook == old(openingBook)
      ensures timeMs > 0 ==> !StopNow(now)
      ensures forall later: nat :: now <= later < UINT64 && timeMs > 0 ==> (StopNow(later) <==> later - now >= timeMs)
    {
      timeLimit := timeMs;
      searchStartTime := now;
      forall later: nat | now <= later < UINT64 && timeMs > 0
        ensures StopNow(later) <==> later - now >= timeMs
      {
        ShouldStopPositive(timeMs, now, later);
      }
      ShouldStopPositive(timeMs, now, now);
    }

    // ------------------------------------------------------------ killers and history

    /** `isKiller` (src/AI.cpp:1325-1328). */
    predicate IsKiller(move: Move, ply: int)
      reads this, killers
      requires Valid() && ply >= 0
    {
      ply < MAX_PLY && (killers[ply, 0] == move || killers[ply, 1] == move)
    }

    /** `storeKiller` (src/AI.cpp:1315-1323): plies beyond the table are
        ignored; otherwise the ply's slots become `KillerStore` of the old
        ones and the move is a killer there afterwards. */
    method StoreKiller(move: Move, ply: int)
      requires Valid() && ply >= 0
      modifies killers
      ensures ply < MAX_PLY ==>
        (killers[ply, 0], killers[ply, 1]) == KillerStore(old((killers[ply, 0], killers[ply, 1])), move) &&
        IsKiller(move, ply)
      ensures forall i, j :: 0 <= i < MAX_PLY && i != ply && 0 <= j < 2 ==> killers[i, j] == old(killers[i, j])
    {
      if ply >= MAX_PLY {
        return;
      }
      if killers[ply, 0] != move {
        killers[ply, 1] := killers[ply, 0];
        killers[ply, 0] := move;
      }
    }

    /** `updateHistory` (src/AI.cpp:1296-1313): only the entry of the move's
        from and to squares changes, by `HistoryAfter` with bonus depth². */
    method UpdateHistory(move: Move, d: int)
      requires Valid() && HistoryBounded()
      modifies history
      ensures HistoryBounded()
      ensures history[FromSquare(move), ToSquare(move)] ==
              HistoryAfter(old(history[FromSquare(move), ToSquare(move)]), d * d)
      ensures forall i, j :: 0 <= i < 64 && 0 <= j < 64 && (i, j) != (FromSquare(move), ToSquare(move)) ==>
                history[i, j] == old(history[i, j])
    {
      var from, to := FromSquare(move), ToSquare(move);
      var bonus := d * d;
      var h := history[from, to];
      h := h + (bonus - Quot(h * Abs(bonus), HISTORY_LIMIT));
      if h > HISTORY_LIMIT {
        h := HISTORY_LIMIT;
      } else if h < -HISTORY_LIMIT {
        h := -HISTORY_LIMIT;
      }
      history[from, to] := h;
    }

    // ------------------------------------------------------------ move ordering

    /** The countermove bonus applies when the previous ply has a principal
        variation whose first move this move answers. */
    predicate IsCountermove(move: Move, ply: int)
      reads this, pvTable, pvLength, countermoves
      requires Valid() && 0 <= ply <= MAX_PLY
    {
      ply > 0 && pvLength[ply - 1] > 0 &&
      var prev := pvTable[ply - 1, 0];
      move == countermoves[FromSquare(prev), ToSquare(prev)]
    }

    /** `getMoveScore` (src/AI.cpp:1233-1286). */
    function MoveScore(p: Pos, see: Move -> int, move: Move, ply: int, ttMove: Move): (r: int)
      reads this, killers, history, pvTable, pvLength, countermoves
      requires Valid() && 0 <= ply <= MAX_PLY
      ensures move == ttMove ==> r == TT_MOVE_SCORE
    {
      if move == ttMove then TT_MOVE_SCORE
      else
        (if IsCapture(View(p), move) then CaptureScore(see(move))
         else (if IsCountermove(move, ply) then COUNTERMOVE_BONUS else 0) +
              (if IsKiller(move, ply) then KILLER_BONUS else 0) +
              history[FromSquare(move), ToSquare(move)]) +
        (if MoveType(move) == PROMOTION then PROMOTION_BONUS else 0)
    }

    /** A winning capture is tried before any quiet move the heuristics know
        nothing about, and an even trade no later than one. */
    lemma GoodCaptureFirst(p: Pos, see: Move -> int, capture: Move, quiet: Move, ply: int, ttMove: Move)
      requires Valid() && HistoryBounded() && 0 <= ply <= MAX_PLY
      requires capture != ttMove && quiet != ttMove && IsCapture(View(p), capture) && see(capture) >= 0
      requires !IsCapture(View(p), quiet) && MoveType(quiet) != PROMOTION
      requires !IsKiller(quiet, ply) && !IsCountermove(quiet, ply)
      ensures MoveScore(p, see, capture, ply, ttMove) >= MoveScore(p, see, quiet, ply, ttMove)
      ensures see(capture) > 0 ==> MoveScore(p, see, capture, ply, ttMove) > MoveScore(p, see, quiet, ply, ttMove)
    {
      assert -HISTORY_LIMIT <= history[FromSquare(quiet), ToSquare(quiet)] <= HISTORY_LIMIT;
    }

    /** The hash move is tried first: every other move scores strictly
        less. `see` never returns more than the value of the piece
        captured (its minimax only lowers the first gain), so at most the
        king's 20000 of its table (src/Position.cpp:596-632). */
    lemma TTMoveFirst(p: Pos, see: Move -> int, move: Move, ply: int, ttMove: Move)
      requires Valid() && HistoryBounded() && 0 <= ply <= MAX_PLY
      requires move != ttMove && see(move) <= KING_VALUE
      ensures MoveScore(p, see, move, ply, ttMove) < MoveScore(p, see, ttMove, ply, ttMove) == TT_MOVE_SCORE
    {
      assert -HISTORY_LIMIT <= history[FromSquare(move), ToSquare(move)] <= HISTORY_LIMIT;
    }

    /** The scores of a list of moves, in order. */
    ghost function Scores(p: Pos, see: Move -> int, ms: seq<Move>, ply: int, ttMove: Move): (r: seq<int>)
      reads this, killers, history, pvTable, pvLength, countermoves
      requires Valid() && 0 <= ply <= MAX_PLY
      ensures |r| == |ms| && forall k :: 0 <= k < |ms| ==> r[k] == MoveScore(p, see, ms[k], ply, ttMove)
    {
      if ms == [] then [] else [MoveScore(p, see, ms[0], ply, ttMove)] + Scores(p, see, ms[1..], ply, ttMove)
    }

    /** `orderMoves` (src/AI.cpp:1288-1294): the moves rearranged in place so
        that their scores never increase. */
    method OrderMoves(p: Pos, see: Move -> int, moves: array<Move>, ply: int, ttMove: Move)
      requires Valid() && 0 <= ply <= MAX_PLY && moves as object != pvLength
      modifies moves
      ensures multiset(moves[..]) == multiset(old(moves[..]))
      ensures forall i, j :: 0 <= i < j < moves.Length ==>
                MoveScore(p, see, moves[i], ply, ttMove) >= MoveScore(p, see, moves[j], ply, ttMove)
    {
      var i := 0;
      while i < moves.Length
        invariant 0 <= i <= moves.Length
        invariant multiset(moves[..]) == multiset(old(moves[..]))
        invariant Descending(Scores(p, see, moves[..], ply, ttMove), i)
      {
        InsertAt(p, see, moves, ply, ttMove, i);
        i := i + 1;
      }
      ghost var keys := Scores(p, see, moves[..], ply, ttMove);
      assert forall i, j :: 0 <= i < j < moves.Length ==> keys[i] >= keys[j];
    }

    /** One insertion step: the move at index i sinks toward the front past
        every lower-scored move. */
    method InsertAt(p: Pos, see: Move -> int, moves: array<Move>, ply: int, ttMove: Move, i: int)
      requires Valid() && 0 <= ply <= MAX_PLY && moves as object != pvLength
      requires 0 <= i < moves.Length
      requires Descending(Scores(p, see, moves[..], ply, ttMove), i)
      modifies moves
      ensures multiset(moves[..]) == multiset(old(moves[..]))
      ensures Descending(Scores(p, see, moves[..], ply, ttMove), i + 1)
    {
      ghost var keys := Scores(p, see, moves[..], ply, ttMove);
      var j := i;
      while j > 0 && MoveScore(p, see, moves[j - 1], ply, ttMove) < MoveScore(p, see, moves[j], ply, ttMove)
        invariant 0 <= j <= i
        invariant multiset(moves[..]) == multiset(old(moves[..]))
        invariant keys == Scores(p, see, moves[..], ply, ttMove)
        invariant Sinking(keys, i, j)
      {
        ghost var before := moves[..];
        SinkStep(p, see, moves, ply, ttMove, j);
        SwapPermutes(before, j - 1, j);
        SinkingStep(keys, i, j);
        keys := Swap(keys, j - 1, j);
        j := j - 1;
      }
      SinkingDone(keys, i, j);
    }

    /** The exchange of two neighbours that moves a higher-scored move forward. */
    method SinkStep(p: Pos, see: Move -> int, moves: array<Move>, ply: int, ttMove: Move, j: int)
      requires Valid() && 0 <= ply <= MAX_PLY && moves as object != pvLength && 0 < j < moves.Length
      modifies moves
      ensures moves[..] == Swap(old(moves[..]), j - 1, j)
      ensures Scores(p, see, moves[..], ply, ttMove) == Swap(old(Scores(p, see, moves[..], ply, ttMove)), j - 1, j)
    {
      ghost var before := moves[..];
      moves[j - 1], moves[j] := moves[j], moves[j - 1];
      assert moves[..] == Swap(before, j - 1, j);
      SwapScores(p, see, before, ply, ttMove, j - 1, j);
    }

    lemma SwapScores(p: Pos, see: Move -> int, ms: seq<Move>, ply: int, ttMove: Move, a: int, b: int)
      requires Valid() && 0 <= ply <= MAX_PLY && 0 <= a < |ms| && 0 <= b < |ms|
      ensures Scores(p, see, Swap(ms, a, b), ply, ttMove) == Swap(Scores(p, see, ms, ply, ttMove), a, b)
    {
    }

    // ------------------------------------------------------------ transposition table

    /** The probe of `negamax` for the position with 64-bit hash word `hash`. */
    function ProbeTable(hash: nat, d: int, alpha: int, beta: int): Probe
      reads this, table
      requires Valid()
    {
      ProbeEntry(table[hash % TT_SIZE], hash, d, alpha, beta)
    }

    /** The store at the end of `negamax` (src/AI.cpp:561-584): only the slot
        the hash word selects changes, as `StoreInto` says. */
    method StoreResult(hash: nat, d: int, maxScore: int, alphaOrig: int, beta: int, bestMove: Move)
      requires Valid()
      modifies table
      ensures table[hash % TT_SIZE] ==
              StoreInto(old(table[hash % TT_SIZE]), hash, d, maxScore, alphaOrig, beta, bestMove, ttAge)
      ensures forall i :: 0 <= i < TT_SIZE && i != hash % TT_SIZE ==> table[i] == old(table[i])
    {
      var index := hash % TT_SIZE;
      var entry := table[index];
      var shouldReplace := entry.key == 0 || entry.key == hash || entry.depth <= d || entry.age != ttAge;
      if shouldReplace {
        var flag := if maxScore <= alphaOrig then UpperBound
                    else if maxScore >= beta then LowerBound
                    else Exact;
        table[index] := TTEntry(hash, d, maxScore, flag, bestMove, ttAge);
      }
    }

    // ------------------------------------------------------------ opening book

    /** `loadOpeningBook` (src/AI.cpp:50-125) over the file's lines; a file
        that cannot be opened leaves the book empty. */
    method LoadOpeningBook(fileOpened: bool, lines: seq<string>)
      requires LinesReady(lines)
      modifies this
      ensures openingBook == (if fileOpened then BookOf(map[], lines) else map[])
      ensures BookSound(openingBook)
      ensures depth == old(depth) && timeLimit == old(timeLimit) && ttAge == old(ttAge)
    {
      openingBook := map[];
      if !fileOpened {
        return;
      }
      var i := 0;
      while i < |lines|
        invariant 0 <= i <= |lines|
        invariant BookOf(openingBook, lines[i..]) == BookOf(map[], lines)
        invariant BookSound(openingBook)
        invariant depth == old(depth) && timeLimit == old(timeLimit) && ttAge == old(ttAge)
      {
        assert lines[i..][1..] == lines[i + 1..];
        AddBookLineSound(openingBook, lines[i]);
        var book := ReadBookLine(openingBook, lines[i]);
        openingBook := book;
        i := i + 1;
      }
      BookOfSound(map[], lines);
    }

    /** `probeOpeningBook` (src/AI.cpp:127-150): 0 when the position's FEN has
        no entry, otherwise one of the entry's first three moves (the random
        pick is a nondeterministic choice). */
    method ProbeOpeningBook(pos: Position) returns (m: Move)
      requires pos.Valid()
      ensures var fen := ToFen(pos.State());
        if fen in openingBook && openingBook[fen] != []
        then m in openingBook[fen][..Min(BOOK_CHOICES, |openingBook[fen]|)]
        else m == 0
    {
      if openingBook == map[] {
        return 0;
      }
      var fen := pos.GetFen();
      if fen !in openingBook {
        return 0;
      }
      var bookMoves := openingBook[fen];
      if bookMoves == [] {
        return 0;
      }
      var maxIndex := Min(BOOK_CHOICES, |bookMoves|);
      var k :| 0 <= k < maxIndex;
      m := bookMoves[k];
    }
  }

  /** One line of the book file. */
  method ReadBookLine(book: map<string, seq<Move>>, line: string) returns (r: map<string, seq<Move>>)
    requires LineReady(line)
    ensures r == AddBookLine(book, line)
  {
    var parsed := ParseBookLine(line);
    if parsed.Skipped? {
      return book;
    }
    r := ReadBookEntry(book, parsed.fen, parsed.words);
  }

  /** An entry line: its FEN set up on a fresh position, then its move words
      matched against that position's legal moves. */
  method ReadBookEntry(book: map<string, seq<Move>>, fen: string, words: seq<string>)
    returns (r: map<string, seq<Move>>)
    requires WellFormedFen(fen) && (FromFen(fen).0 ==> Ready(View(FromFen(fen).1)))
    ensures r == AddBookEntry(book, fen, words)
  {
    var bookPos := new Position();
    var ok := bookPos.SetFromFen(fen);
    if !ok {
      return book;
    }
    assert Consistent(View(bookPos.State()));
    var moves := ReadBookMoves(bookPos, words);
    r := if moves == [] then book else book[fen := moves];
  }

  /** The move words of one book line, in order. */
  method ReadBookMoves(bookPos: Position, words: seq<string>) returns (moves: seq<Move>)
    requires bookPos.Valid() && Consistent(bookPos.State()) && Ready(View(bookPos.State()))
    modifies bookPos, bookPos.byType, bookPos.byColor, bookPos.board
    ensures moves == BookMovesOf(View(old(bookPos.State())), words)
  {
    ghost var b := View(bookPos.State());
    moves := [];
    var i := 0;
    while i < |words|
      invariant 0 <= i <= |words|
      invariant bookPos.Valid() && View(bookPos.State()) == b && Consistent(bookPos.State())
      invariant moves == BookMovesOf(b, words[..i])
    {
      assert words[..i + 1][..i] == words[..i];
      moves := ReadBookMoveWord(bookPos, words[i], moves);
      i := i + 1;
    }
    assert words[..i] == words;
  }

  /** One move word: words shorter than four characters are skipped;
      otherwise the first legal move it names, if any, is appended. */
  method ReadBookMoveWord(bookPos: Position, w: string, moves: seq<Move>) returns (r: seq<Move>)
    requires bookPos.Valid() && Consistent(bookPos.State()) && Ready(View(bookPos.State()))
    modifies bookPos, bookPos.byType, bookPos.byColor, bookPos.board
    ensures bookPos.Valid() && View(bookPos.State()) == View(old(bookPos.State())) && Consistent(bookPos.State())
    ensures r == (if |w| < 4 then moves
                  else match BookMatch(LegalMoves(View(old(bookPos.State()))), ReadBookMove(w))
                       case None => moves
                       case Some(m) => moves + [m])
  {
    if |w| < 4 {
      return moves;
    }
    var bm := ReadBookMove(w);
    var legalMoves := GenerateLegalMoves(bookPos);
    var found := FindBookMove(legalMoves, bm);
    r := if found.Some? then moves + [found.value] else moves;
  }

  /** The scan for the first legal move a book word names. */
  method FindBookMove(legal: seq<Move>, bm: BookMove) returns (r: Option<Move>)
    ensures r == BookMatch(legal, bm)
  {
    var i := 0;
    while i < |legal|
      invariant 0 <= i <= |legal|
      invariant BookMatch(legal, bm) == BookMatch(legal[i..], bm)
    {
      if MatchesBook(legal[i], bm) {
        return Some(legal[i]);
      }
      assert legal[i..][1..] == legal[i + 1..];
      i := i + 1;
    }
    return None;
  }
}

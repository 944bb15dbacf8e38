/** The game controller of src/Game.cpp: it parses a move typed as text,
    plays it only when it is legal, and updates the result after every move
    (checkmate, stalemate, or a draw by the position's own draw rules).

    `isDraw` (fifty moves, repetition, insufficient material) is not part of
    this model: the methods take it as a function of the position. */
module Game {
  import opened Types
  import opened Bitboard
  import opened Positions
  import opened Attacks
  import opened Fen
  import opened PositionClass
  import opened MoveGen
  import opened Search

  /** `enum GameResult` (inc/Game.h:14). */
  datatype GameResult = InProgress | WhiteWins | BlackWins | Draw

  /** `isGameOver` (inc/Game.h:45). */
  predicate IsGameOver(r: GameResult) { r != InProgress }

  /** `getResultString` (src/Game.cpp:112-125). */
  function ResultString(r: GameResult): (s: string)
  {
    match r
    case WhiteWins => "White wins"
    case BlackWins => "Black wins"
    case Draw => "Draw"
    case InProgress => "Game in progress"
  }

  /** Different results read differently, so the text tells whether the
      game is over. */
  lemma ResultStringInjective(r1: GameResult, r2: GameResult)
    ensures ResultString(r1) == ResultString(r2) <==> r1 == r2
    ensures IsGameOver(r1) <==> ResultString(r1) != "Game in progress"
  {
    var s1, s2 := ResultString(r1), ResultString(r2);
    if r1 != r2 {
      assert |s1| != |s2| || s1[0] != s2[0];
    }
    if r1 != InProgress {
      assert |s1| < 16;
    }
  }

  // ---------------------------------------------------------------- parsing a move

  /** The promotion letters of `parseMove`, either case. */
  function PromotionLetter(c: char): Option<PromotionPiece>
  {
    if c == 'n' || c == 'N' then Some(KNIGHT)
    else if c == 'b' || c == 'B' then Some(BISHOP)
    else if c == 'r' || c == 'R' then Some(ROOK)
    else if c == 'q' || c == 'Q' then Some(QUEEN)
    else None
  }

  /** `parseMove` (src/Game.cpp:35-91): 0 for text shorter than four
      characters or naming no square; with a fifth character, a promotion to
      the piece it names (0 for any other letter); otherwise, by the piece
      on the from-square: 0 for an empty square, castling for a king moving
      two squares, en passant for a pawn going to the en-passant square, and
      a normal move for the rest. */
  function ParseMove(p: Pos, s: string): (m: Move)
    ensures m != 0 ==> |s| >= 4 && StringToSquare(s[..2]) == FromSquare(m) && StringToSquare(s[2..4]) == ToSquare(m)
    ensures m != 0 ==> (MoveType(m) == PROMOTION <==> |s| >= 5)
  {
    if |s| < 4 then 0
    else
      var from, to := StringToSquare(s[..2]), StringToSquare(s[2..4]);
      if from == NO_SQUARE || to == NO_SQUARE then 0
      else if |s| >= 5 then
        match PromotionLetter(s[4])
        case None => 0
        case Some(pt) => MakePromotion(from, to, pt)
      else
        var pc := p.board[from];
        if pc == NO_PIECE then 0
        else if TypeOf(pc) == KING && Abs(from - to) == 2 then MakeCastling(from, to)
        else if TypeOf(pc) == PAWN && to == p.epSquare then MakeEnPassant(from, to)
        else MakeMove(from, to)
  }

  /** The text `parseMove` turns down: too short, a square it cannot read,
      a fifth character that names no promotion piece, or four characters
      starting on an empty square. */
  lemma ParseMoveRejects(p: Pos, s: string)
    requires |s| < 4 || StringToSquare(s[..2]) == NO_SQUARE || StringToSquare(s[2..4]) == NO_SQUARE ||
             (|s| >= 5 && PromotionLetter(s[4]).None?) ||
             (|s| == 4 && p.board[StringToSquare(s[..2])] == NO_PIECE)
    ensures ParseMove(p, s) == 0
  {
  }

  /** The promotion letter is read in either case. */
  lemma ParseMoveIgnoresCase(p: Pos, s: string)
    requires |s| >= 5 && 'a' <= s[4] <= 'z'
    ensures ParseMove(p, s[4 := (s[4] as int - 32) as char]) == ParseMove(p, s)
  {
    var t := s[4 := (s[4] as int - 32) as char];
    assert t[..2] == s[..2] && t[2..4] == s[2..4];
  }

  /** The kind of move `parseMove` gives four characters from `from` to
      `to`: castling for a king moving two squares, en passant for a pawn
      going to the en-passant square, and a normal move otherwise. */
  function TextKind(p: Pos, from: Square, to: Square): int
  {
    var pc := p.board[from];
    if pc != NO_PIECE && TypeOf(pc) == KING && Abs(from - to) == 2 then CASTLING
    else if pc != NO_PIECE && TypeOf(pc) == PAWN && to == p.epSquare then EN_PASSANT
    else NORMAL_MOVE
  }

  /** The printed move names its two squares in its first four characters. */
  lemma PrintedSquares(m: Move)
    ensures var s := MoveToString(m);
      |s| >= 4 && StringToSquare(s[..2]) == FromSquare(m) && StringToSquare(s[2..4]) == ToSquare(m)
  {
    SquareStringRoundTrip(FromSquare(m));
    SquareStringRoundTrip(ToSquare(m));
  }

  /** The letter printed for a promotion piece is read back as that piece. */
  lemma PromotionLetterOf(pt: PromotionPiece)
    ensures PromotionLetter(PROMOTION_CHARS[pt - KNIGHT]) == Some(pt)
  {
  }

  /** Moves other than promotions leave the promotion-piece bits at zero. */
  lemma NoPromotionBits(from: Square, to: Square)
    ensures PromotionType(MakeMove(from, to)) == KNIGHT
    ensures PromotionType(MakeEnPassant(from, to)) == KNIGHT
    ensures PromotionType(MakeCastling(from, to)) == KNIGHT
  {
    var low := to * 64 + from;
    assert 0 <= low < 0x1000;
    assert (low / 0x1000) % 4 == 0;
    assert ((EN_PASSANT + low) / 0x1000) % 4 == 0 by {
      assert (EN_PASSANT + low) / 0x1000 == 8;
    }
    assert ((CASTLING + low) / 0x1000) % 4 == 0 by {
      assert (CASTLING + low) / 0x1000 == 12;
    }
  }

  /** Printing a move and parsing it back gives the move again, for every
      promotion, and for every other move from an occupied square whose
      kind is the one its squares and piece call for. */
  lemma ParsePrintedMove(p: Pos, m: Move)
    requires MoveType(m) == PROMOTION ||
             (p.board[FromSquare(m)] != NO_PIECE && MoveType(m) == TextKind(p, FromSquare(m), ToSquare(m)) &&
              PromotionType(m) == KNIGHT && m != 0)
    ensures ParseMove(p, MoveToString(m)) == m
  {
    if MoveType(m) == PROMOTION {
      ParsePrintedPromotion(p, m);
    } else {
      ParsePrintedPlain(p, m);
    }
  }

  lemma ParsePrintedPromotion(p: Pos, m: Move)
    requires MoveType(m) == PROMOTION
    ensures ParseMove(p, MoveToString(m)) == m
  {
    var s := MoveToString(m);
    PrintedSquares(m);
    PromotionLetterOf(PromotionType(m));
    var r := ParseMove(p, s);
    assert r == MakePromotion(FromSquare(m), ToSquare(m), PromotionType(m));
    MoveFieldsDetermine(r, m);
  }

  lemma ParsePrintedPlain(p: Pos, m: Move)
    requires MoveType(m) != PROMOTION && p.board[FromSquare(m)] != NO_PIECE
    requires MoveType(m) == TextKind(p, FromSquare(m), ToSquare(m)) && PromotionType(m) == KNIGHT && m != 0
    ensures ParseMove(p, MoveToString(m)) == m
  {
    var s := MoveToString(m);
    var from, to := FromSquare(m), ToSquare(m);
    PrintedSquares(m);
    assert |s| == 4;
    NoPromotionBits(from, to);
    var r := ParseMove(p, s);
    var kind := TextKind(p, from, to);
    assert r == if kind == CASTLING then MakeCastling(from, to)
                else if kind == EN_PASSANT then MakeEnPassant(from, to)
                else MakeMove(from, to);
    MoveFieldsDetermine(r, m);
  }

  // ---------------------------------------------------------------- the result

  /** What `updateGameResult` needs: the legal moves can be generated and
      the side to move has a king to test for check. */
  ghost predicate Settled(b: Board)
  {
    Ready(b)
  }

  /** The position is settled, and so is every position one legal move on. */
  ghost predicate MovesSettle(b: Board)
  {
    Settled(b) &&
    forall m :: m in LegalMoves(b) ==> (LegalMovesIff(b, m); Settled(Play(b, m)))
  }

  /** `updateGameResult` (src/Game.cpp:95-110): with no legal move, the side
      to move has lost if it is in check and it is stalemate otherwise;
      with legal moves, the draw rules may end the game; otherwise the
      result stays. */
  function NextResult(b: Board, result: GameResult, drawn: bool): GameResult
    requires Settled(b)
  {
    if LegalMoves(b) == [] then
      if InCheck(b) then (if b.stm == WHITE then BlackWins else WhiteWins) else Draw
    else if drawn then Draw
    else result
  }

  /** The game is over after the update exactly when the side to move has
      no legal move, the draw rules apply, or it was over already. */
  lemma NextResultOver(b: Board, result: GameResult, drawn: bool)
    requires Settled(b)
    ensures IsGameOver(NextResult(b, result, drawn)) <==> LegalMoves(b) == [] || drawn || IsGameOver(result)
  {
  }

  /** A game in progress is won by a side exactly when the other side is to
      move, in check and without a legal move: a player never wins on the
      opponent's move. */
  lemma NextResultWinner(b: Board, drawn: bool)
    requires Settled(b)
    ensures NextResult(b, InProgress, drawn) == WhiteWins <==>
      b.stm == BLACK && LegalMoves(b) == [] && InCheck(b)
    ensures NextResult(b, InProgress, drawn) == BlackWins <==>
      b.stm == WHITE && LegalMoves(b) == [] && InCheck(b)
  {
  }

  // ---------------------------------------------------------------- hashes aside

  /** The saved states with their hashes forgotten. */
  function Unhash(h: seq<StateInfo>): (r: seq<StateInfo>)
    ensures |r| == |h|
  {
    if h == [] then [] else Unhash(h[..|h| - 1]) + [h[|h| - 1].(hash := {})]
  }

  /** A position with every hash forgotten: its own and the ones its history
      saved. What `unmakeMove` leaves behind in the hash (see
      Positions.UnmakeMoveKeepsMovedKeys) is invisible here. */
  function Unhashed(p: Pos): (r: Pos)
    ensures r.board == p.board && r.byType == p.byType && r.byColor == p.byColor
    ensures r.stm == p.stm && r.castling == p.castling && r.epSquare == p.epSquare
    ensures r.halfmoves == p.halfmoves && r.fullmoves == p.fullmoves && r.hash == {}
    ensures |r.history| == |p.history|
  {
    p.(hash := {}, history := Unhash(p.history))
  }

  lemma UnhashPush(h: seq<StateInfo>, x: StateInfo)
    ensures Unhash(h + [x]) == Unhash(h) + [x.(hash := {})]
  {
    assert (h + [x])[..|h|] == h;
  }

  /** Making a move does not read the hashes: positions equal but for them
      stay equal but for them. */
  lemma ApplyUnhashed(p: Pos, q: Pos, m: Move)
    requires Consistent(p) && Playable(p, m) && Unhashed(p) == Unhashed(q)
    ensures Consistent(q) && Playable(q, m) && View(q) == View(p)
    ensures Unhashed(ApplyMove(p, m)) == Unhashed(ApplyMove(q, m))
  {
    assert View(q) == View(p);
    assert Consistent(q) && Playable(q, m);
    BoardUnhashed(p, q, m);
    ClocksUnhashed(p, q, m);
    HistoryUnhashed(p, q, m);
  }

  /** The board a move leaves does not depend on the hashes. */
  lemma BoardUnhashed(p: Pos, q: Pos, m: Move)
    requires Consistent(p) && Playable(p, m) && View(q) == View(p) && Playable(q, m)
    ensures View(ApplyMove(p, m)) == View(ApplyMove(q, m))
  {
    PlayView(p, m);
    PlayView(q, m);
  }

  /** Nor do the clocks. */
  lemma ClocksUnhashed(p: Pos, q: Pos, m: Move)
    requires Playable(p, m) && Unhashed(p) == Unhashed(q) && Playable(q, m)
    ensures ApplyMove(p, m).halfmoves == ApplyMove(q, m).halfmoves
    ensures ApplyMove(p, m).fullmoves == ApplyMove(q, m).fullmoves
  {
    MakeMoveRules(p, m);
    MakeMoveRules(q, m);
    assert ResetsClock(p, m) == ResetsClock(q, m);
  }

  /** Nor does the history, but for the hashes it saves. */
  lemma HistoryUnhashed(p: Pos, q: Pos, m: Move)
    requires Consistent(p) && Consistent(q) && Playable(p, m) && Playable(q, m) && Unhashed(p) == Unhashed(q)
    ensures Unhash(ApplyMove(p, m).history) == Unhash(ApplyMove(q, m).history)
  {
    MakeMoveSpec(p, m);
    MakeMoveSpec(q, m);
    assert CapturedBy(p, m) == CapturedBy(q, m);
    UnhashPush(p.history, StateInfo(m, CapturedBy(p, m), p.castling, p.epSquare, p.halfmoves, p.hash));
    UnhashPush(q.history, StateInfo(m, CapturedBy(q, m), q.castling, q.epSquare, q.halfmoves, q.hash));
  }

  /** `now` is `p` after the legal move `m`, hashes aside. */
  ghost predicate MovedTo(p: Pos, m: Move, now: Pos)
    requires Ready(View(p))
  {
    && m in LegalMoves(View(p))
    && (LegalMovesIff(View(p), m);
        && Playable(p, m)
        && View(now) == Play(View(p), m)
        && Unhashed(now) == Unhashed(ApplyMove(p, m)))
  }

  /** A legal move made on a position that differs from `p` only in hashes
      leaves `p` after the move, hashes aside. */
  lemma MovedToBy(p: Pos, m: Move, q: Pos, now: Pos)
    requires Consistent(p) && Ready(View(p)) && m in LegalMoves(View(p))
    requires Unhashed(q) == Unhashed(p)
    requires Playable(q, m) ==> now == ApplyMove(q, m).(hash := now.hash)
    ensures MovedTo(p, m, now)
  {
    LegalMovesIff(View(p), m);
    assert Playable(p, m);
    ApplyUnhashed(p, q, m);
    var a := ApplyMove(q, m);
    assert now == a.(hash := now.hash);
    assert Unhashed(now) == Unhashed(a);
    assert View(now) == Play(View(p), m) by {
      assert View(now) == View(a);
      PlayView(q, m);
    }
  }

  /** What `MovedTo` says does not depend on the hashes of the position
      the move starts from. */
  lemma MovedToUnhashed(p: Pos, q: Pos, m: Move, now: Pos)
    requires Consistent(p) && Ready(View(p)) && Unhashed(q) == Unhashed(p)
    requires Ready(View(q)) && MovedTo(q, m, now)
    ensures MovedTo(p, m, now)
  {
    LegalMovesIff(View(p), m);
    ApplyUnhashed(p, q, m);
  }

  // ---------------------------------------------------------------- the controller

  /** `class Game` (inc/Game.h): the position being played, the engine's
      AI and the result. */
  class Game {
    const position: Position
    const ai: AI
    var result: GameResult

    ghost predicate Valid()
      reads this, position
    {
      position.Valid()
    }

    /** `Game(mode)` (src/Game.cpp:9-14): a fresh position, which reads the
        starting FEN, an AI of depth 6, and the game in progress. The mode
        only selects who plays and is not modelled. */
    constructor ()
      ensures Valid() && position.State() == StartPosition() && result == InProgress
      ensures fresh(position) && fresh(position.byType) && fresh(position.byColor) && fresh(position.board)
      ensures fresh(ai) && ai.Valid() && ai.depth == 6 && ai.timeLimit == 0 && ai.searchStartTime == 0
      ensures ai.openingBook == map[]
    {
      position := new Position();
      ai := new AI(6);
      result := InProgress;
    }

    /** `reset` (src/Game.cpp:11-14): the position is overwritten by a new
        `Position()`, which reads the starting FEN, and the game is in
        progress again. */
    method Reset()
      requires Valid()
      modifies this, position, position.byType, position.byColor, position.board
      ensures Valid() && position.State() == StartPosition() && result == InProgress
      ensures !IsGameOver(result)
    {
      position.Clear();
      StartingFenWellFormed();
      var ok := position.SetFromFen(STARTING_FEN);
      result := InProgress;
    }

    /** `updateGameResult` (src/Game.cpp:95-110). It generates the legal
        moves, which gives every field back but the hash (see
        Positions.UnmakeMoveKeepsMovedKeys); the draw rules then read the
        position as the generator left it. */
    method UpdateGameResult(ghost b: Board, isDraw: Pos -> bool)
      requires Valid() && Consistent(position.State()) && View(position.State()) == b && Settled(b)
      modifies this, position, position.byType, position.byColor, position.board
      ensures Valid() && position.State() == old(position.State()).(hash := position.hash)
      ensures result == NextResult(b, old(result), isDraw(position.State()))
    {
      var legalMoves := GenerateLegalMoves(position);
      assert View(position.State()) == b;
      if |legalMoves| == 0 {
        AttackedByView(position.State(), Lsb(Pieces(b, b.stm, KING)), Opp(b.stm));
        if InCheck(position.State()) {
          result := if position.stm == WHITE then BlackWins else WhiteWins;
        } else {
          result := Draw;
        }
      } else if isDraw(position.State()) {
        result := Draw;
      }
    }

    /** `makeMove(Move)` (src/Game.cpp:22-33): a move that is not among the
        legal moves is refused and leaves everything but the hash as it
        was; a legal move is made and the result updated. */
    method MakeMove(move: Move, isDraw: Pos -> bool) returns (ok: bool)
      requires Valid() && Consistent(position.State()) && MovesSettle(View(position.State()))
      modifies this, position, position.byType, position.byColor, position.board
      ensures Valid()
      ensures var b := View(old(position.State()));
        ok == (move in LegalMoves(b)) &&
        (!ok ==> position.State() == old(position.State()).(hash := position.hash) && result == old(result)) &&
        (ok ==> Legal(b, move) && View(position.State()) == Play(b, move) &&
                result == NextResult(Play(b, move), old(result), isDraw(position.State())))
      ensures ok ==> exists h: Hash :: position.State() == ApplyMove(old(position.State()).(hash := h), move).(hash := position.hash)
      ensures ok ==> MovedTo(old(position.State()), move, position.State())
    {
      ghost var p := position.State();
      ghost var b := View(p);
      var legalMoves := GenerateLegalMoves(position);
      if move !in legalMoves {
        return false;
      }
      LegalMovesIff(b, move);
      ghost var before := position.State();
      assert View(before) == b && Playable(before, move);
      PlayLegal(move, isDraw);
      PlayView(before, move);
      assert before == p.(hash := before.hash);
      MovedToBy(p, move, before, position.State());
      ok := true;
    }

    /** The second half of `makeMove(Move)` (src/Game.cpp:30-32), for a move
        known to be legal: make it and update the result. */
    method PlayLegal(move: Move, isDraw: Pos -> bool)
      requires Valid() && Consistent(position.State())
      requires Playable(position.State(), move) && Settled(Play(View(position.State()), move))
      modifies this, position, position.byType, position.byColor, position.board
      ensures Valid()
      ensures position.State() == ApplyMove(old(position.State()), move).(hash := position.hash)
      ensures result == NextResult(Play(View(old(position.State())), move), old(result), isDraw(position.State()))
    {
      ghost var before := position.State();
      position.MakeMove(move);
      MakeMoveSpec(before, move);
      PlayView(before, move);
      UpdateGameResult(Play(View(before), move), isDraw);
    }

    /** `makeMove(string)` (src/Game.cpp:16-20): text `parseMove` turns
        down is refused, the rest goes to `makeMove(Move)`, which plays a
        legal move and updates the result. */
    method MakeMoveText(text: string, isDraw: Pos -> bool) returns (ok: bool)
      requires Valid() && Consistent(position.State()) && MovesSettle(View(position.State()))
      modifies this, position, position.byType, position.byColor, position.board
      ensures Valid()
      ensures var m := ParseMove(old(position.State()), text);
        ok == (m != 0 && m in LegalMoves(View(old(position.State()))))
      ensures !ok ==> position.State() == old(position.State()).(hash := position.hash) && result == old(result)
      ensures var m := ParseMove(old(position.State()), text); var b := View(old(position.State()));
        ok ==> Legal(b, m) && View(position.State()) == Play(b, m) && result == NextResult(Play(b, m), old(result), isDraw(position.State()))
      ensures ok ==> MovedTo(old(position.State()), ParseMove(old(position.State()), text), position.State())
    {
      ghost var p := position.State();
      var move := ParseMove(position.State(), text);
      if move == 0 {
        return false;
      }
      ok := MakeMove(move, isDraw);
      assert ok ==> MovedTo(p, move, position.State());
    }

    /** `loadFEN` (src/Game.cpp:127-133): the position is read from the
        text; when that succeeds the result is updated, when it fails the
        result stays and the position is what the reading left. */
    method LoadFen(fen: string, isDraw: Pos -> bool) returns (ok: bool)
      requires Valid() && WellFormedFen(fen)
      requires PlacesOnEmpty(Start(), Field(Words(fen), 0))
      requires FromFen(fen).0 ==> Settled(View(FromFen(fen).1))
      modifies this, position, position.byType, position.byColor, position.board
      ensures Valid() && ok == FromFen(fen).0
      ensures position.State() == FromFen(fen).1.(hash := position.hash)
      ensures ok ==> result == NextResult(View(FromFen(fen).1), old(result), isDraw(position.State()))
      ensures !ok ==> result == old(result) && position.State() == FromFen(fen).1
    {
      ok := position.SetFromFen(fen);
      if ok {
        FromFenSound(fen);
        UpdateGameResult(View(FromFen(fen).1), isDraw);
      }
    }
  }
}

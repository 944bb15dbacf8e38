/** The `Position` object of src/Position.cpp: the six piece-type bitboards,
    the two colour bitboards and the mailbox are arrays updated in place, the
    other fields are reassigned. Every method is proved against the function
    of module Positions that models it: `State()` after the call is that
    function applied to `State()` before it, so the round trips, the
    invariant and the hash properties proved there hold of the object. */
module PositionClass {
  import opened Types
  import opened Bitboard
  import opened Positions
  import opened Fen

  class Position {
    const byType: array<Bitboard>
    const byColor: array<Bitboard>
    const board: array<Cell>
    var stm: Color
    var castling: CastlingRights
    var epSquare: SquareOrNone
    var halfmoves: int
    var fullmoves: int
    var hash: Hash
    var history: seq<StateInfo>

    /** The arrays have the sizes of the source's fixed arrays and the two
        bitboard arrays are distinct objects. */
    ghost predicate Valid()
      reads this
    {
      byType.Length == 6 && byColor.Length == 2 && board.Length == 64 && byType != byColor
    }

    /** The object's state as a value. */
    function State(): Pos
      reads this, byType, byColor, board
      requires Valid()
    {
      PositionState(byType[..], byColor[..], board[..], stm, castling, epSquare,
                    halfmoves, fullmoves, hash, history)
    }

    /** `Position()` (src/Position.cpp:11-14): clear, then read the starting
        FEN. */
    constructor ()
      ensures Valid() && State() == StartPosition()
      ensures fresh(byType) && fresh(byColor) && fresh(board)
    {
      byType := new Bitboard[6](_ => EMPTY);
      byColor := new Bitboard[2](_ => EMPTY);
      board := new Cell[64](_ => NO_PIECE);
      new;
      Clear();
      StartingFenWellFormed();
      var ok := SetFromFen(STARTING_FEN);
    }

    /** `clear` (src/Position.cpp:16-28). */
    method Clear()
      requires Valid()
      modifies this, byType, byColor, board
      ensures Valid() && State() == Cleared()
    {
      for i := 0 to 6
        invariant forall j :: 0 <= j < i ==> byType[j] == EMPTY
      {
        byType[i] := EMPTY;
      }
      for i := 0 to 2
        invariant forall j :: 0 <= j < i ==> byColor[j] == EMPTY
        invariant forall j :: 0 <= j < 6 ==> byType[j] == EMPTY
      {
        byColor[i] := EMPTY;
      }
      for i := 0 to 64
        invariant forall j :: 0 <= j < i ==> board[j] == NO_PIECE
        invariant forall j :: 0 <= j < 6 ==> byType[j] == EMPTY
        invariant forall j :: 0 <= j < 2 ==> byColor[j] == EMPTY
      {
        board[i] := NO_PIECE;
      }
      stm := WHITE;
      castling := NO_CASTLING;
      epSquare := NO_SQUARE;
      halfmoves := 0;
      fullmoves := 1;
      hash := {};
      history := [];
    }

    /** `putPiece` (src/Position.cpp:30-38). */
    method PutPiece(pc: Piece, sq: Square)
      requires Valid()
      modifies this, byType, byColor, board
      ensures Valid() && State() == Put(old(State()), pc, sq)
    {
      var c, pt := ColorOf(pc), TypeOf(pc);
      byType[pt] := byType[pt] + SquareBB(sq);
      byColor[c] := byColor[c] + SquareBB(sq);
      board[sq] := pc;
      hash := Xor(hash, PsqKey(pc, sq));
    }

    /** `removePiece` (src/Position.cpp:40-51). */
    method RemovePiece(sq: Square)
      requires Valid()
      modifies this, byType, byColor, board
      ensures Valid() && State() == Remove(old(State()), sq)
    {
      var pc := board[sq];
      if pc == NO_PIECE {
        return;
      }
      var c, pt := ColorOf(pc), TypeOf(pc);
      byType[pt] := byType[pt] - SquareBB(sq);
      byColor[c] := byColor[c] - SquareBB(sq);
      hash := Xor(hash, PsqKey(pc, sq));
      board[sq] := NO_PIECE;
    }

    /** `movePiece` (src/Position.cpp:53-57). */
    method MovePiece(from: Square, to: Square)
      requires Valid() && board[from] != NO_PIECE
      modifies this, byType, byColor, board
      ensures Valid() && State() == MovePc(old(State()), from, to)
    {
      var pc: Piece := board[from];
      RemovePiece(from);
      PutPiece(pc, to);
    }

    /** `makeNullMove` (src/Position.cpp:403-427). */
    method MakeNullMove()
      requires Valid()
      modifies this
      ensures Valid() && State() == ApplyNull(old(State()))
    {
      history := history + [StateInfo(0, NO_PIECE, castling, epSquare, halfmoves, hash)];
      hash := XorEp(hash, epSquare);
      epSquare := NO_SQUARE;
      stm := Opp(stm);
      hash := Xor(hash, SideToMoveKey);
      halfmoves := halfmoves + 1;
      if stm == WHITE {
        fullmoves := fullmoves + 1;
      }
    }

    /** `unmakeNullMove` (src/Position.cpp:429-444). */
    method UnmakeNullMove()
      requires Valid()
      modifies this
      ensures Valid() && State() == UndoNull(old(State()))
    {
      if |history| == 0 {
        return;
      }
      var state := history[|history| - 1];
      history := history[..|history| - 1];
      stm := Opp(stm);
      castling := state.castling;
      epSquare := state.epSquare;
      halfmoves := state.halfmoves;
      hash := state.hash;
      if stm == BLACK {
        fullmoves := fullmoves - 1;
      }
    }

    /** The piece-moving part of `makeMove` (src/Position.cpp:239-291),
        with the clock and en-passant updates it makes on the way; returns
        the piece recorded as captured. */
    method MovePieces(move: Move) returns (captured: Cell)
      requires Valid() && Playable(State(), move)
      modifies this, byType, byColor, board
      ensures Valid() && (State(), captured) == MoveBoard(old(State()), move)
    {
      ghost var q := State();
      var from, to, mt := FromSquare(move), ToSquare(move), MoveType(move);
      var pt := TypeOf(board[from]);
      var us := stm;
      captured := NO_PIECE;
      if mt == NORMAL_MOVE {
        ghost var q1 := if board[to] != NO_PIECE then Remove(q, to).(halfmoves := 0) else q;
        if board[to] != NO_PIECE {
          captured := board[to];
          RemovePiece(to);
          halfmoves := 0;
        }
        assert State() == q1;
        if pt == PAWN {
          halfmoves := 0;
        }
        if IsDoublePush(pt, from, to) {
          epSquare := SkippedSquare(from, us);
        }
        MovePiece(from, to);
      } else if mt == PROMOTION {
        ghost var q1 := if board[to] != NO_PIECE then Remove(q, to) else q;
        if board[to] != NO_PIECE {
          captured := board[to];
          RemovePiece(to);
        }
        assert State() == q1;
        RemovePiece(from);
        PutPiece(MakePiece(us, PromotionType(move)), to);
        halfmoves := 0;
      } else if mt == EN_PASSANT {
        var capturedSq: Square := VictimSquare(to, us);
        captured := board[capturedSq];
        RemovePiece(capturedSq);
        MovePiece(from, to);
        halfmoves := 0;
      } else {
        MovePiece(from, to);
        var (rookFrom, rookTo) := RookSquares(from, to);
        MovePiece(rookFrom, rookTo);
      }
    }

    /** The castling-rights update of `makeMove` (src/Position.cpp:293-307). */
    method UpdateCastlingRights(pt: PieceType, us: Color, from: Square, to: Square, captured: Cell)
      modifies this`castling
      ensures castling == NewRights(old(castling), pt, us, from, to, captured)
    {
      var cr := castling;
      if pt == KING {
        if us == WHITE {
          cr := cr & !(WHITE_OO | WHITE_OOO);
        } else {
          cr := cr & !(BLACK_OO | BLACK_OOO);
        }
      }
      if pt == ROOK || captured != NO_PIECE {
        if from == A1 || to == A1 { cr := cr & !WHITE_OOO; }
        if from == H1 || to == H1 { cr := cr & !WHITE_OO; }
        if from == A8 || to == A8 { cr := cr & !BLACK_OOO; }
        if from == H8 || to == H8 { cr := cr & !BLACK_OO; }
      }
      castling := cr;
    }

    /** The last part of `makeMove` (src/Position.cpp:293-322), for a move
        of a piece of type pt that captured `captured`: record the capture in
        the saved state, update the castling rights, put the new castling and
        en-passant keys in the hash and pass the move. */
    method FinishMove(ghost p: Pos, move: Move, pt: PieceType, captured: Cell)
      requires Valid() && p.board[FromSquare(move)] != NO_PIECE && pt == TypeOf(p.board[FromSquare(move)])
      requires stm == p.stm && castling == p.castling
      requires history == p.history + [StateInfo(move, NO_PIECE, p.castling, p.epSquare, p.halfmoves, p.hash)]
      modifies this
      ensures Valid() && State() == MakeFinish(p, move, old(State()), captured)
    {
      var from, to := FromSquare(move), ToSquare(move);
      var us := stm;
      history := history[|history| - 1 := history[|history| - 1].(captured := captured)];
      assert history == p.history + [StateInfo(move, captured, p.castling, p.epSquare, p.halfmoves, p.hash)];
      UpdateCastlingRights(pt, us, from, to, captured);
      ghost var cr := castling;
      hash := Xor(hash, CastlingKey(castling));
      hash := XorEp(hash, epSquare);
      stm := Opp(stm);
      if stm == WHITE {
        fullmoves := fullmoves + 1;
      }
      hash := Xor(hash, SideToMoveKey);
      assert State() == old(State()).(history := history, castling := cr, hash := hash, stm := stm, fullmoves := fullmoves);
    }

    /** `makeMove` (src/Position.cpp:207-323). */
    method MakeMove(move: Move)
      requires Valid() && Playable(State(), move)
      modifies this, byType, byColor, board
      ensures Valid() && State() == ApplyMove(old(State()), move)
    {
      ghost var p := State();
      history := history + [StateInfo(move, NO_PIECE, castling, epSquare, halfmoves, hash)];
      var from, to := FromSquare(move), ToSquare(move);
      var pc: Piece := board[from];
      var pt := TypeOf(pc);
      var us := stm;
      hash := XorEp(hash, epSquare);
      hash := Xor(hash, CastlingKey(castling));
      epSquare := NO_SQUARE;
      halfmoves := halfmoves + 1;
      assert State() == MakeStart(p, move);
      var captured := MovePieces(move);
      MoveBoardFields(MakeStart(p, move), move);
      FinishMove(p, move, pt, captured);
    }

    /** The piece-moving part of `unmakeMove` (src/Position.cpp:348-400). */
    method UnmovePieces(state: StateInfo)
      requires Valid() && Undoable(State().(history := [state], stm := Opp(stm)))
      modifies this, byType, byColor, board
      ensures Valid() && State() == UnmoveBoard(old(State()), state)
    {
      var move := state.move;
      var from, to, mt := FromSquare(move), ToSquare(move), MoveType(move);
      var us := stm;
      if mt == NORMAL_MOVE {
        var pc: Piece := board[to];
        RemovePiece(to);
        PutPiece(pc, from);
        if state.captured != NO_PIECE {
          PutPiece(state.captured, to);
        }
      } else if mt == PROMOTION {
        RemovePiece(to);
        PutPiece(MakePiece(us, PAWN), from);
        if state.captured != NO_PIECE {
          PutPiece(state.captured, to);
        }
      } else if mt == EN_PASSANT {
        var pc: Piece := board[to];
        RemovePiece(to);
        PutPiece(pc, from);
        var capturedSq: Square := VictimSquare(to, us);
        PutPiece(state.captured, capturedSq);
      } else {
        var king: Piece := board[to];
        RemovePiece(to);
        PutPiece(king, from);
        var (rookFrom, rookTo) := RookSquares(from, to);
        var rook: Piece := board[rookTo];
        RemovePiece(rookTo);
        PutPiece(rook, rookFrom);
      }
    }

    /** `unmakeMove` (src/Position.cpp:325-401), as written: the saved hash is
        assigned before the pieces are moved back. */
    method UnmakeMove()
      requires Valid() && Undoable(State())
      modifies this, byType, byColor, board
      ensures Valid() && State() == UndoMove(old(State()))
    {
      if |history| == 0 {
        return;
      }
      ghost var p := State();
      var state := history[|history| - 1];
      history := history[..|history| - 1];
      stm := Opp(stm);
      castling := state.castling;
      epSquare := state.epSquare;
      halfmoves := state.halfmoves;
      hash := state.hash;
      if stm == BLACK {
        fullmoves := fullmoves - 1;
      }
      ghost var q := State();
      assert q == UndoStart(p);
      OppInvolution(p.stm);
      UnmovePieces(state);
    }
    /** The placement loop of `setFromFEN` (src/Position.cpp:68-105) over the
        first word of the text, starting at a8; `ok` is false where it meets
        a character that is neither '/', a digit nor a piece letter. */
    method PlacePieces(s: string) returns (ok: bool)
      requires Valid() && Place(Placement(State(), 0, 7), s) != OffBoard
      modifies this, byType, byColor, board
      ensures Valid()
      ensures ok == Place(Placement(old(State()), 0, 7), s).Done?
      ensures State() == Place(Placement(old(State()), 0, 7), s).st.p
    {
      ghost var outcome := Place(Placement(State(), 0, 7), s);
      ghost var here := Placement(State(), 0, 7);
      ghost var rest := s;
      var rank, file := 7, 0;
      var i := 0;
      ok := true;
      while i < |s| && ok
        invariant 0 <= i <= |s| && Valid() && (ok ==> rest == s[i..])
        invariant here == Placement(State(), file, rank)
        invariant ok ==> outcome == Place(here, rest)
        invariant !ok ==> outcome == UnknownLetter(here)
      {
        var ch := s[i];
        assert rest[0] == ch && rest[1..] == s[i + 1..];
        PlaceUnfold(here, rest);
        if ch == '/' {
          rank := rank - 1;
          file := 0;
        } else if IsDigit(ch) {
          file := file + DigitValue(ch);
        } else {
          var c := if IsUpper(ch) then WHITE else BLACK;
          var letter := LetterType(ToLower(ch));
          if letter.None? {
            ok := false;
          } else {
            PlaceLetter(here, rest);
            var pc, sq := MakePiece(c, letter.value), rank * 8 + file;
            AdvanceLetter(here, ch, pc, sq);
            PutPiece(pc, sq);
            file := file + 1;
          }
        }
        if ok {
          here := Advance(here, ch);
          rest := rest[1..];
        }
        i := i + 1;
      }
    }

    /** The castling loop of `setFromFEN` (src/Position.cpp:111-128): OR in
        the right each letter names, left to right. */
    static method ParseCastling(text: string) returns (rights: CastlingRights)
      ensures rights == ReadCastling(NO_CASTLING, text)
    {
      rights := NO_CASTLING;
      for i := 0 to |text|
        invariant ReadCastling(rights, text[i..]) == ReadCastling(NO_CASTLING, text)
      {
        assert text[i..][1..] == text[i + 1..];
        rights := rights | RightOfLetter(text[i]);
      }
    }

    /** `setFromFEN` (src/Position.cpp:59-151): clear, read the placement,
        then the side to move, the castling letters, the en-passant square
        and the two clocks, and XOR their keys into the hash. */
    method SetFromFen(fen: string) returns (ok: bool)
      requires Valid() && WellFormedFen(fen)
      modifies this, byType, byColor, board
      ensures Valid() && (ok, State()) == FromFen(fen)
    {
      Clear();
      var w := Words(fen);
      assert Placement(State(), 0, 7) == Start();
      ghost var outcome := Place(Start(), Field(w, 0));
      ok := PlacePieces(Field(w, 0));
      if !ok {
        assert outcome.UnknownLetter? && State() == outcome.st.p;
        return;
      }
      assert outcome == Done(Placement(State(), outcome.st.file, outcome.st.rank));
      ReadFieldWords(w);
    }

    /** The part of `setFromFEN` after the placement
        (src/Position.cpp:107-148): the side to move, the castling letters,
        the en-passant square and the two clocks, whose keys are XORed into
        the hash. */
    method ReadFieldWords(w: seq<string>)
      requires Valid() && |w| >= 6 && IsIntWord(w[4]) && IsIntWord(w[5])
      modifies this
      ensures Valid() && State() == ReadFields(old(State()), w)
    {
      stm := if w[1] == "w" then WHITE else BLACK;
      castling := ParseCastling(w[2]);
      epSquare := StringToSquare(w[3]);
      halfmoves := ParseInt(w[4]);
      fullmoves := ParseInt(w[5]);
      if stm == BLACK {
        hash := Xor(hash, SideToMoveKey);
      }
      hash := Xor(hash, CastlingKey(castling));
      if epSquare != NO_SQUARE {
        hash := Xor(hash, EnPassantKey(FileOf(epSquare)));
      }
    }

    /** Concatenation is associative. */
    static lemma AppendStep(out: string, block: string, rest: string)
      ensures (out + block) + rest == out + (block + rest)
    {
    }

    /** `if (empty > 0) oss << empty;` of `getFEN`: a pending run of empty
        squares is printed as its digit. */
    static method Flush(s: string, empty: nat) returns (t: string)
      requires empty < 10
      ensures t == s + (if empty > 0 then [DigitChar(empty)] else [])
    {
      t := s;
      if empty > 0 {
        t := t + [DigitChar(empty)];
      }
    }

    /** One rank of the placement loop of `getFEN` (src/Position.cpp:157-179):
        a run of empty squares is counted and printed as a digit before the
        next piece letter and at the end of the rank. */
    method RankString(r: Coord) returns (s: string)
      requires Valid()
      ensures s == RankText(board[..], r, 0, 0)
    {
      ghost var cells := board[..];
      ghost var whole := RankText(cells, r, 0, 0);
      s := [];
      var empty := 0;
      for file := 0 to 8
        invariant empty <= file
        invariant s + RankText(cells, r, file, empty) == whole
      {
        var pc := board[r * 8 + file];
        assert pc == cells[r * 8 + file];
        RankTextStep(cells, r, file, empty);
        if pc == NO_PIECE {
          assert RankText(cells, r, file, empty) == RankText(cells, r, file + 1, empty + 1);
          empty := empty + 1;
        } else {
          ghost var s0, e0 := s, empty;
          ghost var flush := if empty > 0 then [DigitChar(empty)] else [];
          ghost var rest := RankText(cells, r, file + 1, 0);
          assert RankText(cells, r, file, empty) == flush + ([PieceLetter(pc)] + rest);
          s := Flush(s, empty);
          empty := 0;
          AppendStep(s0, flush, [PieceLetter(pc)] + rest);
          AppendStep(s, [PieceLetter(pc)], rest);
          s := s + [PieceLetter(pc)];
          assert s + rest == s0 + RankText(cells, r, file, e0);
        }
      }
      s := Flush(s, empty);
    }

    /** The castling field as `getFEN` prints it (src/Position.cpp:183-192). */
    method CastlingString() returns (s: string)
      ensures s == CastlingText(castling)
    {
      if castling == NO_CASTLING {
        return "-";
      }
      s := "";
      if castling & WHITE_OO != 0 { s := s + "K"; }
      if castling & WHITE_OOO != 0 { s := s + "Q"; }
      if castling & BLACK_OO != 0 { s := s + "k"; }
      if castling & BLACK_OOO != 0 { s := s + "q"; }
    }

    /** The placement loop of `getFEN` (src/Position.cpp:156-180): ranks 8
        down to 1, separated by '/'. */
    method PlacementString() returns (placement: string)
      requires Valid()
      ensures placement == PlacementText(board[..], 7)
    {
      ghost var cells := board[..];
      ghost var whole := PlacementText(cells, 7);
      placement := [];
      var rank := 7;
      while rank >= 0
        invariant -1 <= rank <= 7
        invariant rank >= 0 ==> placement + PlacementText(cells, rank) == whole
        invariant rank < 0 ==> placement == whole
        decreases rank
      {
        var row := RankString(rank);
        ghost var p0 := placement;
        placement := placement + row;
        if rank > 0 {
          placement := placement + "/";
          AppendStep(p0, row, "/" + PlacementText(cells, RankBelow(rank)));
          AppendStep(p0 + row, "/", PlacementText(cells, RankBelow(rank)));
        } else {
          assert placement == p0 + PlacementText(cells, rank);
        }
        rank := if rank > 0 then RankBelow(rank) else -1;
      }
    }

    /** `getFEN` (src/Position.cpp:153-203): the placement, then the side,
        castling, en-passant and counter fields, separated by single spaces. */
    method GetFen() returns (fen: string)
      requires Valid()
      ensures fen == ToFen(State())
    {
      var placement := PlacementString();
      var side := if stm == WHITE then "w" else "b";
      var rights := CastlingString();
      fen := placement + " " + side + " " + rights + " " + SquareToString(epSquare) + " " +
             IntToString(halfmoves) + " " + IntToString(fullmoves);
      ghost var ws := FenFields(State());
      assert ws == [placement, side, rights, SquareToString(epSquare), IntToString(halfmoves), IntToString(fullmoves)];
      JoinSix(ws);
    }
  }
}

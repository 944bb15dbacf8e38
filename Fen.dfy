/** FEN text for positions: `setFromFEN` and `getFEN` of src/Position.cpp as
    functions on the position value, the round trip between them, and the
    conditions under which parsing keeps the board invariant and the hash.
    The stream reads of the source (`iss >> word`, `iss >> int`) become a
    whitespace tokenizer and a decimal parser. */
module Fen {
  import opened Types
  import opened Bitboard
  import opened Positions

  // ---------------------------------------------------------------- words

  /** The characters `isspace` accepts in the C locale: space and \t \n \v \f \r. */
  predicate IsSpace(c: char) { c == ' ' || '\t' <= c <= '\r' }

  predicate NoSpace(w: string) { forall i :: 0 <= i < |w| ==> !IsSpace(w[i]) }

  /** The word at the front of s: its characters up to the first space. */
  function Word(s: string): (w: string)
    ensures |w| <= |s| && w == s[..|w|] && NoSpace(w)
    ensures |w| == |s| || IsSpace(s[|w|])
  {
    if s == [] || IsSpace(s[0]) then []
    else [s[0]] + Word(s[1..])
  }

  /** The whitespace-separated words of s, as successive `>>` reads into a
      string return them. */
  function Words(s: string): (ws: seq<string>)
    ensures forall i :: 0 <= i < |ws| ==> |ws[i]| > 0 && NoSpace(ws[i])
    decreases |s|
  {
    if s == [] then []
    else if IsSpace(s[0]) then Words(s[1..])
    else
      var w := Word(s);
      [w] + Words(s[|w|..])
  }

  /** Words joined by single spaces. */
  function Join(ws: seq<string>): string
  {
    if |ws| == 0 then []
    else if |ws| == 1 then ws[0]
    else ws[0] + " " + Join(ws[1..])
  }

  lemma {:induction false} WordOfJoin(w: string, rest: string)
    requires NoSpace(w) && (rest == [] || IsSpace(rest[0]))
    ensures Word(w + rest) == w
    decreases |w|
  {
    if w == [] {
      assert w + rest == rest;
    } else {
      assert (w + rest)[1..] == w[1..] + rest;
      WordOfJoin(w[1..], rest);
    }
  }

  /** Splitting words joined by single spaces gives the words back. */
  lemma {:induction false} WordsOfJoin(ws: seq<string>)
    requires forall i :: 0 <= i < |ws| ==> |ws[i]| > 0 && NoSpace(ws[i])
    ensures Words(Join(ws)) == ws
    decreases |ws|
  {
    if |ws| == 0 {
    } else if |ws| == 1 {
      var w := ws[0];
      WordOfJoin(w, []);
      assert w + [] == w;
      assert w[|w|..] == [];
    } else {
      var w, rest := ws[0], Join(ws[1..]);
      var s := w + " " + rest;
      assert s == w + (" " + rest);
      WordOfJoin(w, " " + rest);
      assert s[|w|..] == " " + rest;
      assert (" " + rest)[1..] == rest;
      WordsOfJoin(ws[1..]);
      assert ws == [w] + ws[1..];
    }
  }

  // ---------------------------------------------------------------- integers

  predicate IsDigit(c: char) { '0' <= c <= '9' }

  predicate AllDigits(s: string) { forall i :: 0 <= i < |s| ==> IsDigit(s[i]) }

  function DigitValue(c: char): nat
    requires IsDigit(c)
  {
    c as int - '0' as int
  }

  function DigitChar(d: nat): (c: char)
    requires d < 10
    ensures IsDigit(c) && DigitValue(c) == d
  {
    ('0' as int + d) as char
  }

  /** The value of a string of decimal digits, read left to right. */
  function DigitsValue(s: string): nat
    requires AllDigits(s)
  {
    if s == [] then 0 else DigitsValue(s[..|s| - 1]) * 10 + DigitValue(s[|s| - 1])
  }

  const INT_MIN: int := -0x8000_0000
  const INT_MAX: int := 0x7FFF_FFFF

  /** The sign and digits of a whole word read with `>> int`. */
  function Magnitude(s: string): string
    requires |s| > 0
  {
    if s[0] == '-' || s[0] == '+' then s[1..] else s
  }

  /** A word that `>> int` reads completely: an optional sign, at least one
      digit, and a value within the range of `int`. */
  predicate IsIntWord(s: string)
  {
    |s| > 0 && |Magnitude(s)| > 0 && AllDigits(Magnitude(s)) &&
    INT_MIN <= (if s[0] == '-' then -(DigitsValue(Magnitude(s)) as int) else DigitsValue(Magnitude(s))) <= INT_MAX
  }

  function ParseInt(s: string): (n: int)
    requires IsIntWord(s)
    ensures INT_MIN <= n <= INT_MAX
  {
    if s[0] == '-' then -(DigitsValue(Magnitude(s)) as int) else DigitsValue(Magnitude(s))
  }

  /** The decimal digits of n, as `operator<<` prints them. */
  function NatToString(n: nat): (s: string)
    ensures |s| > 0 && AllDigits(s) && s[0] != '-' && s[0] != '+'
  {
    if n < 10 then [DigitChar(n)] else NatToString(n / 10) + [DigitChar(n % 10)]
  }

  function IntToString(n: int): (s: string)
    ensures |s| > 0 && NoSpace(s)
  {
    if n < 0 then "-" + NatToString(-n) else NatToString(n)
  }

  lemma {:induction false} NatStringValue(n: nat)
    ensures DigitsValue(NatToString(n)) == n
  {
    if n >= 10 {
      var s := NatToString(n);
      assert s[..|s| - 1] == NatToString(n / 10);
      NatStringValue(n / 10);
    }
  }

  /** Printing an `int` and reading it back gives it back. */
  lemma IntStringRoundTrip(n: int)
    requires INT_MIN <= n <= INT_MAX
    ensures IsIntWord(IntToString(n)) && ParseInt(IntToString(n)) == n
  {
    var s := IntToString(n);
    if n < 0 {
      assert Magnitude(s) == NatToString(-n);
      NatStringValue(-n);
    } else {
      assert Magnitude(s) == NatToString(n);
      NatStringValue(n);
    }
  }

  // ---------------------------------------------------------------- letters

  datatype Option<T> = None | Some(value: T)

  predicate IsUpper(c: char) { 'A' <= c <= 'Z' }

  function ToLower(c: char): char { if IsUpper(c) then (c as int + 32) as char else c }

  const PIECE_LETTERS: string := "pnbrqk"

  /** The piece type a lower-case FEN letter names (`switch (tolower(ch))`,
      src/Position.cpp:79-100); None for any other character. */
  function LetterType(c: char): Option<PieceType>
  {
    if c == 'p' then Some(PAWN)
    else if c == 'n' then Some(KNIGHT)
    else if c == 'b' then Some(BISHOP)
    else if c == 'r' then Some(ROOK)
    else if c == 'q' then Some(QUEEN)
    else if c == 'k' then Some(KING)
    else None
  }

  /** The letters read are exactly those of the table `getFEN` prints from,
      each naming its own index. */
  lemma LetterTypeTable(c: char)
    ensures LetterType(c).Some? <==> c in PIECE_LETTERS
    ensures LetterType(c).Some? ==> PIECE_LETTERS[LetterType(c).value] == c
  {
  }

  /** The letter `getFEN` prints for a piece: "pnbrqk" by type, upper case
      for White (src/Position.cpp:169-174). */
  function PieceLetter(pc: Piece): char
  {
    var ch := PIECE_LETTERS[TypeOf(pc)];
    if ColorOf(pc) == WHITE then (ch as int - 32) as char else ch
  }

  lemma TypeLetter(pt: PieceType)
    ensures 'a' <= PIECE_LETTERS[pt] <= 'z' && LetterType(PIECE_LETTERS[pt]) == Some(pt)
  {
    if pt == PAWN { assert PIECE_LETTERS[pt] == 'p'; }
    else if pt == KNIGHT { assert PIECE_LETTERS[pt] == 'n'; }
    else if pt == BISHOP { assert PIECE_LETTERS[pt] == 'b'; }
    else if pt == ROOK { assert PIECE_LETTERS[pt] == 'r'; }
    else if pt == QUEEN { assert PIECE_LETTERS[pt] == 'q'; }
    else { assert PIECE_LETTERS[pt] == 'k'; }
  }

  /** A piece letter is neither a space, a digit nor '/'. */
  lemma PieceLetterKind(pc: Piece)
    ensures var c := PieceLetter(pc); !IsSpace(c) && !IsDigit(c) && c != '/'
  {
  }

  /** Reading a printed piece letter gives the piece back. */
  lemma PieceLetterRoundTrip(pc: Piece)
    ensures LetterType(ToLower(PieceLetter(pc))) == Some(TypeOf(pc))
    ensures MakePiece(if IsUpper(PieceLetter(pc)) then WHITE else BLACK, TypeOf(pc)) == pc
  {
    TypeLetter(TypeOf(pc));
    assert ToLower(PieceLetter(pc)) == PIECE_LETTERS[TypeOf(pc)];
    assert IsUpper(PieceLetter(pc)) <==> ColorOf(pc) == WHITE;
    PieceDecomposition(pc);
  }

  // ---------------------------------------------------------------- piece placement

  /** The parser's state inside the placement field: the position built so
      far and the file and rank of the next square. */
  datatype Placement = Placement(p: Pos, file: int, rank: int)

  /** How reading the placement field ends: it was read to its end, it met a
      character that is not '/', a digit or a piece letter (`return false`),
      or a piece letter named a square outside the board, where the source
      writes outside `board[64]`. */
  datatype PlaceResult = Done(st: Placement) | UnknownLetter(st: Placement) | OffBoard

  /** The placement loop of `setFromFEN` (src/Position.cpp:68-105): '/'
      goes down a rank to the a-file, a digit skips that many files, a letter
      puts its piece on `makeSquare(file, rank)` and moves one file on. */
  function Place(st: Placement, s: string): PlaceResult
    decreases |s|
  {
    if s == [] then Done(st)
    else
      var ch := s[0];
      if ch == '/' then Place(st.(rank := st.rank - 1, file := 0), s[1..])
      else if IsDigit(ch) then Place(st.(file := st.file + DigitValue(ch)), s[1..])
      else
        match LetterType(ToLower(ch))
        case None => UnknownLetter(st)
        case Some(pt) =>
          var sq := st.rank * 8 + st.file;
          if 0 <= sq < 64 then
            var pc := MakePiece(if IsUpper(ch) then WHITE else BLACK, pt);
            Place(Placement(Put(st.p, pc, sq), st.file + 1, st.rank), s[1..])
          else OffBoard
  }

  /** One piece letter read by `Place`: when the text goes on to a
      successful read, the square is on the board and the piece is put there. */
  lemma PlaceLetter(st: Placement, s: string)
    requires s != [] && s[0] != '/' && !IsDigit(s[0]) && LetterType(ToLower(s[0])).Some?
    requires Place(st, s) != OffBoard
    ensures 0 <= st.rank * 8 + st.file < 64
    ensures Place(st, s) ==
      Place(Placement(Put(st.p, MakePiece(if IsUpper(s[0]) then WHITE else BLACK,
                                          LetterType(ToLower(s[0])).value),
                          st.rank * 8 + st.file),
                      st.file + 1, st.rank), s[1..])
  {
  }

  /** A piece letter naming a square on the board puts its piece there and
      reading goes on from the next file. */
  lemma PlaceOnBoard(st: Placement, s: string)
    requires s != [] && s[0] != '/' && !IsDigit(s[0]) && LetterType(ToLower(s[0])).Some?
    requires 0 <= st.rank * 8 + st.file < 64
    ensures Place(st, s) ==
      Place(Placement(Put(st.p, MakePiece(if IsUpper(s[0]) then WHITE else BLACK,
                                          LetterType(ToLower(s[0])).value),
                          st.rank * 8 + st.file),
                      st.file + 1, st.rank), s[1..])
  {
  }

  predicate PlacementChar(c: char) { c == '/' || IsDigit(c) || LetterType(ToLower(c)).Some? }

  predicate AllPlacementChars(s: string) { forall i :: 0 <= i < |s| ==> PlacementChar(s[i]) }

  /** Every piece letter of the field lands on a square that is still empty,
      as happens when each rank describes its eight squares once. */
  ghost predicate PlacesOnEmpty(st: Placement, s: string)
    decreases |s|
  {
    s == [] ||
    var ch := s[0];
    if ch == '/' then PlacesOnEmpty(st.(rank := st.rank - 1, file := 0), s[1..])
    else if IsDigit(ch) then PlacesOnEmpty(st.(file := st.file + DigitValue(ch)), s[1..])
    else
      match LetterType(ToLower(ch))
      case None => true
      case Some(pt) =>
        var sq := st.rank * 8 + st.file;
        0 <= sq < 64 && st.p.board[sq] == NO_PIECE &&
        var pc := MakePiece(if IsUpper(ch) then WHITE else BLACK, pt);
        PlacesOnEmpty(Placement(Put(st.p, pc, sq), st.file + 1, st.rank), s[1..])
  }

  lemma AllPlacementCharsStep(s: string)
    requires s != []
    ensures AllPlacementChars(s) <==> PlacementChar(s[0]) && AllPlacementChars(s[1..])
  {
    if PlacementChar(s[0]) && AllPlacementChars(s[1..]) {
      forall i | 0 <= i < |s|
        ensures PlacementChar(s[i])
      {
        if i > 0 {
          assert s[i] == s[1..][i - 1];
        }
      }
    }
  }

  /** Where one character of the field takes the parser when it is '/', a
      digit, or a piece letter naming a square on the board. */
  function Advance(st: Placement, ch: char): Placement
  {
    if ch == '/' then st.(rank := st.rank - 1, file := 0)
    else if IsDigit(ch) then st.(file := st.file + DigitValue(ch))
    else
      match LetterType(ToLower(ch))
      case None => st
      case Some(pt) =>
        var sq := st.rank * 8 + st.file;
        if 0 <= sq < 64 then
          Placement(Put(st.p, MakePiece(if IsUpper(ch) then WHITE else BLACK, pt), sq), st.file + 1, st.rank)
        else st
  }

  /** A piece letter naming a square on the board advances the parser by
      putting piece pc on square sq and moving one file on. */
  lemma AdvanceLetter(st: Placement, ch: char, pc: Piece, sq: Square)
    requires ch != '/' && !IsDigit(ch) && LetterType(ToLower(ch)).Some?
    requires sq == st.rank * 8 + st.file
    requires pc == MakePiece(if IsUpper(ch) then WHITE else BLACK, LetterType(ToLower(ch)).value)
    ensures Advance(st, ch) == Placement(Put(st.p, pc, sq), st.file + 1, st.rank)
  {
  }

  lemma PlaceMoves(st: Placement, s: string)
    requires s != [] && (s[0] == '/' || IsDigit(s[0]))
    ensures Place(st, s) == Place(Advance(st, s[0]), s[1..])
  {
  }

  lemma PlaceUnknown(st: Placement, s: string)
    requires s != [] && !PlacementChar(s[0])
    ensures Place(st, s) == UnknownLetter(st)
  {
  }

  /** One step of `Place`: a placement character advances the parser, any
      other character stops it where it is. */
  lemma PlaceUnfold(st: Placement, s: string)
    requires s != [] && Place(st, s) != OffBoard
    ensures PlacementChar(s[0]) ==> Place(st, s) == Place(Advance(st, s[0]), s[1..])
    ensures !PlacementChar(s[0]) ==> Place(st, s) == UnknownLetter(st)
  {
    var ch := s[0];
    if ch == '/' || IsDigit(ch) {
      PlaceMoves(st, s);
    } else if LetterType(ToLower(ch)).Some? {
      PlaceLetter(st, s);
      var sq := st.rank * 8 + st.file;
      var pc := MakePiece(if IsUpper(ch) then WHITE else BLACK, LetterType(ToLower(ch)).value);
      AdvanceLetter(st, ch, pc, sq);
    } else {
      PlaceUnknown(st, s);
    }
  }

  /** Reading the field stops early exactly when it holds a character that
      is not '/', a digit or a piece letter. */
  lemma {:induction false} PlaceStopsIff(st: Placement, s: string)
    requires Place(st, s) != OffBoard
    ensures Place(st, s).UnknownLetter? <==> !AllPlacementChars(s)
    decreases |s|
  {
    if s != [] {
      AllPlacementCharsStep(s);
      PlaceUnfold(st, s);
      if PlacementChar(s[0]) {
        PlaceStopsIff(Advance(st, s[0]), s[1..]);
      }
    }
  }

  /** A position under construction by `setFromFEN`: the invariant holds,
      the hash holds exactly the piece keys, and the other fields are still
      those `clear` set. */
  ghost predicate Building(p: Pos)
  {
    Consistent(p) && HashSplits(p, {}) &&
    p.stm == WHITE && p.castling == NO_CASTLING && p.epSquare == NO_SQUARE &&
    p.halfmoves == 0 && p.fullmoves == 1 && p.history == []
  }

  lemma PutKeepsBuilding(p: Pos, pc: Piece, sq: Square)
    requires Building(p) && p.board[sq] == NO_PIECE
    ensures Building(Put(p, pc, sq))
  {
    PutSpec(p, pc, sq, {});
  }

  /** A piece letter of a field that places on empty squares names an empty
      square on the board, and the rest of the field goes on placing on
      empty squares. */
  lemma LetterOnEmpty(st: Placement, s: string)
    requires PlacesOnEmpty(st, s)
    requires s != [] && s[0] != '/' && !IsDigit(s[0]) && LetterType(ToLower(s[0])).Some?
    ensures 0 <= st.rank * 8 + st.file < 64 && st.p.board[st.rank * 8 + st.file] == NO_PIECE
    ensures PlacesOnEmpty(Placement(Put(st.p, MakePiece(if IsUpper(s[0]) then WHITE else BLACK,
                                                        LetterType(ToLower(s[0])).value),
                                        st.rank * 8 + st.file),
                                    st.file + 1, st.rank), s[1..])
  {
  }

  /** A '/' or a digit of a field that places on empty squares leaves the
      rest of the field placing on empty squares. */
  lemma MovesOnEmpty(st: Placement, s: string)
    requires PlacesOnEmpty(st, s) && s != [] && (s[0] == '/' || IsDigit(s[0]))
    ensures PlacesOnEmpty(Advance(st, s[0]), s[1..]) && Advance(st, s[0]).p == st.p
  {
  }

  /** A '/' or a digit: the next placement keeps building on empty squares. */
  lemma MoveStep(st: Placement, s: string) returns (next: Placement)
    requires Building(st.p) && PlacesOnEmpty(st, s) && s != [] && (s[0] == '/' || IsDigit(s[0]))
    ensures Building(next.p) && PlacesOnEmpty(next, s[1..]) && Place(st, s) == Place(next, s[1..])
  {
    next := Advance(st, s[0]);
    PlaceMoves(st, s);
    MovesOnEmpty(st, s);
  }

  /** A piece letter: the piece goes on an empty square and the next
      placement keeps building on empty squares. */
  lemma LetterStep(st: Placement, s: string) returns (next: Placement)
    requires Building(st.p) && PlacesOnEmpty(st, s)
    requires s != [] && s[0] != '/' && !IsDigit(s[0]) && LetterType(ToLower(s[0])).Some?
    ensures Building(next.p) && PlacesOnEmpty(next, s[1..]) && Place(st, s) == Place(next, s[1..])
  {
    var ch := s[0];
    var sq := st.rank * 8 + st.file;
    var pc := MakePiece(if IsUpper(ch) then WHITE else BLACK, LetterType(ToLower(ch)).value);
    LetterOnEmpty(st, s);
    PutKeepsBuilding(st.p, pc, sq);
    PlaceOnBoard(st, s);
    next := Placement(Put(st.p, pc, sq), st.file + 1, st.rank);
  }

  /** Placing pieces on empty squares keeps the invariant and the piece-key hash. */
  lemma {:induction false} PlaceKeepsBuilding(st: Placement, s: string)
    requires Building(st.p) && PlacesOnEmpty(st, s)
    ensures Place(st, s).Done? || Place(st, s).UnknownLetter?
    ensures !Place(st, s).OffBoard? ==> Building(Place(st, s).st.p)
    decreases |s|
  {
    if s != [] {
      var ch := s[0];
      if ch == '/' || IsDigit(ch) {
        var next := MoveStep(st, s);
        PlaceKeepsBuilding(next, s[1..]);
      } else if LetterType(ToLower(ch)).Some? {
        var next := LetterStep(st, s);
        PlaceKeepsBuilding(next, s[1..]);
      } else {
        PlaceUnknown(st, s);
      }
    }
  }

  // ---------------------------------------------------------------- castling field

  /** The right a castling-field letter names (src/Position.cpp:112-127);
      other characters name none. */
  function RightOfLetter(c: char): CastlingRights
  {
    if c == 'K' then WHITE_OO
    else if c == 'Q' then WHITE_OOO
    else if c == 'k' then BLACK_OO
    else if c == 'q' then BLACK_OOO
    else NO_CASTLING
  }

  /** The castling loop: OR in the right of every letter, left to right. */
  function ReadCastling(cr: CastlingRights, s: string): CastlingRights
    decreases |s|
  {
    if s == [] then cr else ReadCastling(cr | RightOfLetter(s[0]), s[1..])
  }

  /** The letter of one right when the mask holds it. */
  function Flag(cr: CastlingRights, right: CastlingRights, letter: char): string
  {
    if cr & right != 0 then [letter] else []
  }

  /** The castling field `getFEN` prints (src/Position.cpp:183-192): "-" for
      no rights, else the letters of the rights held in the order K, Q, k, q. */
  function CastlingText(cr: CastlingRights): (s: string)
    ensures |s| > 0 && NoSpace(s)
  {
    if cr == NO_CASTLING then "-"
    else
      assert cr & WHITE_OO != 0 || cr & WHITE_OOO != 0 || cr & BLACK_OO != 0 || cr & BLACK_OOO != 0;
      Flag(cr, WHITE_OO, 'K') + Flag(cr, WHITE_OOO, 'Q') + Flag(cr, BLACK_OO, 'k') + Flag(cr, BLACK_OOO, 'q')
  }

  lemma ReadFlag(acc: CastlingRights, cr: CastlingRights, right: CastlingRights, letter: char)
    requires RightOfLetter(letter) == right
    ensures ReadCastling(acc, Flag(cr, right, letter)) == acc | (cr & right)
  {
    if cr & right != 0 {
      assert Flag(cr, right, letter)[1..] == [];
    }
  }

  lemma MaskParts(cr: CastlingRights)
    ensures cr == (((NO_CASTLING | (cr & WHITE_OO)) | (cr & WHITE_OOO)) | (cr & BLACK_OO)) | (cr & BLACK_OOO)
  {
  }

  /** Reading the printed castling field gives the mask back. */
  lemma CastlingRoundTrip(cr: CastlingRights)
    ensures ReadCastling(NO_CASTLING, CastlingText(cr)) == cr
  {
    if cr != NO_CASTLING {
      var a, b := Flag(cr, WHITE_OO, 'K'), Flag(cr, WHITE_OOO, 'Q');
      var c, d := Flag(cr, BLACK_OO, 'k'), Flag(cr, BLACK_OOO, 'q');
      assert CastlingText(cr) == a + (b + (c + d));
      ReadCastlingAppend(NO_CASTLING, a, b + (c + d));
      ReadFlag(NO_CASTLING, cr, WHITE_OO, 'K');
      var x1 := NO_CASTLING | (cr & WHITE_OO);
      ReadCastlingAppend(x1, b, c + d);
      ReadFlag(x1, cr, WHITE_OOO, 'Q');
      var x2 := x1 | (cr & WHITE_OOO);
      ReadCastlingAppend(x2, c, d);
      ReadFlag(x2, cr, BLACK_OO, 'k');
      var x3 := x2 | (cr & BLACK_OO);
      ReadFlag(x3, cr, BLACK_OOO, 'q');
      MaskParts(cr);
    }
  }

  lemma {:induction false} ReadCastlingAppend(cr: CastlingRights, a: string, b: string)
    ensures ReadCastling(cr, a + b) == ReadCastling(ReadCastling(cr, a), b)
    decreases |a|
  {
    if a == [] {
      assert a + b == b;
    } else {
      assert (a + b)[1..] == a[1..] + b;
      ReadCastlingAppend(cr | RightOfLetter(a[0]), a[1..], b);
    }
  }

  // ---------------------------------------------------------------- getFEN

  /** The text `getFEN` prints for rank r from file f on, with `empty` empty
      squares not yet printed (src/Position.cpp:157-178): a run of empty
      squares becomes its length, a piece its letter. */
  function RankText(board: seq<Cell>, r: Coord, f: nat, empty: nat): (s: string)
    requires |board| == 64 && f <= 8 && empty <= f
    decreases 8 - f
  {
    var flush := if empty > 0 then [DigitChar(empty)] else [];
    if f == 8 then flush
    else
      var pc := board[r * 8 + f];
      if pc == NO_PIECE then RankText(board, r, f + 1, empty + 1)
      else flush + [PieceLetter(pc)] + RankText(board, r, f + 1, 0)
  }

  /** One square of a rank: an empty square extends the run, a piece
      flushes the run's digit before its letter. */
  lemma RankTextStep(board: seq<Cell>, r: Coord, f: nat, empty: nat)
    requires |board| == 64 && f < 8 && empty <= f
    ensures board[r * 8 + f] == NO_PIECE ==>
      RankText(board, r, f, empty) == RankText(board, r, f + 1, empty + 1)
    ensures board[r * 8 + f] != NO_PIECE ==>
      RankText(board, r, f, empty) ==
      (if empty > 0 then [DigitChar(empty)] else []) + ([PieceLetter(board[r * 8 + f])] + RankText(board, r, f + 1, 0))
  {
  }

  /** Regrouping one word joined in front of a joined rest. */
  lemma Regroup(x: string, y: string, r: string)
    ensures x + " " + (y + " " + r) == x + " " + y + " " + r
  {
  }

  /** Joining six words puts one space between each pair. */
  lemma JoinSix(ws: seq<string>)
    requires |ws| == 6
    ensures Join(ws) == ws[0] + " " + ws[1] + " " + ws[2] + " " + ws[3] + " " + ws[4] + " " + ws[5]
  {
    var l1 := ws[0] + " " + ws[1];
    var l2 := l1 + " " + ws[2];
    var l3 := l2 + " " + ws[3];
    var l4 := l3 + " " + ws[4];
    assert Join(ws[5..]) == ws[5];
    assert Join(ws[4..]) == ws[4] + " " + Join(ws[5..]);
    assert Join(ws[3..]) == ws[3] + " " + Join(ws[4..]);
    assert Join(ws[2..]) == ws[2] + " " + Join(ws[3..]);
    assert Join(ws[1..]) == ws[1] + " " + Join(ws[2..]);
    Regroup(ws[0], ws[1], Join(ws[2..]));
    Regroup(l1, ws[2], Join(ws[3..]));
    Regroup(l2, ws[3], Join(ws[4..]));
    Regroup(l3, ws[4], Join(ws[5..]));
  }

  /** The placement field from rank r down to rank 1, ranks separated by '/'. */
  function PlacementText(board: seq<Cell>, r: Coord): (s: string)
    requires |board| == 64
    decreases r
  {
    RankText(board, r, 0, 0) + (if r == 0 then "" else "/" + PlacementText(board, RankBelow(r)))
  }

  /** The next rank down. */
  function RankBelow(r: Coord): (b: Coord)
    requires r > 0
    ensures b < r
  {
    r - 1
  }

  lemma NoSpaceAppend(a: string, b: string)
    requires NoSpace(a) && NoSpace(b)
    ensures NoSpace(a + b)
  {
    assert forall i :: |a| <= i < |a + b| ==> (a + b)[i] == b[i - |a|];
  }

  /** A rank's text is a word: no spaces, and not empty once a square is
      read. */
  lemma {:induction false} RankTextWord(board: seq<Cell>, r: Coord, f: nat, empty: nat)
    requires |board| == 64 && f <= 8 && empty <= f
    ensures NoSpace(RankText(board, r, f, empty))
    ensures f < 8 || empty > 0 ==> |RankText(board, r, f, empty)| > 0
    decreases 8 - f
  {
    var flush := if empty > 0 then [DigitChar(empty)] else [];
    assert NoSpace(flush);
    if f < 8 {
      RankTextStep(board, r, f, empty);
      var pc := board[r * 8 + f];
      if pc == NO_PIECE {
        RankTextWord(board, r, f + 1, empty + 1);
      } else {
        RankTextWord(board, r, f + 1, 0);
        PieceLetterKind(pc);
        assert NoSpace([PieceLetter(pc)]);
        NoSpaceAppend([PieceLetter(pc)], RankText(board, r, f + 1, 0));
        NoSpaceAppend(flush, [PieceLetter(pc)] + RankText(board, r, f + 1, 0));
      }
    }
  }

  /** The placement field is a word. */
  lemma {:induction false} PlacementTextWord(board: seq<Cell>, r: Coord)
    requires |board| == 64
    ensures |PlacementText(board, r)| > 0 && NoSpace(PlacementText(board, r))
    decreases r
  {
    RankTextWord(board, r, 0, 0);
    if r > 0 {
      PlacementTextWord(board, RankBelow(r));
      NoSpaceAppend("/", PlacementText(board, RankBelow(r)));
      NoSpaceAppend(RankText(board, r, 0, 0), "/" + PlacementText(board, RankBelow(r)));
    } else {
      assert PlacementText(board, r) == RankText(board, r, 0, 0) + "";
    }
  }

  /** The six fields `getFEN` prints: placement, side, castling, en-passant
      square and the two counters. */
  function FenFields(p: Pos): seq<string>
  {
    [PlacementText(p.board, 7), if p.stm == WHITE then "w" else "b", CastlingText(p.castling),
     SquareToString(p.epSquare), IntToString(p.halfmoves), IntToString(p.fullmoves)]
  }

  /** `getFEN` (src/Position.cpp:153-203): the six fields separated by single
      spaces. */
  function ToFen(p: Pos): string
  {
    Join(FenFields(p))
  }

  lemma SquareWord(sq: SquareOrNone)
    ensures |SquareToString(sq)| > 0 && NoSpace(SquareToString(sq))
  {
  }

  lemma {:induction false} WordsOfSix(a: string, b: string, c: string, d: string, e: string, f: string)
    requires |a| > 0 && NoSpace(a) && |b| > 0 && NoSpace(b) && |c| > 0 && NoSpace(c)
    requires |d| > 0 && NoSpace(d) && |e| > 0 && NoSpace(e) && |f| > 0 && NoSpace(f)
    ensures Words(Join([a, b, c, d, e, f])) == [a, b, c, d, e, f]
  {
    var ws := [a, b, c, d, e, f];
    assert forall i :: 0 <= i < |ws| ==> ws[i] in {a, b, c, d, e, f};
    WordsOfJoin(ws);
  }

  lemma SideWord(stm: Color)
    ensures var t := if stm == WHITE then "w" else "b"; |t| > 0 && NoSpace(t)
  {
    var t := if stm == WHITE then "w" else "b";
    assert |t| == 1 && !IsSpace(t[0]);
  }

  /** Reading the words of `getFEN`'s text gives back its six fields, as
      `setFromFEN`'s `>>` reads see them. */
  lemma ToFenWords(p: Pos)
    ensures Words(ToFen(p)) == FenFields(p)
  {
    SquareWord(p.epSquare);
    SideWord(p.stm);
    PlacementTextWord(p.board, 7);
    WordsOfSix(PlacementText(p.board, 7), if p.stm == WHITE then "w" else "b", CastlingText(p.castling),
               SquareToString(p.epSquare), IntToString(p.halfmoves), IntToString(p.fullmoves));
  }

  // ---------------------------------------------------------------- setFromFEN

  /** The i-th word, or "" where a `>>` read finds no word. */
  function Field(w: seq<string>, i: nat): string { if i < |w| then w[i] else "" }

  function Start(): Placement { Placement(Cleared(), 0, 7) }

  /** What `setFromFEN` needs of its text to stay defined: no piece letter
      names a square off the board, and once the placement is read the two
      counter words are whole `int` words. */
  predicate WellFormedFen(fen: string)
  {
    var w := Words(fen);
    match Place(Start(), Field(w, 0))
    case OffBoard => false
    case UnknownLetter(_) => true
    case Done(_) => |w| >= 6 && IsIntWord(w[4]) && IsIntWord(w[5])
  }

  /** `if (stm == BLACK) positionHash ^= Zobrist::sideToMove` */
  function SideXor(h: Hash, stm: Color): Hash { if stm == BLACK then Xor(h, SideToMoveKey) else h }

  /** The fields `setFromFEN` reads after the placement
      (src/Position.cpp:107-148), written over the placed position, with the
      side, castling and en-passant keys XORed into its hash. */
  function ReadFields(p: Pos, w: seq<string>): Pos
    requires |w| >= 6 && IsIntWord(w[4]) && IsIntWord(w[5])
  {
    var stm := if w[1] == "w" then WHITE else BLACK;
    var cr := ReadCastling(NO_CASTLING, w[2]);
    var ep := StringToSquare(w[3]);
    var h := XorEp(Xor(SideXor(p.hash, stm), CastlingKey(cr)), ep);
    p.(stm := stm, castling := cr, epSquare := ep,
       halfmoves := ParseInt(w[4]), fullmoves := ParseInt(w[5]), hash := h)
  }

  /** Reading the fields over a hash of piece keys alone gives the
      from-scratch hash, and leaves the placement alone. */
  lemma ReadFieldsHash(p: Pos, w: seq<string>)
    requires |w| >= 6 && IsIntWord(w[4]) && IsIntWord(w[5])
    requires Consistent(p) && HashSplits(p, {})
    ensures Consistent(ReadFields(p, w)) && HashValid(ReadFields(p, w))
  {
    var r := ReadFields(p, w);
    assert p.hash == PieceKeys(p.board);
    assert SideToMoveKey !in p.hash && CastlingKey(r.castling) !in SideXor(p.hash, r.stm);
    assert Xor(SideXor(p.hash, r.stm), CastlingKey(r.castling)) ==
      p.hash + SideKeys(r.stm) + {CastlingKey(r.castling)};
    assert r.board == p.board && r.byType == p.byType && r.byColor == p.byColor;
  }

  /** `setFromFEN` (src/Position.cpp:59-151): the flag it returns and the
      position it leaves. */
  function FromFen(fen: string): (bool, Pos)
    requires WellFormedFen(fen)
  {
    var w := Words(fen);
    match Place(Start(), Field(w, 0))
    case OffBoard => assert false; (false, Cleared())
    case UnknownLetter(st) => (false, st.p)
    case Done(st) => (true, ReadFields(st.p, w))
  }

  /** When every piece letter of the placement lands on a square still
      empty, `setFromFEN` keeps the board invariant; it succeeds exactly when
      the placement holds only '/', digits and piece letters, and then its
      hash is the from-scratch hash. */
  lemma FromFenSound(fen: string)
    requires WellFormedFen(fen) && PlacesOnEmpty(Start(), Field(Words(fen), 0))
    ensures Consistent(FromFen(fen).1)
    ensures FromFen(fen).0 ==> HashValid(FromFen(fen).1)
    ensures FromFen(fen).0 <==> AllPlacementChars(Field(Words(fen), 0))
  {
    var w := Words(fen);
    var f := Field(w, 0);
    PlaceKeepsBuilding(Start(), f);
    PlaceStopsIff(Start(), f);
    if Place(Start(), f).Done? {
      ReadFieldsHash(Place(Start(), f).st.p, w);
    }
  }

  // ---------------------------------------------------------------- the starting position

  /** `STARTING_FEN` (inc/Position.h:112-113), written as its placement
      field and the five fields after it. */
  const START_PLACEMENT: string :=
    "rnbqkbnr" + ("/" + ("pppppppp" + ("/" + ("8" + ("/" + ("8" + ("/" + ("8" + ("/" + ("8" +
    ("/" + ("PPPPPPPP" + ("/" + "RNBQKBNR")))))))))))))

  const STARTING_FEN: string := Join([START_PLACEMENT, "w", "KQkq", "-", "0", "1"])

  /** Reading a placement field never names a square off the board: the
      file and rank `Place` tracks are checked at every piece letter. */
  ghost predicate Fits(file: int, rank: int, s: string)
    decreases |s|
  {
    s == [] ||
    var ch := s[0];
    if ch == '/' then Fits(0, rank - 1, s[1..])
    else if IsDigit(ch) then Fits(file + DigitValue(ch), rank, s[1..])
    else
      match LetterType(ToLower(ch))
      case None => true
      case Some(_) => 0 <= rank * 8 + file < 64 && Fits(file + 1, rank, s[1..])
  }

  /** A field that fits is read without leaving the board. */
  lemma {:induction false} FitsPlace(st: Placement, s: string)
    requires Fits(st.file, st.rank, s)
    ensures Place(st, s) != OffBoard
    decreases |s|
  {
    if s != [] {
      var ch := s[0];
      if ch == '/' || IsDigit(ch) {
        PlaceMoves(st, s);
        FitsPlace(Advance(st, ch), s[1..]);
      } else if LetterType(ToLower(ch)).Some? {
        PlaceOnBoard(st, s);
        var sq := st.rank * 8 + st.file;
        var pc := MakePiece(if IsUpper(ch) then WHITE else BLACK, LetterType(ToLower(ch)).value);
        FitsPlace(Placement(Put(st.p, pc, sq), st.file + 1, st.rank), s[1..]);
      }
    }
  }

  predicate IsPieceLetter(c: char) { c != '/' && !IsDigit(c) && LetterType(ToLower(c)).Some? }

  /** A run of piece letters that stays within the rank fits. */
  lemma {:induction false} LettersFit(file: int, rank: int, s: string, rest: string)
    requires forall i :: 0 <= i < |s| ==> IsPieceLetter(s[i])
    requires 0 <= rank < 8 && 0 <= file && file + |s| <= 8
    requires Fits(file + |s|, rank, rest)
    ensures Fits(file, rank, s + rest)
    decreases |s|
  {
    if s != [] {
      var t := s + rest;
      assert t[0] == s[0] && t[1..] == s[1..] + rest;
      assert IsPieceLetter(s[0]);
      assert forall i :: 0 <= i < |s[1..]| ==> IsPieceLetter(s[1..][i]) by {
        forall i | 0 <= i < |s[1..]| ensures IsPieceLetter(s[1..][i]) {
          assert s[1..][i] == s[i + 1];
        }
      }
      LettersFit(file + 1, rank, s[1..], rest);
      assert LetterType(ToLower(t[0])).Some?;
    } else {
      assert s + rest == rest;
    }
  }

  /** A full rank of eight letters, then a '/' to the rank below. */
  lemma RankFits(rank: int, s: string, rest: string)
    requires |s| == 8 && forall i :: 0 <= i < |s| ==> IsPieceLetter(s[i])
    requires 1 <= rank < 8 && Fits(0, rank - 1, rest) && NoSpace(rest)
    ensures Fits(0, rank, s + ("/" + rest)) && NoSpace(s + ("/" + rest))
  {
    assert ("/" + rest)[1..] == rest;
    LettersFit(0, rank, s, "/" + rest);
    NoSpaceAppend("/", rest);
    NoSpaceAppend(s, "/" + rest);
  }

  /** An empty rank written "8", then a '/' to the rank below. */
  lemma EmptyRankFits(rank: int, rest: string)
    requires Fits(0, rank - 1, rest) && NoSpace(rest)
    ensures Fits(0, rank, "8" + ("/" + rest)) && NoSpace("8" + ("/" + rest))
  {
    assert ("8" + ("/" + rest))[1..] == "/" + rest;
    assert ("/" + rest)[1..] == rest;
    NoSpaceAppend("/", rest);
    NoSpaceAppend("8", "/" + rest);
  }

  /** The eight letters of each full rank of the starting placement. */
  lemma StartRankLetters()
    ensures forall i :: 0 <= i < 8 ==> IsPieceLetter("rnbqkbnr"[i]) && IsPieceLetter("RNBQKBNR"[i])
    ensures forall i :: 0 <= i < 8 ==> IsPieceLetter("pppppppp"[i]) && IsPieceLetter("PPPPPPPP"[i])
  {
  }

  /** Two full ranks, four empty ones and two full ranks fit the board. */
  lemma PlacementFits(back: string, pawns: string, whitePawns: string, front: string)
    requires |back| == 8 && |pawns| == 8 && |whitePawns| == 8 && |front| == 8
    requires forall i :: 0 <= i < 8 ==> IsPieceLetter(back[i]) && IsPieceLetter(front[i])
    requires forall i :: 0 <= i < 8 ==> IsPieceLetter(pawns[i]) && IsPieceLetter(whitePawns[i])
    ensures var t := back + ("/" + (pawns + ("/" + ("8" + ("/" + ("8" + ("/" + ("8" + ("/" + ("8" +
                     ("/" + (whitePawns + ("/" + front)))))))))))));
      Fits(0, 7, t) && NoSpace(t)
  {
    LettersFit(0, 0, front, []);
    assert front + [] == front;
    assert NoSpace(front) by {
      forall i | 0 <= i < |front| ensures !IsSpace(front[i]) {
        assert IsPieceLetter(front[i]);
      }
    }
    var r2 := whitePawns + ("/" + front);
    RankFits(1, whitePawns, front);
    var r3 := "8" + ("/" + r2);
    EmptyRankFits(2, r2);
    var r4 := "8" + ("/" + r3);
    EmptyRankFits(3, r3);
    var r5 := "8" + ("/" + r4);
    EmptyRankFits(4, r4);
    var r6 := "8" + ("/" + r5);
    EmptyRankFits(5, r5);
    var r7 := pawns + ("/" + r6);
    RankFits(6, pawns, r6);
    RankFits(7, back, r7);
  }

  lemma StartPlacementFits()
    ensures Fits(0, 7, START_PLACEMENT) && NoSpace(START_PLACEMENT)
  {
    StartRankLetters();
    PlacementFits("rnbqkbnr", "pppppppp", "PPPPPPPP", "RNBQKBNR");
  }

  /** The starting text is one `setFromFEN` can read: its placement stays
      on the board and its two counters are whole numbers. */
  lemma StartingFenWellFormed()
    ensures WellFormedFen(STARTING_FEN)
    ensures Words(STARTING_FEN) == [START_PLACEMENT, "w", "KQkq", "-", "0", "1"]
  {
    var p := START_PLACEMENT;
    StartPlacementFits();
    FitsPlace(Start(), p);
    StartFieldsSpaceless();
    WordsOfSix(p, "w", "KQkq", "-", "0", "1");
    StartCountersNumeric();
  }

  /** The five fields after the starting placement are single words. */
  lemma StartFieldsSpaceless()
    ensures NoSpace("w") && NoSpace("KQkq") && NoSpace("-") && NoSpace("0") && NoSpace("1")
  {
  }

  /** The starting clocks are whole numbers. */
  lemma StartCountersNumeric()
    ensures IsIntWord("0") && IsIntWord("1")
  {
  }

  /** The position `Position()` builds: what `setFromFEN` leaves after
      reading the starting text. */
  function StartPosition(): Pos
  {
    StartingFenWellFormed();
    FromFen(STARTING_FEN).1
  }
}

/** The board state of the engine (src/Position.cpp, inc/Position.h): six
    piece-type bitboards, two colour bitboards and a 64-entry mailbox kept in
    step, the side to move, the castling mask, the en-passant square, the two
    clocks, the Zobrist hash and the history stack used to take moves back.

    The state is described twice. `Pos` is the whole state as a value, and the
    functions on it (`Put`, `Remove`, `ApplyMove`, `UndoMove`, ...) follow the
    source statement by statement; the lemmas about the source's promises are
    stated on them. `class Position` holds the same state in arrays and fields
    and updates it in place; each of its methods is proved to leave the object
    in the state the matching function computes. */
module Positions {
  import opened Types
  import opened Bitboard
  import AttackTables
  import Magic

  // ---------------------------------------------------------------- castling

  /** The castling mask `int castling` holds four flag bits (inc/Types.h). */
  type CastlingRights = bv4

  const WHITE_OO: CastlingRights := 1
  const WHITE_OOO: CastlingRights := 2
  const BLACK_OO: CastlingRights := 4
  const BLACK_OOO: CastlingRights := 8
  const NO_CASTLING: CastlingRights := 0

  // ---------------------------------------------------------------- Zobrist keys

  /** The keys of src/Zobrist.cpp: one per piece and square, one per
      en-passant file, one per castling mask and one for the side to move. */
  datatype ZobristKey =
    | PsqKey(pc: Piece, sq: Square)
    | EnPassantKey(file: Coord)
    | CastlingKey(rights: CastlingRights)
    | SideToMoveKey

  /** A hash value, represented by the set of keys it is the XOR of. The source
      draws the 64-bit key values from a seeded generator and only ever XORs
      keys into the hash; XOR with a key toggles that key's membership here,
      and two hashes with equal key sets are equal 64-bit values whatever the
      key values are. */
  type Hash = set<ZobristKey>

  /** `hash ^= key` */
  function Xor(h: Hash, key: ZobristKey): (r: Hash)
    ensures key in r <==> key !in h
    ensures forall other :: other != key ==> (other in r <==> other in h)
  {
    if key in h then h - {key} else h + {key}
  }

  /** XOR is its own inverse. */
  lemma XorTwice(h: Hash, key: ZobristKey)
    ensures Xor(Xor(h, key), key) == h
  {
  }

  function EpKeys(ep: SquareOrNone): Hash
  {
    if ep == NO_SQUARE then {} else {EnPassantKey(FileOf(ep))}
  }

  /** `if (epSquare != NO_SQUARE) hash ^= enpassant[fileOf(epSquare)]` */
  function XorEp(h: Hash, ep: SquareOrNone): Hash
  {
    if ep == NO_SQUARE then h else Xor(h, EnPassantKey(FileOf(ep)))
  }

  // ---------------------------------------------------------------- state

  /** One entry of the history stack (`struct StateInfo`). */
  datatype StateInfo = StateInfo(
    move: Move,
    captured: Cell,
    castling: CastlingRights,
    epSquare: SquareOrNone,
    halfmoves: int,
    hash: Hash)

  datatype PositionState = PositionState(
    byType: seq<Bitboard>,
    byColor: seq<Bitboard>,
    board: seq<Cell>,
    stm: Color,
    castling: CastlingRights,
    epSquare: SquareOrNone,
    halfmoves: int,
    fullmoves: int,
    hash: Hash,
    history: seq<StateInfo>)

  /** The fixed array sizes `byType[6]`, `byColor[2]`, `board[64]`. */
  type Pos = p: PositionState | |p.byType| == 6 && |p.byColor| == 2 && |p.board| == 64
    witness PositionState(seq(6, _ => {}), seq(2, _ => {}), seq(64, _ => NO_PIECE),
                          WHITE, NO_CASTLING, NO_SQUARE, 0, 1, {}, [])

  predicate HasType(c: Cell, pt: PieceType) { c != NO_PIECE && TypeOf(c) == pt }

  predicate HasColor(c: Cell, col: Color) { c != NO_PIECE && ColorOf(c) == col }

  /** The mailbox and the bitboards describe the same placement: a square is in
      `byType[pt]` exactly when the mailbox holds a piece of type pt there, and
      in `byColor[c]` exactly when it holds a piece of colour c. */
  ghost predicate Consistent(p: Pos)
  {
    (forall sq: Square, pt: PieceType :: sq in p.byType[pt] <==> HasType(p.board[sq], pt)) &&
    (forall sq: Square, c: Color :: sq in p.byColor[c] <==> HasColor(p.board[sq], c))
  }

  // inline accessors of inc/Position.h

  function PiecesOf(p: Pos, c: Color): Bitboard { p.byColor[c] }

  function PiecesOfType(p: Pos, pt: PieceType): Bitboard { p.byType[pt] }

  function Pieces(p: Pos, c: Color, pt: PieceType): Bitboard { p.byColor[c] * p.byType[pt] }

  function Occupied(p: Pos): Bitboard { p.byColor[WHITE] + p.byColor[BLACK] }

  function PieceAt(p: Pos, sq: Square): Cell { p.board[sq] }

  /** Under the invariant the accessors agree with the mailbox: a square holds
      piece pc exactly when it is in both of pc's bitboards, the two colour
      sets are disjoint, and the occupied set is the set of non-empty squares. */
  lemma MailboxAgreement(p: Pos, sq: Square, pc: Piece)
    requires Consistent(p)
    ensures PieceAt(p, sq) == pc <==> sq in Pieces(p, ColorOf(pc), TypeOf(pc))
    ensures sq !in p.byColor[WHITE] * p.byColor[BLACK]
    ensures sq in Occupied(p) <==> PieceAt(p, sq) != NO_PIECE
  {
    PieceDecomposition(pc);
    if p.board[sq] != NO_PIECE {
      PieceDecomposition(p.board[sq]);
    }
  }

  /** The bitboards are a function of the mailbox: two consistent states with
      the same mailbox have the same bitboards. */
  lemma BitboardsDetermined(p: Pos, q: Pos)
    requires Consistent(p) && Consistent(q) && p.board == q.board
    ensures p.byType == q.byType && p.byColor == q.byColor
  {
    forall pt: PieceType
      ensures p.byType[pt] == q.byType[pt]
    {
      forall sq: Square ensures sq in p.byType[pt] <==> sq in q.byType[pt] {
        assert p.board[sq] == q.board[sq];
      }
    }
    forall c: Color
      ensures p.byColor[c] == q.byColor[c]
    {
      forall sq: Square ensures sq in p.byColor[c] <==> sq in q.byColor[c] {
        assert p.board[sq] == q.board[sq];
      }
    }
  }

  // ---------------------------------------------------------------- hashing

  /** The piece keys of a mailbox: one per occupied square. */
  function PieceKeys(board: seq<Cell>): Hash
    requires |board| == 64
  {
    set sq: Square | board[sq] != NO_PIECE :: PsqKey(board[sq], sq)
  }

  /** The hash computed from scratch: every piece, the side key when Black is
      to move, the key of the castling mask and the en-passant file key. */
  function ScratchHash(p: Pos): Hash
  {
    PieceKeys(p.board) + StateKeys(p)
  }

  ghost predicate HashValid(p: Pos) { p.hash == ScratchHash(p) }

  /** XOR of two hashes: the keys in exactly one of them. */
  function Sym(a: Hash, b: Hash): Hash { (a - b) + (b - a) }

  lemma SymXor(a: Hash, b: Hash, key: ZobristKey)
    ensures Xor(Sym(a, b), key) == Sym(a, Xor(b, key))
  {
  }

  lemma SymCancel(a: Hash, h: Hash)
    ensures Sym(a, Sym(a, h)) == h
  {
  }

  /** The keys that are not piece keys in a from-scratch hash. */
  function StateKeys(p: Pos): Hash
  {
    (if p.stm == BLACK then {SideToMoveKey} else {}) + {CastlingKey(p.castling)} + EpKeys(p.epSquare)
  }

  /** The hash is the mailbox's piece keys XORed with the keys in rest. */
  ghost predicate HashSplits(p: Pos, rest: Hash)
  {
    p.hash == Sym(PieceKeys(p.board), rest)
  }

  /** A from-scratch hash splits into its piece keys and its state keys. */
  lemma HashValidSplits(p: Pos)
    ensures HashValid(p) <==> HashSplits(p, StateKeys(p))
  {
    assert Sym(PieceKeys(p.board), StateKeys(p)) == ScratchHash(p);
  }

  // ---------------------------------------------------------------- piece helpers

  /** `putPiece` (src/Position.cpp:30-38). */
  function Put(p: Pos, pc: Piece, sq: Square): Pos
  {
    p.(byType := p.byType[TypeOf(pc) := p.byType[TypeOf(pc)] + {sq}],
       byColor := p.byColor[ColorOf(pc) := p.byColor[ColorOf(pc)] + {sq}],
       board := p.board[sq := pc],
       hash := Xor(p.hash, PsqKey(pc, sq)))
  }

  /** `removePiece` (src/Position.cpp:40-51): a no-op on an empty square. */
  function Remove(p: Pos, sq: Square): Pos
  {
    var pc := p.board[sq];
    if pc == NO_PIECE then p
    else
      p.(byType := p.byType[TypeOf(pc) := p.byType[TypeOf(pc)] - {sq}],
         byColor := p.byColor[ColorOf(pc) := p.byColor[ColorOf(pc)] - {sq}],
         hash := Xor(p.hash, PsqKey(pc, sq)),
         board := p.board[sq := NO_PIECE])
  }

  /** `movePiece` (src/Position.cpp:53-57). An empty from-square would make
      `putPiece` index `byColor[2]`, so the square must hold a piece. */
  function MovePc(p: Pos, from: Square, to: Square): Pos
    requires p.board[from] != NO_PIECE
  {
    Put(Remove(p, from), p.board[from], to)
  }

  /** `putPiece` on an empty square keeps the invariant, places exactly pc on
      sq, and adds exactly pc's key on sq to the hash. */
  lemma PutSpec(p: Pos, pc: Piece, sq: Square, rest: Hash)
    requires Consistent(p) && p.board[sq] == NO_PIECE
    ensures Consistent(Put(p, pc, sq))
    ensures Put(p, pc, sq).board == p.board[sq := pc]
    ensures HashSplits(p, rest) ==> HashSplits(Put(p, pc, sq), rest)
  {
    var r := Put(p, pc, sq);
    forall t: Square, pt: PieceType
      ensures t in r.byType[pt] <==> HasType(r.board[t], pt)
    {
      if t != sq {
        assert r.board[t] == p.board[t];
      }
    }
    forall t: Square, c: Color
      ensures t in r.byColor[c] <==> HasColor(r.board[t], c)
    {
      if t != sq {
        assert r.board[t] == p.board[t];
      }
    }
    PieceKeysUpdate(p.board, sq, pc);
    SymXor(PieceKeys(p.board), rest, PsqKey(pc, sq));
  }

  /** Setting an empty square adds its one key to the piece keys; emptying a
      square drops its one key. */
  lemma PieceKeysUpdate(board: seq<Cell>, sq: Square, c: Cell)
    requires |board| == 64
    ensures board[sq] == NO_PIECE && c != NO_PIECE ==>
      PieceKeys(board[sq := c]) == PieceKeys(board) + {PsqKey(c, sq)} &&
      PsqKey(c, sq) !in PieceKeys(board)
    ensures board[sq] != NO_PIECE && c == NO_PIECE ==>
      PieceKeys(board[sq := c]) == PieceKeys(board) - {PsqKey(board[sq], sq)} &&
      PsqKey(board[sq], sq) in PieceKeys(board)
  {
    var b := board[sq := c];
    forall key | key in PieceKeys(b) ensures key in PieceKeys(board) || key == PsqKey(c, sq) {
      var t: Square :| b[t] != NO_PIECE && key == PsqKey(b[t], t);
    }
    forall key | key in PieceKeys(board) && key.PsqKey? && key.sq != sq ensures key in PieceKeys(b) {
      var t: Square :| board[t] != NO_PIECE && key == PsqKey(board[t], t);
      assert b[t] == board[t];
    }
    if board[sq] == NO_PIECE && c != NO_PIECE {
      assert b[sq] == c;
      assert PsqKey(b[sq], sq) in PieceKeys(b);
    }
    if board[sq] != NO_PIECE {
      assert PsqKey(board[sq], sq) in PieceKeys(board);
    }
  }

  /** `removePiece` keeps the invariant, empties sq, and drops exactly the key
      of the piece it removes from the hash. */
  lemma RemoveSpec(p: Pos, sq: Square, rest: Hash)
    requires Consistent(p)
    ensures Consistent(Remove(p, sq))
    ensures Remove(p, sq).board == p.board[sq := NO_PIECE]
    ensures HashSplits(p, rest) ==> HashSplits(Remove(p, sq), rest)
  {
    var r := Remove(p, sq);
    if p.board[sq] == NO_PIECE {
      assert p.board[sq := NO_PIECE] == p.board;
    } else {
      forall t: Square, pt: PieceType
        ensures t in r.byType[pt] <==> HasType(r.board[t], pt)
      {
        if t != sq {
          assert r.board[t] == p.board[t];
        }
      }
      forall t: Square, c: Color
        ensures t in r.byColor[c] <==> HasColor(r.board[t], c)
      {
        if t != sq {
          assert r.board[t] == p.board[t];
        }
      }
      PieceKeysUpdate(p.board, sq, NO_PIECE);
    }
  }

  /** `removePiece` exactly undoes `putPiece` on an empty square, hash included. */
  lemma RemoveUndoesPut(p: Pos, pc: Piece, sq: Square)
    requires Consistent(p) && p.board[sq] == NO_PIECE
    ensures Remove(Put(p, pc, sq), sq) == p
  {
    assert sq !in p.byType[TypeOf(pc)] && sq !in p.byColor[ColorOf(pc)];
    assert p.byType[TypeOf(pc)] + {sq} - {sq} == p.byType[TypeOf(pc)];
    assert p.byColor[ColorOf(pc)] + {sq} - {sq} == p.byColor[ColorOf(pc)];
    assert p.board[sq := pc][sq := NO_PIECE] == p.board;
    XorTwice(p.hash, PsqKey(pc, sq));
  }

  /** `movePiece` to an empty square keeps the invariant and moves the piece. */
  lemma MovePcSpec(p: Pos, from: Square, to: Square, rest: Hash)
    requires Consistent(p) && p.board[from] != NO_PIECE && p.board[to] == NO_PIECE && from != to
    ensures Consistent(MovePc(p, from, to))
    ensures MovePc(p, from, to).board == p.board[from := NO_PIECE][to := p.board[from]]
    ensures HashSplits(p, rest) ==> HashSplits(MovePc(p, from, to), rest)
  {
    RemoveSpec(p, from, rest);
    PutSpec(Remove(p, from), p.board[from], to, rest);
  }

  // ---------------------------------------------------------------- makeMove

  /** The rook's squares of a castling move, on the king's rank: from the h-file
      to the f-file when the king moves towards the h-file (`to > from`),
      otherwise from the a-file to the d-file. */
  function RookSquares(from: Square, to: Square): (Square, Square)
  {
    if to > from then (MakeSquare(FILE_H, RankOf(from)), MakeSquare(FILE_F, RankOf(from)))
    else (MakeSquare(FILE_A, RankOf(from)), MakeSquare(FILE_D, RankOf(from)))
  }

  /** The square a pawn skips on a double push: `from + (us == WHITE ? 8 : -8)`. */
  function SkippedSquare(from: Square, us: Color): int { from + 8 * Forward(us) }

  /** The square of the pawn taken en passant: `to - (us == WHITE ? 8 : -8)`. */
  function VictimSquare(to: Square, us: Color): int { to - 8 * Forward(us) }

  predicate IsDoublePush(pt: PieceType, from: Square, to: Square)
  {
    pt == PAWN && Abs(from - to) == 16
  }

  /** The moves `makeMove` is given: a piece of the side to move leaves `from`
      for a different square, and each special kind finds the squares it works
      on as the move generator guarantees (a pawn for promotions and en
      passant, an empty target and a pawn to take for en passant, an empty
      king target, a rook to move and an empty rook target for castling). On
      other inputs the source indexes `byColor[2]` or leaves the board torn. */
  predicate Playable(p: Pos, m: Move)
  {
    var from, to, mt := FromSquare(m), ToSquare(m), MoveType(m);
    var pc := p.board[from];
    from != to && pc != NO_PIECE && ColorOf(pc) == p.stm &&
    (mt == NORMAL_MOVE && IsDoublePush(TypeOf(pc), from, to) ==> 0 <= SkippedSquare(from, p.stm) < 64) &&
    (mt == PROMOTION ==> TypeOf(pc) == PAWN) &&
    (mt == EN_PASSANT ==>
      var victim := VictimSquare(to, p.stm);
      TypeOf(pc) == PAWN && p.board[to] == NO_PIECE &&
      0 <= victim < 64 && victim != from && p.board[victim] != NO_PIECE) &&
    (mt == CASTLING ==>
      var (rookFrom, rookTo) := RookSquares(from, to);
      p.board[to] == NO_PIECE && p.board[rookFrom] != NO_PIECE && p.board[rookTo] == NO_PIECE &&
      rookFrom != from && rookFrom != to && rookTo != from && rookTo != to)
  }

  /** The piece-moving part of `makeMove` (src/Position.cpp:239-291), with the
      clock and en-passant updates it makes on the way; the second component is
      the piece it records as captured. */
  function MoveBoard(q: Pos, m: Move): (Pos, Cell)
    requires Playable(q, m)
  {
    var from, to, mt := FromSquare(m), ToSquare(m), MoveType(m);
    var pc: Piece := q.board[from];
    var pt, us := TypeOf(pc), q.stm;
    if mt == NORMAL_MOVE then
      var captured := q.board[to];
      var q1 := if captured != NO_PIECE then Remove(q, to).(halfmoves := 0) else q;
      var q2 := if pt == PAWN then q1.(halfmoves := 0) else q1;
      var q3 := if IsDoublePush(pt, from, to) then q2.(epSquare := SkippedSquare(from, us)) else q2;
      (MovePc(q3, from, to), captured)
    else if mt == PROMOTION then
      var captured := q.board[to];
      var q1 := if captured != NO_PIECE then Remove(q, to) else q;
      (Put(Remove(q1, from), MakePiece(us, PromotionType(m)), to).(halfmoves := 0), captured)
    else if mt == EN_PASSANT then
      var victim: Square := VictimSquare(to, us);
      var captured := q.board[victim];
      (MovePc(Remove(q, victim), from, to).(halfmoves := 0), captured)
    else
      var (rookFrom, rookTo) := RookSquares(from, to);
      (MovePc(MovePc(q, from, to), rookFrom, rookTo), NO_PIECE)
  }

  /** The king part of the castling-rights update (src/Position.cpp:293-299):
      a king move drops both of the mover's rights. */
  function KingRights(cr: CastlingRights, pt: PieceType, us: Color): CastlingRights
  {
    if pt != KING then cr
    else if us == WHITE then cr & !(WHITE_OO | WHITE_OOO)
    else cr & !(BLACK_OO | BLACK_OOO)
  }

  /** Drops the rights in `bits` when the move leaves or reaches `corner`. */
  function DropAt(cr: CastlingRights, corner: Square, from: Square, to: Square, bits: CastlingRights)
    : CastlingRights
  {
    if from == corner || to == corner then cr & !bits else cr
  }

  /** The corner part (src/Position.cpp:301-306): a rook move or a capture
      from or to a corner drops that corner's right. */
  function CornerRights(cr: CastlingRights, pt: PieceType, from: Square, to: Square, captured: Cell)
    : CastlingRights
  {
    if pt == ROOK || captured != NO_PIECE then
      DropAt(DropAt(DropAt(DropAt(cr, A1, from, to, WHITE_OOO), H1, from, to, WHITE_OO),
                    A8, from, to, BLACK_OOO), H8, from, to, BLACK_OO)
    else cr
  }

  /** The castling-rights update of src/Position.cpp:293-307. */
  function NewRights(cr: CastlingRights, pt: PieceType, us: Color, from: Square, to: Square, captured: Cell)
    : CastlingRights
  {
    CornerRights(KingRights(cr, pt, us), pt, from, to, captured)
  }

  /** The first part of `makeMove` (src/Position.cpp:208-236): push the
      state, take the old en-passant and castling keys out of the hash, clear
      the en-passant square and count the halfmove. */
  function MakeStart(p: Pos, m: Move): (q: Pos)
    ensures q.board == p.board && q.stm == p.stm
  {
    p.(history := p.history + [StateInfo(m, NO_PIECE, p.castling, p.epSquare, p.halfmoves, p.hash)],
       hash := Xor(XorEp(p.hash, p.epSquare), CastlingKey(p.castling)),
       epSquare := NO_SQUARE,
       halfmoves := p.halfmoves + 1)
  }

  /** The last part of `makeMove` (src/Position.cpp:293-322): record the
      capture, update the castling rights, put the new castling and
      en-passant keys in, and pass the move to the other side. */
  function MakeFinish(p: Pos, m: Move, b: Pos, captured: Cell): Pos
    requires p.board[FromSquare(m)] != NO_PIECE
  {
    var cr := NewRights(p.castling, TypeOf(p.board[FromSquare(m)]), p.stm, FromSquare(m), ToSquare(m), captured);
    b.(history := p.history + [StateInfo(m, captured, p.castling, p.epSquare, p.halfmoves, p.hash)],
       castling := cr,
       hash := Xor(XorEp(Xor(b.hash, CastlingKey(cr)), b.epSquare), SideToMoveKey),
       stm := Opp(p.stm),
       fullmoves := if Opp(p.stm) == WHITE then b.fullmoves + 1 else b.fullmoves)
  }

  /** `makeMove` (src/Position.cpp:207-323). */
  function ApplyMove(p: Pos, m: Move): Pos
    requires Playable(p, m)
  {
    var (b, captured) := MoveBoard(MakeStart(p, m), m);
    MakeFinish(p, m, b, captured)
  }

  // ---------------------------------------------------------------- unmakeMove

  /** What `unmakeMove` needs of the state to stay within the arrays: the
      pieces it moves back are there. */
  predicate Undoable(p: Pos)
  {
    |p.history| > 0 ==>
      var st := p.history[|p.history| - 1];
      var from, to, mt := FromSquare(st.move), ToSquare(st.move), MoveType(st.move);
      var us := Opp(p.stm);
      (mt == NORMAL_MOVE ==> p.board[to] != NO_PIECE) &&
      (mt == EN_PASSANT ==>
        p.board[to] != NO_PIECE && st.captured != NO_PIECE && 0 <= VictimSquare(to, us) < 64) &&
      (mt == CASTLING ==>
        p.board[to] != NO_PIECE &&
        p.board[to := NO_PIECE][from := p.board[to]][RookSquares(from, to).1] != NO_PIECE)
  }

  /** The piece-moving part of `unmakeMove` (src/Position.cpp:348-400). */
  function UnmoveBoard(q: Pos, st: StateInfo): Pos
    requires Undoable(q.(history := [st], stm := Opp(q.stm)))
  {
    var from, to, mt := FromSquare(st.move), ToSquare(st.move), MoveType(st.move);
    var us := q.stm;
    if mt == NORMAL_MOVE then
      var q1 := Put(Remove(q, to), q.board[to], from);
      if st.captured != NO_PIECE then Put(q1, st.captured, to) else q1
    else if mt == PROMOTION then
      var q1 := Put(Remove(q, to), MakePiece(us, PAWN), from);
      if st.captured != NO_PIECE then Put(q1, st.captured, to) else q1
    else if mt == EN_PASSANT then
      var q1 := Put(Remove(q, to), q.board[to], from);
      var victim: Square := VictimSquare(to, us);
      Put(q1, st.captured, victim)
    else
      var q1 := Put(Remove(q, to), q.board[to], from);
      var (rookFrom, rookTo) := RookSquares(from, to);
      Put(Remove(q1, rookTo), q1.board[rookTo], rookFrom)
  }

  /** The first part of `unmakeMove` (src/Position.cpp:326-346): pop the
      state, give the move back to the other side, and restore the castling
      mask, the en-passant square, the halfmove clock, the hash and the
      fullmove number. */
  function UndoStart(p: Pos): (q: Pos)
    requires |p.history| > 0
    ensures q.board == p.board && q.stm == Opp(p.stm)
  {
    var st := p.history[|p.history| - 1];
    var us := Opp(p.stm);
    p.(history := p.history[..|p.history| - 1],
       stm := us,
       castling := st.castling,
       epSquare := st.epSquare,
       halfmoves := st.halfmoves,
       hash := st.hash,
       fullmoves := if us == BLACK then p.fullmoves - 1 else p.fullmoves)
  }

  /** `unmakeMove` (src/Position.cpp:325-401), as written: the saved hash is
      assigned before the pieces are moved back, and moving them back XORs
      their keys in again. */
  function UndoMove(p: Pos): Pos
    requires Undoable(p)
  {
    if |p.history| == 0 then p
    else UnmoveBoard(UndoStart(p), p.history[|p.history| - 1])
  }

  /** `unmakeMove` with the saved hash restored after the pieces are moved back. */
  function UndoMoveRestoringHash(p: Pos): Pos
    requires Undoable(p)
  {
    if |p.history| == 0 then p
    else UndoMove(p).(hash := p.history[|p.history| - 1].hash)
  }

  // ---------------------------------------------------------------- make/unmake properties

  /** How a move changes the mailbox, square by square: the mover leaves
      `from` and arrives on `to` (as the promotion piece for promotions), the
      pawn taken en passant leaves its square, and castling also moves the rook. */
  function MovedBoard(board: seq<Cell>, m: Move, us: Color): seq<Cell>
    requires |board| == 64
  {
    var from, to, mt := FromSquare(m), ToSquare(m), MoveType(m);
    if mt == NORMAL_MOVE then board[from := NO_PIECE][to := board[from]]
    else if mt == PROMOTION then board[from := NO_PIECE][to := MakePiece(us, PromotionType(m))]
    else if mt == EN_PASSANT then
      var victim := VictimSquare(to, us);
      if 0 <= victim < 64 then board[victim := NO_PIECE][from := NO_PIECE][to := board[from]]
      else board
    else
      var (rookFrom, rookTo) := RookSquares(from, to);
      board[from := NO_PIECE][to := board[from]][rookFrom := NO_PIECE][rookTo := board[rookFrom]]
  }

  /** The piece a move takes: the occupant of the target square, the pawn
      behind it for en passant, nothing for castling. */
  function CapturedBy(p: Pos, m: Move): Cell
  {
    var to, mt := ToSquare(m), MoveType(m);
    if mt == EN_PASSANT then
      var victim := VictimSquare(to, p.stm);
      if 0 <= victim < 64 then p.board[victim] else NO_PIECE
    else if mt == CASTLING then NO_PIECE
    else p.board[to]
  }

  /** Whether a move resets the halfmove clock: a capture, a pawn move, a
      promotion or an en-passant capture. */
  predicate ResetsClock(p: Pos, m: Move)
  {
    var from, mt := FromSquare(m), MoveType(m);
    var pc := p.board[from];
    mt == PROMOTION || mt == EN_PASSANT ||
    (mt == NORMAL_MOVE && (CapturedBy(p, m) != NO_PIECE || (pc != NO_PIECE && TypeOf(pc) == PAWN)))
  }

  /** What the piece-moving part of makeMove does to the pieces: the
      invariant and the piece part of the hash are kept, the pieces move as
      MovedBoard says, and CapturedBy is recorded. */
  ghost predicate MovedPieces(q: Pos, m: Move, rest: Hash, b: Pos, captured: Cell)
  {
    Consistent(b) && HashSplits(b, rest) &&
    b.board == MovedBoard(q.board, m, q.stm) && captured == CapturedBy(q, m)
  }

  /** What it does to the other fields: the clock and the en-passant square
      follow the rules, and nothing else changes. */
  predicate MovedFields(q: Pos, m: Move, b: Pos)
  {
    var from, to := FromSquare(m), ToSquare(m);
    b.stm == q.stm && b.castling == q.castling && b.fullmoves == q.fullmoves && b.history == q.history &&
    b.halfmoves == (if ResetsClock(q, m) then 0 else q.halfmoves) &&
    b.epSquare == (if MoveType(m) == NORMAL_MOVE && q.board[from] != NO_PIECE &&
                      IsDoublePush(TypeOf(q.board[from]), from, to)
                   then SkippedSquare(from, q.stm) else q.epSquare)
  }

  lemma MoveBoardSpec(q: Pos, m: Move, rest: Hash)
    requires Consistent(q) && Playable(q, m) && HashSplits(q, rest)
    ensures MovedPieces(q, m, rest, MoveBoard(q, m).0, MoveBoard(q, m).1)
    ensures MovedFields(q, m, MoveBoard(q, m).0)
  {
    var mt := MoveType(m);
    if mt == NORMAL_MOVE {
      MoveBoardNormal(q, m, rest);
    } else if mt == PROMOTION {
      MoveBoardPromotion(q, m, rest);
    } else if mt == EN_PASSANT {
      MoveBoardEnPassant(q, m, rest);
    } else {
      MoveBoardCastling(q, m, rest);
    }
    MoveBoardFields(q, m);
  }

  lemma MoveBoardFields(q: Pos, m: Move)
    requires Playable(q, m)
    ensures MovedFields(q, m, MoveBoard(q, m).0)
  {
    var from, to, mt := FromSquare(m), ToSquare(m), MoveType(m);
    if mt == NORMAL_MOVE {
      var pc: Piece := q.board[from];
      var captured := q.board[to];
      var q1 := if captured != NO_PIECE then Remove(q, to).(halfmoves := 0) else q;
      var q2 := if TypeOf(pc) == PAWN then q1.(halfmoves := 0) else q1;
      var q3 := if IsDoublePush(TypeOf(pc), from, to) then q2.(epSquare := SkippedSquare(from, q.stm)) else q2;
      assert MoveBoard(q, m).0 == MovePc(q3, from, to);
    } else if mt == PROMOTION {
    } else if mt == EN_PASSANT {
    } else {
    }
  }

  lemma MoveBoardNormal(q: Pos, m: Move, rest: Hash)
    requires Consistent(q) && Playable(q, m) && HashSplits(q, rest) && MoveType(m) == NORMAL_MOVE
    ensures MovedPieces(q, m, rest, MoveBoard(q, m).0, MoveBoard(q, m).1)
  {
    var from, to := FromSquare(m), ToSquare(m);
    var pc: Piece := q.board[from];
    var captured := q.board[to];
    var q1 := if captured != NO_PIECE then Remove(q, to).(halfmoves := 0) else q;
    RemoveSpec(q, to, rest);
    var q2 := if TypeOf(pc) == PAWN then q1.(halfmoves := 0) else q1;
    var q3 := if IsDoublePush(TypeOf(pc), from, to) then q2.(epSquare := SkippedSquare(from, q.stm)) else q2;
    assert q3.board == q.board[to := NO_PIECE];
    MovePcSpec(q3, from, to, rest);
    var b := MovePc(q3, from, to);
    assert b.board == q.board[to := NO_PIECE][from := NO_PIECE][to := pc];
    assert b.board == q.board[from := NO_PIECE][to := pc];
    assert MoveBoard(q, m) == (b, captured);
  }

  lemma MoveBoardPromotion(q: Pos, m: Move, rest: Hash)
    requires Consistent(q) && Playable(q, m) && HashSplits(q, rest) && MoveType(m) == PROMOTION
    ensures MovedPieces(q, m, rest, MoveBoard(q, m).0, MoveBoard(q, m).1)
  {
    var from, to := FromSquare(m), ToSquare(m);
    var promoted := MakePiece(q.stm, PromotionType(m));
    var q1 := if q.board[to] != NO_PIECE then Remove(q, to) else q;
    RemoveSpec(q, to, rest);
    assert q1.board == q.board[to := NO_PIECE];
    RemoveSpec(q1, from, rest);
    var q2 := Remove(q1, from);
    PutSpec(q2, promoted, to, rest);
    var b := Put(q2, promoted, to).(halfmoves := 0);
    assert b.board == q.board[to := NO_PIECE][from := NO_PIECE][to := promoted];
    assert b.board == q.board[from := NO_PIECE][to := promoted];
    assert MoveBoard(q, m) == (b, q.board[to]);
  }

  lemma MoveBoardEnPassant(q: Pos, m: Move, rest: Hash)
    requires Consistent(q) && Playable(q, m) && HashSplits(q, rest) && MoveType(m) == EN_PASSANT
    ensures MovedPieces(q, m, rest, MoveBoard(q, m).0, MoveBoard(q, m).1)
  {
    var from, to := FromSquare(m), ToSquare(m);
    var victim: Square := VictimSquare(to, q.stm);
    RemoveSpec(q, victim, rest);
    MovePcSpec(Remove(q, victim), from, to, rest);
  }

  lemma MoveBoardCastling(q: Pos, m: Move, rest: Hash)
    requires Consistent(q) && Playable(q, m) && HashSplits(q, rest) && MoveType(m) == CASTLING
    ensures MovedPieces(q, m, rest, MoveBoard(q, m).0, MoveBoard(q, m).1)
  {
    var from, to := FromSquare(m), ToSquare(m);
    var (rookFrom, rookTo) := RookSquares(from, to);
    MovePcSpec(q, from, to, rest);
    MovePcSpec(MovePc(q, from, to), rookFrom, rookTo, rest);
  }

  lemma SymXorEp(a: Hash, b: Hash, ep: SquareOrNone)
    ensures XorEp(Sym(a, b), ep) == Sym(a, XorEp(b, ep))
  {
    if ep != NO_SQUARE {
      SymXor(a, b, EnPassantKey(FileOf(ep)));
    }
  }

  function SideKeys(c: Color): Hash { if c == BLACK then {SideToMoveKey} else {} }

  /** The key algebra of makeMove: taking the old en-passant and castling
      keys out, then putting the new castling and en-passant keys and the side
      key in, turns the state keys of one side to move into those of the other. */
  lemma MakeKeys(pk: Hash, pk2: Hash, h: Hash, stm: Color, cr0: CastlingRights, ep0: SquareOrNone,
                 cr: CastlingRights, ep: SquareOrNone)
    requires h == Sym(pk, SideKeys(stm) + {CastlingKey(cr0)} + EpKeys(ep0))
    ensures Sym(pk, Xor(XorEp(h, ep0), CastlingKey(cr0))) == SideKeys(stm)
    ensures Xor(XorEp(Xor(Sym(pk2, SideKeys(stm)), CastlingKey(cr)), ep), SideToMoveKey) ==
            Sym(pk2, SideKeys(Opp(stm)) + {CastlingKey(cr)} + EpKeys(ep))
  {
    var r := SideKeys(stm) + {CastlingKey(cr0)} + EpKeys(ep0);
    SymXorEp(pk, r, ep0);
    SymXor(pk, XorEp(r, ep0), CastlingKey(cr0));
    assert Xor(XorEp(r, ep0), CastlingKey(cr0)) == SideKeys(stm);
    SymCancel(pk, SideKeys(stm));
    SymXor(pk2, SideKeys(stm), CastlingKey(cr));
    SymXorEp(pk2, Xor(SideKeys(stm), CastlingKey(cr)), ep);
    SymXor(pk2, XorEp(Xor(SideKeys(stm), CastlingKey(cr)), ep), SideToMoveKey);
  }

  /** `makeMove` keeps the mailbox/bitboard invariant, moves the pieces as
      MovedBoard says, and pushes the state it needs to take the move back. */
  lemma MakeMoveSpec(p: Pos, m: Move)
    requires Consistent(p) && Playable(p, m)
    ensures Consistent(ApplyMove(p, m))
    ensures ApplyMove(p, m).board == MovedBoard(p.board, m, p.stm)
    ensures ApplyMove(p, m).history ==
      p.history + [StateInfo(m, CapturedBy(p, m), p.castling, p.epSquare, p.halfmoves, p.hash)]
  {
    var q := MakeStart(p, m);
    MoveBoardSpec(q, m, Sym(PieceKeys(p.board), q.hash));
    assert CapturedBy(q, m) == CapturedBy(p, m);
  }

  /** `makeMove` keeps the hash equal to its from-scratch value. */
  lemma MakeMoveHash(p: Pos, m: Move)
    requires Consistent(p) && Playable(p, m) && HashValid(p)
    ensures HashValid(ApplyMove(p, m))
  {
    var q := MakeStart(p, m);
    var pk := PieceKeys(p.board);
    var rest := Sym(pk, q.hash);
    SymCancel(pk, q.hash);
    MoveBoardSpec(q, m, rest);
    var b := MoveBoard(q, m).0;
    var a := ApplyMove(p, m);
    HashValidSplits(p);
    MakeKeys(pk, PieceKeys(b.board), p.hash, p.stm, p.castling, p.epSquare, a.castling, b.epSquare);
    HashValidSplits(a);
  }

  /** What the piece-moving part of unmakeMove needs: q is the state reached
      by moving p's pieces with m, and st records m and what it took. */
  ghost predicate UnmovePre(p: Pos, m: Move, q: Pos, st: StateInfo, rest: Hash)
  {
    Consistent(p) && Playable(p, m) && Consistent(q) && HashSplits(q, rest) &&
    q.board == MovedBoard(p.board, m, p.stm) && q.stm == p.stm &&
    st.move == m && st.captured == CapturedBy(p, m)
  }

  /** ... and what it achieves: p's pieces are back, the invariant and the
      piece part of the hash are kept, and no other field changes. */
  ghost predicate UnmovePost(p: Pos, q: Pos, st: StateInfo, rest: Hash)
    requires Undoable(q.(history := [st], stm := Opp(q.stm)))
  {
    var u := UnmoveBoard(q, st);
    Consistent(u) && HashSplits(u, rest) && u.board == p.board &&
    u == q.(byType := u.byType, byColor := u.byColor, board := u.board, hash := u.hash)
  }

  lemma UnmoveBoardSpec(p: Pos, m: Move, q: Pos, st: StateInfo, rest: Hash)
    requires UnmovePre(p, m, q, st, rest)
    ensures Undoable(q.(history := [st], stm := Opp(q.stm)))
    ensures UnmovePost(p, q, st, rest)
  {
    var mt := MoveType(m);
    if mt == NORMAL_MOVE {
      UnmoveNormal(p, m, q, st, rest);
    } else if mt == PROMOTION {
      UnmovePromotion(p, m, q, st, rest);
    } else if mt == EN_PASSANT {
      UnmoveEnPassant(p, m, q, st, rest);
    } else {
      UnmoveCastling(p, m, q, st, rest);
    }
  }

  lemma UnmoveNormal(p: Pos, m: Move, q: Pos, st: StateInfo, rest: Hash)
    requires UnmovePre(p, m, q, st, rest) && MoveType(m) == NORMAL_MOVE
    ensures Undoable(q.(history := [st], stm := Opp(q.stm)))
    ensures UnmovePost(p, q, st, rest)
  {
    var from, to := FromSquare(m), ToSquare(m);
    var pc := q.board[to];
    RemoveSpec(q, to, rest);
    PutSpec(Remove(q, to), pc, from, rest);
    var q1 := Put(Remove(q, to), pc, from);
    assert q1.board == p.board[to := NO_PIECE];
    if st.captured != NO_PIECE {
      PutSpec(q1, st.captured, to, rest);
    } else {
      assert q1.board == p.board;
    }
  }

  lemma UnmovePromotion(p: Pos, m: Move, q: Pos, st: StateInfo, rest: Hash)
    requires UnmovePre(p, m, q, st, rest) && MoveType(m) == PROMOTION
    ensures Undoable(q.(history := [st], stm := Opp(q.stm)))
    ensures UnmovePost(p, q, st, rest)
  {
    var from, to := FromSquare(m), ToSquare(m);
    var pawn := MakePiece(q.stm, PAWN);
    PieceDecomposition(p.board[from]);
    assert pawn == p.board[from];
    RemoveSpec(q, to, rest);
    PutSpec(Remove(q, to), pawn, from, rest);
    var q1 := Put(Remove(q, to), pawn, from);
    assert q1.board == p.board[to := NO_PIECE];
    if st.captured != NO_PIECE {
      PutSpec(q1, st.captured, to, rest);
    } else {
      assert q1.board == p.board;
    }
  }

  lemma UnmoveEnPassant(p: Pos, m: Move, q: Pos, st: StateInfo, rest: Hash)
    requires UnmovePre(p, m, q, st, rest) && MoveType(m) == EN_PASSANT
    ensures Undoable(q.(history := [st], stm := Opp(q.stm)))
    ensures UnmovePost(p, q, st, rest)
  {
    var from, to := FromSquare(m), ToSquare(m);
    var victim: Square := VictimSquare(to, p.stm);
    var pc := q.board[to];
    RemoveSpec(q, to, rest);
    PutSpec(Remove(q, to), pc, from, rest);
    var q1 := Put(Remove(q, to), pc, from);
    assert q1.board == p.board[victim := NO_PIECE];
    PutSpec(q1, st.captured, victim, rest);
  }

  lemma UnmoveCastling(p: Pos, m: Move, q: Pos, st: StateInfo, rest: Hash)
    requires UnmovePre(p, m, q, st, rest) && MoveType(m) == CASTLING
    ensures Undoable(q.(history := [st], stm := Opp(q.stm)))
    ensures UnmovePost(p, q, st, rest)
  {
    var from, to := FromSquare(m), ToSquare(m);
    var (rookFrom, rookTo) := RookSquares(from, to);
    CastlingBoards(p.board, from, to, rookFrom, rookTo);
    var king := q.board[to];
    RemoveSpec(q, to, rest);
    PutSpec(Remove(q, to), king, from, rest);
    var q1 := Put(Remove(q, to), king, from);
    var rook := q1.board[rookTo];
    RemoveSpec(q1, rookTo, rest);
    PutSpec(Remove(q1, rookTo), rook, rookFrom, rest);
  }

  /** The mailbox steps of castling and of taking it back. */
  lemma CastlingBoards(b: seq<Cell>, from: Square, to: Square, rookFrom: Square, rookTo: Square)
    requires |b| == 64 && b[to] == NO_PIECE && b[rookTo] == NO_PIECE
    requires from != to && from != rookFrom && from != rookTo && to != rookFrom && to != rookTo && rookFrom != rookTo
    ensures var q := b[from := NO_PIECE][to := b[from]][rookFrom := NO_PIECE][rookTo := b[rookFrom]];
            var q1 := q[to := NO_PIECE][from := q[to]];
            q[to] == b[from] && q1 == b[rookFrom := NO_PIECE][rookTo := b[rookFrom]] &&
            q1[rookTo] == b[rookFrom] && q1[rookTo := NO_PIECE][rookFrom := q1[rookTo]] == b
  {
    var q := b[from := NO_PIECE][to := b[from]][rookFrom := NO_PIECE][rookTo := b[rookFrom]];
    var q1 := q[to := NO_PIECE][from := q[to]];
    assert q1 == b[rookFrom := NO_PIECE][rookTo := b[rookFrom]];
    assert q1[rookTo := NO_PIECE][rookFrom := q1[rookTo]] == b;
  }

  /** Popping the state pushed by `makeMove` restores every field that is
      not a piece placement. */
  lemma UndoStartAfterMake(p: Pos, m: Move)
    requires Consistent(p) && Playable(p, m)
    ensures UndoStart(ApplyMove(p, m)) ==
      p.(byType := ApplyMove(p, m).byType, byColor := ApplyMove(p, m).byColor, board := ApplyMove(p, m).board)
  {
    MakeMoveSpec(p, m);
    MakeMoveRules(p, m);
    OppInvolution(p.stm);
    var a := ApplyMove(p, m);
    assert a.history[..|a.history| - 1] == p.history;
  }

  /** `unmakeMove` after `makeMove` gives back every field but the hash: the
      mailbox, the bitboards, the side to move, the castling mask, the
      en-passant square, both clocks and the history. The hash it leaves is
      the saved hash XORed with the piece keys of the mailbox before and after
      the pieces are moved back. */
  lemma MakeUnmakeRoundTrip(p: Pos, m: Move)
    requires Consistent(p) && Playable(p, m)
    ensures Undoable(ApplyMove(p, m))
    ensures Consistent(UndoMove(ApplyMove(p, m)))
    ensures UndoMove(ApplyMove(p, m)) == p.(hash := UndoMove(ApplyMove(p, m)).hash)
    ensures UndoMove(ApplyMove(p, m)).hash ==
            Sym(PieceKeys(p.board), Sym(PieceKeys(ApplyMove(p, m).board), p.hash))
  {
    var a := ApplyMove(p, m);
    MakeMoveSpec(p, m);
    UndoStartAfterMake(p, m);
    var q := UndoStart(a);
    var st := a.history[|a.history| - 1];
    var rest := Sym(PieceKeys(a.board), p.hash);
    SymCancel(PieceKeys(a.board), p.hash);
    assert UnmovePre(p, m, q, st, rest);
    UnmoveBoardSpec(p, m, q, st, rest);
    var u := UnmoveBoard(q, st);
    BitboardsDetermined(u, p);
  }

  lemma SymTwoKeys(a: Hash, b: Hash, h: Hash, k1: ZobristKey, k2: ZobristKey)
    requires k1 in a && k2 !in a && k1 != k2 && b == a - {k1} + {k2}
    ensures Sym(a, Sym(b, h)) == Xor(Xor(h, k1), k2) != h
  {
  }

  /** The finding in `unmakeMove`: after a quiet move the hash comes back with
      the moved piece's keys on both squares XORed in, so it differs from the
      hash before the move (for 64-bit keys, whenever those two keys differ). */
  lemma UnmakeMoveKeepsMovedKeys(p: Pos, m: Move)
    requires Consistent(p) && Playable(p, m)
    requires MoveType(m) == NORMAL_MOVE && p.board[ToSquare(m)] == NO_PIECE
    ensures UndoMove(ApplyMove(p, m)).hash ==
            Xor(Xor(p.hash, PsqKey(p.board[FromSquare(m)], FromSquare(m))),
                PsqKey(p.board[FromSquare(m)], ToSquare(m)))
    ensures UndoMove(ApplyMove(p, m)).hash != p.hash
  {
    var from, to := FromSquare(m), ToSquare(m);
    var pc := p.board[from];
    MakeUnmakeRoundTrip(p, m);
    MakeMoveSpec(p, m);
    var mid := p.board[from := NO_PIECE];
    PieceKeysUpdate(p.board, from, NO_PIECE);
    PieceKeysUpdate(mid, to, pc);
    assert ApplyMove(p, m).board == mid[to := pc];
    assert mid[to] == NO_PIECE;
    SymTwoKeys(PieceKeys(p.board), PieceKeys(ApplyMove(p, m).board), p.hash, PsqKey(pc, from), PsqKey(pc, to));
  }

  /** The evidently intended `unmakeMove`, which restores the saved hash after
      the pieces are back, returns the position before the move exactly. */
  lemma MakeUnmakeRestoresAll(p: Pos, m: Move)
    requires Consistent(p) && Playable(p, m)
    ensures Undoable(ApplyMove(p, m))
    ensures UndoMoveRestoringHash(ApplyMove(p, m)) == p
  {
    MakeUnmakeRoundTrip(p, m);
    MakeMoveSpec(p, m);
  }

  /** The rules `makeMove` follows for the other fields: the side to move
      flips, the fullmove number rises after a Black move, the halfmove clock
      resets on a capture or pawn move and otherwise counts up, the en-passant
      square is the skipped square after a double push and empty otherwise,
      and the castling mask only loses rights: both of the mover's after a
      king move, and a corner's right when a rook moves or a capture is made
      from or to that corner. */
  lemma MakeMoveRules(p: Pos, m: Move)
    requires Playable(p, m)
    ensures ApplyMove(p, m).stm == Opp(p.stm)
    ensures ApplyMove(p, m).fullmoves == p.fullmoves + (if p.stm == BLACK then 1 else 0)
    ensures ApplyMove(p, m).halfmoves == if ResetsClock(p, m) then 0 else p.halfmoves + 1
    ensures ApplyMove(p, m).epSquare ==
      if MoveType(m) == NORMAL_MOVE && IsDoublePush(TypeOf(p.board[FromSquare(m)]), FromSquare(m), ToSquare(m))
      then SkippedSquare(FromSquare(m), p.stm) else NO_SQUARE
    ensures ApplyMove(p, m).castling ==
      NewRights(p.castling, TypeOf(p.board[FromSquare(m)]), p.stm, FromSquare(m), ToSquare(m), CapturedBy(p, m))
    ensures ApplyMove(p, m).castling & !p.castling == 0
    ensures TypeOf(p.board[FromSquare(m)]) == KING ==>
      ApplyMove(p, m).castling & (if p.stm == WHITE then WHITE_OO | WHITE_OOO else BLACK_OO | BLACK_OOO) == 0
    ensures CornerRule(ApplyMove(p, m).castling, TypeOf(p.board[FromSquare(m)]), CapturedBy(p, m), FromSquare(m), ToSquare(m))
  {
    var q := MakeStart(p, m);
    MoveBoardFields(q, m);
    assert CapturedBy(q, m) == CapturedBy(p, m);
    assert ResetsClock(q, m) == ResetsClock(p, m);
    RightsRules(p.castling, TypeOf(p.board[FromSquare(m)]), p.stm, FromSquare(m), ToSquare(m), CapturedBy(p, m));
  }

  /** A rook move or a capture from or to a corner clears that corner's right. */
  predicate CornerRule(cr: CastlingRights, pt: PieceType, captured: Cell, from: Square, to: Square)
  {
    (pt == ROOK || captured != NO_PIECE) ==>
      ((from == A1 || to == A1) ==> cr & WHITE_OOO == 0) &&
      ((from == H1 || to == H1) ==> cr & WHITE_OO == 0) &&
      ((from == A8 || to == A8) ==> cr & BLACK_OOO == 0) &&
      ((from == H8 || to == H8) ==> cr & BLACK_OO == 0)
  }

  lemma RightsRules(cr: CastlingRights, pt: PieceType, us: Color, from: Square, to: Square, captured: Cell)
    ensures NewRights(cr, pt, us, from, to, captured) & !cr == 0
    ensures pt == KING ==>
      NewRights(cr, pt, us, from, to, captured) & (if us == WHITE then WHITE_OO | WHITE_OOO else BLACK_OO | BLACK_OOO) == 0
    ensures CornerRule(NewRights(cr, pt, us, from, to, captured), pt, captured, from, to)
  {
  }

  // ---------------------------------------------------------------- null moves

  /** `makeNullMove` (src/Position.cpp:403-427). */
  function ApplyNull(p: Pos): Pos
  {
    p.(history := p.history + [StateInfo(0, NO_PIECE, p.castling, p.epSquare, p.halfmoves, p.hash)],
       hash := Xor(XorEp(p.hash, p.epSquare), SideToMoveKey),
       epSquare := NO_SQUARE,
       stm := Opp(p.stm),
       halfmoves := p.halfmoves + 1,
       fullmoves := if Opp(p.stm) == WHITE then p.fullmoves + 1 else p.fullmoves)
  }

  /** `unmakeNullMove` (src/Position.cpp:429-444): the same restoring steps as
      the start of `unmakeMove`; a no-op on an empty history. */
  function UndoNull(p: Pos): Pos
  {
    if |p.history| == 0 then p else UndoStart(p)
  }

  /** A null move keeps the pieces and the from-scratch hash, passes the move,
      and `unmakeNullMove` takes it back exactly, hash included. */
  lemma NullMoveSpec(p: Pos)
    ensures ApplyNull(p).board == p.board && ApplyNull(p).stm == Opp(p.stm)
    ensures Consistent(p) ==> Consistent(ApplyNull(p))
    ensures HashValid(p) ==> HashValid(ApplyNull(p))
    ensures UndoNull(ApplyNull(p)) == p
  {
    var a := ApplyNull(p);
    OppInvolution(p.stm);
    assert a.history[..|a.history| - 1] == p.history;
    if HashValid(p) {
      var pk := PieceKeys(p.board);
      HashValidSplits(p);
      SymXorEp(pk, StateKeys(p), p.epSquare);
      SymXor(pk, XorEp(StateKeys(p), p.epSquare), SideToMoveKey);
      assert Xor(XorEp(StateKeys(p), p.epSquare), SideToMoveKey) == StateKeys(a);
      HashValidSplits(a);
    }
  }

  /** Both unmake operations leave a position with an empty history alone. */
  lemma UnmakeOnEmptyHistory(p: Pos)
    requires |p.history| == 0
    ensures Undoable(p) && UndoMove(p) == p && UndoNull(p) == p
  {
  }

  // ---------------------------------------------------------------- clear

  /** `clear` (src/Position.cpp:16-28): no pieces, White to move, no rights,
      no en-passant square, clocks 0 and 1, hash 0, empty history. */
  function Cleared(): (p: Pos)
    ensures Consistent(p) && HashSplits(p, {})
  {
    var p: Pos := PositionState(seq(6, _ => EMPTY), seq(2, _ => EMPTY), seq(64, _ => NO_PIECE),
                                WHITE, NO_CASTLING, NO_SQUARE, 0, 1, {}, []);
    assert PieceKeys(p.board) == {};
    p
  }
}

/** Move generation (src/MoveGen.cpp): pseudo-legal moves per piece, the
    legality filter that makes and unmakes each move, captures, and perft.

    The generators only read the pieces, the side to move, the castling mask
    and the en-passant square. The specification is therefore written on a
    `Board`, a position whose hash, history and clocks are fixed, and the
    object's state is compared through `View`. This matters because the
    legality test makes and unmakes every move, and `unmakeMove` does not give
    the hash back (see Positions.UnmakeMoveKeepsMovedKeys): after the filter
    the object differs from the position before it in the hash alone, which
    no generator reads. */
module MoveGen {
  import opened Types
  import opened Bitboard
  import opened AttackTables
  import opened Magic
  import opened Positions
  import opened Attacks
  import opened PositionClass

  // ---------------------------------------------------------------- what generation reads

  /** A position with its hash, history and clocks at fixed values. */
  type Board = p: Pos | p.hash == {} && p.history == [] && p.halfmoves == 0 && p.fullmoves == 1
    witness PositionState(seq(6, _ => {}), seq(2, _ => {}), seq(64, _ => NO_PIECE),
                          WHITE, NO_CASTLING, NO_SQUARE, 0, 1, {}, [])

  /** The part of a position that move generation reads. */
  function View(p: Pos): (b: Board)
    ensures b.byType == p.byType && b.byColor == p.byColor && b.board == p.board
    ensures b.stm == p.stm && b.castling == p.castling && b.epSquare == p.epSquare
  {
    p.(hash := {}, history := [], halfmoves := 0, fullmoves := 1)
  }

  /** The board after a move. */
  function Play(b: Board, m: Move): Board
    requires Playable(b, m)
  {
    View(ApplyMove(b, m))
  }

  /** Making a move commutes with forgetting the hash, the history and the
      clocks: the board after the move does not depend on them. */
  lemma PlayView(p: Pos, m: Move)
    requires Consistent(p) && Playable(p, m)
    ensures Consistent(View(p)) && Playable(View(p), m)
    ensures View(ApplyMove(p, m)) == Play(View(p), m)
  {
    var v := View(p);
    assert Playable(v, m);
    MakeMoveSpec(p, m);
    MakeMoveSpec(v, m);
    MakeMoveRules(p, m);
    MakeMoveRules(v, m);
    assert CapturedBy(v, m) == CapturedBy(p, m);
    BitboardsDetermined(ApplyMove(p, m), ApplyMove(v, m));
  }

  /** Attacks read the pieces alone. */
  lemma AttackedByView(p: Pos, sq: Square, attacker: Color)
    ensures IsAttacked(p, sq, attacker) == IsAttacked(View(p), sq, attacker)
  {
  }

  /** After a move, `unmakeMove` overwrites the hash before reading it, so
      the hash it starts from makes no difference. */
  lemma UndoIgnoresHash(p: Pos, h: Hash)
    requires Undoable(p) && |p.history| > 0
    ensures Undoable(p.(hash := h)) && UndoMove(p.(hash := h)) == UndoMove(p)
  {
    assert UndoStart(p.(hash := h)) == UndoStart(p);
  }

  // ---------------------------------------------------------------- pawns

  /** `Up`: one rank forward for the side to move. */
  function Up(us: Color): int { 8 * Forward(us) }

  function PromotionRank(us: Color): Coord { if us == WHITE then RANK_7 else RANK_2 }

  function StartRank(us: Color): Coord { if us == WHITE then RANK_2 else RANK_7 }

  /** The rank a pawn of colour `us` can never leave forwards. */
  function LastRank(us: Color): Coord { if us == WHITE then RANK_8 else RANK_1 }

  /** The four promotions in the order the source pushes them. */
  function Promotions(from: Square, to: Square): seq<Move>
  {
    [MakePromotion(from, to, QUEEN), MakePromotion(from, to, ROOK),
     MakePromotion(from, to, BISHOP), MakePromotion(from, to, KNIGHT)]
  }

  /** The moves a pawn makes to one square: four promotions from the
      promotion rank, one plain move otherwise. */
  function PawnTo(from: Square, to: Square, promote: bool): seq<Move>
  {
    if promote then Promotions(from, to) else [MakeMove(from, to)]
  }

  /** The capture loop: the targets in increasing order of square. */
  function PawnCaptures(from: Square, targets: Bitboard, promote: bool): seq<Move>
    decreases |targets|
  {
    if targets == {} then []
    else
      var to := Lsb(targets);
      PawnTo(from, to, promote) + PawnCaptures(from, targets - {to}, promote)
  }

  /** The single push, as four promotions or one move followed by the double
      push from the start rank (src/MoveGen.cpp:21-40). */
  function PawnPushes(b: Board, from: Square): seq<Move>
    requires RankOf(from) != LastRank(b.stm)
  {
    var us := b.stm;
    var to: Square := from + Up(us);
    if to in Occupied(b) then []
    else if RankOf(from) == PromotionRank(us) then Promotions(from, to)
    else if RankOf(from) == StartRank(us) && from + 2 * Up(us) !in Occupied(b) then
      [MakeMove(from, to), MakeMove(from, from + 2 * Up(us))]
    else [MakeMove(from, to)]
  }

  /** The en-passant capture (src/MoveGen.cpp:58-63). */
  function EnPassantMoves(b: Board, from: Square): seq<Move>
  {
    if b.epSquare != NO_SQUARE && b.epSquare in PawnTargets(b.stm, from) then [MakeEnPassant(from, b.epSquare)]
    else []
  }

  /** `generatePawnMoves` for the pawn on `from` (src/MoveGen.cpp:11-64). */
  function PawnMoves(b: Board, from: Square): seq<Move>
    requires RankOf(from) != LastRank(b.stm)
  {
    PawnPushes(b, from) +
    PawnCaptures(from, PawnTargets(b.stm, from) * PiecesOf(b, Opp(b.stm)), RankOf(from) == PromotionRank(b.stm)) +
    EnPassantMoves(b, from)
  }

  /** The pawn loop of `generatePseudoLegalMoves`: pawns in increasing order
      of square. */
  function AllPawnMoves(b: Board, pawns: Bitboard): seq<Move>
    requires forall sq :: sq in pawns ==> RankOf(sq) != LastRank(b.stm)
    decreases |pawns|
  {
    if pawns == {} then []
    else
      var from := Lsb(pawns);
      PawnMoves(b, from) + AllPawnMoves(b, pawns - {from})
  }

  // ---------------------------------------------------------------- pieces

  /** The inner loop of `generatePieceMoves`: one move to each target, in
      increasing order of square. */
  function TargetMoves(from: Square, targets: Bitboard): seq<Move>
    decreases |targets|
  {
    if targets == {} then []
    else
      var to := Lsb(targets);
      [MakeMove(from, to)] + TargetMoves(from, targets - {to})
  }

  /** `generatePieceMoves<pt>` (src/MoveGen.cpp:67-97): every square the
      piece attacks that holds no piece of the side to move. */
  function PieceMoves(b: Board, pt: PieceType, pieces: Bitboard): seq<Move>
    decreases |pieces|
  {
    if pieces == {} then []
    else
      var from := Lsb(pieces);
      TargetMoves(from, PieceAttacks(pt, b.stm, from, Occupied(b)) - PiecesOf(b, b.stm)) +
      PieceMoves(b, pt, pieces - {from})
  }

  // ---------------------------------------------------------------- castling

  /** The squares of one side's castling, on its back rank: the king's square,
      and the f-, g-, d-, c- and b-file squares. */
  function CastlingSquares(us: Color): (Square, Square, Square, Square, Square, Square)
  {
    if us == WHITE then (E1, F1, G1, D1, C1, B1) else (E8, F8, G8, D8, C8, B8)
  }

  /** Kingside castling is allowed: the right is held, f and g are empty, and
      none of e, f, g is attacked. */
  predicate CanCastleShort(b: Board)
  {
    var (e, f, g, d, c, bq) := CastlingSquares(b.stm);
    var them := Opp(b.stm);
    b.castling & (if b.stm == WHITE then WHITE_OO else BLACK_OO) != 0 &&
    f !in Occupied(b) && g !in Occupied(b) &&
    !IsAttacked(b, e, them) && !IsAttacked(b, f, them) && !IsAttacked(b, g, them)
  }

  /** Queenside castling is allowed: the right is held, b, c and d are empty,
      and none of e, d, c is attacked. */
  predicate CanCastleLong(b: Board)
  {
    var (e, f, g, d, c, bq) := CastlingSquares(b.stm);
    var them := Opp(b.stm);
    b.castling & (if b.stm == WHITE then WHITE_OOO else BLACK_OOO) != 0 &&
    bq !in Occupied(b) && c !in Occupied(b) && d !in Occupied(b) &&
    !IsAttacked(b, e, them) && !IsAttacked(b, d, them) && !IsAttacked(b, c, them)
  }

  /** `generateCastling` (src/MoveGen.cpp:100-142): nothing while in check,
      then kingside before queenside. */
  function CastlingMoves(b: Board): seq<Move>
    requires Pieces(b, b.stm, KING) != {}
  {
    var (e, f, g, d, c, bq) := CastlingSquares(b.stm);
    if InCheck(b) then []
    else
      (if CanCastleShort(b) then [MakeCastling(e, g)] else []) +
      (if CanCastleLong(b) then [MakeCastling(e, c)] else [])
  }

  // ---------------------------------------------------------------- all pseudo-legal moves

  /** What the generator needs of the position to stay defined: a king of
      the side to move for `inCheck`'s `lsb`, and no pawn of the side to move
      on its last rank, whose push square would be off the board. */
  predicate Generable(b: Board)
  {
    Pieces(b, b.stm, KING) != {} &&
    forall sq :: sq in Pieces(b, b.stm, PAWN) ==> RankOf(sq) != LastRank(b.stm)
  }

  /** `generatePseudoLegalMoves` (src/MoveGen.cpp:144-188): pawns, knights,
      bishops, rooks, queens, king, castling. */
  function PseudoLegal(b: Board): seq<Move>
    requires Generable(b)
  {
    var us := b.stm;
    AllPawnMoves(b, Pieces(b, us, PAWN)) +
    PieceMoves(b, KNIGHT, Pieces(b, us, KNIGHT)) +
    PieceMoves(b, BISHOP, Pieces(b, us, BISHOP)) +
    PieceMoves(b, ROOK, Pieces(b, us, ROOK)) +
    PieceMoves(b, QUEEN, Pieces(b, us, QUEEN)) +
    PieceMoves(b, KING, Pieces(b, us, KING)) +
    CastlingMoves(b)
  }

  // ---------------------------------------------------------------- what is generated

  /** The pawn moves from `FromSquare(m)` the generator makes: a push to the
      empty square ahead, a double push from the start rank over two empty
      squares, a capture of an enemy piece on an attacked square (four
      promotions of each from the promotion rank, with any promotion piece),
      or the en-passant capture onto the attacked en-passant square. */
  predicate PawnShape(b: Board, m: Move)
  {
    var from, to, mt, us := FromSquare(m), ToSquare(m), MoveType(m), b.stm;
    RankOf(from) != LastRank(us) &&
    var push := to == from + Up(us) && to !in Occupied(b);
    var double := RankOf(from) == StartRank(us) && from + Up(us) !in Occupied(b) &&
                  to == from + 2 * Up(us) && to !in Occupied(b);
    var capture := to in PawnTargets(us, from) && to in PiecesOf(b, Opp(us));
    (mt == NORMAL_MOVE && m == MakeMove(from, to) && RankOf(from) != PromotionRank(us) && (push || double || capture)) ||
    (mt == PROMOTION && RankOf(from) == PromotionRank(us) && (push || capture)) ||
    (mt == EN_PASSANT && m == MakeEnPassant(from, to) && to == b.epSquare && to in PawnTargets(us, from))
  }

  /** A plain move of a piece of type pt from `FromSquare(m)` to a square it
      attacks that holds no piece of the side to move. */
  predicate PieceShape(b: Board, pt: PieceType, m: Move)
  {
    var from, to := FromSquare(m), ToSquare(m);
    m == MakeMove(from, to) && to in PieceAttacks(pt, b.stm, from, Occupied(b)) && to !in PiecesOf(b, b.stm)
  }

  /** A castling move: never in check, and only to the g- or c-file square of
      the back rank with the conditions of that side. */
  predicate CastlingShape(b: Board, m: Move)
    requires Pieces(b, b.stm, KING) != {}
  {
    var (e, f, g, d, c, bq) := CastlingSquares(b.stm);
    !InCheck(b) && ((m == MakeCastling(e, g) && CanCastleShort(b)) || (m == MakeCastling(e, c) && CanCastleLong(b)))
  }

  /** The moves the generator makes, described move by move. */
  predicate Generated(b: Board, m: Move)
    requires Pieces(b, b.stm, KING) != {}
  {
    var from, us := FromSquare(m), b.stm;
    (from in Pieces(b, us, PAWN) && PawnShape(b, m)) ||
    (from in Pieces(b, us, KNIGHT) && PieceShape(b, KNIGHT, m)) ||
    (from in Pieces(b, us, BISHOP) && PieceShape(b, BISHOP, m)) ||
    (from in Pieces(b, us, ROOK) && PieceShape(b, ROOK, m)) ||
    (from in Pieces(b, us, QUEEN) && PieceShape(b, QUEEN, m)) ||
    (from in Pieces(b, us, KING) && PieceShape(b, KING, m)) ||
    CastlingShape(b, m)
  }

  /** Every move with the promotion flag and the given squares is one of the
      four promotions. */
  lemma PromotionsIff(from: Square, to: Square, m: Move)
    ensures m in Promotions(from, to) <==>
      FromSquare(m) == from && ToSquare(m) == to && MoveType(m) == PROMOTION
  {
    if FromSquare(m) == from && ToSquare(m) == to && MoveType(m) == PROMOTION {
      MoveFieldsDetermine(m, MakePromotion(from, to, PromotionType(m)));
    }
  }

  lemma PawnToIff(from: Square, to: Square, promote: bool, m: Move)
    ensures m in PawnTo(from, to, promote) <==>
      FromSquare(m) == from && ToSquare(m) == to &&
      (if promote then MoveType(m) == PROMOTION else m == MakeMove(from, to))
  {
    PromotionsIff(from, to, m);
  }

  lemma {:induction false} PawnCapturesIff(from: Square, targets: Bitboard, promote: bool, m: Move)
    ensures m in PawnCaptures(from, targets, promote) <==>
      FromSquare(m) == from && ToSquare(m) in targets &&
      (if promote then MoveType(m) == PROMOTION else m == MakeMove(from, ToSquare(m)))
    decreases |targets|
  {
    if targets != {} {
      var to := Lsb(targets);
      PawnToIff(from, to, promote, m);
      PawnCapturesIff(from, targets - {to}, promote, m);
    }
  }

  /** The pushes: a single push to the empty square ahead (as promotions from
      the promotion rank) and the double push from the start rank. */
  lemma PawnPushesIff(b: Board, from: Square, m: Move)
    requires RankOf(from) != LastRank(b.stm)
    ensures m in PawnPushes(b, from) <==>
      var to, mt, us := ToSquare(m), MoveType(m), b.stm;
      FromSquare(m) == from &&
      var push := to == from + Up(us) && to !in Occupied(b);
      var double := RankOf(from) == StartRank(us) && from + Up(us) !in Occupied(b) &&
                    to == from + 2 * Up(us) && to !in Occupied(b);
      (mt == NORMAL_MOVE && m == MakeMove(from, to) && RankOf(from) != PromotionRank(us) && (push || double)) ||
      (mt == PROMOTION && RankOf(from) == PromotionRank(us) && push)
  {
    PromotionsIff(from, from + Up(b.stm), m);
    MoveFlagsDistinct();
  }

  lemma PawnMovesIff(b: Board, from: Square, m: Move)
    requires RankOf(from) != LastRank(b.stm)
    ensures m in PawnMoves(b, from) <==> FromSquare(m) == from && PawnShape(b, m)
  {
    var us := b.stm;
    var promote := RankOf(from) == PromotionRank(us);
    PawnCapturesIff(from, PawnTargets(us, from) * PiecesOf(b, Opp(us)), promote, m);
    PawnPushesIff(b, from, m);
    MoveFlagsDistinct();
  }

  lemma {:induction false} AllPawnMovesIff(b: Board, pawns: Bitboard, m: Move)
    requires forall sq :: sq in pawns ==> RankOf(sq) != LastRank(b.stm)
    ensures m in AllPawnMoves(b, pawns) <==> FromSquare(m) in pawns && PawnShape(b, m)
    decreases |pawns|
  {
    if pawns != {} {
      var from := Lsb(pawns);
      PawnMovesIff(b, from, m);
      AllPawnMovesIff(b, pawns - {from}, m);
    }
  }

  lemma {:induction false} TargetMovesIff(from: Square, targets: Bitboard, m: Move)
    ensures m in TargetMoves(from, targets) <==> m == MakeMove(from, ToSquare(m)) && ToSquare(m) in targets
    decreases |targets|
  {
    if targets != {} {
      TargetMovesIff(from, targets - {Lsb(targets)}, m);
    }
  }

  lemma {:induction false} PieceMovesIff(b: Board, pt: PieceType, pieces: Bitboard, m: Move)
    ensures m in PieceMoves(b, pt, pieces) <==> FromSquare(m) in pieces && PieceShape(b, pt, m)
    decreases |pieces|
  {
    if pieces != {} {
      var from := Lsb(pieces);
      TargetMovesIff(from, PieceAttacks(pt, b.stm, from, Occupied(b)) - PiecesOf(b, b.stm), m);
      PieceMovesIff(b, pt, pieces - {from}, m);
    }
  }

  /** The generator makes exactly the moves `Generated` describes: pawn
      captures land only on enemy pieces, piece moves never on the mover's own
      pieces, a double push needs the start rank and two empty squares,
      en passant needs the en-passant square to be set and attacked, each
      promotion comes in all four pieces, and castling needs the right, the
      empty squares, three unattacked squares and no check. */
  lemma PseudoLegalIff(b: Board, m: Move)
    requires Generable(b)
    ensures m in PseudoLegal(b) <==> Generated(b, m)
  {
    var us := b.stm;
    var pawns := AllPawnMoves(b, Pieces(b, us, PAWN));
    var knights := PieceMoves(b, KNIGHT, Pieces(b, us, KNIGHT));
    var bishops := PieceMoves(b, BISHOP, Pieces(b, us, BISHOP));
    var rooks := PieceMoves(b, ROOK, Pieces(b, us, ROOK));
    var queens := PieceMoves(b, QUEEN, Pieces(b, us, QUEEN));
    var kings := PieceMoves(b, KING, Pieces(b, us, KING));
    var castles := CastlingMoves(b);
    assert PseudoLegal(b) == pawns + knights + bishops + rooks + queens + kings + castles;
    InAppend(pawns, knights, m);
    InAppend(pawns + knights, bishops, m);
    InAppend(pawns + knights + bishops, rooks, m);
    InAppend(pawns + knights + bishops + rooks, queens, m);
    InAppend(pawns + knights + bishops + rooks + queens, kings, m);
    InAppend(pawns + knights + bishops + rooks + queens + kings, castles, m);
    AllPawnMovesIff(b, Pieces(b, us, PAWN), m);
    PieceMovesIff(b, KNIGHT, Pieces(b, us, KNIGHT), m);
    PieceMovesIff(b, BISHOP, Pieces(b, us, BISHOP), m);
    PieceMovesIff(b, ROOK, Pieces(b, us, ROOK), m);
    PieceMovesIff(b, QUEEN, Pieces(b, us, QUEEN), m);
    PieceMovesIff(b, KING, Pieces(b, us, KING), m);
    CastlingMovesIff(b, m);
  }

  lemma InAppend(xs: seq<Move>, ys: seq<Move>, m: Move)
    ensures m in xs + ys <==> m in xs || m in ys
  {
  }

  /** The castling moves are the two castlings whose conditions hold, and
      none while in check. */
  lemma CastlingMovesIff(b: Board, m: Move)
    requires Pieces(b, b.stm, KING) != {}
    ensures m in CastlingMoves(b) <==> CastlingShape(b, m)
  {
  }

  // ---------------------------------------------------------------- legality

  /** What `isLegal` needs to stay defined: `makeMove` can play the move, and
      the mover still has a king for `lsb` afterwards. */
  predicate Testable(b: Board, m: Move)
  {
    Playable(b, m) && Pieces(ApplyMove(b, m), b.stm, KING) != {}
  }

  /** `isLegal` (src/MoveGen.cpp:190-202): after the move, the mover's king
      (the lowest one) is not attacked by the side then to move. Where the
      source's test is undefined the move counts as illegal; the generators
      are only specified on boards where that does not happen. */
  predicate Legal(b: Board, m: Move)
  {
    Testable(b, m) &&
    var a := ApplyMove(b, m);
    !IsAttacked(a, Lsb(Pieces(a, b.stm, KING)), a.stm)
  }

  /** What the legal-move generator needs: the invariant, a generable board,
      and a legality test that stays defined on every pseudo-legal move. */
  ghost predicate Ready(b: Board)
  {
    Consistent(b) && Generable(b) && forall m :: m in PseudoLegal(b) ==> Testable(b, m)
  }

  /** The legality filter over a list of moves, keeping their order. */
  function LegalAmong(b: Board, moves: seq<Move>): seq<Move>
  {
    if moves == [] then []
    else
      var last := moves[|moves| - 1];
      LegalAmong(b, moves[..|moves| - 1]) + (if Legal(b, last) then [last] else [])
  }

  /** `generateLegalMoves` (src/MoveGen.cpp:204-216). */
  function LegalMoves(b: Board): seq<Move>
    requires Ready(b)
  {
    LegalAmong(b, PseudoLegal(b))
  }

  /** A capture as `generateCaptures` sees it: the target square is occupied,
      or the move is en passant. */
  predicate IsCapture(b: Board, m: Move)
  {
    b.board[ToSquare(m)] != NO_PIECE || MoveType(m) == EN_PASSANT
  }

  /** The capture filter, keeping the order. */
  function CapturesAmong(b: Board, moves: seq<Move>): seq<Move>
  {
    if moves == [] then []
    else
      var last := moves[|moves| - 1];
      CapturesAmong(b, moves[..|moves| - 1]) + (if IsCapture(b, last) && Legal(b, last) then [last] else [])
  }

  /** `generateCaptures` (src/MoveGen.cpp:218-234). */
  function Captures(b: Board): seq<Move>
    requires Ready(b)
  {
    CapturesAmong(b, PseudoLegal(b))
  }

  /** The filter keeps exactly the legal moves of the list, and no more than
      the list holds. */
  lemma {:induction false} LegalAmongIff(b: Board, moves: seq<Move>, m: Move)
    ensures m in LegalAmong(b, moves) <==> m in moves && Legal(b, m)
    ensures |LegalAmong(b, moves)| <= |moves|
  {
    if moves != [] {
      var front := moves[..|moves| - 1];
      LegalAmongIff(b, front, m);
      assert m in moves <==> m in front || m == moves[|moves| - 1];
    }
  }

  lemma {:induction false} CapturesAmongIff(b: Board, moves: seq<Move>, m: Move)
    ensures m in CapturesAmong(b, moves) <==> m in moves && IsCapture(b, m) && Legal(b, m)
  {
    if moves != [] {
      var front := moves[..|moves| - 1];
      CapturesAmongIff(b, front, m);
      assert m in moves <==> m in front || m == moves[|moves| - 1];
    }
  }

  /** The legal moves are the pseudo-legal moves that pass `isLegal`. */
  lemma LegalMovesIff(b: Board, m: Move)
    requires Ready(b)
    ensures m in LegalMoves(b) <==> Generated(b, m) && Testable(b, m) && Legal(b, m)
  {
    LegalAmongIff(b, PseudoLegal(b), m);
    PseudoLegalIff(b, m);
  }

  /** Every capture is a legal move that lands on an occupied square or is en
      passant, and every such legal move is a capture. */
  lemma CapturesIff(b: Board, m: Move)
    requires Ready(b)
    ensures m in Captures(b) <==> m in LegalMoves(b) && IsCapture(b, m)
  {
    LegalAmongIff(b, PseudoLegal(b), m);
    CapturesAmongIff(b, PseudoLegal(b), m);
  }

  // ---------------------------------------------------------------- perft

  /** The legality test stays defined down to `depth` plies. */
  ghost predicate PerftReady(b: Board, depth: nat)
    decreases depth
  {
    depth == 0 ||
    (Ready(b) &&
     (depth == 1 ||
      forall m :: m in LegalMoves(b) ==>
        (LegalAmongIff(b, PseudoLegal(b), m); PerftReady(Play(b, m), depth - 1))))
  }

  /** Every move of the list can be played and leads to a board ready to
      `depth` plies. */
  ghost predicate ChildrenPlayable(b: Board, moves: seq<Move>, depth: nat)
  {
    forall i :: 0 <= i < |moves| ==> Testable(b, moves[i]) && PerftReady(Play(b, moves[i]), depth)
  }

  /** Below a board ready to `depth` >= 2, every legal move can be played
      and the board it leads to is ready one ply less deep. */
  lemma ChildrenReady(b: Board, depth: nat)
    requires depth >= 2 && PerftReady(b, depth)
    ensures Ready(b)
    ensures ChildrenPlayable(b, LegalMoves(b), depth - 1)
  {
    forall i | 0 <= i < |LegalMoves(b)|
      ensures Testable(b, LegalMoves(b)[i]) && PerftReady(Play(b, LegalMoves(b)[i]), depth - 1)
    {
      LegalAmongIff(b, PseudoLegal(b), LegalMoves(b)[i]);
    }
  }

  /** `perft` (src/MoveGen.cpp:236-251): 1 at depth 0, the number of legal
      moves at depth 1, and otherwise the sum over the legal moves of the
      count one ply further down. */
  function PerftValue(b: Board, depth: nat): nat
    requires PerftReady(b, depth)
    decreases depth, 0
  {
    if depth == 0 then 1
    else if depth == 1 then |LegalMoves(b)|
    else
      ChildrenReady(b, depth);
      ChildNodes(b, LegalMoves(b), depth - 1)
  }

  /** The counts below each of `moves`, added up. */
  function ChildNodes(b: Board, moves: seq<Move>, depth: nat): nat
    requires ChildrenPlayable(b, moves, depth)
    decreases depth, |moves| + 1
  {
    if moves == [] then 0
    else
      var n := |moves| - 1;
      assert Testable(b, moves[n]);
      ChildNodes(b, moves[..n], depth) + PerftValue(Play(b, moves[n]), depth)
  }

  // ---------------------------------------------------------------- the generators on the object

  /** `generatePawnMoves<Us>` (src/MoveGen.cpp:11-64) for the pawn on `from`,
      appending to `moves`. */
  method GeneratePawnMoves(pos: Position, moves: seq<Move>, from: Square) returns (out: seq<Move>)
    requires pos.Valid() && RankOf(from) != LastRank(pos.stm)
    ensures out == moves + PawnMoves(View(pos.State()), from)
  {
    var b := View(pos.State());
    var us := b.stm;
    var them := Opp(us);
    out := AddPawnPushes(b, moves, from);

    var attacks := PawnTargets(us, from);
    ghost var pushed := out;
    var promote := RankOf(from) == PromotionRank(us);
    out := AddPawnCaptures(out, from, attacks * b.byColor[them], promote);
    AppendStep(moves, PawnPushes(b, from), PawnCaptures(from, attacks * b.byColor[them], promote));

    var epSq := b.epSquare;
    ghost var captured := out;
    if epSq != NO_SQUARE && epSq in attacks {
      out := out + [MakeEnPassant(from, epSq)];
    }
    assert out == captured + EnPassantMoves(b, from);
    AppendStep(moves, PawnPushes(b, from) + PawnCaptures(from, attacks * b.byColor[them], promote),
               EnPassantMoves(b, from));
  }

  /** The push part of `generatePawnMoves` (src/MoveGen.cpp:21-40). */
  method AddPawnPushes(b: Board, moves: seq<Move>, from: Square) returns (out: seq<Move>)
    requires RankOf(from) != LastRank(b.stm)
    ensures out == moves + PawnPushes(b, from)
  {
    var us := b.stm;
    var to: Square := from + Up(us);
    var occupied := b.byColor[WHITE] + b.byColor[BLACK];
    out := moves;
    if to !in occupied {
      if RankOf(from) == PromotionRank(us) {
        out := out + [MakePromotion(from, to, QUEEN), MakePromotion(from, to, ROOK),
                      MakePromotion(from, to, BISHOP), MakePromotion(from, to, KNIGHT)];
      } else {
        out := out + [MakeMove(from, to)];
        if RankOf(from) == StartRank(us) {
          var doubleTo: Square := from + 2 * Up(us);
          if doubleTo !in occupied {
            out := out + [MakeMove(from, doubleTo)];
          }
        }
      }
    }
  }

  /** The capture loop of `generatePawnMoves` (src/MoveGen.cpp:43-56). */
  method AddPawnCaptures(moves: seq<Move>, from: Square, targets: Bitboard, promote: bool) returns (out: seq<Move>)
    ensures out == moves + PawnCaptures(from, targets, promote)
  {
    out := moves;
    var captureTargets := targets;
    while captureTargets != {}
      invariant out + PawnCaptures(from, captureTargets, promote) == moves + PawnCaptures(from, targets, promote)
      decreases |captureTargets|
    {
      var (to, rest) := PopLsb(captureTargets);
      ghost var before := out;
      if promote {
        out := out + [MakePromotion(from, to, QUEEN), MakePromotion(from, to, ROOK),
                      MakePromotion(from, to, BISHOP), MakePromotion(from, to, KNIGHT)];
      } else {
        out := out + [MakeMove(from, to)];
      }
      AppendStep(before, PawnTo(from, to, promote), PawnCaptures(from, rest, promote));
      captureTargets := rest;
    }
  }

  /** The inner loop of `generatePieceMoves` (src/MoveGen.cpp:91-94). */
  method AddTargetMoves(moves: seq<Move>, from: Square, targets: Bitboard) returns (out: seq<Move>)
    ensures out == moves + TargetMoves(from, targets)
  {
    out := moves;
    var attacks := targets;
    while attacks != {}
      invariant out + TargetMoves(from, attacks) == moves + TargetMoves(from, targets)
      decreases |attacks|
    {
      var (to, rest) := PopLsb(attacks);
      out := out + [MakeMove(from, to)];
      attacks := rest;
    }
  }

  /** Appending a block and then the rest is appending both at once. */
  lemma AppendStep(out: seq<Move>, block: seq<Move>, rest: seq<Move>)
    ensures (out + block) + rest == out + (block + rest)
  {
  }

  /** `generatePieceMoves<pt>` (src/MoveGen.cpp:67-97) for the pieces in
      `pieces`, always called with the side to move as `us`. The template is
      instantiated for the five piece types other than the pawn. */
  method GeneratePieceMoves(pos: Position, moves: seq<Move>, pt: PieceType, pieces: Bitboard)
    returns (out: seq<Move>)
    requires pos.Valid() && pt != PAWN
    ensures out == moves + PieceMoves(View(pos.State()), pt, pieces)
  {
    var b := View(pos.State());
    var us := b.stm;
    var targets := b.byColor[us];
    var occupied := b.byColor[WHITE] + b.byColor[BLACK];
    out := moves;
    var rest := pieces;
    while rest != {}
      invariant out + PieceMoves(b, pt, rest) == moves + PieceMoves(b, pt, pieces)
      decreases |rest|
    {
      var (from, others) := PopLsb(rest);
      var attacks := PieceAttacks(pt, us, from, occupied) - targets;
      ghost var before := out;
      out := AddTargetMoves(out, from, attacks);
      AppendStep(before, TargetMoves(from, attacks), PieceMoves(b, pt, others));
      rest := others;
    }
  }

  /** `generateCastling<Us>` (src/MoveGen.cpp:100-142): the in-check test,
      then the kingside and the queenside blocks. */
  method GenerateCastling(pos: Position, moves: seq<Move>) returns (out: seq<Move>)
    requires pos.Valid() && Pieces(pos.State(), pos.stm, KING) != {}
    ensures out == moves + CastlingMoves(View(pos.State()))
  {
    var b := View(pos.State());
    if InCheck(b) {
      return moves;
    }
    out := AddKingsideCastling(b, moves);
    ghost var short := out;
    out := AddQueensideCastling(b, out);
    AppendStep(moves, short[|moves|..], out[|short|..]);
  }

  /** The kingside block of `generateCastling` (src/MoveGen.cpp:110-125). */
  method AddKingsideCastling(b: Board, moves: seq<Move>) returns (out: seq<Move>)
    ensures out == moves + if CanCastleShort(b) then [MakeCastling(CastlingSquares(b.stm).0, CastlingSquares(b.stm).2)] else []
  {
    var us, them := b.stm, Opp(b.stm);
    var occupied := b.byColor[WHITE] + b.byColor[BLACK];
    var rights := b.castling;
    out := moves;
    if us == WHITE && rights & WHITE_OO != 0 {
      if F1 !in occupied && G1 !in occupied {
        if !IsAttacked(b, E1, them) && !IsAttacked(b, F1, them) && !IsAttacked(b, G1, them) {
          out := out + [MakeCastling(E1, G1)];
        }
      }
    } else if us == BLACK && rights & BLACK_OO != 0 {
      if F8 !in occupied && G8 !in occupied {
        if !IsAttacked(b, E8, them) && !IsAttacked(b, F8, them) && !IsAttacked(b, G8, them) {
          out := out + [MakeCastling(E8, G8)];
        }
      }
    }
  }

  /** The queenside block of `generateCastling` (src/MoveGen.cpp:127-141). */
  method AddQueensideCastling(b: Board, moves: seq<Move>) returns (out: seq<Move>)
    ensures out == moves + if CanCastleLong(b) then [MakeCastling(CastlingSquares(b.stm).0, CastlingSquares(b.stm).4)] else []
  {
    var us, them := b.stm, Opp(b.stm);
    var occupied := b.byColor[WHITE] + b.byColor[BLACK];
    var rights := b.castling;
    out := moves;
    if us == WHITE && rights & WHITE_OOO != 0 {
      if B1 !in occupied && C1 !in occupied && D1 !in occupied {
        if !IsAttacked(b, E1, them) && !IsAttacked(b, D1, them) && !IsAttacked(b, C1, them) {
          out := out + [MakeCastling(E1, C1)];
        }
      }
    } else if us == BLACK && rights & BLACK_OOO != 0 {
      if B8 !in occupied && C8 !in occupied && D8 !in occupied {
        if !IsAttacked(b, E8, them) && !IsAttacked(b, D8, them) && !IsAttacked(b, C8, them) {
          out := out + [MakeCastling(E8, C8)];
        }
      }
    }
  }

  /** `generatePseudoLegalMoves` (src/MoveGen.cpp:144-188): the two colour
      branches of the source differ only in the colour, which is the side to
      move in both. */
  method GeneratePseudoLegalMoves(pos: Position) returns (moves: seq<Move>)
    requires pos.Valid() && Generable(View(pos.State()))
    ensures moves == PseudoLegal(View(pos.State()))
  {
    var b := View(pos.State());
    var us := b.stm;
    moves := GenerateAllPawnMoves(pos, b.byColor[us] * b.byType[PAWN]);
    ghost var pawnMoves := moves;
    moves := GeneratePieceMoves(pos, moves, KNIGHT, b.byColor[us] * b.byType[KNIGHT]);
    moves := GeneratePieceMoves(pos, moves, BISHOP, b.byColor[us] * b.byType[BISHOP]);
    moves := GeneratePieceMoves(pos, moves, ROOK, b.byColor[us] * b.byType[ROOK]);
    moves := GeneratePieceMoves(pos, moves, QUEEN, b.byColor[us] * b.byType[QUEEN]);
    moves := GeneratePieceMoves(pos, moves, KING, b.byColor[us] * b.byType[KING]);
    ghost var pieceMoves := moves;
    moves := GenerateCastling(pos, moves);
    assert pieceMoves == AllPawnMoves(b, Pieces(b, us, PAWN)) +
      PieceMoves(b, KNIGHT, Pieces(b, us, KNIGHT)) +
      PieceMoves(b, BISHOP, Pieces(b, us, BISHOP)) +
      PieceMoves(b, ROOK, Pieces(b, us, ROOK)) +
      PieceMoves(b, QUEEN, Pieces(b, us, QUEEN)) +
      PieceMoves(b, KING, Pieces(b, us, KING));
  }

  /** The pawn loop of `generatePseudoLegalMoves` (src/MoveGen.cpp:150-154). */
  method GenerateAllPawnMoves(pos: Position, pawns: Bitboard) returns (moves: seq<Move>)
    requires pos.Valid() && forall sq :: sq in pawns ==> RankOf(sq) != LastRank(pos.stm)
    ensures moves == AllPawnMoves(View(pos.State()), pawns)
  {
    var b := View(pos.State());
    moves := [];
    var rest := pawns;
    while rest != {}
      invariant rest <= pawns
      invariant moves + AllPawnMoves(b, rest) == AllPawnMoves(b, pawns)
      decreases |rest|
    {
      var (sq, others) := PopLsb(rest);
      ghost var before := moves;
      moves := GeneratePawnMoves(pos, moves, sq);
      AppendStep(before, PawnMoves(b, sq), AllPawnMoves(b, others));
      rest := others;
    }
    assert moves + [] == moves;
  }

  /** `Legal` read on the position itself rather than on its board: the
      move can be made, the mover keeps a king, and the verdict is that of
      the position after the move. */
  lemma LegalOnPosition(p: Pos, m: Move)
    requires Consistent(p) && Testable(View(p), m)
    ensures Playable(p, m) && Pieces(ApplyMove(p, m), p.stm, KING) != {}
    ensures Legal(View(p), m) <==>
      !IsAttacked(ApplyMove(p, m), Lsb(Pieces(ApplyMove(p, m), p.stm, KING)), ApplyMove(p, m).stm)
  {
    PlayView(p, m);
    var a := ApplyMove(p, m);
    assert View(a) == ApplyMove(View(p), m).(hash := {}, history := [], halfmoves := 0, fullmoves := 1);
    AttackedByView(a, Lsb(Pieces(a, p.stm, KING)), a.stm);
    AttackedByView(ApplyMove(View(p), m), Lsb(Pieces(a, p.stm, KING)), a.stm);
  }

  /** `isLegal` (src/MoveGen.cpp:190-202): make the move, look at the mover's
      king, unmake the move. The answer is `Legal` of the board before, and
      the object comes back with everything but the hash restored. */
  method IsLegal(pos: Position, move: Move) returns (legal: bool)
    requires pos.Valid() && Consistent(pos.State()) && Testable(View(pos.State()), move)
    modifies pos, pos.byType, pos.byColor, pos.board
    ensures pos.Valid() && pos.State() == old(pos.State()).(hash := pos.hash)
    ensures legal == Legal(View(old(pos.State())), move)
  {
    ghost var p := pos.State();
    LegalOnPosition(p, move);
    MakeUnmakeRoundTrip(p, move);
    var us := pos.stm;
    pos.MakeMove(move);
    var kings := pos.byColor[us] * pos.byType[KING];
    legal := !IsAttacked(pos.State(), Lsb(kings), pos.stm);
    pos.UnmakeMove();
  }

  lemma TakeStep(xs: seq<Move>, i: nat)
    requires i < |xs|
    ensures xs[..i + 1] == xs[..i] + [xs[i]]
  {
  }

  /** The filter's list grows by the last move's verdict. */
  lemma LegalAmongStep(b: Board, pre: seq<Move>, m: Move)
    ensures LegalAmong(b, pre + [m]) == LegalAmong(b, pre) + if Legal(b, m) then [m] else []
  {
    assert (pre + [m])[..|pre|] == pre;
  }

  lemma CapturesAmongStep(b: Board, pre: seq<Move>, m: Move)
    ensures CapturesAmong(b, pre + [m]) ==
      CapturesAmong(b, pre) + if IsCapture(b, m) && Legal(b, m) then [m] else []
  {
    assert (pre + [m])[..|pre|] == pre;
  }

  /** `generateLegalMoves` (src/MoveGen.cpp:204-216): the pseudo-legal moves
      that pass `isLegal`, in order. Every piece, the side to move, the
      rights, the en-passant square, the clocks and the history come back;
      only the hash may differ (see Positions.UnmakeMoveKeepsMovedKeys). */
  method GenerateLegalMoves(pos: Position) returns (legalMoves: seq<Move>)
    requires pos.Valid() && Consistent(pos.State()) && Ready(View(pos.State()))
    modifies pos, pos.byType, pos.byColor, pos.board
    ensures pos.Valid() && pos.State() == old(pos.State()).(hash := pos.hash)
    ensures legalMoves == LegalMoves(View(old(pos.State())))
  {
    ghost var p := pos.State();
    var b := View(p);
    var pseudoMoves := GeneratePseudoLegalMoves(pos);
    legalMoves := [];
    ghost var done := [];
    var i := 0;
    while i < |pseudoMoves|
      invariant 0 <= i <= |pseudoMoves| && done == pseudoMoves[..i]
      invariant pos.Valid() && pos.State() == p.(hash := pos.hash)
      invariant legalMoves == LegalAmong(b, done)
    {
      var move := pseudoMoves[i];
      assert move in PseudoLegal(b);
      assert View(pos.State()) == b;
      legalMoves := AddIfLegal(pos, legalMoves, move);
      LegalAmongStep(b, done, move);
      TakeStep(pseudoMoves, i);
      done := done + [move];
      i := i + 1;
    }
    assert pseudoMoves[..i] == pseudoMoves;
  }

  /** `generateCaptures` (src/MoveGen.cpp:218-234): the pseudo-legal moves
      onto an occupied square or en passant that pass `isLegal`, in order. */
  method GenerateCaptures(pos: Position) returns (captures: seq<Move>)
    requires pos.Valid() && Consistent(pos.State()) && Ready(View(pos.State()))
    modifies pos, pos.byType, pos.byColor, pos.board
    ensures pos.Valid() && pos.State() == old(pos.State()).(hash := pos.hash)
    ensures captures == Captures(View(old(pos.State())))
  {
    ghost var p := pos.State();
    var b := View(p);
    var pseudoMoves := GeneratePseudoLegalMoves(pos);
    captures := [];
    ghost var done := [];
    var i := 0;
    while i < |pseudoMoves|
      invariant 0 <= i <= |pseudoMoves| && done == pseudoMoves[..i]
      invariant pos.Valid() && pos.State() == p.(hash := pos.hash)
      invariant captures == CapturesAmong(b, done)
    {
      var move := pseudoMoves[i];
      assert move in PseudoLegal(b);
      assert View(pos.State()) == b;
      captures := AddIfLegalCapture(pos, captures, move);
      CapturesAmongStep(b, done, move);
      TakeStep(pseudoMoves, i);
      done := done + [move];
      i := i + 1;
    }
    assert pseudoMoves[..i] == pseudoMoves;
  }

  /** One turn of the loop in `generateLegalMoves` (src/MoveGen.cpp:210-213):
      a move that passes `isLegal` is kept. */
  method AddIfLegal(pos: Position, legalMoves: seq<Move>, move: Move) returns (out: seq<Move>)
    requires pos.Valid() && Consistent(pos.State()) && Testable(View(pos.State()), move)
    modifies pos, pos.byType, pos.byColor, pos.board
    ensures pos.Valid() && pos.State() == old(pos.State()).(hash := pos.hash)
    ensures out == legalMoves + if Legal(View(old(pos.State())), move) then [move] else []
  {
    out := legalMoves;
    var ok := IsLegal(pos, move);
    if ok {
      out := out + [move];
    }
  }

  /** One turn of the loop in `generateCaptures` (src/MoveGen.cpp:225-231):
      a move onto an occupied square, or en passant, that passes `isLegal`
      is kept. */
  method AddIfLegalCapture(pos: Position, captures: seq<Move>, move: Move) returns (out: seq<Move>)
    requires pos.Valid() && Consistent(pos.State()) && Testable(View(pos.State()), move)
    modifies pos, pos.byType, pos.byColor, pos.board
    ensures pos.Valid() && pos.State() == old(pos.State()).(hash := pos.hash)
    ensures var b := View(old(pos.State()));
      out == captures + if IsCapture(b, move) && Legal(b, move) then [move] else []
  {
    out := captures;
    var to := ToSquare(move);
    if pos.board[to] != NO_PIECE || MoveType(move) == EN_PASSANT {
      var ok := IsLegal(pos, move);
      if ok {
        out := out + [move];
      }
    }
  }

  lemma ChildAt(b: Board, moves: seq<Move>, depth: nat, i: nat)
    requires ChildrenPlayable(b, moves, depth) && i < |moves|
    ensures Testable(b, moves[i]) && PerftReady(Play(b, moves[i]), depth)
  {
  }

  /** The counts below the first i + 1 moves are those below the first i
      plus the count below move i. */
  lemma ChildNodesStep(b: Board, pre: seq<Move>, m: Move, depth: nat)
    requires ChildrenPlayable(b, pre, depth)
    requires Testable(b, m) && PerftReady(Play(b, m), depth)
    ensures ChildrenPlayable(b, pre + [m], depth)
    ensures ChildNodes(b, pre + [m], depth) == ChildNodes(b, pre, depth) + PerftValue(Play(b, m), depth)
  {
    var all := pre + [m];
    forall j | 0 <= j < |all|
      ensures Testable(b, all[j]) && PerftReady(Play(b, all[j]), depth)
    {
      if j < |pre| {
        assert all[j] == pre[j];
      }
    }
    assert all[..|pre|] == pre;
  }

  /** `perft` (src/MoveGen.cpp:236-251) for a non-negative depth: the
      number of leaf nodes `depth` plies below the position. The object
      comes back with everything but the hash restored. */
  method Perft(pos: Position, depth: nat) returns (nodes: nat)
    requires pos.Valid() && Consistent(pos.State()) && PerftReady(View(pos.State()), depth)
    modifies pos, pos.byType, pos.byColor, pos.board
    ensures pos.Valid() && pos.State() == old(pos.State()).(hash := pos.hash)
    ensures nodes == PerftValue(View(old(pos.State())), depth)
    decreases depth, 0
  {
    if depth == 0 {
      return 1;
    }
    ghost var p := pos.State();
    ghost var b := View(p);
    var moves := GenerateLegalMoves(pos);
    if depth == 1 {
      return |moves|;
    }
    ChildrenReady(b, depth);
    nodes := PerftChildren(pos, moves, depth - 1);
  }

  /** The loop of `perft` (src/MoveGen.cpp:245-249) over `moves`. */
  method PerftChildren(pos: Position, moves: seq<Move>, depth: nat) returns (nodes: nat)
    requires pos.Valid() && Consistent(pos.State())
    requires ChildrenPlayable(View(pos.State()), moves, depth)
    modifies pos, pos.byType, pos.byColor, pos.board
    ensures pos.Valid() && pos.State() == old(pos.State()).(hash := pos.hash)
    ensures nodes == ChildNodes(View(old(pos.State())), moves, depth)
    decreases depth, 2
  {
    ghost var p := pos.State();
    ghost var b := View(p);
    nodes := 0;
    ghost var done := [];
    var i := 0;
    while i < |moves|
      invariant 0 <= i <= |moves| && done == moves[..i]
      invariant pos.Valid() && pos.State() == p.(hash := pos.hash)
      invariant ChildrenPlayable(b, done, depth)
      invariant nodes == ChildNodes(b, done, depth)
    {
      var move := moves[i];
      ChildAt(b, moves, depth, i);
      ChildNodesStep(b, done, move, depth);
      TakeStep(moves, i);
      assert View(pos.State()) == b;
      var n := PerftChild(pos, move, depth);
      done := done + [move];
      nodes := nodes + n;
      i := i + 1;
    }
    assert moves[..i] == moves;
  }

  /** One turn of the loop in `perft`: make the move, count below it, unmake
      it. */
  method PerftChild(pos: Position, move: Move, depth: nat) returns (nodes: nat)
    requires pos.Valid() && Consistent(pos.State()) && Testable(View(pos.State()), move)
    requires PerftReady(Play(View(pos.State()), move), depth)
    modifies pos, pos.byType, pos.byColor, pos.board
    ensures pos.Valid() && pos.State() == old(pos.State()).(hash := pos.hash)
    ensures nodes == PerftValue(Play(View(old(pos.State())), move), depth)
    decreases depth, 1
  {
    ghost var p := pos.State();
    LegalOnPosition(p, move);
    PlayView(p, move);
    MakeUnmakeRoundTrip(p, move);
    MakeMoveSpec(p, move);
    pos.MakeMove(move);
    nodes := Perft(pos, depth);
    UndoIgnoresHash(ApplyMove(p, move), pos.hash);
    pos.UnmakeMove();
  }
}

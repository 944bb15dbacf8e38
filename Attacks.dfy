/** The attack and material queries of the `Position` object
    (src/Position.cpp:446-513): `isAttacked`, `inCheck` and `materialCount`.
    They only read the position, so they are functions of its value. */
module Attacks {
  import opened Types
  import opened Bitboard
  import opened AttackTables
  import opened Magic
  import opened Positions

  /** The squares a piece of type `pt` and colour `c` on `from` attacks when
      the occupied squares are `occupied`. */
  function PieceAttacks(pt: PieceType, c: Color, from: Square, occupied: Bitboard): Bitboard
  {
    if pt == PAWN then PawnTargets(c, from)
    else if pt == KNIGHT then KnightTargets(from)
    else if pt == BISHOP then BishopAttacks(from, occupied)
    else if pt == ROOK then RookAttacks(from, occupied)
    else if pt == QUEEN then QueenAttacks(from, occupied)
    else KingTargets(from)
  }

  /** `isAttacked` (src/Position.cpp:451-475): the source looks outwards from
      `sq` with each piece's attack pattern (a pawn of the other colour for
      pawns) and asks whether an attacker of that kind stands at the end. */
  predicate IsAttacked(p: Pos, sq: Square, attacker: Color)
  {
    PawnTargets(Opp(attacker), sq) * Pieces(p, attacker, PAWN) != {} ||
    KnightTargets(sq) * Pieces(p, attacker, KNIGHT) != {} ||
    KingTargets(sq) * Pieces(p, attacker, KING) != {} ||
    BishopAttacks(sq, Occupied(p)) * (Pieces(p, attacker, BISHOP) + Pieces(p, attacker, QUEEN)) != {} ||
    RookAttacks(sq, Occupied(p)) * (Pieces(p, attacker, ROOK) + Pieces(p, attacker, QUEEN)) != {}
  }

  /** `inCheck` (src/Position.cpp:446-449): the lowest square holding a king
      of the side to move is attacked by the other side. `lsb(0)` is
      undefined, hence the precondition. */
  predicate InCheck(p: Pos)
    requires Pieces(p, p.stm, KING) != {}
  {
    IsAttacked(p, Lsb(Pieces(p, p.stm, KING)), Opp(p.stm))
  }

  /** `materialCount` (src/Position.cpp:505-513): 100, 320, 330, 500 and
      900 per pawn, knight, bishop, rook and queen; kings count nothing. */
  function MaterialCount(p: Pos, c: Color): int
  {
    |Pieces(p, c, PAWN)| * 100 + |Pieces(p, c, KNIGHT)| * 320 + |Pieces(p, c, BISHOP)| * 330 +
    |Pieces(p, c, ROOK)| * 500 + |Pieces(p, c, QUEEN)| * 900
  }

  // ---------------------------------------------------------------- attacks are mutual

  lemma PawnSymmetric(c: Color, a: Square, b: Square)
    ensures b in PawnTargets(c, a) <==> a in PawnTargets(Opp(c), b)
  {
    PawnTargetsSpec(c, a, b);
    PawnTargetsSpec(Opp(c), b, a);
  }

  lemma KnightSymmetric(a: Square, b: Square)
    ensures b in KnightTargets(a) <==> a in KnightTargets(b)
  {
  }

  lemma KingSymmetric(a: Square, b: Square)
    ensures b in KingTargets(a) <==> a in KingTargets(b)
  {
  }

  /** The patterns the source looks outwards with are the attackers' own:
      `sq` is in the pattern from `s` exactly when `s` attacks `sq`. */
  lemma LookOutward(pt: PieceType, attacker: Color, s: Square, sq: Square, occupied: Bitboard)
    ensures sq in PieceAttacks(pt, attacker, s, occupied) <==>
      (pt == PAWN && s in PawnTargets(Opp(attacker), sq)) ||
      (pt == KNIGHT && s in KnightTargets(sq)) ||
      (pt == KING && s in KingTargets(sq)) ||
      ((pt == BISHOP || pt == QUEEN) && s in BishopAttacks(sq, occupied)) ||
      ((pt == ROOK || pt == QUEEN) && s in RookAttacks(sq, occupied))
  {
    PawnSymmetric(attacker, s, sq);
    KnightSymmetric(s, sq);
    KingSymmetric(s, sq);
    BishopSymmetric(s, sq, occupied);
    RookSymmetric(s, sq, occupied);
  }

  /** Some piece of colour `attacker` attacks `sq` with its own attack
      pattern from where it stands. */
  ghost predicate AttackedFromSomewhere(p: Pos, sq: Square, attacker: Color)
  {
    exists pt: PieceType, s: Square :: s in Pieces(p, attacker, pt) && sq in PieceAttacks(pt, attacker, s, Occupied(p))
  }

  /** A piece found by `isAttacked` attacks `sq`. */
  lemma AttackedFound(p: Pos, sq: Square, attacker: Color)
    requires IsAttacked(p, sq, attacker)
    ensures AttackedFromSomewhere(p, sq, attacker)
  {
    var occ := Occupied(p);
    if PawnTargets(Opp(attacker), sq) * Pieces(p, attacker, PAWN) != {} {
      var s :| s in PawnTargets(Opp(attacker), sq) * Pieces(p, attacker, PAWN);
      Witness(p, sq, attacker, PAWN, s);
    } else if KnightTargets(sq) * Pieces(p, attacker, KNIGHT) != {} {
      var s :| s in KnightTargets(sq) * Pieces(p, attacker, KNIGHT);
      Witness(p, sq, attacker, KNIGHT, s);
    } else if KingTargets(sq) * Pieces(p, attacker, KING) != {} {
      var s :| s in KingTargets(sq) * Pieces(p, attacker, KING);
      Witness(p, sq, attacker, KING, s);
    } else if BishopAttacks(sq, occ) * (Pieces(p, attacker, BISHOP) + Pieces(p, attacker, QUEEN)) != {} {
      var s :| s in BishopAttacks(sq, occ) * (Pieces(p, attacker, BISHOP) + Pieces(p, attacker, QUEEN));
      Witness(p, sq, attacker, if s in Pieces(p, attacker, BISHOP) then BISHOP else QUEEN, s);
    } else {
      var s :| s in RookAttacks(sq, occ) * (Pieces(p, attacker, ROOK) + Pieces(p, attacker, QUEEN));
      Witness(p, sq, attacker, if s in Pieces(p, attacker, ROOK) then ROOK else QUEEN, s);
    }
  }

  /** A piece seen from `sq` with its own pattern attacks `sq`. */
  lemma Witness(p: Pos, sq: Square, attacker: Color, pt: PieceType, s: Square)
    requires s in Pieces(p, attacker, pt)
    requires (pt == PAWN && s in PawnTargets(Opp(attacker), sq)) ||
      (pt == KNIGHT && s in KnightTargets(sq)) ||
      (pt == KING && s in KingTargets(sq)) ||
      ((pt == BISHOP || pt == QUEEN) && s in BishopAttacks(sq, Occupied(p))) ||
      ((pt == ROOK || pt == QUEEN) && s in RookAttacks(sq, Occupied(p)))
    ensures AttackedFromSomewhere(p, sq, attacker)
  {
    LookOutward(pt, attacker, s, sq, Occupied(p));
  }

  /** Every attacker is found by `isAttacked`. */
  lemma AttackerSeen(p: Pos, sq: Square, attacker: Color, pt: PieceType, s: Square)
    requires s in Pieces(p, attacker, pt) && sq in PieceAttacks(pt, attacker, s, Occupied(p))
    ensures IsAttacked(p, sq, attacker)
  {
    var occ := Occupied(p);
    LookOutward(pt, attacker, s, sq, occ);
    if pt == PAWN {
      assert s in PawnTargets(Opp(attacker), sq) * Pieces(p, attacker, PAWN);
    } else if pt == KNIGHT {
      assert s in KnightTargets(sq) * Pieces(p, attacker, KNIGHT);
    } else if pt == KING {
      assert s in KingTargets(sq) * Pieces(p, attacker, KING);
    } else if pt == BISHOP {
      assert s in BishopAttacks(sq, occ) * (Pieces(p, attacker, BISHOP) + Pieces(p, attacker, QUEEN));
    } else if pt == ROOK {
      assert s in RookAttacks(sq, occ) * (Pieces(p, attacker, ROOK) + Pieces(p, attacker, QUEEN));
    } else {
      assert s in RookAttacks(sq, occ) || s in BishopAttacks(sq, occ);
      if s in RookAttacks(sq, occ) {
        assert s in RookAttacks(sq, occ) * (Pieces(p, attacker, ROOK) + Pieces(p, attacker, QUEEN));
      } else {
        assert s in BishopAttacks(sq, occ) * (Pieces(p, attacker, BISHOP) + Pieces(p, attacker, QUEEN));
      }
    }
  }

  /** What `isAttacked` means: looking outwards from `sq` finds exactly the
      pieces that attack `sq`. */
  lemma AttackedIff(p: Pos, sq: Square, attacker: Color)
    ensures IsAttacked(p, sq, attacker) <==> AttackedFromSomewhere(p, sq, attacker)
  {
    if IsAttacked(p, sq, attacker) {
      AttackedFound(p, sq, attacker);
    }
    if AttackedFromSomewhere(p, sq, attacker) {
      var pt: PieceType, s: Square :| s in Pieces(p, attacker, pt) && sq in PieceAttacks(pt, attacker, s, Occupied(p));
      AttackerSeen(p, sq, attacker, pt, s);
    }
  }

  // ---------------------------------------------------------------- material from the mailbox

  /** The value `materialCount` gives a piece of type pt. */
  function PieceValue(pt: PieceType): nat
  {
    if pt == PAWN then 100 else if pt == KNIGHT then 320 else if pt == BISHOP then 330
    else if pt == ROOK then 500 else if pt == QUEEN then 900 else 0
  }

  /** The material of colour c on the first n squares of the mailbox, added
      up square by square. */
  function BoardMaterial(board: seq<Cell>, c: Color, n: nat): nat
    requires n <= |board|
  {
    if n == 0 then 0
    else
      var pc := board[n - 1];
      BoardMaterial(board, c, n - 1) + (if pc != NO_PIECE && ColorOf(pc) == c then PieceValue(TypeOf(pc)) else 0)
  }

  /** How many of the first n squares hold pc. */
  function CountOn(board: seq<Cell>, pc: Piece, n: nat): nat
    requires n <= |board|
  {
    if n == 0 then 0 else CountOn(board, pc, n - 1) + (if board[n - 1] == pc then 1 else 0)
  }

  /** The squares below n in a bitboard. */
  function Below(bb: Bitboard, n: nat): Bitboard
  {
    set sq | sq in bb && sq < n
  }

  lemma {:induction false} CountOnIsPopCount(p: Pos, c: Color, pt: PieceType, n: nat)
    requires Consistent(p) && n <= 64
    ensures |Below(Pieces(p, c, pt), n)| == CountOn(p.board, MakePiece(c, pt), n)
  {
    if n > 0 {
      CountOnIsPopCount(p, c, pt, n - 1);
      var sq: Square := n - 1;
      MailboxAgreement(p, sq, MakePiece(c, pt));
      if p.board[sq] == MakePiece(c, pt) {
        assert Below(Pieces(p, c, pt), n) == Below(Pieces(p, c, pt), n - 1) + {sq};
      } else {
        assert Below(Pieces(p, c, pt), n) == Below(Pieces(p, c, pt), n - 1);
      }
    }
  }

  lemma {:induction false} BoardMaterialCounts(board: seq<Cell>, c: Color, n: nat)
    requires n <= |board|
    ensures BoardMaterial(board, c, n) ==
      CountOn(board, MakePiece(c, PAWN), n) * 100 + CountOn(board, MakePiece(c, KNIGHT), n) * 320 +
      CountOn(board, MakePiece(c, BISHOP), n) * 330 + CountOn(board, MakePiece(c, ROOK), n) * 500 +
      CountOn(board, MakePiece(c, QUEEN), n) * 900
  {
    if n > 0 {
      BoardMaterialCounts(board, c, n - 1);
      var pc := board[n - 1];
      if pc != NO_PIECE {
        PieceDecomposition(pc);
      }
    }
  }

  /** `materialCount` read off the bitboards is the material of the pieces
      the mailbox holds, counted square by square. */
  lemma MaterialFromMailbox(p: Pos, c: Color)
    requires Consistent(p)
    ensures MaterialCount(p, c) == BoardMaterial(p.board, c, 64)
  {
    forall pt: PieceType
      ensures |Pieces(p, c, pt)| == CountOn(p.board, MakePiece(c, pt), 64)
    {
      CountOnIsPopCount(p, c, pt, 64);
      assert Below(Pieces(p, c, pt), 64) == Pieces(p, c, pt);
    }
    BoardMaterialCounts(p.board, c, 64);
  }
}

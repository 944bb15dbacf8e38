/** Bitboards (inc/Bitboard.h). A bitboard is a 64-bit word whose bit `sq` says
    whether square `sq` is in the set; the model holds the set itself. Module Bits
    proves, bit by bit, that the word formulas below (`|`, `& ~`, the shifts and
    masks) act as the set operations written here. */
module Bitboard {
  import opened Types

  type Bitboard = set<Square>

  const EMPTY: Bitboard := {}

  /** 0x0101010101010101, 0x8080808080808080 and 0xFF. */
  const FILE_A_BB: Bitboard := {0, 8, 16, 24, 32, 40, 48, 56}
  const FILE_H_BB: Bitboard := {7, 15, 23, 31, 39, 47, 55, 63}
  const RANK_1_BB: Bitboard := {0, 1, 2, 3, 4, 5, 6, 7}

  // ---------------------------------------------------------------- single squares

  function SquareBB(sq: Square): Bitboard { {sq} }

  predicate TestBit(bb: Bitboard, sq: Square) { sq in bb }

  function SetBit(bb: Bitboard, sq: Square): Bitboard { bb + SquareBB(sq) }

  function ClearBit(bb: Bitboard, sq: Square): Bitboard { bb - SquareBB(sq) }

  /** `setBit` adds `sq` and changes no other square. */
  lemma SetBitSpec(bb: Bitboard, sq: Square, t: Square)
    ensures TestBit(SetBit(bb, sq), sq)
    ensures t != sq ==> TestBit(SetBit(bb, sq), t) == TestBit(bb, t)
  {
  }

  /** `clearBit` removes `sq` and changes no other square. */
  lemma ClearBitSpec(bb: Bitboard, sq: Square, t: Square)
    ensures !TestBit(ClearBit(bb, sq), sq)
    ensures t != sq ==> TestBit(ClearBit(bb, sq), t) == TestBit(bb, t)
  {
  }

  // ---------------------------------------------------------------- counting and the lowest square

  /** `popCount` (`__builtin_popcountll`). */
  function PopCount(bb: Bitboard): nat { |bb| }

  /** Setting a square that is absent adds one to the count; clearing one that is
      present takes one away. */
  lemma PopCountSetClear(bb: Bitboard, sq: Square)
    ensures !TestBit(bb, sq) ==> PopCount(SetBit(bb, sq)) == PopCount(bb) + 1
    ensures TestBit(bb, sq) ==> PopCount(ClearBit(bb, sq)) == PopCount(bb) - 1
  {
  }

  /** The lowest square of `bb` that is at least `i` (the scan `__builtin_ctzll`
      performs). */
  function LsbFrom(bb: Bitboard, i: Square): (sq: Square)
    requires exists t :: t in bb && i <= t
    ensures sq in bb && i <= sq
    ensures forall t :: t in bb && i <= t ==> sq <= t
    decreases 64 - i
  {
    if i in bb then i
    else
      assert exists t :: t in bb && i + 1 <= t;
      LsbFrom(bb, i + 1)
  }

  /** `lsb`: the lowest square in a non-empty set (`__builtin_ctzll(0)` is
      undefined, hence the precondition). */
  function Lsb(bb: Bitboard): (sq: Square)
    requires bb != EMPTY
    ensures sq in bb && forall t :: t in bb ==> sq <= t
  {
    var t :| t in bb;
    LsbFrom(bb, 0)
  }

  /** `popLsb`: the lowest square, and the set without it (`bb &= bb - 1`). */
  function PopLsb(bb: Bitboard): (r: (Square, Bitboard))
    requires bb != EMPTY
    ensures r.0 in bb && forall t :: t in bb ==> r.0 <= t
    ensures r.1 == ClearBit(bb, r.0)
    ensures PopCount(r.1) == PopCount(bb) - 1
  {
    var sq := Lsb(bb);
    (sq, bb - {sq})
  }

  // ---------------------------------------------------------------- shifts

  /** `bb << d` for `d >= 0` and `bb >> -d` for `d < 0`: every square moves by
      `d`, and squares moved off the board are lost. */
  function Shift(bb: Bitboard, d: int): Bitboard
  {
    set s: Square | s in bb && 0 <= s + d < 64 :: (s + d) as Square
  }

  lemma ShiftSpec(bb: Bitboard, d: int, t: Square)
    ensures TestBit(Shift(bb, d), t) <==> 0 <= t - d < 64 && TestBit(bb, t - d)
  {
    if 0 <= t - d < 64 && t - d in bb {
      var s: Square := t - d;
      assert s in bb && 0 <= s + d < 64 && (s + d) as Square == t;
    }
  }

  /** A shift that keeps every square on the board loses none of them. */
  lemma {:induction false} ShiftCount(bb: Bitboard, d: int)
    requires forall s :: s in bb ==> 0 <= s + d < 64
    ensures PopCount(Shift(bb, d)) == PopCount(bb)
    decreases |bb|
  {
    if bb != {} {
      var x :| x in bb;
      var rest := bb - {x};
      ShiftCount(rest, d);
      var y: Square := x + d;
      forall t: Square
        ensures t in Shift(bb, d) <==> t in Shift(rest, d) + {y}
      {
        ShiftSpec(bb, d, t);
        ShiftSpec(rest, d, t);
      }
      assert Shift(bb, d) == Shift(rest, d) + {y};
      ShiftSpec(rest, d, y);
    }
  }

  lemma FileMasks(sq: Square)
    ensures TestBit(FILE_A_BB, sq) <==> FileOf(sq) == FILE_A
    ensures TestBit(FILE_H_BB, sq) <==> FileOf(sq) == FILE_H
    ensures TestBit(RANK_1_BB, sq) <==> RankOf(sq) == RANK_1
  {
  }

  /** Removing an edge file's mask keeps exactly the squares off that file. */
  lemma OffEdgeFiles(bb: Bitboard, sq: Square)
    ensures TestBit(bb - FILE_A_BB, sq) <==> TestBit(bb, sq) && FileOf(sq) != FILE_A
    ensures TestBit(bb - FILE_H_BB, sq) <==> TestBit(bb, sq) && FileOf(sq) != FILE_H
  {
    FileMasks(sq);
  }

  function Forward(c: Color): int { if c == WHITE then 1 else -1 }

  function PawnPush(c: Color, bb: Bitboard): Bitboard
  {
    Shift(bb, 8 * Forward(c))
  }

  function PawnDoublePush(c: Color, bb: Bitboard): Bitboard
  {
    Shift(bb, 16 * Forward(c))
  }

  function PawnAttackWest(c: Color, bb: Bitboard): Bitboard
  {
    if c == WHITE then Shift(bb - FILE_A_BB, 7) else Shift(bb - FILE_A_BB, -9)
  }

  function PawnAttackEast(c: Color, bb: Bitboard): Bitboard
  {
    if c == WHITE then Shift(bb - FILE_H_BB, 9) else Shift(bb - FILE_H_BB, -7)
  }

  function PawnAttacksBB(c: Color, bb: Bitboard): Bitboard
  {
    PawnAttackWest(c, bb) + PawnAttackEast(c, bb)
  }

  /** The square k ranks back from t, as a shift by 8 * k reaches it: on
      the board exactly when the rank stays on the board. */
  lemma VerticalSource(t: Square, k: int)
    ensures 0 <= t - 8 * k < 64 <==> 0 <= RankOf(t) - k < 8
    ensures 0 <= RankOf(t) - k < 8 ==> t - 8 * k == MakeSquare(FileOf(t), RankOf(t) - k)
  {
    SquareDecomposition(t);
    assert t - 8 * k == (RankOf(t) - k) * 8 + FileOf(t);
  }

  /** A push moves every square one rank forward for the side; a square on the
      far rank drops off the board. */
  lemma PawnPushSpec(c: Color, bb: Bitboard, t: Square)
    ensures TestBit(PawnPush(c, bb), t) <==>
      0 <= RankOf(t) - Forward(c) < 8 && TestBit(bb, MakeSquare(FileOf(t), RankOf(t) - Forward(c)))
  {
    ShiftSpec(bb, 8 * Forward(c), t);
    VerticalSource(t, Forward(c));
  }

  /** A double push moves every square two ranks forward. */
  lemma PawnDoublePushSpec(c: Color, bb: Bitboard, t: Square)
    ensures TestBit(PawnDoublePush(c, bb), t) <==>
      0 <= RankOf(t) - 2 * Forward(c) < 8 &&
      TestBit(bb, MakeSquare(FileOf(t), RankOf(t) - 2 * Forward(c)))
  {
    ShiftSpec(bb, 16 * Forward(c), t);
    VerticalSource(t, 2 * Forward(c));
  }

  /** The square one rank back (fw) and one file across (df) from t, as a
      shift by 8 * fw - df reaches it: on the board and off the edge file
      (file A when df is 1, file H when it is -1) exactly when the file and
      rank stay on the board; off the board sideways it wraps round onto
      that edge file. */
  lemma DiagonalSource(t: Square, fw: int, df: int)
    requires (fw == 1 || fw == -1) && (df == 1 || df == -1)
    ensures var s := t - (8 * fw - df);
      (0 <= s < 64 && FileOf(s) != (if df == 1 then FILE_A else FILE_H)) <==>
      (0 <= FileOf(t) + df < 8 && 0 <= RankOf(t) - fw < 8)
    ensures 0 <= FileOf(t) + df < 8 && 0 <= RankOf(t) - fw < 8 ==>
      t - (8 * fw - df) == MakeSquare(FileOf(t) + df, RankOf(t) - fw)
  {
    if 0 <= FileOf(t) + df < 8 {
      DiagonalInside(t, fw, df);
    } else {
      DiagonalWrapped(t, fw, df);
    }
  }

  /** The diagonal source of a square whose neighbouring file exists. */
  lemma DiagonalInside(t: Square, fw: int, df: int)
    requires (fw == 1 || fw == -1) && (df == 1 || df == -1)
    requires 0 <= FileOf(t) + df < 8
    ensures var s := t - (8 * fw - df);
      (0 <= s < 64 <==> 0 <= RankOf(t) - fw < 8) &&
      (0 <= s < 64 ==> FileOf(s) == FileOf(t) + df && s == MakeSquare(FileOf(t) + df, RankOf(t) - fw))
  {
    var f, r := FileOf(t), RankOf(t);
    SquareParts(t, r, f);
    SquareParts(t - (8 * fw - df), r - fw, f + df);
  }

  /** The diagonal source of a square on the edge file, towards the edge:
      off the board, or round on the opposite edge file. */
  lemma DiagonalWrapped(t: Square, fw: int, df: int)
    requires (fw == 1 || fw == -1) && (df == 1 || df == -1)
    requires !(0 <= FileOf(t) + df < 8)
    ensures var s := t - (8 * fw - df);
      0 <= s < 64 ==> FileOf(s) == (if df == 1 then FILE_A else FILE_H)
  {
    var f, r := FileOf(t), RankOf(t);
    SquareParts(t, r, f);
    if df == 1 {
      SquareParts(t - (8 * fw - df), r - fw + 1, 0);
    } else {
      SquareParts(t - (8 * fw - df), r - fw - 1, 7);
    }
  }

  /** s == q * 8 + e, for a file e, is a square exactly when q is a rank,
      and then its file is e and its rank q. */
  lemma SquareParts(s: int, q: int, e: int)
    requires 0 <= e < 8 && s == q * 8 + e
    ensures 0 <= s < 64 <==> 0 <= q < 8
    ensures 0 <= s < 64 ==> FileOf(s) == e && RankOf(s) == q && s == MakeSquare(e, q)
  {
    if 0 <= q < 8 {
      assert MakeSquare(e, q) == s;
    }
  }

  /** The edge file a diagonal shift towards df must mask out. */
  function EdgeMask(df: int): Bitboard
  {
    if df == 1 then FILE_A_BB else FILE_H_BB
  }

  /** A diagonal shift, one rank forward (fw) and one file back across (df),
      after masking the edge file: each target's source is one file across
      and one rank back, and both must be on the board. */
  lemma DiagonalShiftSpec(bb: Bitboard, fw: int, df: int, t: Square)
    requires (fw == 1 || fw == -1) && (df == 1 || df == -1)
    ensures TestBit(Shift(bb - EdgeMask(df), 8 * fw - df), t) <==>
      0 <= FileOf(t) + df < 8 && 0 <= RankOf(t) - fw < 8 &&
      TestBit(bb, MakeSquare(FileOf(t) + df, RankOf(t) - fw))
  {
    var d := 8 * fw - df;
    ShiftSpec(bb - EdgeMask(df), d, t);
    DiagonalSource(t, fw, df);
    if 0 <= t - d < 64 {
      OffEdgeFiles(bb, t - d);
    }
  }

  /** A west capture lands one file towards file A and one rank forward. The
      file-A mask keeps a square on file A from wrapping round to file H. */
  lemma PawnAttackWestSpec(c: Color, bb: Bitboard, t: Square)
    ensures TestBit(PawnAttackWest(c, bb), t) <==>
      FileOf(t) < 7 && 0 <= RankOf(t) - Forward(c) < 8 &&
      TestBit(bb, MakeSquare(FileOf(t) + 1, RankOf(t) - Forward(c)))
  {
    assert PawnAttackWest(c, bb) == Shift(bb - EdgeMask(1), 8 * Forward(c) - 1);
    DiagonalShiftSpec(bb, Forward(c), 1, t);
  }

  /** An east capture lands one file towards file H and one rank forward,
      without wrapping from file H to file A. */
  lemma PawnAttackEastSpec(c: Color, bb: Bitboard, t: Square)
    ensures TestBit(PawnAttackEast(c, bb), t) <==>
      FileOf(t) > 0 && 0 <= RankOf(t) - Forward(c) < 8 &&
      TestBit(bb, MakeSquare(FileOf(t) - 1, RankOf(t) - Forward(c)))
  {
    assert PawnAttackEast(c, bb) == Shift(bb - EdgeMask(-1), 8 * Forward(c) + 1);
    DiagonalShiftSpec(bb, Forward(c), -1, t);
  }

  /** A white pawn on e4 attacks exactly d5 and f5. */
  lemma WhitePawnOnE4Attacks()
    ensures PawnAttacksBB(WHITE, {28}) == {35, 37}
  {
    forall t: Square
      ensures t in PawnAttacksBB(WHITE, {28}) <==> t in {35, 37}
    {
      PawnAttackWestSpec(WHITE, {28}, t);
      PawnAttackEastSpec(WHITE, {28}, t);
    }
  }

  // ---------------------------------------------------------------- files and ranks

  function FileBB(sq: Square): Bitboard { Shift(FILE_A_BB, FileOf(sq)) }

  function RankBB(sq: Square): Bitboard { Shift(RANK_1_BB, RankOf(sq) * 8) }

  /** `fileBB(sq)` is the file of `sq`: its eight squares. */
  lemma FileBBSpec(sq: Square)
    ensures forall t: Square :: TestBit(FileBB(sq), t) <==> FileOf(t) == FileOf(sq)
    ensures TestBit(FileBB(sq), sq) && PopCount(FileBB(sq)) == 8
  {
    var f: int := FileOf(sq);
    forall t: Square
      ensures TestBit(FileBB(sq), t) <==> FileOf(t) == FileOf(sq)
    {
      ShiftSpec(FILE_A_BB, f, t);
    }
    ShiftCount(FILE_A_BB, f);
  }

  /** `rankBB(sq)` is the rank of `sq`: its eight squares. */
  lemma RankBBSpec(sq: Square)
    ensures forall t: Square :: TestBit(RankBB(sq), t) <==> RankOf(t) == RankOf(sq)
    ensures TestBit(RankBB(sq), sq) && PopCount(RankBB(sq)) == 8
  {
    var r: int := RankOf(sq) * 8;
    forall t: Square
      ensures TestBit(RankBB(sq), t) <==> RankOf(t) == RankOf(sq)
    {
      ShiftSpec(RANK_1_BB, r, t);
    }
    ShiftCount(RANK_1_BB, r);
  }
}

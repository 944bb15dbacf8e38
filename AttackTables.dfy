/** The precomputed attack tables of src/Bitboard.cpp: pawn, knight and king
    attacks from every square, and the squares strictly between two squares on
    a common rank, file or diagonal. `init` fills them with loops over move
    offsets and a walk from one square towards the other; each loop is proved
    to produce the set given in file and rank terms below. */
module AttackTables {
  import opened Types
  import opened Bitboard

  // ---------------------------------------------------------------- geometry in file and rank terms

  /** Sign of a difference: the step the between-walk takes. */
  function Step(d: int): int { if d == 0 then 0 else if d > 0 then 1 else -1 }

  /** `isValid`: an index on the board. */
  predicate IsValid(sq: int) { 0 <= sq < 64 }

  /** `isValidKnightMove`: file and rank distance (1, 2) or (2, 1). */
  predicate IsValidKnightMove(from: Square, to: Square)
  {
    var fd, rd := Abs(FileOf(from) - FileOf(to)), Abs(RankOf(from) - RankOf(to));
    (fd == 1 && rd == 2) || (fd == 2 && rd == 1)
  }

  /** `isValidKingMove`: file and rank distance at most one (true of `from` itself). */
  predicate IsValidKingMove(from: Square, to: Square)
  {
    Abs(FileOf(from) - FileOf(to)) <= 1 && Abs(RankOf(from) - RankOf(to)) <= 1
  }

  const KNIGHT_OFFSETS: seq<int> := [-17, -15, -10, -6, 6, 10, 15, 17]
  const KING_OFFSETS: seq<int> := [-9, -8, -7, -1, 1, 7, 8, 9]

  lemma KnightOffsetValues(d: int)
    requires d in KNIGHT_OFFSETS
    ensures d in {-17, -15, -10, -6, 6, 10, 15, 17}
  {
  }

  lemma KingOffsetValues(d: int)
    requires d in KING_OFFSETS
    ensures d in {-9, -8, -7, -1, 1, 7, 8, 9}
  {
  }

  /** The squares a knight on `sq` attacks. */
  function KnightTargets(sq: Square): Bitboard
  {
    set t: Square | IsValidKnightMove(sq, t)
  }

  /** The squares a king on `sq` attacks: its neighbours, not `sq` itself. */
  function KingTargets(sq: Square): Bitboard
  {
    set t: Square | IsValidKingMove(sq, t) && t != sq
  }

  /** The squares a pawn of colour `c` on `sq` attacks. */
  function PawnTargets(c: Color, sq: Square): Bitboard
  {
    PawnAttacksBB(c, SquareBB(sq))
  }

  /** `a` and `b` are distinct and share a rank, a file or a diagonal. */
  predicate Aligned(a: Square, b: Square)
  {
    var df, dr := FileOf(b) - FileOf(a), RankOf(b) - RankOf(a);
    a != b && (df == 0 || dr == 0 || Abs(df) == Abs(dr))
  }

  /** The number of steps from `a` to `b` along their common line. */
  function Distance(a: Square, b: Square): nat
  {
    var df, dr := Abs(FileOf(b) - FileOf(a)), Abs(RankOf(b) - RankOf(a));
    if df < dr then dr else df
  }

  /** How many steps of the walk from `a` towards `b` reach `t`'s file (or rank,
      on a file); only meaningful when `t` is on that line. */
  function StepsTo(a: Square, b: Square, t: Square): int
  {
    var sf, sr := Step(FileOf(b) - FileOf(a)), Step(RankOf(b) - RankOf(a));
    if sf != 0 then (FileOf(t) - FileOf(a)) * sf else (RankOf(t) - RankOf(a)) * sr
  }

  /** `t` is reached from `a` after `k` steps towards `b`. */
  predicate Reached(a: Square, b: Square, t: Square, k: int)
  {
    FileOf(t) == FileOf(a) + k * Step(FileOf(b) - FileOf(a)) &&
    RankOf(t) == RankOf(a) + k * Step(RankOf(b) - RankOf(a))
  }

  /** `t` is one of the first `n - 1` squares of the walk from `a` towards `b`. */
  predicate OnWalk(a: Square, b: Square, t: Square, n: int)
  {
    var k := StepsTo(a, b, t);
    0 < k < n && Reached(a, b, t, k)
  }

  /** The squares strictly between `a` and `b`: empty unless they are aligned. */
  function BetweenSquares(a: Square, b: Square): Bitboard
  {
    if Aligned(a, b) then Walk(a, b, Distance(a, b)) else {}
  }

  /** The first `n - 1` squares of the walk from `a` towards `b`. */
  function Walk(a: Square, b: Square, n: int): Bitboard
  {
    set t: Square | OnWalk(a, b, t, n)
  }

  // ---------------------------------------------------------------- the offset loops

  /** The squares reached from `sq` by the first offsets that pass the knight test. */
  function KnightFrom(sq: Square, offsets: seq<int>): Bitboard
  {
    set t: Square | t - sq in offsets && IsValidKnightMove(sq, t)
  }

  function KingFrom(sq: Square, offsets: seq<int>): Bitboard
  {
    set t: Square | t - sq in offsets && IsValidKingMove(sq, t)
  }

  /** Every knight move is one of the eight knight offsets. */
  lemma KnightOffsetsComplete(sq: Square, t: Square)
    requires IsValidKnightMove(sq, t)
    ensures t - sq in KNIGHT_OFFSETS
  {
    var fd, rd := FileOf(t) - FileOf(sq), RankOf(t) - RankOf(sq);
    SquareDecomposition(sq);
    SquareDecomposition(t);
    assert t - sq == 8 * rd + fd;
    var i := if rd == -2 then (if fd < 0 then 0 else 1)
             else if rd == -1 then (if fd < 0 then 2 else 3)
             else if rd == 1 then (if fd < 0 then 4 else 5)
             else (if fd < 0 then 6 else 7);
    assert KNIGHT_OFFSETS[i] == t - sq;
  }

  /** Every king move other than standing still is one of the eight king offsets. */
  lemma KingOffsetsComplete(sq: Square, t: Square)
    requires IsValidKingMove(sq, t) && t != sq
    ensures t - sq in KING_OFFSETS
  {
    var fd, rd := FileOf(t) - FileOf(sq), RankOf(t) - RankOf(sq);
    SquareDecomposition(sq);
    SquareDecomposition(t);
    assert t - sq == 8 * rd + fd;
    if rd == -1 {
      assert KING_OFFSETS[fd + 1] == t - sq;
    } else if rd == 0 {
      assert KING_OFFSETS[if fd < 0 then 3 else 4] == t - sq;
    } else {
      assert KING_OFFSETS[fd + 6] == t - sq;
    }
  }

  lemma OffsetsTake(offsets: seq<int>, i: nat)
    requires i < |offsets|
    ensures offsets[..i + 1] == offsets[..i] + [offsets[i]]
  {
  }

  /** The inner loop of the knight table: offsets filtered by `isValid` and
      `isValidKnightMove`. */
  method KnightAttacksFrom(sq: Square) returns (attacks: Bitboard)
    ensures attacks == KnightTargets(sq)
  {
    attacks := EMPTY;
    for i := 0 to |KNIGHT_OFFSETS|
      invariant attacks == KnightFrom(sq, KNIGHT_OFFSETS[..i])
    {
      var to := sq + KNIGHT_OFFSETS[i];
      OffsetsTake(KNIGHT_OFFSETS, i);
      KnightFromStep(sq, KNIGHT_OFFSETS[..i], KNIGHT_OFFSETS[i]);
      if IsValid(to) && IsValidKnightMove(sq, to) {
        attacks := attacks + SquareBB(to);
      }
    }
    KnightFromAll(sq);
  }

  lemma KnightFromStep(sq: Square, offsets: seq<int>, d: int)
    ensures KnightFrom(sq, offsets + [d]) ==
      KnightFrom(sq, offsets) + if IsValid(sq + d) && IsValidKnightMove(sq, sq + d) then {sq + d} else {}
  {
    forall t: Square
      ensures t in KnightFrom(sq, offsets + [d]) <==> t in KnightFrom(sq, offsets) || (t == sq + d && IsValidKnightMove(sq, t))
    {
      KnightFromMember(sq, offsets, d, t);
    }
  }

  lemma KnightFromMember(sq: Square, offsets: seq<int>, d: int, t: Square)
    ensures t in KnightFrom(sq, offsets + [d]) <==> t in KnightFrom(sq, offsets) || (t == sq + d && IsValidKnightMove(sq, t))
  {
    assert t - sq in offsets + [d] <==> t - sq in offsets || t == sq + d;
  }

  /** All the offsets together reach every target. */
  lemma KnightFromAll(sq: Square)
    ensures KnightFrom(sq, KNIGHT_OFFSETS[..|KNIGHT_OFFSETS|]) == KnightTargets(sq)
  {
    assert KNIGHT_OFFSETS[..|KNIGHT_OFFSETS|] == KNIGHT_OFFSETS;
    forall t: Square | IsValidKnightMove(sq, t)
      ensures t in KnightFrom(sq, KNIGHT_OFFSETS)
    {
      KnightOffsetsComplete(sq, t);
    }
  }

  /** The inner loop of the king table. The offsets exclude 0, so `sq` itself
      is never added although `isValidKingMove(sq, sq)` holds. */
  method KingAttacksFrom(sq: Square) returns (attacks: Bitboard)
    ensures attacks == KingTargets(sq)
  {
    attacks := EMPTY;
    for i := 0 to |KING_OFFSETS|
      invariant attacks == KingFrom(sq, KING_OFFSETS[..i])
    {
      var to := sq + KING_OFFSETS[i];
      OffsetsTake(KING_OFFSETS, i);
      KingFromStep(sq, KING_OFFSETS[..i], KING_OFFSETS[i]);
      if IsValid(to) && IsValidKingMove(sq, to) {
        attacks := attacks + SquareBB(to);
      }
    }
    KingFromAll(sq);
  }

  lemma KingFromStep(sq: Square, offsets: seq<int>, d: int)
    ensures KingFrom(sq, offsets + [d]) ==
      KingFrom(sq, offsets) + if IsValid(sq + d) && IsValidKingMove(sq, sq + d) then {sq + d} else {}
  {
    forall t: Square
      ensures t in KingFrom(sq, offsets + [d]) <==> t in KingFrom(sq, offsets) || (t == sq + d && IsValidKingMove(sq, t))
    {
      KingFromMember(sq, offsets, d, t);
    }
  }

  lemma KingFromMember(sq: Square, offsets: seq<int>, d: int, t: Square)
    ensures t in KingFrom(sq, offsets + [d]) <==> t in KingFrom(sq, offsets) || (t == sq + d && IsValidKingMove(sq, t))
  {
    assert t - sq in offsets + [d] <==> t - sq in offsets || t == sq + d;
  }

  /** All the offsets together reach every target. */
  lemma KingFromAll(sq: Square)
    ensures KingFrom(sq, KING_OFFSETS[..|KING_OFFSETS|]) == KingTargets(sq)
  {
    assert KING_OFFSETS[..|KING_OFFSETS|] == KING_OFFSETS;
    forall t: Square | IsValidKingMove(sq, t) && t != sq
      ensures t in KingFrom(sq, KING_OFFSETS)
    {
      KingOffsetsComplete(sq, t);
    }
  }

  /** The between-walk: from `sq1` step by step towards `sq2`, collecting every
      square before `sq2`. */
  method BetweenFrom(sq1: Square, sq2: Square) returns (between: Bitboard)
    ensures between == BetweenSquares(sq1, sq2)
  {
    between := EMPTY;
    if sq1 == sq2 {
      return;
    }
    var file1: int, rank1: int := FileOf(sq1), RankOf(sq1);
    var file2: int, rank2: int := FileOf(sq2), RankOf(sq2);
    var fileDiff, rankDiff := file2 - file1, rank2 - rank1;
    if fileDiff != 0 && rankDiff != 0 && Abs(fileDiff) != Abs(rankDiff) {
      return;
    }
    var fileStep, rankStep := Step(fileDiff), Step(rankDiff);
    var file, rank := file1 + fileStep, rank1 + rankStep;
    ghost var k := 1;
    ghost var n := Distance(sq1, sq2);
    while file != file2 || rank != rank2
      invariant 1 <= k <= n
      invariant file == file1 + k * fileStep && rank == rank1 + k * rankStep
      invariant between == Walk(sq1, sq2, k)
      decreases n - k
    {
      WalkStaysOnBoard(sq1, sq2, k);
      var sq := MakeSquare(file, rank);
      WalkStep(sq1, sq2, k, sq);
      between := between + SquareBB(sq);
      file, rank := file + fileStep, rank + rankStep;
      k := k + 1;
    }
    WalkEnds(sq1, sq2, k);
  }

  // ---------------------------------------------------------------- facts about the walk

  /** Before the walk reaches `b` it is still on the board. */
  lemma WalkStaysOnBoard(a: Square, b: Square, k: int)
    requires Aligned(a, b) && 0 <= k < Distance(a, b)
    ensures 0 <= FileOf(a) + k * Step(FileOf(b) - FileOf(a)) < 8
    ensures 0 <= RankOf(a) + k * Step(RankOf(b) - RankOf(a)) < 8
    ensures FileOf(a) + k * Step(FileOf(b) - FileOf(a)) != FileOf(b) ||
            RankOf(a) + k * Step(RankOf(b) - RankOf(a)) != RankOf(b)
  {
  }

  /** Adding the square reached after `k` steps extends the walk by one. */
  lemma WalkStep(a: Square, b: Square, k: int, sq: Square)
    requires Aligned(a, b) && 0 < k < Distance(a, b) && Reached(a, b, sq, k)
    ensures Walk(a, b, k + 1) == Walk(a, b, k) + {sq}
  {
    assert StepsTo(a, b, sq) == k;
    forall t: Square
      ensures OnWalk(a, b, t, k + 1) <==> OnWalk(a, b, t, k) || t == sq
    {
      if Reached(a, b, t, k) {
        SquareCoords(t, FileOf(sq), RankOf(sq));
        SquareDecomposition(sq);
      }
    }
  }

  /** The walk reaches `b` after exactly `Distance(a, b)` steps. */
  lemma WalkEnds(a: Square, b: Square, k: int)
    requires Aligned(a, b) && 1 <= k <= Distance(a, b)
    requires FileOf(a) + k * Step(FileOf(b) - FileOf(a)) == FileOf(b)
    requires RankOf(a) + k * Step(RankOf(b) - RankOf(a)) == RankOf(b)
    ensures k == Distance(a, b)
  {
  }

  /** The between-walk in the other direction visits the same squares. */
  lemma BetweenSymmetric(a: Square, b: Square)
    ensures BetweenSquares(a, b) == BetweenSquares(b, a)
  {
    if Aligned(a, b) {
      var n := Distance(a, b);
      assert Distance(b, a) == n;
      forall t: Square
        ensures OnWalk(a, b, t, n) <==> OnWalk(b, a, t, n)
      {
        WalkReversed(a, b, t);
      }
      assert Walk(a, b, n) == Walk(b, a, n);
    }
  }

  /** Reaching `t` after `k` steps from `a` is reaching it after `n - k` steps from `b`. */
  lemma WalkReversed(a: Square, b: Square, t: Square)
    requires Aligned(a, b)
    ensures OnWalk(a, b, t, Distance(a, b)) <==> OnWalk(b, a, t, Distance(b, a))
  {
    var n := Distance(a, b);
    var k := StepsTo(a, b, t);
    if OnWalk(a, b, t, n) {
      assert StepsTo(b, a, t) == n - k;
    }
    if OnWalk(b, a, t, n) {
      assert StepsTo(a, b, t) == n - StepsTo(b, a, t);
    }
  }

  /** Neither end square is between. */
  lemma BetweenExcludesEnds(a: Square, b: Square)
    ensures a !in BetweenSquares(a, b) && b !in BetweenSquares(a, b)
  {
  }

  /** A pawn attacks the two squares diagonally forward for its colour, the
      ones that are on the board. */
  lemma PawnTargetsSpec(c: Color, sq: Square, t: Square)
    ensures t in PawnTargets(c, sq) <==>
      Abs(FileOf(t) - FileOf(sq)) == 1 && RankOf(t) == RankOf(sq) + Forward(c)
  {
    PawnAttackWestSpec(c, SquareBB(sq), t);
    PawnAttackEastSpec(c, SquareBB(sq), t);
    var r := RankOf(t) - Forward(c);
    if 0 <= r < 8 {
      if FileOf(t) < 7 {
        SquareCoords(sq, FileOf(t) + 1, r);
      }
      if FileOf(t) > 0 {
        SquareCoords(sq, FileOf(t) - 1, r);
      }
    }
  }

  /** A square a knight's jump away, given by file and rank. */
  lemma KnightReaches(sq: Square, t: Square, f: Coord, r: Coord, tf: Coord, tr: Coord)
    requires FileOf(sq) == f && RankOf(sq) == r && FileOf(t) == tf && RankOf(t) == tr
    requires ((tf - f == 1 || f - tf == 1) && (tr - r == 2 || r - tr == 2)) ||
             ((tf - f == 2 || f - tf == 2) && (tr - r == 1 || r - tr == 1))
    ensures t in KnightTargets(sq)
  {
  }

  /** A neighbouring square, given by file and rank. */
  lemma KingReaches(sq: Square, t: Square, f: Coord, r: Coord, tf: Coord, tr: Coord)
    requires FileOf(sq) == f && RankOf(sq) == r && FileOf(t) == tf && RankOf(t) == tr && sq != t
    requires -1 <= tf - f <= 1 && -1 <= tr - r <= 1
    ensures t in KingTargets(sq)
  {
  }

  /** Eight squares in increasing order make a set of eight. */
  lemma EightSquares(a: Square, b: Square, c: Square, d: Square, e: Square, f: Square, g: Square, h: Square)
    requires a < b < c < d < e < f < g < h
    ensures |{a, b, c, d, e, f, g, h}| == 8
  {
  }

  /** A knight on e4 has eight targets. */
  lemma KnightOnE4()
    ensures KnightTargets(28) == {11, 13, 18, 22, 34, 38, 43, 45}
    ensures |KnightTargets(28)| == 8
  {
    KnightOnE4Within();
    KnightOnE4Reaches();
    EightSquares(11, 13, 18, 22, 34, 38, 43, 45);
  }

  lemma KnightOnE4Within()
    ensures KnightTargets(28) <= {11, 13, 18, 22, 34, 38, 43, 45}
  {
    forall t: Square | t in KnightTargets(28)
      ensures t in {11, 13, 18, 22, 34, 38, 43, 45}
    {
      KnightOffsetsComplete(28, t);
      KnightOffsetValues(t - 28);
    }
  }

  lemma KnightOnE4Reaches()
    ensures {11, 13, 18, 22, 34, 38, 43, 45} <= KnightTargets(28)
  {
    KnightReaches(28, 11, 4, 3, 3, 1);
    KnightReaches(28, 13, 4, 3, 5, 1);
    KnightReaches(28, 18, 4, 3, 2, 2);
    KnightReaches(28, 22, 4, 3, 6, 2);
    KnightReaches(28, 34, 4, 3, 2, 4);
    KnightReaches(28, 38, 4, 3, 6, 4);
    KnightReaches(28, 43, 4, 3, 3, 5);
    KnightReaches(28, 45, 4, 3, 5, 5);
  }

  /** A knight on a1 has two targets. */
  lemma KnightOnA1()
    ensures KnightTargets(A1) == {10, 17}
    ensures |KnightTargets(A1)| == 2
  {
    KnightOnA1Within();
    KnightReaches(A1, 10, 0, 0, 2, 1);
    KnightReaches(A1, 17, 0, 0, 1, 2);
  }

  lemma KnightOnA1Within()
    ensures KnightTargets(A1) <= {10, 17}
  {
    forall t: Square | t in KnightTargets(A1)
      ensures t in {10, 17}
    {
      KnightOffsetsComplete(A1, t);
      KnightOffsetValues(t - A1);
    }
  }

  /** A king on e4 has eight targets. */
  lemma KingOnE4()
    ensures KingTargets(28) == {19, 20, 21, 27, 29, 35, 36, 37}
    ensures |KingTargets(28)| == 8
  {
    KingOnE4Within();
    KingOnE4Reaches();
    EightSquares(19, 20, 21, 27, 29, 35, 36, 37);
  }

  lemma KingOnE4Within()
    ensures KingTargets(28) <= {19, 20, 21, 27, 29, 35, 36, 37}
  {
    forall t: Square | t in KingTargets(28)
      ensures t in {19, 20, 21, 27, 29, 35, 36, 37}
    {
      KingOffsetsComplete(28, t);
      KingOffsetValues(t - 28);
    }
  }

  lemma KingOnE4Reaches()
    ensures {19, 20, 21, 27, 29, 35, 36, 37} <= KingTargets(28)
  {
    KingReaches(28, 19, 4, 3, 3, 2);
    KingReaches(28, 20, 4, 3, 4, 2);
    KingReaches(28, 21, 4, 3, 5, 2);
    KingReaches(28, 27, 4, 3, 3, 3);
    KingReaches(28, 29, 4, 3, 5, 3);
    KingReaches(28, 35, 4, 3, 3, 4);
    KingReaches(28, 36, 4, 3, 4, 4);
    KingReaches(28, 37, 4, 3, 5, 4);
  }

  /** A king on a1 has three targets. */
  lemma KingOnA1()
    ensures KingTargets(A1) == {1, 8, 9}
    ensures |KingTargets(A1)| == 3
  {
    KingOnA1Within();
    KingReaches(A1, 1, 0, 0, 1, 0);
    KingReaches(A1, 8, 0, 0, 0, 1);
    KingReaches(A1, 9, 0, 0, 1, 1);
  }

  lemma KingOnA1Within()
    ensures KingTargets(A1) <= {1, 8, 9}
  {
    forall t: Square | t in KingTargets(A1)
      ensures t in {1, 8, 9}
    {
      KingOffsetsComplete(A1, t);
      KingOffsetValues(t - A1);
    }
  }

  // ---------------------------------------------------------------- the tables

  /** The global tables `PawnAttacks[2][64]`, `KnightAttacks[64]`,
      `KingAttacks[64]` and `BetweenBB[64][64]`. */
  class Tables {
    var pawnAttacks: array2<Bitboard>
    var knightAttacks: array<Bitboard>
    var kingAttacks: array<Bitboard>
    var betweenBB: array2<Bitboard>

    /** Every entry holds the set its index stands for. */
    ghost predicate Valid()
      reads this, pawnAttacks, knightAttacks, kingAttacks, betweenBB
    {
      pawnAttacks.Length0 == 2 && pawnAttacks.Length1 == 64 &&
      knightAttacks.Length == 64 && kingAttacks.Length == 64 &&
      betweenBB.Length0 == 64 && betweenBB.Length1 == 64 &&
      (forall c: Color, sq: Square :: pawnAttacks[c, sq] == PawnTargets(c, sq)) &&
      (forall sq: Square :: knightAttacks[sq] == KnightTargets(sq)) &&
      (forall sq: Square :: kingAttacks[sq] == KingTargets(sq)) &&
      (forall a: Square, b: Square :: betweenBB[a, b] == BetweenSquares(a, b))
    }

    /** `init`: fills the four tables square by square. */
    constructor Init()
      ensures Valid()
      ensures fresh(pawnAttacks) && fresh(knightAttacks) && fresh(kingAttacks) && fresh(betweenBB)
    {
      var pawns := InitPawnAttacks();
      var knights := InitKnightAttacks();
      var kings := InitKingAttacks();
      var between := InitBetween();
      pawnAttacks, knightAttacks, kingAttacks, betweenBB := pawns, knights, kings, between;
    }
  }

  method InitPawnAttacks() returns (pawns: array2<Bitboard>)
    ensures fresh(pawns) && pawns.Length0 == 2 && pawns.Length1 == 64
    ensures forall c: Color, sq: Square :: pawns[c, sq] == PawnTargets(c, sq)
  {
    pawns := new Bitboard[2, 64];
    for sq := 0 to 64
      invariant forall c: Color, s: Square :: s < sq ==> pawns[c, s] == PawnTargets(c, s)
    {
      var bb := SquareBB(sq);
      pawns[WHITE, sq] := PawnAttackWest(WHITE, bb) + PawnAttackEast(WHITE, bb);
      pawns[BLACK, sq] := PawnAttackWest(BLACK, bb) + PawnAttackEast(BLACK, bb);
    }
  }

  method InitKnightAttacks() returns (knights: array<Bitboard>)
    ensures fresh(knights) && knights.Length == 64
    ensures forall sq: Square :: knights[sq] == KnightTargets(sq)
  {
    knights := new Bitboard[64];
    for sq := 0 to 64
      invariant forall s: Square :: s < sq ==> knights[s] == KnightTargets(s)
    {
      knights[sq] := KnightAttacksFrom(sq);
    }
  }

  method InitKingAttacks() returns (kings: array<Bitboard>)
    ensures fresh(kings) && kings.Length == 64
    ensures forall sq: Square :: kings[sq] == KingTargets(sq)
  {
    kings := new Bitboard[64];
    for sq := 0 to 64
      invariant forall s: Square :: s < sq ==> kings[s] == KingTargets(s)
    {
      kings[sq] := KingAttacksFrom(sq);
    }
  }

  method InitBetween() returns (between: array2<Bitboard>)
    ensures fresh(between) && between.Length0 == 64 && between.Length1 == 64
    ensures forall a: Square, b: Square :: between[a, b] == BetweenSquares(a, b)
  {
    between := new Bitboard[64, 64];
    for sq1 := 0 to 64
      invariant forall a: Square, b: Square :: a < sq1 ==> between[a, b] == BetweenSquares(a, b)
    {
      for sq2 := 0 to 64
        invariant forall a: Square, b: Square :: a < sq1 ==> between[a, b] == BetweenSquares(a, b)
        invariant forall b: Square :: b < sq2 ==> between[sq1, b] == BetweenSquares(sq1, b)
      {
        between[sq1, sq2] := BetweenFrom(sq1, sq2);
      }
    }
  }
}

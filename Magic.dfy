/** Sliding-piece attacks (src/Magic.cpp). `slidingAttacks` walks from a square
    in each of four directions until it leaves the board or meets an occupied
    square; `relevantOccupancy` collects the squares whose occupancy can stop a
    walk. The walks step a square index by a direction offset and catch
    wrap-around with file tests; the specification below steps in file and rank
    coordinates instead, where no wrap-around can happen, and the loops are
    proved to agree with it. Rook and bishop attacks are the sliding attacks for
    the rook and bishop directions, and the line and between tables are built
    from them. */
module Magic {
  import opened Types
  import opened Bitboard
  import AttackTables

  const ROOK_DIRECTIONS: seq<Direction> := [8, -8, 1, -1]
  const BISHOP_DIRECTIONS: seq<Direction> := [9, 7, -7, -9]

  /** A direction offset: a step to a neighbouring square. */
  type Direction = d: int | d == 8 || d == -8 || d == 1 || d == -1 || d == 9 || d == 7 || d == -7 || d == -9
    witness 8

  function FileStep(dir: Direction): int
  {
    if dir == 1 || dir == 9 || dir == -7 then 1
    else if dir == -1 || dir == 7 || dir == -9 then -1
    else 0
  }

  function RankStep(dir: Direction): int
  {
    if dir == 8 || dir == 9 || dir == 7 then 1
    else if dir == -8 || dir == -7 || dir == -9 then -1
    else 0
  }

  /** The neighbour of `cur` in direction `dir` is on the board. */
  predicate HasNext(cur: Square, dir: Direction)
  {
    0 <= FileOf(cur) + FileStep(dir) < 8 && 0 <= RankOf(cur) + RankStep(dir) < 8
  }

  /** The neighbour: one step in file and rank coordinates, which is the square
      index plus the offset. */
  function Next(cur: Square, dir: Direction): (n: Square)
    requires HasNext(cur, dir)
    ensures FileOf(n) == FileOf(cur) + FileStep(dir) && RankOf(n) == RankOf(cur) + RankStep(dir)
  {
    StepIsOffset(cur, dir);
    cur + dir
  }

  lemma StepIsOffset(cur: Square, dir: Direction)
    requires HasNext(cur, dir)
    ensures 0 <= cur + dir < 64
    ensures FileOf(cur + dir) == FileOf(cur) + FileStep(dir)
    ensures RankOf(cur + dir) == RankOf(cur) + RankStep(dir)
  {
    var f: int, r: int := FileOf(cur), RankOf(cur);
    Coordinates(cur, f, r);
    Coordinates(cur + dir, f + FileStep(dir), r + RankStep(dir));
  }

  /** How many steps in direction `dir` stay on the board. */
  function Room(cur: Square, dir: Direction): (n: nat)
    ensures n > 0 <==> HasNext(cur, dir)
  {
    var fr := if FileStep(dir) > 0 then 7 - FileOf(cur) else if FileStep(dir) < 0 then FileOf(cur) else 7;
    var rr := if RankStep(dir) > 0 then 7 - RankOf(cur) else if RankStep(dir) < 0 then RankOf(cur) else 7;
    if fr < rr then fr else rr
  }

  lemma RoomNext(cur: Square, dir: Direction)
    requires HasNext(cur, dir)
    ensures Room(Next(cur, dir), dir) == Room(cur, dir) - 1
  {
  }

  /** The squares a slider on `cur` attacks in direction `dir`: every square up
      to and including the first occupied one. */
  function Ray(cur: Square, dir: Direction, occupied: Bitboard): Bitboard
    decreases Room(cur, dir)
  {
    if !HasNext(cur, dir) then {}
    else
      var next := Next(cur, dir);
      RoomNext(cur, dir);
      if next in occupied then {next} else {next} + Ray(next, dir, occupied)
  }

  lemma RayStep(cur: Square, dir: Direction, occupied: Bitboard)
    requires HasNext(cur, dir)
    ensures Ray(cur, dir, occupied) ==
      {Next(cur, dir)} + if Next(cur, dir) in occupied then {} else Ray(Next(cur, dir), dir, occupied)
  {
  }

  /** The union of the rays in the given directions. */
  function Sliding(sq: Square, occupied: Bitboard, dirs: seq<Direction>): Bitboard
  {
    if |dirs| == 0 then {}
    else Sliding(sq, occupied, dirs[..|dirs| - 1]) + Ray(sq, dirs[|dirs| - 1], occupied)
  }

  /** The squares of a ray whose occupancy can stop it: all but the one on the
      edge, where the ray ends anyway. */
  function RelevantRay(cur: Square, dir: Direction): Bitboard
    decreases Room(cur, dir)
  {
    if !HasNext(cur, dir) then {}
    else
      var next := Next(cur, dir);
      RoomNext(cur, dir);
      if !HasNext(next, dir) then {} else {next} + RelevantRay(next, dir)
  }

  function Relevant(sq: Square, dirs: seq<Direction>): Bitboard
  {
    if |dirs| == 0 then {}
    else Relevant(sq, dirs[..|dirs| - 1]) + RelevantRay(sq, dirs[|dirs| - 1])
  }

  // ---------------------------------------------------------------- the walks of the source

  /** The loop's exit test after `to += dir`: off the board, or wrapped round
      from one edge file to the other. */
  predicate Wraps(dir: Direction, to: int)
  {
    to < 0 || to >= 64 ||
    (dir == 1 && FileOf(to) == FILE_A) ||
    (dir == -1 && FileOf(to) == FILE_H) ||
    (dir == 9 && FileOf(to) == FILE_A) ||
    (dir == 7 && FileOf(to) == FILE_H) ||
    (dir == -7 && FileOf(to) == FILE_A) ||
    (dir == -9 && FileOf(to) == FILE_H)
  }

  /** The `atEdge` test of `relevantOccupancy`. */
  predicate AtEdge(dir: Direction, to: Square)
  {
    (dir == 8 && RankOf(to) == RANK_8) ||
    (dir == -8 && RankOf(to) == RANK_1) ||
    (dir == 1 && FileOf(to) == FILE_H) ||
    (dir == -1 && FileOf(to) == FILE_A) ||
    (dir == 9 && (RankOf(to) == RANK_8 || FileOf(to) == FILE_H)) ||
    (dir == 7 && (RankOf(to) == RANK_8 || FileOf(to) == FILE_A)) ||
    (dir == -7 && (RankOf(to) == RANK_1 || FileOf(to) == FILE_H)) ||
    (dir == -9 && (RankOf(to) == RANK_1 || FileOf(to) == FILE_A))
  }

  lemma Coordinates(to: int, f: int, r: int)
    requires to == 8 * r + f && 0 <= f < 8 && 0 <= r < 8
    ensures 0 <= to < 64 && FileOf(to) == f && RankOf(to) == r
  {
  }

  /** Adding the offset and testing for wrap-around is stepping in file and
      rank coordinates. */
  lemma WrapsIsOffBoard(cur: Square, dir: Direction)
    ensures Wraps(dir, cur + dir) <==> !HasNext(cur, dir)
    ensures !Wraps(dir, cur + dir) ==> cur + dir == Next(cur, dir)
  {
    var f: int, r: int := FileOf(cur), RankOf(cur);
    Coordinates(cur, f, r);
    if 0 <= cur + dir < 64 {
      var to: Square := cur + dir;
      var fs, rs := FileStep(dir), RankStep(dir);
      if 0 <= f + fs < 8 {
        Coordinates(to, f + fs, r + rs);
      } else if f + fs == 8 {
        Coordinates(to, 0, r + rs + 1);
      } else {
        Coordinates(to, 7, r + rs - 1);
      }
    }
  }

  /** A square is at the edge for a direction when no step is left after it. */
  lemma AtEdgeIsLast(to: Square, dir: Direction)
    ensures AtEdge(dir, to) <==> !HasNext(to, dir)
  {
  }

  /** One direction of `slidingAttacks`: the `while (true)` walk. */
  method WalkRay(sq: Square, dir: Direction, occupied: Bitboard) returns (ray: Bitboard)
    ensures ray == Ray(sq, dir, occupied)
  {
    ray := EMPTY;
    var to: int := sq;
    ghost var cur: Square := sq;
    while true
      invariant to == cur
      invariant ray + Ray(cur, dir, occupied) == Ray(sq, dir, occupied)
      decreases Room(cur, dir)
    {
      WrapsIsOffBoard(cur, dir);
      to := to + dir;
      if Wraps(dir, to) {
        break;
      }
      RoomNext(cur, dir);
      RayStep(cur, dir, occupied);
      ray := ray + SquareBB(to);
      if to in occupied {
        break;
      }
      cur := to;
    }
  }

  /** `slidingAttacks(sq, occupied, directions)`: the union of the four walks. */
  method SlidingAttacks(sq: Square, occupied: Bitboard, directions: seq<Direction>) returns (attacks: Bitboard)
    requires |directions| == 4
    ensures attacks == Sliding(sq, occupied, directions)
  {
    attacks := EMPTY;
    for i := 0 to 4
      invariant attacks == Sliding(sq, occupied, directions[..i])
    {
      var ray := WalkRay(sq, directions[i], occupied);
      attacks := attacks + ray;
      assert directions[..i + 1][..i] == directions[..i];
    }
    assert directions[..4] == directions;
  }

  /** One direction of `relevantOccupancy`: the walk that stops at the edge
      square without adding it. */
  method WalkRelevant(sq: Square, dir: Direction) returns (mask: Bitboard)
    ensures mask == RelevantRay(sq, dir)
  {
    mask := EMPTY;
    var to: int := sq;
    ghost var cur: Square := sq;
    while true
      invariant to == cur
      invariant mask + RelevantRay(cur, dir) == RelevantRay(sq, dir)
      decreases Room(cur, dir)
    {
      WrapsIsOffBoard(cur, dir);
      to := to + dir;
      if Wraps(dir, to) {
        break;
      }
      RoomNext(cur, dir);
      AtEdgeIsLast(to, dir);
      var atEdge := AtEdge(dir, to);
      if !atEdge {
        mask := mask + SquareBB(to);
      }
      if atEdge {
        break;
      }
      cur := to;
    }
  }

  /** `relevantOccupancy(sq, directions)`. */
  method RelevantOccupancy(sq: Square, directions: seq<Direction>) returns (mask: Bitboard)
    requires |directions| == 4
    ensures mask == Relevant(sq, directions)
  {
    mask := EMPTY;
    for i := 0 to 4
      invariant mask == Relevant(sq, directions[..i])
    {
      var ray := WalkRelevant(sq, directions[i]);
      mask := mask + ray;
      assert directions[..i + 1][..i] == directions[..i];
    }
    assert directions[..4] == directions;
  }

  // ---------------------------------------------------------------- what the walks compute

  /** The relevant squares of a ray are the squares of the ray on an empty
      board, except the last one. */
  lemma {:induction false} RelevantRaySpec(cur: Square, dir: Direction, t: Square)
    ensures t in RelevantRay(cur, dir) <==> t in Ray(cur, dir, {}) && HasNext(t, dir)
    decreases Room(cur, dir)
  {
    if HasNext(cur, dir) {
      var next := Next(cur, dir);
      RoomNext(cur, dir);
      RelevantRaySpec(next, dir, t);
      if !HasNext(next, dir) {
        assert Ray(next, dir, {}) == {};
      }
    }
  }

  /** Only the relevant squares can stop a ray: masking the occupancy with them
      changes nothing. */
  lemma {:induction false} RayMasked(cur: Square, dir: Direction, occupied: Bitboard)
    ensures Ray(cur, dir, occupied) == Ray(cur, dir, occupied * RelevantRay(cur, dir))
    decreases Room(cur, dir)
  {
    if HasNext(cur, dir) {
      var next := Next(cur, dir);
      RoomNext(cur, dir);
      if HasNext(next, dir) {
        var masked := occupied * RelevantRay(cur, dir);
        RayMasked(next, dir, occupied);
        RayMasked(next, dir, masked);
        assert masked * RelevantRay(next, dir) == occupied * RelevantRay(next, dir);
      } else {
        assert Ray(next, dir, occupied) == {};
        assert Ray(next, dir, occupied * RelevantRay(cur, dir)) == {};
      }
    }
  }

  /** A ray is blocked by a superset of the squares it needs only through them. */
  lemma RayMaskedBy(cur: Square, dir: Direction, occupied: Bitboard, mask: Bitboard)
    requires RelevantRay(cur, dir) <= mask
    ensures Ray(cur, dir, occupied * mask) == Ray(cur, dir, occupied)
  {
    RayMasked(cur, dir, occupied * mask);
    RayMasked(cur, dir, occupied);
    assert occupied * mask * RelevantRay(cur, dir) == occupied * RelevantRay(cur, dir);
  }

  lemma {:induction false} RelevantContains(sq: Square, dirs: seq<Direction>, i: nat)
    requires i < |dirs|
    ensures RelevantRay(sq, dirs[i]) <= Relevant(sq, dirs)
    decreases |dirs|
  {
    if i < |dirs| - 1 {
      RelevantContains(sq, dirs[..|dirs| - 1], i);
    }
  }

  /** Sliding attacks depend on the occupancy only through the relevant mask:
      this is what lets the engine index its tables by `occupied & mask`. */
  lemma {:induction false} SlidingMasked(sq: Square, occupied: Bitboard, dirs: seq<Direction>)
    ensures Sliding(sq, occupied * Relevant(sq, dirs), dirs) == Sliding(sq, occupied, dirs)
  {
    SlidingMaskedPrefix(sq, occupied, dirs, |dirs|);
    assert dirs[..|dirs|] == dirs;
  }

  lemma {:induction false} SlidingMaskedPrefix(sq: Square, occupied: Bitboard, dirs: seq<Direction>, n: nat)
    requires n <= |dirs|
    ensures Sliding(sq, occupied * Relevant(sq, dirs), dirs[..n]) == Sliding(sq, occupied, dirs[..n])
    decreases n
  {
    if n > 0 {
      SlidingMaskedPrefix(sq, occupied, dirs, n - 1);
      assert dirs[..n][..n - 1] == dirs[..n - 1];
      RelevantContains(sq, dirs, n - 1);
      RayMaskedBy(sq, dirs[n - 1], occupied, Relevant(sq, dirs));
    }
  }

  // ---------------------------------------------------------------- rook, bishop and queen

  /** `rookAttacks`: the lookup the magic numbers index, equal to the sliding
      attacks in the rook directions. */
  function RookAttacks(sq: Square, occupied: Bitboard): Bitboard
  {
    Sliding(sq, occupied, ROOK_DIRECTIONS)
  }

  function BishopAttacks(sq: Square, occupied: Bitboard): Bitboard
  {
    Sliding(sq, occupied, BISHOP_DIRECTIONS)
  }

  /** `queenAttacks` (inc/Magic.h). */
  function QueenAttacks(sq: Square, occupied: Bitboard): Bitboard
  {
    RookAttacks(sq, occupied) + BishopAttacks(sq, occupied)
  }

  // ---------------------------------------------------------------- what a ray is

  function Scale(k: int, s: int): int { if s > 0 then k else if s < 0 then -k else 0 }

  /** How many steps in direction `dir` lead from `cur` to `t`'s file (or rank,
      for a file direction). */
  function Ahead(cur: Square, dir: Direction, t: Square): int
  {
    var df, dr := FileOf(t) - FileOf(cur), RankOf(t) - RankOf(cur);
    if FileStep(dir) > 0 then df else if FileStep(dir) < 0 then -df
    else if RankStep(dir) > 0 then dr else -dr
  }

  /** `t` lies on the half-line from `cur` in direction `dir`, beyond `cur`. */
  predicate Along(cur: Square, dir: Direction, t: Square)
  {
    var k := Ahead(cur, dir, t);
    k > 0 && FileOf(t) == FileOf(cur) + Scale(k, FileStep(dir)) &&
    RankOf(t) == RankOf(cur) + Scale(k, RankStep(dir))
  }

  /** One step along the half-line: the squares beyond `Next(cur, dir)` are the
      squares more than one step beyond `cur`. */
  lemma AlongStep(cur: Square, dir: Direction, t: Square)
    requires HasNext(cur, dir)
    ensures Ahead(Next(cur, dir), dir, t) == Ahead(cur, dir, t) - 1
    ensures Along(Next(cur, dir), dir, t) <==> Along(cur, dir, t) && Ahead(cur, dir, t) > 1
  {
  }

  /** The first square of the half-line is the neighbour. */
  lemma AlongFirst(cur: Square, dir: Direction, t: Square)
    requires HasNext(cur, dir)
    ensures Along(cur, dir, t) && Ahead(cur, dir, t) == 1 <==> t == Next(cur, dir)
  {
    if Along(cur, dir, t) && Ahead(cur, dir, t) == 1 {
      SquareDecomposition(t);
      SquareDecomposition(Next(cur, dir));
    }
  }

  /** On an empty board a ray holds exactly the squares of its half-line up to
      the edge of the board: it never wraps round to another file. */
  lemma {:induction false} RayEmptySpec(cur: Square, dir: Direction, t: Square)
    ensures t in Ray(cur, dir, {}) <==> Along(cur, dir, t) && Ahead(cur, dir, t) <= Room(cur, dir)
    decreases Room(cur, dir)
  {
    if HasNext(cur, dir) {
      var next := Next(cur, dir);
      RoomNext(cur, dir);
      RayStep(cur, dir, {});
      RayEmptySpec(next, dir, t);
      AlongStep(cur, dir, t);
      AlongFirst(cur, dir, t);
    }
  }

  /** A ray on an empty board has one square for every step of room. */
  lemma {:induction false} RayEmptyCount(cur: Square, dir: Direction)
    ensures |Ray(cur, dir, {})| == Room(cur, dir)
    decreases Room(cur, dir)
  {
    if HasNext(cur, dir) {
      var next := Next(cur, dir);
      RoomNext(cur, dir);
      RayStep(cur, dir, {});
      RayEmptyCount(next, dir);
      RayEmptySpec(next, dir, next);
    }
  }

  /** No occupied square of the half-line comes before `t`. */
  predicate Unblocked(cur: Square, dir: Direction, occupied: Bitboard, t: Square)
  {
    forall u :: u in occupied && u in Ray(cur, dir, {}) ==> Ahead(cur, dir, t) <= Ahead(cur, dir, u)
  }

  /** Past an empty neighbour, the blockers before `t` are the same. */
  lemma UnblockedStep(cur: Square, dir: Direction, occupied: Bitboard, t: Square)
    requires HasNext(cur, dir) && Next(cur, dir) !in occupied
    ensures Unblocked(cur, dir, occupied, t) <==> Unblocked(Next(cur, dir), dir, occupied, t)
  {
    var next := Next(cur, dir);
    RoomNext(cur, dir);
    RayStep(cur, dir, {});
    AlongStep(cur, dir, t);
    forall u | u in occupied
      ensures u in Ray(cur, dir, {}) <==> u in Ray(next, dir, {})
      ensures Ahead(next, dir, u) == Ahead(cur, dir, u) - 1
    {
      AlongStep(cur, dir, u);
    }
  }

  /** A ray holds the squares of the empty-board ray up to and including the
      first occupied one, and nothing past it. */
  lemma {:induction false} RaySpec(cur: Square, dir: Direction, occupied: Bitboard, t: Square)
    ensures t in Ray(cur, dir, occupied) <==> t in Ray(cur, dir, {}) && Unblocked(cur, dir, occupied, t)
    decreases Room(cur, dir)
  {
    if HasNext(cur, dir) {
      var next := Next(cur, dir);
      RoomNext(cur, dir);
      RayStep(cur, dir, occupied);
      RayStep(cur, dir, {});
      if t == next {
        AlongStep(cur, dir, t);
        forall u | u in occupied && u in Ray(cur, dir, {})
          ensures Ahead(cur, dir, t) <= Ahead(cur, dir, u)
        {
          RayEmptySpec(cur, dir, u);
        }
      } else if next in occupied {
        RayEmptySpec(cur, dir, t);
        AlongFirst(cur, dir, t);
        AlongStep(cur, dir, next);
      } else {
        RaySpec(next, dir, occupied, t);
        UnblockedStep(cur, dir, occupied, t);
      }
    }
  }


  /** A square lies on the half-line of at most one direction. */
  lemma AlongOneDirection(cur: Square, d1: Direction, d2: Direction, t: Square)
    requires Along(cur, d1, t) && Along(cur, d2, t)
    ensures d1 == d2
  {
  }

  /** Every square a ray reaches shares a rank, a file or a diagonal with its
      origin: rays do not wrap across the a- and h-files. */
  lemma RayAligned(cur: Square, dir: Direction, occupied: Bitboard, t: Square)
    requires t in Ray(cur, dir, occupied)
    ensures AttackTables.Aligned(cur, t)
  {
    RaySpec(cur, dir, occupied, t);
    RayEmptySpec(cur, dir, t);
  }

  lemma {:induction false} SlidingMember(sq: Square, occupied: Bitboard, dirs: seq<Direction>, t: Square)
    ensures t in Sliding(sq, occupied, dirs) <==> exists i :: 0 <= i < |dirs| && t in Ray(sq, dirs[i], occupied)
  {
    if |dirs| > 0 {
      var front, last := dirs[..|dirs| - 1], dirs[|dirs| - 1];
      SlidingMember(sq, occupied, front, t);
      assert Sliding(sq, occupied, dirs) == Sliding(sq, occupied, front) + Ray(sq, last, occupied);
      if t in Sliding(sq, occupied, front) {
        var i :| 0 <= i < |front| && t in Ray(sq, front[i], occupied);
        assert dirs[i] == front[i];
        assert 0 <= i < |dirs| && t in Ray(sq, dirs[i], occupied);
      } else if t in Ray(sq, last, occupied) {
        var i := |dirs| - 1;
        assert 0 <= i < |dirs| && t in Ray(sq, dirs[i], occupied);
      } else {
        forall i | 0 <= i < |dirs|
          ensures t !in Ray(sq, dirs[i], occupied)
        {
          if i < |front| {
            assert dirs[i] == front[i];
          }
        }
      }
    }
  }



  predicate Distinct(dirs: seq<Direction>)
  {
    forall i, j :: 0 <= i < j < |dirs| ==> dirs[i] != dirs[j]
  }

  /** No direction is listed twice, for the rook, the bishop or the queen. */
  lemma DirectionsDistinct()
    ensures Distinct(ROOK_DIRECTIONS) && Distinct(BISHOP_DIRECTIONS)
    ensures Distinct(ROOK_DIRECTIONS + BISHOP_DIRECTIONS)
  {
    var all := ROOK_DIRECTIONS + BISHOP_DIRECTIONS;
    assert all == [8, -8, 1, -1, 9, 7, -7, -9];
  }

  /** The room left in each of the directions, added up. */
  function RoomSum(sq: Square, dirs: seq<Direction>): nat
  {
    if |dirs| == 0 then 0 else RoomSum(sq, dirs[..|dirs| - 1]) + Room(sq, dirs[|dirs| - 1])
  }

  /** On an empty board the rays in distinct directions share no square, so the
      sliding attacks count the room in every direction. */
  lemma {:induction false} SlidingEmptyCount(sq: Square, dirs: seq<Direction>)
    requires Distinct(dirs)
    ensures |Sliding(sq, {}, dirs)| == RoomSum(sq, dirs)
  {
    if |dirs| > 0 {
      var front, last := dirs[..|dirs| - 1], dirs[|dirs| - 1];
      SlidingEmptyCount(sq, front);
      RayEmptyCount(sq, last);
      forall t | t in Sliding(sq, {}, front)
        ensures t !in Ray(sq, last, {})
      {
        SlidingMember(sq, {}, front, t);
        var i :| 0 <= i < |front| && t in Ray(sq, front[i], {});
        RayEmptySpec(sq, front[i], t);
        assert front[i] == dirs[i] != last;
        if t in Ray(sq, last, {}) {
          RayEmptySpec(sq, last, t);
          AlongOneDirection(sq, front[i], last, t);
        }
      }
      assert Sliding(sq, {}, front) * Ray(sq, last, {}) == {};
    }
  }

  lemma {:induction false} SlidingAppend(sq: Square, occupied: Bitboard, a: seq<Direction>, b: seq<Direction>)
    ensures Sliding(sq, occupied, a + b) == Sliding(sq, occupied, a) + Sliding(sq, occupied, b)
  {
    if |b| > 0 {
      var front := b[..|b| - 1];
      assert (a + b)[..|a + b| - 1] == a + front;
      SlidingAppend(sq, occupied, a, front);
    } else {
      assert a + b == a;
    }
  }

  lemma RoomSumLast(sq: Square, dirs: seq<Direction>, d: Direction)
    ensures RoomSum(sq, dirs + [d]) == RoomSum(sq, dirs) + Room(sq, d)
  {
    assert (dirs + [d])[..|dirs|] == dirs;
  }

  lemma {:induction false} RoomSumAppend(sq: Square, a: seq<Direction>, b: seq<Direction>)
    ensures RoomSum(sq, a + b) == RoomSum(sq, a) + RoomSum(sq, b)
  {
    if |b| > 0 {
      var front := b[..|b| - 1];
      assert (a + b)[..|a + b| - 1] == a + front;
      RoomSumAppend(sq, a, front);
    } else {
      assert a + b == a;
    }
  }

  /** The four rook directions, added up one at a time. */
  lemma RookRoom(sq: Square)
    ensures RoomSum(sq, ROOK_DIRECTIONS) == Room(sq, 8) + Room(sq, -8) + Room(sq, 1) + Room(sq, -1)
  {
    var none: seq<Direction> := [];
    RoomSumLast(sq, none, 8);
    assert none + [8] == [8];
    RoomSumLast(sq, [8], -8);
    assert [8] + [-8] == [8, -8];
    RoomSumLast(sq, [8, -8], 1);
    assert [8, -8] + [1] == [8, -8, 1];
    RoomSumLast(sq, [8, -8, 1], -1);
    assert [8, -8, 1] + [-1] == ROOK_DIRECTIONS;
  }

  lemma BishopRoom(sq: Square)
    ensures RoomSum(sq, BISHOP_DIRECTIONS) == Room(sq, 9) + Room(sq, 7) + Room(sq, -7) + Room(sq, -9)
  {
    var none: seq<Direction> := [];
    RoomSumLast(sq, none, 9);
    assert none + [9] == [9];
    RoomSumLast(sq, [9], 7);
    assert [9] + [7] == [9, 7];
    RoomSumLast(sq, [9, 7], -7);
    assert [9, 7] + [-7] == [9, 7, -7];
    RoomSumLast(sq, [9, 7, -7], -9);
    assert [9, 7, -7] + [-9] == BISHOP_DIRECTIONS;
  }

  /** On an empty board a rook attacks the room left in its four directions. */
  lemma RookEmptyCount(sq: Square, n: nat)
    requires n == Room(sq, 8) + Room(sq, -8) + Room(sq, 1) + Room(sq, -1)
    ensures |RookAttacks(sq, {})| == n
  {
    DirectionsDistinct();
    SlidingEmptyCount(sq, ROOK_DIRECTIONS);
    RookRoom(sq);
  }

  lemma BishopEmptyCount(sq: Square, n: nat)
    requires n == Room(sq, 9) + Room(sq, 7) + Room(sq, -7) + Room(sq, -9)
    ensures |BishopAttacks(sq, {})| == n
  {
    DirectionsDistinct();
    SlidingEmptyCount(sq, BISHOP_DIRECTIONS);
    BishopRoom(sq);
  }

  /** The rook and bishop squares of a queen never overlap, so the counts add. */
  lemma QueenEmptyCount(sq: Square, n: nat)
    requires n == Room(sq, 8) + Room(sq, -8) + Room(sq, 1) + Room(sq, -1) +
                  Room(sq, 9) + Room(sq, 7) + Room(sq, -7) + Room(sq, -9)
    ensures |QueenAttacks(sq, {})| == n
  {
    var all := ROOK_DIRECTIONS + BISHOP_DIRECTIONS;
    assert all == [8, -8, 1, -1, 9, 7, -7, -9];
    SlidingAppend(sq, {}, ROOK_DIRECTIONS, BISHOP_DIRECTIONS);
    DirectionsDistinct();
    SlidingEmptyCount(sq, all);
    RoomSumAppend(sq, ROOK_DIRECTIONS, BISHOP_DIRECTIONS);
    RookRoom(sq);
    BishopRoom(sq);
  }

  /** On an empty board a rook on e4 attacks 14 squares, a bishop 13 and a queen 27. */
  lemma EmptyBoardFromE4()
    ensures |RookAttacks(28, {})| == 14
    ensures |BishopAttacks(28, {})| == 13
    ensures |QueenAttacks(28, {})| == 27
  {
    RookEmptyCount(28, 14);
    BishopEmptyCount(28, 13);
    QueenEmptyCount(28, 27);
  }

  /** A bishop on f8 does not reach h1, whatever the occupancy. */
  lemma BishopOnF8MissesH1(occupied: Bitboard)
    ensures H1 !in BishopAttacks(F8, occupied)
  {
    SlidingMember(F8, occupied, BISHOP_DIRECTIONS, H1);
    forall i | 0 <= i < |BISHOP_DIRECTIONS|
      ensures H1 !in Ray(F8, BISHOP_DIRECTIONS[i], occupied)
    {
      if H1 in Ray(F8, BISHOP_DIRECTIONS[i], occupied) {
        RayAligned(F8, BISHOP_DIRECTIONS[i], occupied, H1);
      }
    }
  }

  /** A square of the half-line is on the board, so the walk reaches it. */
  lemma AlongInRoom(cur: Square, dir: Direction, t: Square)
    requires Along(cur, dir, t)
    ensures Ahead(cur, dir, t) <= Room(cur, dir)
  {
  }

  /** On an empty board a ray is its whole half-line. */
  lemma RayEmptyMember(cur: Square, dir: Direction, t: Square)
    ensures t in Ray(cur, dir, {}) <==> Along(cur, dir, t)
  {
    RayEmptySpec(cur, dir, t);
    if Along(cur, dir, t) {
      AlongInRoom(cur, dir, t);
    }
  }

  /** A square on a line through `sq` is on the half-line of the direction
      pointing at it. */
  lemma AlongTowards(sq: Square, t: Square, dir: Direction)
    requires t != sq
    requires FileStep(dir) == AttackTables.Step(FileOf(t) - FileOf(sq))
    requires RankStep(dir) == AttackTables.Step(RankOf(t) - RankOf(sq))
    requires FileOf(t) == FileOf(sq) || RankOf(t) == RankOf(sq) ||
             Abs(FileOf(t) - FileOf(sq)) == Abs(RankOf(t) - RankOf(sq))
    ensures Along(sq, dir, t)
  {
    SquareDecomposition(t);
    SquareDecomposition(sq);
  }

  /** The shape of a half-line: along a file, a rank or a diagonal. */
  lemma AlongShape(sq: Square, dir: Direction, t: Square)
    requires Along(sq, dir, t)
    ensures t != sq
    ensures FileStep(dir) == 0 ==> FileOf(t) == FileOf(sq)
    ensures RankStep(dir) == 0 ==> RankOf(t) == RankOf(sq)
    ensures FileStep(dir) != 0 && RankStep(dir) != 0 ==>
      Abs(FileOf(t) - FileOf(sq)) == Abs(RankOf(t) - RankOf(sq))
  {
  }

  /** On an empty board a rook attacks every other square of its rank and file. */
  lemma RookEmptyMember(sq: Square, t: Square)
    ensures t in RookAttacks(sq, {}) <==> t != sq && (FileOf(t) == FileOf(sq) || RankOf(t) == RankOf(sq))
  {
    if t in RookAttacks(sq, {}) {
      RookEmptyWithin(sq, t);
    }
    if t != sq && (FileOf(t) == FileOf(sq) || RankOf(t) == RankOf(sq)) {
      RookEmptyReaches(sq, t);
    }
  }

  lemma RookEmptyWithin(sq: Square, t: Square)
    requires t in RookAttacks(sq, {})
    ensures t != sq && (FileOf(t) == FileOf(sq) || RankOf(t) == RankOf(sq))
  {
    SlidingMember(sq, {}, ROOK_DIRECTIONS, t);
    var i :| 0 <= i < 4 && t in Ray(sq, ROOK_DIRECTIONS[i], {});
    var d := ROOK_DIRECTIONS[i];
    assert FileStep(d) == 0 || RankStep(d) == 0;
    RayEmptyMember(sq, d, t);
    AlongShape(sq, d, t);
  }

  lemma RookEmptyReaches(sq: Square, t: Square)
    requires t != sq && (FileOf(t) == FileOf(sq) || RankOf(t) == RankOf(sq))
    ensures t in RookAttacks(sq, {})
  {
    SlidingMember(sq, {}, ROOK_DIRECTIONS, t);
    var i := if FileOf(t) == FileOf(sq) then (if RankOf(t) > RankOf(sq) then 0 else 1)
             else (if FileOf(t) > FileOf(sq) then 2 else 3);
    AlongTowards(sq, t, ROOK_DIRECTIONS[i]);
    RayEmptyMember(sq, ROOK_DIRECTIONS[i], t);
  }

  /** On an empty board a bishop attacks every other square of its two diagonals. */
  lemma BishopEmptyMember(sq: Square, t: Square)
    ensures t in BishopAttacks(sq, {}) <==>
      t != sq && Abs(FileOf(t) - FileOf(sq)) == Abs(RankOf(t) - RankOf(sq))
  {
    if t in BishopAttacks(sq, {}) {
      BishopEmptyWithin(sq, t);
    }
    if t != sq && Abs(FileOf(t) - FileOf(sq)) == Abs(RankOf(t) - RankOf(sq)) {
      BishopEmptyReaches(sq, t);
    }
  }

  lemma BishopEmptyWithin(sq: Square, t: Square)
    requires t in BishopAttacks(sq, {})
    ensures t != sq && Abs(FileOf(t) - FileOf(sq)) == Abs(RankOf(t) - RankOf(sq))
  {
    SlidingMember(sq, {}, BISHOP_DIRECTIONS, t);
    var i :| 0 <= i < 4 && t in Ray(sq, BISHOP_DIRECTIONS[i], {});
    var d := BISHOP_DIRECTIONS[i];
    assert FileStep(d) != 0 && RankStep(d) != 0;
    RayEmptyMember(sq, d, t);
    AlongShape(sq, d, t);
  }

  lemma BishopEmptyReaches(sq: Square, t: Square)
    requires t != sq && Abs(FileOf(t) - FileOf(sq)) == Abs(RankOf(t) - RankOf(sq))
    ensures t in BishopAttacks(sq, {})
  {
    SlidingMember(sq, {}, BISHOP_DIRECTIONS, t);
    var i := if RankOf(t) > RankOf(sq) then (if FileOf(t) > FileOf(sq) then 0 else 1)
             else (if FileOf(t) > FileOf(sq) then 2 else 3);
    AlongTowards(sq, t, BISHOP_DIRECTIONS[i]);
    RayEmptyMember(sq, BISHOP_DIRECTIONS[i], t);
  }

  /** A blocker only removes squares: the attacks are within the empty-board ones. */
  lemma {:induction false} SlidingWithin(sq: Square, occupied: Bitboard, dirs: seq<Direction>)
    ensures Sliding(sq, occupied, dirs) <= Sliding(sq, {}, dirs)
  {
    if |dirs| > 0 {
      var last := dirs[|dirs| - 1];
      SlidingWithin(sq, occupied, dirs[..|dirs| - 1]);
      forall t | t in Ray(sq, last, occupied)
        ensures t in Ray(sq, last, {})
      {
        RaySpec(sq, last, occupied, t);
      }
    }
  }

  // ---------------------------------------------------------------- attacks are mutual

  /** The opposite direction. */
  function Reverse(dir: Direction): (r: Direction)
    ensures FileStep(r) == -FileStep(dir) && RankStep(r) == -RankStep(dir)
  {
    -(dir as int)
  }

  /** Seen from its far end the half-line runs back to its origin, over the
      same number of steps, all of them on the board. */
  lemma AlongReversed(cur: Square, dir: Direction, t: Square)
    requires Along(cur, dir, t)
    ensures Along(t, Reverse(dir), cur) && Ahead(t, Reverse(dir), cur) == Ahead(cur, dir, t)
    ensures Room(t, Reverse(dir)) >= Ahead(cur, dir, t)
  {
  }

  /** A square j steps back from `t` towards `cur` is k - j steps beyond `cur`. */
  lemma AlongBack(cur: Square, dir: Direction, t: Square, u: Square)
    requires Along(cur, dir, t) && Along(t, Reverse(dir), u)
    requires Ahead(t, Reverse(dir), u) < Ahead(cur, dir, t)
    ensures Along(cur, dir, u) && Ahead(cur, dir, u) == Ahead(cur, dir, t) - Ahead(t, Reverse(dir), u)
  {
  }

  /** A slider's attack is mutual: `t` is on the ray from `cur` exactly when
      `cur` is on the ray from `t` in the opposite direction, whatever the
      occupancy. */
  lemma RaySymmetric(cur: Square, dir: Direction, occupied: Bitboard, t: Square)
    requires t in Ray(cur, dir, occupied)
    ensures cur in Ray(t, Reverse(dir), occupied)
  {
    var back := Reverse(dir);
    var k := Ahead(cur, dir, t);
    RaySpec(cur, dir, occupied, t);
    RayEmptySpec(cur, dir, t);
    AlongReversed(cur, dir, t);
    RayEmptySpec(t, back, cur);
    forall u | u in occupied && u in Ray(t, back, {})
      ensures k <= Ahead(t, back, u)
    {
      RayEmptySpec(t, back, u);
      if Ahead(t, back, u) < k {
        AlongBack(cur, dir, t, u);
        RayEmptySpec(cur, dir, u);
      }
    }
    RaySpec(t, back, occupied, cur);
  }

  /** Sliding attacks in a set of directions closed under reversal are mutual. */
  lemma SlidingSymmetric(a: Square, b: Square, occupied: Bitboard, dirs: seq<Direction>)
    requires forall i :: 0 <= i < |dirs| ==> Reverse(dirs[i]) in dirs
    requires b in Sliding(a, occupied, dirs)
    ensures a in Sliding(b, occupied, dirs)
  {
    SlidingMember(a, occupied, dirs, b);
    var i :| 0 <= i < |dirs| && b in Ray(a, dirs[i], occupied);
    RaySymmetric(a, dirs[i], occupied, b);
    var j :| 0 <= j < |dirs| && dirs[j] == Reverse(dirs[i]);
    SlidingMember(b, occupied, dirs, a);
  }

  /** A rook on `a` attacks `b` exactly when a rook on `b` attacks `a`. */
  lemma RookSymmetric(a: Square, b: Square, occupied: Bitboard)
    ensures b in RookAttacks(a, occupied) <==> a in RookAttacks(b, occupied)
  {
    if b in RookAttacks(a, occupied) {
      SlidingSymmetric(a, b, occupied, ROOK_DIRECTIONS);
    }
    if a in RookAttacks(b, occupied) {
      SlidingSymmetric(b, a, occupied, ROOK_DIRECTIONS);
    }
  }

  /** A bishop on `a` attacks `b` exactly when a bishop on `b` attacks `a`. */
  lemma BishopSymmetric(a: Square, b: Square, occupied: Bitboard)
    ensures b in BishopAttacks(a, occupied) <==> a in BishopAttacks(b, occupied)
  {
    if b in BishopAttacks(a, occupied) {
      SlidingSymmetric(a, b, occupied, BISHOP_DIRECTIONS);
    }
    if a in BishopAttacks(b, occupied) {
      SlidingSymmetric(b, a, occupied, BISHOP_DIRECTIONS);
    }
  }

  // ---------------------------------------------------------------- line and between

  /** `LineTable[sq1][sq2]` as `init` fills it: the whole line through two
      aligned squares, found from the empty-board rook or bishop attacks. */
  function Line(sq1: Square, sq2: Square): Bitboard
  {
    if sq2 in RookAttacks(sq1, {}) then
      RookAttacks(sq1, {}) * RookAttacks(sq2, {}) + SquareBB(sq1) + SquareBB(sq2)
    else if sq2 in BishopAttacks(sq1, {}) then
      BishopAttacks(sq1, {}) * BishopAttacks(sq2, {}) + SquareBB(sq1) + SquareBB(sq2)
    else EMPTY
  }

  /** `BetweenTable[sq1][sq2]`: what each of two aligned squares attacks when the
      other is the only piece on the board, in common. */
  function Between(sq1: Square, sq2: Square): Bitboard
  {
    if sq2 in RookAttacks(sq1, {}) then
      RookAttacks(sq1, SquareBB(sq2)) * RookAttacks(sq2, SquareBB(sq1))
    else if sq2 in BishopAttacks(sq1, {}) then
      BishopAttacks(sq1, SquareBB(sq2)) * BishopAttacks(sq2, SquareBB(sq1))
    else EMPTY
  }

  /** `aligned(sq1, sq2, sq3)`. */
  predicate Aligned3(sq1: Square, sq2: Square, sq3: Square)
  {
    TestBit(Line(sq1, sq2), sq3)
  }

  /** The line table is empty unless the two squares are distinct and share a
      rank, a file or a diagonal; then it holds both of them. */
  lemma LineSpec(sq1: Square, sq2: Square)
    ensures Line(sq1, sq2) == EMPTY <==> !AttackTables.Aligned(sq1, sq2)
    ensures AttackTables.Aligned(sq1, sq2) ==> sq1 in Line(sq1, sq2) && sq2 in Line(sq1, sq2)
  {
    RookEmptyMember(sq1, sq2);
    BishopEmptyMember(sq1, sq2);
  }

  /** The line through two squares of a rank is that rank, through two squares
      of a file that file, and through two squares of a diagonal that diagonal. */
  lemma LineMember(sq1: Square, sq2: Square, t: Square)
    requires AttackTables.Aligned(sq1, sq2)
    ensures RankOf(sq1) == RankOf(sq2) ==> (t in Line(sq1, sq2) <==> RankOf(t) == RankOf(sq1))
    ensures FileOf(sq1) == FileOf(sq2) ==> (t in Line(sq1, sq2) <==> FileOf(t) == FileOf(sq1))
    ensures FileOf(sq2) - FileOf(sq1) == RankOf(sq2) - RankOf(sq1) ==>
      (t in Line(sq1, sq2) <==> FileOf(t) - FileOf(sq1) == RankOf(t) - RankOf(sq1))
    ensures FileOf(sq2) - FileOf(sq1) == RankOf(sq1) - RankOf(sq2) ==>
      (t in Line(sq1, sq2) <==> FileOf(t) - FileOf(sq1) == RankOf(sq1) - RankOf(t))
  {
    RookEmptyMember(sq1, sq2);
    BishopEmptyMember(sq1, sq2);
    RookEmptyMember(sq1, t);
    RookEmptyMember(sq2, t);
    BishopEmptyMember(sq1, t);
    BishopEmptyMember(sq2, t);
    SquareDecomposition(sq1);
    SquareDecomposition(sq2);
    SquareDecomposition(t);
  }

  /** The between table is empty unless the squares are aligned, and never
      holds either end; what it holds lies on their line. */
  lemma BetweenSpec(sq1: Square, sq2: Square)
    ensures !AttackTables.Aligned(sq1, sq2) ==> Between(sq1, sq2) == EMPTY
    ensures sq1 !in Between(sq1, sq2) && sq2 !in Between(sq1, sq2)
    ensures Between(sq1, sq2) <= Line(sq1, sq2)
  {
    RookEmptyMember(sq1, sq2);
    BishopEmptyMember(sq1, sq2);
    SlidingWithin(sq1, SquareBB(sq2), ROOK_DIRECTIONS);
    SlidingWithin(sq2, SquareBB(sq1), ROOK_DIRECTIONS);
    SlidingWithin(sq1, SquareBB(sq2), BISHOP_DIRECTIONS);
    SlidingWithin(sq2, SquareBB(sq1), BISHOP_DIRECTIONS);
    RookEmptyMember(sq1, sq1);
    RookEmptyMember(sq2, sq2);
    BishopEmptyMember(sq1, sq1);
    BishopEmptyMember(sq2, sq2);
  }

  /** `aligned(sq1, sq2, sq3)`: the third square is on the line through the
      first two, which are distinct and aligned. */
  lemma Aligned3Spec(sq1: Square, sq2: Square, sq3: Square)
    ensures Aligned3(sq1, sq2, sq3) ==> AttackTables.Aligned(sq1, sq2)
    ensures AttackTables.Aligned(sq1, sq2) && sq3 in {sq1, sq2} ==> Aligned3(sq1, sq2, sq3)
  {
    LineSpec(sq1, sq2);
  }

  lemma {:induction false} RelevantMember(sq: Square, dirs: seq<Direction>, t: Square)
    ensures t in Relevant(sq, dirs) <==> exists i :: 0 <= i < |dirs| && t in RelevantRay(sq, dirs[i])
  {
    if |dirs| > 0 {
      var front, last := dirs[..|dirs| - 1], dirs[|dirs| - 1];
      RelevantMember(sq, front, t);
      assert Relevant(sq, dirs) == Relevant(sq, front) + RelevantRay(sq, last);
      if t in Relevant(sq, front) {
        var i :| 0 <= i < |front| && t in RelevantRay(sq, front[i]);
        assert dirs[i] == front[i];
        assert 0 <= i < |dirs| && t in RelevantRay(sq, dirs[i]);
      } else if t in RelevantRay(sq, last) {
        var i := |dirs| - 1;
        assert 0 <= i < |dirs| && t in RelevantRay(sq, dirs[i]);
      } else {
        forall i | 0 <= i < |dirs|
          ensures t !in RelevantRay(sq, dirs[i])
        {
          if i < |front| {
            assert dirs[i] == front[i];
          }
        }
      }
    }
  }



  /** The relevant mask holds every square of every empty-board ray except the
      last one, and nothing else. */
  lemma RelevantSpec(sq: Square, dirs: seq<Direction>, i: nat, t: Square)
    requires Distinct(dirs) && i < |dirs| && t in Ray(sq, dirs[i], {})
    ensures t in Relevant(sq, dirs) <==> HasNext(t, dirs[i])
  {
    RelevantMember(sq, dirs, t);
    RelevantRaySpec(sq, dirs[i], t);
    if t in Relevant(sq, dirs) {
      var j :| 0 <= j < |dirs| && t in RelevantRay(sq, dirs[j]);
      RelevantRaySpec(sq, dirs[j], t);
      RayEmptyMember(sq, dirs[i], t);
      RayEmptyMember(sq, dirs[j], t);
      AlongOneDirection(sq, dirs[i], dirs[j], t);
    }
  }

  lemma RelevantWithin(sq: Square, dirs: seq<Direction>)
    ensures Relevant(sq, dirs) <= Sliding(sq, {}, dirs)
  {
    forall t | t in Relevant(sq, dirs)
      ensures t in Sliding(sq, {}, dirs)
    {
      RelevantMember(sq, dirs, t);
      var j :| 0 <= j < |dirs| && t in RelevantRay(sq, dirs[j]);
      RelevantRaySpec(sq, dirs[j], t);
      SlidingMember(sq, {}, dirs, t);
    }
  }

  // ---------------------------------------------------------------- the tables

  /** One entry of the line and between tables, computed as `init` does. */
  method LineAndBetween(sq1: Square, sq2: Square) returns (line: Bitboard, between: Bitboard)
    ensures line == Line(sq1, sq2) && between == Between(sq1, sq2)
  {
    var sq1BB, sq2BB := SquareBB(sq1), SquareBB(sq2);
    var rookAttack := SlidingAttacks(sq1, EMPTY, ROOK_DIRECTIONS);
    var bishopAttack := SlidingAttacks(sq1, EMPTY, BISHOP_DIRECTIONS);
    if sq2 in rookAttack {
      var other := SlidingAttacks(sq2, EMPTY, ROOK_DIRECTIONS);
      line := rookAttack * other + sq1BB + sq2BB;
      var from1 := SlidingAttacks(sq1, sq2BB, ROOK_DIRECTIONS);
      var from2 := SlidingAttacks(sq2, sq1BB, ROOK_DIRECTIONS);
      between := from1 * from2;
    } else if sq2 in bishopAttack {
      var other := SlidingAttacks(sq2, EMPTY, BISHOP_DIRECTIONS);
      line := bishopAttack * other + sq1BB + sq2BB;
      var from1 := SlidingAttacks(sq1, sq2BB, BISHOP_DIRECTIONS);
      var from2 := SlidingAttacks(sq2, sq1BB, BISHOP_DIRECTIONS);
      between := from1 * from2;
    } else {
      line, between := EMPTY, EMPTY;
    }
  }

  /** The relevant-occupancy masks of the rook and bishop magics and the
      `LineTable` and `BetweenTable` arrays. The attack tables the magic numbers
      index are not kept: a lookup is the sliding attacks for the masked
      occupancy, which is what every entry of those tables holds. */
  class MagicTables {
    var rookMasks: array<Bitboard>
    var bishopMasks: array<Bitboard>
    var lineTable: array2<Bitboard>
    var betweenTable: array2<Bitboard>

    ghost predicate Valid()
      reads this, rookMasks, bishopMasks, lineTable, betweenTable
    {
      rookMasks.Length == 64 && bishopMasks.Length == 64 &&
      lineTable.Length0 == 64 && lineTable.Length1 == 64 &&
      betweenTable.Length0 == 64 && betweenTable.Length1 == 64 &&
      (forall sq: Square :: rookMasks[sq] == Relevant(sq, ROOK_DIRECTIONS)) &&
      (forall sq: Square :: bishopMasks[sq] == Relevant(sq, BISHOP_DIRECTIONS)) &&
      (forall a: Square, b: Square :: lineTable[a, b] == Line(a, b)) &&
      (forall a: Square, b: Square :: betweenTable[a, b] == Between(a, b))
    }

    /** `init`. */
    constructor Init()
      ensures Valid()
      ensures fresh(rookMasks) && fresh(bishopMasks) && fresh(lineTable) && fresh(betweenTable)
    {
      var rooks := InitMasks(ROOK_DIRECTIONS);
      var bishops := InitMasks(BISHOP_DIRECTIONS);
      var lines, betweens := InitLineBetween();
      rookMasks, bishopMasks, lineTable, betweenTable := rooks, bishops, lines, betweens;
    }

    /** `rookAttacks`: the entry for the occupancy masked by the relevant squares,
        which is the sliding attacks for the whole occupancy. */
    method Rook(sq: Square, occupied: Bitboard) returns (attacks: Bitboard)
      requires Valid()
      ensures attacks == RookAttacks(sq, occupied)
    {
      attacks := SlidingAttacks(sq, occupied * rookMasks[sq], ROOK_DIRECTIONS);
      SlidingMasked(sq, occupied, ROOK_DIRECTIONS);
    }

    /** `bishopAttacks`. */
    method Bishop(sq: Square, occupied: Bitboard) returns (attacks: Bitboard)
      requires Valid()
      ensures attacks == BishopAttacks(sq, occupied)
    {
      attacks := SlidingAttacks(sq, occupied * bishopMasks[sq], BISHOP_DIRECTIONS);
      SlidingMasked(sq, occupied, BISHOP_DIRECTIONS);
    }

    /** `between`. */
    method BetweenOf(sq1: Square, sq2: Square) returns (bb: Bitboard)
      requires Valid()
      ensures bb == Between(sq1, sq2)
    {
      bb := betweenTable[sq1, sq2];
    }

    /** `line`. */
    method LineOf(sq1: Square, sq2: Square) returns (bb: Bitboard)
      requires Valid()
      ensures bb == Line(sq1, sq2)
    {
      bb := lineTable[sq1, sq2];
    }

    /** `aligned`. */
    method AlignedOf(sq1: Square, sq2: Square, sq3: Square) returns (b: bool)
      requires Valid()
      ensures b == Aligned3(sq1, sq2, sq3)
    {
      b := TestBit(lineTable[sq1, sq2], sq3);
    }
  }

  method InitMasks(directions: seq<Direction>) returns (masks: array<Bitboard>)
    requires |directions| == 4
    ensures fresh(masks) && masks.Length == 64
    ensures forall sq: Square :: masks[sq] == Relevant(sq, directions)
  {
    masks := new Bitboard[64];
    for sq := 0 to 64
      invariant forall s: Square :: s < sq ==> masks[s] == Relevant(s, directions)
    {
      masks[sq] := RelevantOccupancy(sq, directions);
    }
  }

  method InitLineBetween() returns (lines: array2<Bitboard>, betweens: array2<Bitboard>)
    ensures fresh(lines) && lines.Length0 == 64 && lines.Length1 == 64
    ensures fresh(betweens) && betweens.Length0 == 64 && betweens.Length1 == 64
    ensures forall a: Square, b: Square :: lines[a, b] == Line(a, b)
    ensures forall a: Square, b: Square :: betweens[a, b] == Between(a, b)
  {
    lines := new Bitboard[64, 64];
    betweens := new Bitboard[64, 64];
    for sq1 := 0 to 64
      invariant forall a: Square, b: Square :: a < sq1 ==> lines[a, b] == Line(a, b) && betweens[a, b] == Between(a, b)
    {
      for sq2 := 0 to 64
        invariant forall a: Square, b: Square :: a < sq1 ==> lines[a, b] == Line(a, b) && betweens[a, b] == Between(a, b)
        invariant forall b: Square :: b < sq2 ==> lines[sq1, b] == Line(sq1, b) && betweens[sq1, b] == Between(sq1, b)
      {
        var line, between := LineAndBetween(sq1, sq2);
        lines[sq1, sq2] := line;
        betweens[sq1, sq2] := between;
      }
    }
  }
}

/** The Syzygy tablebase gate of src/Tablebase.cpp. The static fields
    `initialized` and `largestPieces` become the fields of one object; what
    the Fathom library answers (`tb_init`, `TB_LARGEST`, `tb_probe_wdl`,
    `tb_probe_root`) is passed in as a value, since the library itself is
    foreign code. */
module Tablebase {
  import opened Types
  import opened Positions
  import opened MoveGen

  // inc/Tablebase.h:10-17
  type TBResult = r: int | 0 <= r <= 5

  const TB_RESULT_LOSS: TBResult := 0
  const TB_RESULT_BLESSED_LOSS: TBResult := 1
  const TB_RESULT_DRAW: TBResult := 2
  const TB_RESULT_CURSED_WIN: TBResult := 3
  const TB_RESULT_WIN: TBResult := 4
  const TB_RESULT_UNKNOWN: TBResult := 5

  // inc/Tablebase.h:58-61
  const TB_WIN_SCORE: int := 10000
  const TB_CURSED_WIN_SCORE: int := 1
  const TB_BLESSED_LOSS_SCORE: int := -1
  const TB_LOSS_SCORE: int := -10000

  /** Fathom's promotion codes (`TB_PROMOTES_NONE` .. `TB_PROMOTES_KNIGHT`). */
  const TB_PROMOTES_NONE: int := 0
  const TB_PROMOTES_QUEEN: int := 1
  const TB_PROMOTES_ROOK: int := 2
  const TB_PROMOTES_BISHOP: int := 3
  const TB_PROMOTES_KNIGHT: int := 4

  type Promotes = p: int | 0 <= p <= 4

  /** A WDL value as Fathom reports it: one of the five outcomes. */
  type Wdl = w: int | 0 <= w <= 4

  /** What `tb_init` reports: whether it succeeded and `TB_LARGEST` after it. */
  datatype FathomInit = FathomInit(success: bool, largest: int)

  /** What `tb_probe_wdl` returns. */
  datatype FathomWdl = WdlFailed | WdlValue(wdl: Wdl)

  /** What `tb_probe_root` returns, decoded by the `TB_GET_*` macros. */
  datatype FathomRoot =
    | RootFailed
    | RootCheckmate
    | RootStalemate
    | RootMove(wdl: Wdl, from: Square, to: Square, promotes: Promotes, dtz: nat)

  /** `struct TBProbeResult`. */
  datatype TBProbeResult = TBProbeResult(wdl: TBResult, dtz: int, bestMove: Move, success: bool)

  /** The result `probeRoot` starts from and returns when it cannot probe. */
  const NO_PROBE: TBProbeResult := TBProbeResult(TB_RESULT_UNKNOWN, 0, 0, false)

  /** `wdlToScore`. */
  function WdlToScore(wdl: TBResult, ply: int): (score: int)
  {
    if wdl == TB_RESULT_WIN then TB_WIN_SCORE - ply
    else if wdl == TB_RESULT_CURSED_WIN then TB_CURSED_WIN_SCORE
    else if wdl == TB_RESULT_DRAW then 0
    else if wdl == TB_RESULT_BLESSED_LOSS then TB_BLESSED_LOSS_SCORE
    else if wdl == TB_RESULT_LOSS then TB_LOSS_SCORE + ply
    else 0
  }

  /** Within the search's ply range a better outcome always scores higher,
      wins and losses are mirror images, a faster win scores more and a
      slower loss scores more. */
  lemma WdlToScoreOrders(ply: int, ply2: int)
    requires 0 <= ply < ply2 < TB_WIN_SCORE - 1
    ensures WdlToScore(TB_RESULT_LOSS, ply) < WdlToScore(TB_RESULT_BLESSED_LOSS, ply)
            < WdlToScore(TB_RESULT_DRAW, ply) < WdlToScore(TB_RESULT_CURSED_WIN, ply)
            < WdlToScore(TB_RESULT_WIN, ply)
    ensures WdlToScore(TB_RESULT_LOSS, ply) == -WdlToScore(TB_RESULT_WIN, ply)
    ensures WdlToScore(TB_RESULT_BLESSED_LOSS, ply) == -WdlToScore(TB_RESULT_CURSED_WIN, ply)
    ensures WdlToScore(TB_RESULT_WIN, ply) > WdlToScore(TB_RESULT_WIN, ply2)
    ensures WdlToScore(TB_RESULT_LOSS, ply) < WdlToScore(TB_RESULT_LOSS, ply2)
    ensures WdlToScore(TB_RESULT_DRAW, ply) == WdlToScore(TB_RESULT_UNKNOWN, ply) == 0
  {
  }

  /** The values `wdlToScore` gives, outcome by outcome. */
  lemma WdlToScoreValues(wdl: TBResult, ply: int)
    ensures wdl == TB_RESULT_WIN ==> WdlToScore(wdl, ply) == 10000 - ply
    ensures wdl == TB_RESULT_LOSS ==> WdlToScore(wdl, ply) == -10000 + ply
    ensures wdl == TB_RESULT_CURSED_WIN ==> WdlToScore(wdl, ply) == 1
    ensures wdl == TB_RESULT_BLESSED_LOSS ==> WdlToScore(wdl, ply) == -1
    ensures wdl == TB_RESULT_DRAW || wdl == TB_RESULT_UNKNOWN ==> WdlToScore(wdl, ply) == 0
  {
  }

  /** The piece a Fathom promotion code asks for. */
  function PromotedType(promotes: Promotes): PieceType
    requires promotes != TB_PROMOTES_NONE
  {
    if promotes == TB_PROMOTES_QUEEN then QUEEN
    else if promotes == TB_PROMOTES_ROOK then ROOK
    else if promotes == TB_PROMOTES_BISHOP then BISHOP
    else KNIGHT
  }

  /** The test of the matching loop in `probeRoot`: same squares, and when
      Fathom names a promotion, a promotion to that piece. */
  predicate Matches(m: Move, from: Square, to: Square, promotes: Promotes)
  {
    FromSquare(m) == from && ToSquare(m) == to &&
    (promotes != TB_PROMOTES_NONE ==>
      MoveType(m) == PROMOTION && PromotionType(m) == PromotedType(promotes))
  }

  /** The index of the first matching move, or |moves| when none matches. */
  function FirstMatch(moves: seq<Move>, from: Square, to: Square, promotes: Promotes): (i: nat)
    ensures i <= |moves|
    ensures i < |moves| ==> Matches(moves[i], from, to, promotes)
    ensures forall k :: 0 <= k < i ==> !Matches(moves[k], from, to, promotes)
  {
    if moves == [] then 0
    else if Matches(moves[0], from, to, promotes) then 0
    else 1 + FirstMatch(moves[1..], from, to, promotes)
  }

  /** The loop of src/Tablebase.cpp:185-214 over the legal moves. */
  method MatchLegalMove(legal: seq<Move>, from: Square, to: Square, promotes: Promotes)
    returns (bestMove: Move)
    ensures bestMove == (var i := FirstMatch(legal, from, to, promotes); if i < |legal| then legal[i] else 0)
  {
    bestMove := 0;
    var k := 0;
    while k < |legal|
      invariant 0 <= k <= |legal|
      invariant FirstMatch(legal, from, to, promotes) >= k
      invariant FirstMatch(legal, from, to, promotes) == k + FirstMatch(legal[k..], from, to, promotes)
    {
      var m := legal[k];
      if FromSquare(m) == from && ToSquare(m) == to {
        var matched := true;
        if promotes != TB_PROMOTES_NONE {
          if MoveType(m) != PROMOTION {
            matched := false;
          } else {
            var promoPiece := PromotionType(m);
            if promotes == TB_PROMOTES_QUEEN {
              matched := promoPiece == QUEEN;
            } else if promotes == TB_PROMOTES_ROOK {
              matched := promoPiece == ROOK;
            } else if promotes == TB_PROMOTES_BISHOP {
              matched := promoPiece == BISHOP;
            } else {
              matched := promoPiece == KNIGHT;
            }
          }
        }
        if matched {
          assert Matches(m, from, to, promotes);
          return m;
        }
      }
      assert legal[k..][1..] == legal[k + 1..];
      k := k + 1;
    }
  }

  /** A nonzero best move found by the matching loop is one of the legal
      moves, with the squares Fathom named and, when Fathom named a
      promotion, that promotion; and if some legal move matches, the loop
      finds one. */
  lemma MatchIsLegal(legal: seq<Move>, from: Square, to: Square, promotes: Promotes)
    ensures var i := FirstMatch(legal, from, to, promotes);
      var best := if i < |legal| then legal[i] else 0;
      && (best != 0 ==> best in legal && Matches(best, from, to, promotes))
      && ((exists m :: m in legal && Matches(m, from, to, promotes)) ==> i < |legal|)
  {
    var i := FirstMatch(legal, from, to, promotes);
    if exists m :: m in legal && Matches(m, from, to, promotes) {
      var m :| m in legal && Matches(m, from, to, promotes);
      var k :| 0 <= k < |legal| && legal[k] == m;
      assert i <= k;
    }
  }

  /** The static state of the tablebase gate. */
  class Gate {
    var initialized: bool
    var largestPieces: int

    /** Both statics start cleared (src/Tablebase.cpp:28-29). */
    constructor ()
      ensures !initialized && largestPieces == 0
    {
      initialized := false;
      largestPieces := 0;
    }

    /** `available()`. */
    predicate Available()
      reads this
    {
      initialized && largestPieces > 0
    }

    /** `canProbe`: the tables are loaded and cover this many pieces. */
    predicate CanProbe(p: Pos)
      reads this
    {
      Available() && |Occupied(p)| <= largestPieces
    }

    /** `init`: an empty path changes nothing; otherwise a successful
        `tb_init` marks the tables loaded with the size Fathom reports, and a
        failed one leaves the state as it was. */
    method Init(path: string, fathom: FathomInit) returns (ok: bool)
      modifies this
      ensures path == [] ==> !ok && unchanged(this)
      ensures path != [] && fathom.success ==> initialized && largestPieces == fathom.largest
      ensures path != [] && !fathom.success ==> unchanged(this)
      ensures ok <==> path != [] && fathom.success && fathom.largest > 0
      ensures ok ==> Available()
    {
      if path == [] {
        return false;
      }
      var success := fathom.success;
      if success {
        initialized := true;
        largestPieces := fathom.largest;
      }
      ok := success && largestPieces > 0;
    }

    /** `free`. */
    method Free()
      modifies this
      ensures old(initialized) ==> !initialized && largestPieces == 0
      ensures !old(initialized) ==> unchanged(this)
      ensures !Available()
    {
      if initialized {
        initialized := false;
        largestPieces := 0;
      }
    }

    /** `probeWDL`: no answer unless the position can be probed, has no
        castling rights and a zero halfmove clock, and Fathom answers. */
    function ProbeWDL(p: Pos, fathom: FathomWdl): (r: TBResult)
      reads this
    {
      if !CanProbe(p) then TB_RESULT_UNKNOWN
      else if p.castling != 0 then TB_RESULT_UNKNOWN
      else if p.halfmoves != 0 then TB_RESULT_UNKNOWN
      else if fathom.WdlFailed? then TB_RESULT_UNKNOWN
      else fathom.wdl
    }

    /** `probeRoot`: no answer unless the position can be probed and has
        no castling rights; Fathom's checkmate and stalemate verdicts
        become a loss and a draw; otherwise the best move is the first
        legal move of the position (generated on a copy, so the position
        itself is untouched) with Fathom's squares and promotion. */
    method ProbeRoot(p: Pos, fathom: FathomRoot) returns (result: TBProbeResult)
      requires CanProbe(p) && p.castling == 0 && fathom.RootMove? ==> Ready(View(p))
      ensures !CanProbe(p) || p.castling != 0 || fathom.RootFailed? ==> result == NO_PROBE
      ensures CanProbe(p) && p.castling == 0 && fathom.RootCheckmate? ==>
        result == NO_PROBE.(wdl := TB_RESULT_LOSS, success := true)
      ensures CanProbe(p) && p.castling == 0 && fathom.RootStalemate? ==>
        result == NO_PROBE.(wdl := TB_RESULT_DRAW, success := true)
      ensures CanProbe(p) && p.castling == 0 && fathom.RootMove? ==>
        var legal := LegalMoves(View(p));
        var i := FirstMatch(legal, fathom.from, fathom.to, fathom.promotes);
        && result == TBProbeResult(fathom.wdl, fathom.dtz, if i < |legal| then legal[i] else 0, true)
        && (result.bestMove != 0 ==>
              result.bestMove in legal && Legal(View(p), result.bestMove) &&
              Matches(result.bestMove, fathom.from, fathom.to, fathom.promotes))
        && ((exists m :: m in legal && Matches(m, fathom.from, fathom.to, fathom.promotes)) ==> i < |legal|)
    {
      result := NO_PROBE;
      if !CanProbe(p) {
        return;
      }
      if p.castling != 0 {
        return;
      }
      match fathom
      case RootFailed =>
        return;
      case RootCheckmate =>
        result := result.(wdl := TB_RESULT_LOSS, success := true);
      case RootStalemate =>
        result := result.(wdl := TB_RESULT_DRAW, success := true);
      case RootMove(wdl, from, to, promotes, dtz) =>
        result := result.(wdl := wdl, dtz := dtz, success := true);
        var legal := LegalMoves(View(p));
        var best := MatchLegalMove(legal, from, to, promotes);
        MatchIsLegal(legal, from, to, promotes);
        if best != 0 {
          LegalMovesIff(View(p), best);
        }
        result := result.(bestMove := best);
    }
  }

  /** What the gate promises: a probe gives an answer only when the tables
      are loaded, cover the position and it has no castling rights and a
      fresh halfmove clock; after `free` nothing can be probed. */
  lemma ProbeWDLGuards(g: Gate, p: Pos, fathom: FathomWdl)
    ensures g.ProbeWDL(p, fathom) != TB_RESULT_UNKNOWN ==>
      && g.initialized && g.largestPieces > 0 && |Occupied(p)| <= g.largestPieces
      && p.castling == 0 && p.halfmoves == 0 && fathom == WdlValue(g.ProbeWDL(p, fathom))
    ensures !g.Available() ==> g.ProbeWDL(p, fathom) == TB_RESULT_UNKNOWN
  {
  }
}

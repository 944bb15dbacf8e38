/** Basic chess types of the engine: squares, colours, pieces and the 16-bit move
    encoding, with the conversions to and from coordinate notation (inc/Types.h).

    A Move is an unsigned 16-bit value. The source builds and takes it apart with
    shifts, masks and `|` over disjoint bit ranges; on values in 0..65535 these are
    exactly multiplication, division and remainder by powers of two and `+`, which
    is how they are written here. */
module Types {

  /** Absolute value (`std::abs`). */
  function Abs(x: int): nat { if x < 0 then -x else x }

  /** C++ integer division, which truncates toward zero (Dafny's `/` is
      Euclidean and differs for a negative dividend). */
  function Quot(a: int, d: int): int
    requires d > 0
  {
    if a >= 0 then a / d else -((-a) / d)
  }

  // ---------------------------------------------------------------- colours

  const WHITE: int := 0
  const BLACK: int := 1
  const NO_COLOR: int := 2

  type Color = c: int | 0 <= c < 2

  /** `operator~`: `c ^ 1` on the two colours. */
  function Opp(c: Color): (r: Color)
    ensures r != c
    ensures c == WHITE <==> r == BLACK
  {
    if c == WHITE then BLACK else WHITE
  }

  lemma OppInvolution(c: Color)
    ensures Opp(Opp(c)) == c
  {
  }

  // ---------------------------------------------------------------- pieces

  const PAWN: int := 0
  const KNIGHT: int := 1
  const BISHOP: int := 2
  const ROOK: int := 3
  const QUEEN: int := 4
  const KING: int := 5
  const NO_PIECE_TYPE: int := 6

  type PieceType = pt: int | 0 <= pt < 6

  /** W_PAWN .. W_KING are 0..5, B_PAWN .. B_KING are 6..11. */
  const NO_PIECE: int := 12

  type Piece = pc: int | 0 <= pc < 12
  /** A mailbox entry: a piece or NO_PIECE. */
  type Cell = pc: int | 0 <= pc <= 12

  function MakePiece(c: Color, pt: PieceType): (pc: Piece)
    ensures ColorOf(pc) == c && TypeOf(pc) == pt
  {
    c * 6 + pt
  }

  function ColorOf(pc: Piece): Color { pc / 6 }

  function TypeOf(pc: Piece): PieceType { pc % 6 }

  lemma PieceDecomposition(pc: Piece)
    ensures MakePiece(ColorOf(pc), TypeOf(pc)) == pc
  {
  }

  // ---------------------------------------------------------------- squares

  const NO_SQUARE: int := 64

  type Square = s: int | 0 <= s < 64
  /** A square or NO_SQUARE, as the en-passant field holds it. */
  type SquareOrNone = s: int | 0 <= s <= 64

  type Coord = x: int | 0 <= x < 8

  const FILE_A: Coord := 0
  const FILE_D: Coord := 3
  const FILE_F: Coord := 5
  const FILE_H: Coord := 7
  const RANK_1: Coord := 0
  const RANK_2: Coord := 1
  const RANK_7: Coord := 6
  const RANK_8: Coord := 7

  const A1: Square := 0
  const B1: Square := 1
  const C1: Square := 2
  const D1: Square := 3
  const E1: Square := 4
  const F1: Square := 5
  const G1: Square := 6
  const H1: Square := 7
  const A8: Square := 56
  const B8: Square := 57
  const C8: Square := 58
  const D8: Square := 59
  const E8: Square := 60
  const F8: Square := 61
  const G8: Square := 62
  const H8: Square := 63

  function MakeSquare(file: Coord, rank: Coord): (sq: Square)
    ensures FileOf(sq) == file && RankOf(sq) == rank
  {
    rank * 8 + file
  }

  /** `sq & 7` */
  function FileOf(sq: Square): Coord { sq % 8 }

  /** `sq >> 3` */
  function RankOf(sq: Square): Coord { sq / 8 }

  lemma SquareDecomposition(sq: Square)
    ensures MakeSquare(FileOf(sq), RankOf(sq)) == sq
  {
  }

  /** A square is determined by its file and rank. */
  lemma SquareCoords(sq: Square, file: Coord, rank: Coord)
    ensures sq == MakeSquare(file, rank) <==> FileOf(sq) == file && RankOf(sq) == rank
  {
    SquareDecomposition(sq);
  }

  // ---------------------------------------------------------------- moves

  type Move = m: int | 0 <= m < 0x1_0000

  const NORMAL_MOVE: int := 0
  const PROMOTION: int := 0x4000   // 1 << 14
  const EN_PASSANT: int := 0x8000  // 2 << 14
  const CASTLING: int := 0xC000    // 3 << 14

  type PromotionPiece = pt: int | KNIGHT <= pt <= QUEEN witness KNIGHT

  function FromSquare(m: Move): Square { m % 64 }

  function ToSquare(m: Move): Square { (m / 64) % 64 }

  /** `m & (3 << 14)`: one of the four flag values. */
  function MoveType(m: Move): (r: int)
    ensures r in {NORMAL_MOVE, PROMOTION, EN_PASSANT, CASTLING}
  {
    (m / 0x4000) * 0x4000
  }

  /** `((m >> 12) & 3) + KNIGHT` */
  function PromotionType(m: Move): PromotionPiece { (m / 0x1000) % 4 + KNIGHT }

  /** `(to << 6) | from` */
  function MakeMove(from: Square, to: Square): (m: Move)
    ensures FromSquare(m) == from && ToSquare(m) == to
    ensures MoveType(m) == NORMAL_MOVE
  {
    to * 64 + from
  }

  /** `PROMOTION | ((pt - KNIGHT) << 12) | (to << 6) | from` */
  function MakePromotion(from: Square, to: Square, pt: PromotionPiece): (m: Move)
    ensures FromSquare(m) == from && ToSquare(m) == to
    ensures MoveType(m) == PROMOTION && PromotionType(m) == pt
  {
    PROMOTION + (pt - KNIGHT) * 0x1000 + to * 64 + from
  }

  function MakeEnPassant(from: Square, to: Square): (m: Move)
    ensures FromSquare(m) == from && ToSquare(m) == to
    ensures MoveType(m) == EN_PASSANT
  {
    EN_PASSANT + to * 64 + from
  }

  function MakeCastling(from: Square, to: Square): (m: Move)
    ensures FromSquare(m) == from && ToSquare(m) == to
    ensures MoveType(m) == CASTLING
  {
    CASTLING + to * 64 + from
  }

  /** A move is determined by its fields: two moves that agree on from, to, flag
      and (for promotions) piece are the same 16-bit value, once the unused
      promotion bits of non-promotions are zero, as every constructor leaves them. */
  lemma {:induction false} MoveFieldsDetermine(m1: Move, m2: Move)
    requires FromSquare(m1) == FromSquare(m2) && ToSquare(m1) == ToSquare(m2)
    requires MoveType(m1) == MoveType(m2) && PromotionType(m1) == PromotionType(m2)
    ensures m1 == m2
  {
    MoveDecomposition(m1);
    MoveDecomposition(m2);
  }

  /** Every 16-bit value is the sum of its four fields. */
  lemma MoveDecomposition(m: Move)
    ensures m == MoveType(m) + (PromotionType(m) - KNIGHT) * 0x1000 + ToSquare(m) * 64 + FromSquare(m)
  {
    var q := m / 64;
    assert m == q * 64 + m % 64;
    var p := q / 64;
    assert q == p * 64 + q % 64;
    assert p == m / 0x1000;
    assert p == (p / 4) * 4 + p % 4;
    assert p / 4 == m / 0x4000;
  }

  /** The four flag values are pairwise distinct. */
  lemma MoveFlagsDistinct()
    ensures NORMAL_MOVE != PROMOTION && NORMAL_MOVE != EN_PASSANT && NORMAL_MOVE != CASTLING
    ensures PROMOTION != EN_PASSANT && PROMOTION != CASTLING && EN_PASSANT != CASTLING
  {
  }

  // ---------------------------------------------------------------- text

  function FileChar(f: Coord): char { (('a' as int) + f) as char }

  function RankChar(r: Coord): char { (('1' as int) + r) as char }

  function SquareToString(sq: SquareOrNone): (s: string)
    ensures sq == NO_SQUARE ==> s == "-"
    ensures sq != NO_SQUARE ==> |s| == 2 && 'a' <= s[0] <= 'h' && '1' <= s[1] <= '8'
  {
    if sq == NO_SQUARE then "-"
    else [FileChar(FileOf(sq)), RankChar(RankOf(sq))]
  }

  /** Digit arithmetic `str[0] - 'a'`, `str[1] - '1'` with the range check. */
  function StringToSquare(s: string): (sq: SquareOrNone)
    ensures |s| != 2 ==> sq == NO_SQUARE
    ensures |s| == 2 ==> (sq != NO_SQUARE <==> 'a' <= s[0] <= 'h' && '1' <= s[1] <= '8')
  {
    if |s| != 2 then NO_SQUARE
    else
      var file := (s[0] as int) - ('a' as int);
      var rank := (s[1] as int) - ('1' as int);
      if file < 0 || file > 7 || rank < 0 || rank > 7 then NO_SQUARE
      else MakeSquare(file, rank)
  }

  /** Printing then parsing a square (or "-") gives it back. */
  lemma SquareStringRoundTrip(sq: SquareOrNone)
    ensures StringToSquare(SquareToString(sq)) == sq
  {
  }

  /** Parsing then printing gives back every string that names a square:
      the 64 two-character names are exactly the strings StringToSquare accepts. */
  lemma StringSquareRoundTrip(s: string)
    requires StringToSquare(s) != NO_SQUARE
    ensures SquareToString(StringToSquare(s)) == s
  {
    var sq := StringToSquare(s);
    assert FileOf(sq) == (s[0] as int) - ('a' as int);
    assert RankOf(sq) == (s[1] as int) - ('1' as int);
  }

  const PROMOTION_CHARS: string := "nbrq"

  function MoveToString(m: Move): (s: string)
    ensures MoveType(m) != PROMOTION ==> |s| == 4
    ensures MoveType(m) == PROMOTION ==> |s| == 5 && s[4] == PROMOTION_CHARS[PromotionType(m) - KNIGHT]
    ensures s[..2] == SquareToString(FromSquare(m)) && s[2..4] == SquareToString(ToSquare(m))
  {
    var result := SquareToString(FromSquare(m)) + SquareToString(ToSquare(m));
    if MoveType(m) == PROMOTION then result + [PROMOTION_CHARS[PromotionType(m) - KNIGHT]]
    else result
  }
}

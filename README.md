# chesscpp2 core in Dafny

This project models the deterministic core of chesscpp2, a bitboard chess engine written in C++, together with the Python harness that plays UCI engines against each other in a round robin. It proves properties of that model.

The modules follow the source files, leaf first:

- `Types` covers `inc/Types.h`: squares, colours, pieces and the 16-bit move word. The word packs the from square, the to square, the promotion piece and the special-move flag. It also covers the square and move text.
- `Bitboard` covers `inc/Bitboard.h`. A bitboard is modelled as the set of squares whose bits are set. Shifts are images of that set under a square offset, with the edge files masked out. `Bits` proves the 64-bit word formulas of those operations bit by bit, using `bv64`.
- `AttackTables` covers `src/Bitboard.cpp`: the pawn, knight, king and "between" tables, filled into arrays by loops, with each table entry specified in file and rank terms.
- `Magic` covers `src/Magic.cpp`: the ray walk of `slidingAttacks` and `relevantOccupancy`, the line and between tables, and the lookups `rookAttacks`, `bishopAttacks`, `between`, `line` and `aligned`. The lookups are modelled as sliding attacks on the masked occupancy.
- `Positions` is the value layer of `src/Position.cpp`. `Pos` holds:
  - the `byType`, `byColor` and `board` arrays;
  - the side to move, the castling mask and the en-passant square;
  - both clocks, the Zobrist hash and the history stack.
  `putPiece`, `removePiece`, `movePiece`, `makeMove`, `unmakeMove` and the null-move pair are functions on `Pos`. They are proved against the mailbox/bitboard invariant and the from-scratch hash.
- `Fen` covers FEN reading and printing (`setFromFEN`, `getFEN`), including the whitespace word reader that `>>` gives.
- `PositionClass` is the `Position` class itself: arrays and fields updated in place. Each method's new `State()` is the value-layer function of the old one.
- `Attacks` covers `isAttacked`, `inCheck` and `materialCount`.
- `MoveGen` covers `src/MoveGen.cpp`. The generators append to a move list in loops; `isLegal` makes and unmakes a move; `perft` recurses. Each method is proved equal to a specification on the `Board` view of the position. That view is the position without its hash, history and clocks.
- `Game` covers `src/Game.cpp`: the game result and the two `makeMove` entry points, with `parseMove` and `loadFEN`.
- `UciProtocol` covers `src/UCI.cpp`:
  - the `UCI` class with `handlePosition`, `handleGo`, `handleSetOption` and `handleNewGame`;
  - `parseMove` and the time-allocation rule;
  - lemmas that read the harness's own command text through the engine's parsers.
- `Search` covers the bookkeeping parts of `src/AI.cpp`:
  - killer slots and the clamped history table;
  - game phase and move-ordering scores, and the ordering of `orderMoves` (a `std::sort` by descending score), modelled by an in-place insertion sort that meets the same contract;
  - the transposition-table probe, store and bound flag;
  - the opening-book file reader and `probeOpeningBook`.
- `Tablebase` covers the static state of `src/Tablebase.cpp`, `probeWDL`'s guards, `probeRoot`'s move matching and `wdlToScore`. Calls into the Fathom library are parameters holding their results.
- `Tournament` covers `scripts/tournament.py`. An engine's process is a channel: the list of commands sent plus a scripted list of reply lines and read deadlines. On top of that sit:
  - `start`, `new_game`, `get_move`, `_wait_for` and `stop`;
  - the per-game loop and the round-robin schedule;
  - the scores and the standings.

Zobrist keys are abstract values. A hash is the set of keys XORed into it, and XOR with a key toggles that key's membership. Equal key sets give equal 64-bit hashes for any key table, so every hash property proved here holds whatever numbers the random generator draws.

Where the C++ code would be undefined, the contract carries a `requires` clause. Examples:
- `lsb` of an empty board;
- `movePiece` from an empty square;
- a FEN piece letter that names a square off the board.

The generators and the game methods require that move generation stays defined on the positions they visit. This is the `Ready`, `Settled` and `LineSettles` predicates: a king for the side to move, no pawn on its last rank, and every pseudo-legal move playable.

## Model

| member | source | states |
|---|---|---|
| Types.Opp | inc/Types.h:143 | the opposite colour differs from the colour, and white and black swap |
| Types.OppInvolution | inc/Types.h:143 | taking the opposite colour twice gives the colour back |
| Types.MakePiece | inc/Types.h:201-205 | the piece built from a colour and a type has that colour and that type |
| Types.PieceDecomposition | inc/Types.h:201-205 | every piece is rebuilt from its colour and its type |
| Types.MakeSquare | inc/Types.h:137-141 | the square built from a file and a rank has that file and that rank |
| Types.SquareDecomposition | inc/Types.h:137-141 | every square is rebuilt from its file and its rank |
| Types.SquareCoords | inc/Types.h:137-141 | a square equals `makeSquare(file, rank)` exactly when it lies on that file and rank |
| Types.MoveType | inc/Types.h:168 | the flag bits of a move are one of the four move kinds |
| Types.MakeMove | inc/Types.h:150 | a normal move keeps its from and to squares |
| Types.MakePromotion | inc/Types.h:152-154 | a promotion keeps its squares, is flagged as a promotion and names its piece |
| Types.MakeEnPassant | inc/Types.h:156-158 | an en-passant move keeps its squares and is flagged en passant |
| Types.MakeCastling | inc/Types.h:160-162 | a castling move keeps its squares and is flagged castling |
| Types.MoveFieldsDetermine | inc/Types.h:164-172 | two moves with the same squares, flag and promotion piece are the same 16-bit value |
| Types.MoveDecomposition | inc/Types.h:48-59 | every 16-bit move is the sum of its flag, promotion, to and from fields |
| Types.MoveFlagsDistinct | inc/Types.h:56-59 | the four move flags are pairwise distinct |
| Types.SquareToString | inc/Types.h:175-180 | no square prints as "-", every square as a file letter a-h and a rank digit 1-8 |
| Types.StringToSquare | inc/Types.h:182-188 | only two-character text names a square, exactly when it is a file letter a-h then a rank digit 1-8 |
| Types.SquareStringRoundTrip | inc/Types.h:175-188 | parsing a printed square (or "-") gives it back |
| Types.StringSquareRoundTrip | inc/Types.h:175-188 | printing a parsed square gives back the text it was read from |
| Types.MoveToString | inc/Types.h:190-198 | the text is the two square names, then for promotions one letter from "nbrq" |
| Bitboard.SetBitSpec | inc/Bitboard.h:37 | `setBit` adds the square and leaves every other square as it was |
| Bitboard.ClearBitSpec | inc/Bitboard.h:39-41 | `clearBit` removes the square and leaves every other square as it was |
| Bitboard.PopCountSetClear | inc/Bitboard.h:37-44 | setting an absent square adds one to `popCount`; clearing a present one takes one away |
| Bitboard.Lsb | inc/Bitboard.h:47 | `lsb` of a non-empty board is a member no greater than any other member |
| Bitboard.PopLsb | inc/Bitboard.h:53-57 | `popLsb` returns the lowest member and leaves the board without it, one square smaller |
| Bitboard.ShiftSpec | inc/Bitboard.h:61-68 | a shift by d holds t exactly when t - d is on the board and in the original |
| Bitboard.ShiftCount | inc/Bitboard.h:61-68 | a shift that keeps every square on the board keeps the count |
| Bitboard.FileMasks | inc/Bitboard.h:14-23 | FILE_A_BB, FILE_H_BB and RANK_1_BB hold exactly the squares of that file or rank |
| Bitboard.OffEdgeFiles | inc/Bitboard.h:72-77 | masking out an edge file keeps exactly the squares off that file |
| Bitboard.PawnPushSpec | inc/Bitboard.h:60-63 | `pawnPush` holds t exactly when the square one rank behind t (for the side) was in the board |
| Bitboard.PawnDoublePushSpec | inc/Bitboard.h:65-68 | `pawnDoublePush` holds t exactly when the square two ranks behind t was in the board |
| Bitboard.DiagonalShiftSpec | inc/Bitboard.h:70-78 | a masked diagonal shift holds t exactly when the square one file across and one rank back is on the board and in the original; nothing wraps round an edge |
| Bitboard.PawnAttackWestSpec | inc/Bitboard.h:70-73 | the west capture set holds t exactly when the pawn one file towards H and one rank back is there, never wrapping from file A |
| Bitboard.PawnAttackEastSpec | inc/Bitboard.h:75-78 | the east capture set holds t exactly when the pawn one file towards A and one rank back is there, never wrapping from file H |
| Bitboard.WhitePawnOnE4Attacks | inc/Bitboard.h:80-83 | a white pawn on e4 attacks exactly d5 and f5 |
| Bitboard.FileBBSpec | inc/Bitboard.h:86 | `fileBB(sq)` is the eight squares of the file of sq |
| Bitboard.RankBBSpec | inc/Bitboard.h:88 | `rankBB(sq)` is the eight squares of the rank of sq |
| Bits.MaskBits | inc/Bitboard.h:33-35 | on 64-bit words, `testBit` is non-zero exactly when the bit is set |
| Bits.SingleBits | inc/Bitboard.h:33 | `1 << k` has exactly bit k set |
| Bits.OrBits | inc/Bitboard.h:37 | on 64-bit words, `|` is the union of bits (setBit) |
| Bits.AndNotBits | inc/Bitboard.h:39-41 | on 64-bit words, `& ~` removes the bits of the mask (clearBit) |
| Bits.ClearLowestBits | inc/Bitboard.h:53-57 | `x & (x - 1)` clears exactly the lowest set bit |
| Bits.Up8Bits | inc/Bitboard.h:61-63 | white's push `<< 8` moves each bit up one rank |
| Bits.Down8Bits | inc/Bitboard.h:61-63 | black's push `>> 8` moves each bit down one rank |
| Bits.Up16Bits | inc/Bitboard.h:65-68 | white's double push `<< 16` moves each bit up two ranks |
| Bits.Down16Bits | inc/Bitboard.h:65-68 | black's double push `>> 16` moves each bit down two ranks |
| Bits.WestWhiteBits | inc/Bitboard.h:70-73 | `(x & ~FILE_A) << 7` moves each bit off file A up a rank and one file towards A |
| Bits.WestWhiteEdgeBits | inc/Bitboard.h:70-73 | nothing arrives on rank 1 or file H by white's west capture |
| Bits.EastWhiteBits | inc/Bitboard.h:75-78 | `(x & ~FILE_H) << 9` moves each bit off file H up a rank and one file towards H |
| Bits.EastWhiteEdgeBits | inc/Bitboard.h:75-78 | nothing arrives on rank 1 or file A by white's east capture |
| Bits.WestBlackBits | inc/Bitboard.h:70-73 | `(x & ~FILE_A) >> 9` moves each bit off file A down a rank and one file towards A |
| Bits.WestBlackEdgeBits | inc/Bitboard.h:70-73 | nothing arrives on rank 8 or file H by black's west capture |
| Bits.EastBlackBits | inc/Bitboard.h:75-78 | `(x & ~FILE_H) >> 7` moves each bit off file H down a rank and one file towards H |
| Bits.EastBlackEdgeBits | inc/Bitboard.h:75-78 | nothing arrives on rank 8 or file A by black's east capture |
| Bits.FileBits | inc/Bitboard.h:86 | `FILE_A_BB << f` is exactly the bits of file f |
| Bits.RankBits | inc/Bitboard.h:88 | `RANK_1_BB << 8r` is exactly the bits of rank r |
| AttackTables.KnightOffsetsComplete | src/Bitboard.cpp:15-28 | every knight move (file and rank differing by 1 and 2) is one of the eight offsets of `KnightOffsets` |
| AttackTables.KingOffsetsComplete | src/Bitboard.cpp:18-35 | every king move other than standing still is one of the eight offsets of `KingOffsets` |
| AttackTables.KnightAttacksFrom | src/Bitboard.cpp:51-60 | the offset loop for one square collects exactly the knight targets: on the board and a knight's jump away |
| AttackTables.KnightFromAll | src/Bitboard.cpp:53-58 | filtering all eight offsets reaches every knight target |
| AttackTables.KingAttacksFrom | src/Bitboard.cpp:62-72 | the offset loop for one square collects exactly the king targets, never the square itself |
| AttackTables.KingFromAll | src/Bitboard.cpp:65-70 | filtering all eight offsets reaches every king target |
| AttackTables.BetweenFrom | src/Bitboard.cpp:75-109 | the walk from sq1 towards sq2 collects exactly the squares strictly between aligned squares, and nothing for equal or unaligned squares |
| AttackTables.WalkStaysOnBoard | src/Bitboard.cpp:96-106 | every square the walk visits before sq2 is on the board and is not sq2 |
| AttackTables.WalkEnds | src/Bitboard.cpp:102 | the walk reaches sq2 after exactly the distance between the squares, so the loop ends |
| AttackTables.BetweenSymmetric | src/Bitboard.cpp:75-109 | `BetweenBB[a][b] == BetweenBB[b][a]` |
| AttackTables.WalkReversed | src/Bitboard.cpp:96-106 | a square k steps from a is n - k steps from b on the reverse walk |
| AttackTables.BetweenExcludesEnds | src/Bitboard.cpp:99-106 | neither end square is between |
| AttackTables.PawnTargetsSpec | src/Bitboard.cpp:39-48 | a pawn attacks exactly the on-board squares one file across and one rank forward for its colour |
| AttackTables.KnightReaches | src/Bitboard.cpp:24-28 | a square a (1,2) or (2,1) jump away is a knight target |
| AttackTables.KingReaches | src/Bitboard.cpp:31-35 | a neighbouring square is a king target |
| AttackTables.KnightOnE4 | src/Bitboard.cpp:51-60 | a knight on e4 attacks exactly eight named squares |
| AttackTables.KnightOnA1 | src/Bitboard.cpp:51-60 | a knight on a1 attacks exactly b3 and c2 |
| AttackTables.KingOnE4 | src/Bitboard.cpp:62-72 | a king on e4 attacks exactly its eight neighbours |
| AttackTables.KingOnA1 | src/Bitboard.cpp:62-72 | a king on a1 attacks exactly b1, a2 and b2 |
| AttackTables.Tables.constructor | src/Bitboard.cpp:37-111 | `init` fills the pawn, knight, king and between tables with exactly their specification sets |
| AttackTables.InitPawnAttacks | src/Bitboard.cpp:39-48 | every pawn table entry is the pawn target set of its colour and square |
| AttackTables.InitKnightAttacks | src/Bitboard.cpp:51-60 | every knight table entry is the knight target set of its square |
| AttackTables.InitKingAttacks | src/Bitboard.cpp:62-72 | every king table entry is the king target set of its square |
| AttackTables.InitBetween | src/Bitboard.cpp:75-110 | every between table entry is the between set of its two squares |
| Magic.Next | src/Magic.cpp:41-54 | a step that does not leave the board or wrap moves one file step and one rank step |
| Magic.Room | src/Magic.cpp:40-60 | the room left in a direction is positive exactly when one more step stays on the board |
| Magic.RoomNext | src/Magic.cpp:40-60 | each step uses up one unit of room, so the walk ends |
| Magic.WrapsIsOffBoard | src/Magic.cpp:44-54 | the bounds test plus the six wrap tests stop the walk exactly when no step in file and rank coordinates is left |
| Magic.AtEdgeIsLast | src/Magic.cpp:89-106 | `atEdge` holds exactly at the last square of the walk in that direction |
| Magic.WalkRay | src/Magic.cpp:38-60 | one direction's `while (true)` walk computes the ray: squares up to and including the first occupied one |
| Magic.SlidingAttacks | src/Magic.cpp:34-64 | `slidingAttacks` is the union of the rays in its four directions |
| Magic.WalkRelevant | src/Magic.cpp:71-116 | one direction's walk of `relevantOccupancy` collects the ray's squares except the edge square |
| Magic.RelevantOccupancy | src/Magic.cpp:67-120 | `relevantOccupancy` is the union of the relevant rays of its four directions |
| Magic.RelevantRaySpec | src/Magic.cpp:108-115 | a relevant square is a square of the empty-board ray that has a further square after it |
| Magic.RayMasked | src/Magic.cpp:122-125 | a ray depends on the occupancy only through its relevant squares |
| Magic.SlidingMasked | src/Magic.cpp:267-273 | sliding attacks for `occupied & mask` equal those for the whole occupancy, which is why indexing by the masked occupancy is sound |
| Magic.RayEmptySpec | src/Magic.cpp:40-60 | on an empty board a ray holds exactly its half-line up to the board's edge, with no wrap-around |
| Magic.RayEmptyCount | src/Magic.cpp:40-60 | an empty-board ray has one square per unit of room |
| Magic.RaySpec | src/Magic.cpp:56-59 | a ray holds the empty-board ray's squares up to and including the first blocker, and none past it |
| Magic.AlongOneDirection | src/Magic.cpp:30-31 | a square lies on the half-line of at most one direction |
| Magic.RayAligned | src/Magic.cpp:40-60 | every square a ray reaches shares a rank, file or diagonal with its origin |
| Magic.SlidingMember | src/Magic.cpp:37-61 | a square is attacked exactly when one direction's ray reaches it |
| Magic.DirectionsDistinct | src/Magic.cpp:30-31 | no direction is listed twice for rooks, bishops or queens |
| Magic.SlidingEmptyCount | src/Magic.cpp:34-64 | on an empty board the attack count is the sum of the room in every direction |
| Magic.RookEmptyCount | src/Magic.cpp:34-64 | an unobstructed rook attacks the room in its four directions |
| Magic.BishopEmptyCount | src/Magic.cpp:34-64 | an unobstructed bishop attacks the room in its four directions |
| Magic.QueenEmptyCount | inc/Magic.h:19-21 | a queen's rook and bishop squares never overlap, so its count is their sum |
| Magic.EmptyBoardFromE4 | src/Magic.cpp:267-273 | on an empty board a rook on e4 attacks 14 squares, a bishop 13 and a queen 27 |
| Magic.BishopOnF8MissesH1 | src/Magic.cpp:51-54 | a bishop on f8 never reaches h1: the diagonal does not wrap |
| Magic.RayEmptyMember | src/Magic.cpp:40-60 | on an empty board a ray is its whole half-line |
| Magic.AlongTowards | src/Magic.cpp:30-31 | a square on a line through sq lies on the half-line of the direction pointing at it |
| Magic.AlongShape | src/Magic.cpp:30-31 | a half-line runs along a file, a rank or a diagonal |
| Magic.RookEmptyMember | src/Magic.cpp:34-64 | on an empty board a rook attacks every other square of its rank and file, and nothing else |
| Magic.BishopEmptyMember | src/Magic.cpp:34-64 | on an empty board a bishop attacks every other square of its diagonals, and nothing else |
| Magic.SlidingWithin | src/Magic.cpp:56-59 | blockers only remove squares from the empty-board attacks |
| Magic.Reverse | src/Magic.cpp:30-31 | every direction has an opposite one |
| Magic.RaySymmetric | src/Magic.cpp:40-60 | t is on the ray from a exactly when a is on the reverse ray from t, for any occupancy |
| Magic.SlidingSymmetric | src/Magic.cpp:34-64 | with directions closed under reversal, sliding attacks are mutual |
| Magic.RookSymmetric | src/Magic.cpp:267-269 | a rook on a attacks b exactly when a rook on b attacks a |
| Magic.BishopSymmetric | src/Magic.cpp:271-273 | a bishop on a attacks b exactly when a bishop on b attacks a |
| Magic.LineSpec | src/Magic.cpp:244-262 | the line table is empty exactly for unaligned squares, and otherwise holds both squares |
| Magic.LineMember | src/Magic.cpp:247-256 | the line through two aligned squares is their whole rank, file or diagonal |
| Magic.BetweenSpec | src/Magic.cpp:251-261 | the between table is empty for unaligned squares, never holds an end and lies within the line |
| Magic.Aligned3Spec | src/Magic.cpp:279-281 | `aligned` holds only for aligned first squares, and always for a third square equal to one of them |
| Magic.RelevantSpec | src/Magic.cpp:67-120 | the relevant mask holds every empty-board ray square except each ray's last one |
| Magic.RelevantWithin | src/Magic.cpp:67-120 | the relevant mask lies within the empty-board attacks |
| Magic.LineAndBetween | src/Magic.cpp:240-262 | one iteration of the table loop computes the line and between sets of its two squares |
| Magic.MagicTables.constructor | src/Magic.cpp:177-265 | `init` fills the masks and the line and between tables with their specification sets |
| Magic.MagicTables.Rook | src/Magic.cpp:267-269 | `rookAttacks` returns the rook's sliding attacks for the whole occupancy |
| Magic.MagicTables.Bishop | src/Magic.cpp:271-273 | `bishopAttacks` returns the bishop's sliding attacks for the whole occupancy |
| Magic.MagicTables.BetweenOf | src/Magic.cpp:275 | `between` returns the between set |
| Magic.MagicTables.LineOf | src/Magic.cpp:277 | `line` returns the line set |
| Magic.MagicTables.AlignedOf | src/Magic.cpp:279-281 | `aligned` tests the third square against the line of the first two |
| Magic.InitMasks | src/Magic.cpp:180-211 | every mask entry is the relevant occupancy of its square |
| Magic.InitLineBetween | src/Magic.cpp:238-264 | every line and between entry is its specification set |
| Positions.Xor | src/Position.cpp:37 | XOR with a key toggles that key's membership and leaves every other key as it was |
| Positions.XorTwice | src/Position.cpp:37-49 | XOR-ing the same key twice restores the hash |
| Positions.MailboxAgreement | inc/Position.h:29-34 | under the invariant a square holds pc exactly when it is in pc's type and colour bitboards, the colour sets are disjoint, and `occupied` is the set of non-empty squares |
| Positions.BitboardsDetermined | inc/Position.h:29-34 | two consistent states with the same mailbox have the same bitboards |
| Positions.HashValidSplits | src/Position.cpp:137-148 | the from-scratch hash is the piece keys together with the side, castling and en-passant keys |
| Positions.PutSpec | src/Position.cpp:30-38 | `putPiece` on an empty square keeps the invariant, places exactly pc on sq and XORs in exactly pc's key on sq |
| Positions.PieceKeysUpdate | src/Position.cpp:37-49 | filling an empty square adds its one piece key; emptying a square drops its one piece key |
| Positions.RemoveSpec | src/Position.cpp:40-51 | `removePiece` keeps the invariant, empties sq and drops exactly the removed piece's key; on an empty square it changes nothing |
| Positions.RemoveUndoesPut | src/Position.cpp:30-51 | `removePiece` exactly undoes `putPiece` on an empty square, hash included |
| Positions.MovePcSpec | src/Position.cpp:53-57 | `movePiece` to an empty square keeps the invariant and moves the piece |
| Positions.MakeStart | src/Position.cpp:208-236 | the first part of `makeMove` leaves the mailbox and the side to move alone |
| Positions.UndoStart | src/Position.cpp:326-346 | the first part of `unmakeMove` leaves the mailbox alone and gives the move back to the other side |
| Positions.MoveBoardSpec | src/Position.cpp:238-291 | the piece moves of every move kind keep the invariant, move the pieces as the move says and keep the hash in step with the piece keys |
| Positions.MoveBoardNormal | src/Position.cpp:241-257 | a normal move removes any captured piece and moves the mover |
| Positions.MoveBoardPromotion | src/Position.cpp:259-268 | a promotion removes any captured piece and the pawn, and puts the promoted piece on the target |
| Positions.MoveBoardEnPassant | src/Position.cpp:270-275 | en passant removes the pawn behind the target and moves the capturing pawn |
| Positions.MoveBoardCastling | src/Position.cpp:277-291 | castling moves the king, then the rook from its corner to the square the king passed |
| Positions.MakeKeys | src/Position.cpp:224-322 | taking the old en-passant and castling keys out and putting the new ones and the side key in turns one side's state keys into the other's |
| Positions.MakeMoveSpec | src/Position.cpp:207-323 | `makeMove` keeps the invariant, leaves the mailbox as the move says and pushes the state needed to take it back |
| Positions.MakeMoveHash | src/Position.cpp:207-323 | `makeMove` keeps the hash equal to its from-scratch value |
| Positions.UnmoveBoardSpec | src/Position.cpp:348-400 | the piece moves of `unmakeMove` put every piece back for each move kind |
| Positions.UnmoveNormal | src/Position.cpp:349-358 | a normal move is taken back and any captured piece restored |
| Positions.UnmovePromotion | src/Position.cpp:360-368 | a promotion is taken back to a pawn and any captured piece restored |
| Positions.UnmoveEnPassant | src/Position.cpp:370-378 | the pawn goes back and the captured pawn reappears behind the target |
| Positions.UnmoveCastling | src/Position.cpp:380-399 | the king and the rook go back to their squares |
| Positions.UndoStartAfterMake | src/Position.cpp:325-346 | popping the state `makeMove` pushed restores every field that is not a piece placement |
| Positions.MakeUnmakeRoundTrip | src/Position.cpp:207-401 | `unmakeMove` after `makeMove` restores the mailbox, bitboards, side, castling, en-passant square, both clocks and the history; the hash comes back XORed with the piece keys before and after the moved-back pieces |
| Positions.UnmakeMoveKeepsMovedKeys | src/Position.cpp:345-358 | after a quiet move the restored hash has the moved piece's keys on both squares XORed in, so it differs from the saved hash |
| Positions.MakeUnmakeRestoresAll | src/Position.cpp:325-401 | an `unmakeMove` that restores the saved hash after the pieces are back returns exactly the position before the move |
| Positions.MakeMoveRules | src/Position.cpp:233-322 | the side flips; the fullmove number rises after a Black move; the halfmove clock resets on a capture or pawn move and otherwise counts up; the en-passant square is the skipped square after a double push and empty otherwise; the castling mask follows the king and corner rules |
| Positions.RightsRules | src/Position.cpp:293-307 | the castling mask never gains a right, a king move clears both of the mover's rights, and a rook move or capture from or to a corner clears that corner's right |
| Positions.NullMoveSpec | src/Position.cpp:403-444 | a null move keeps the pieces and the from-scratch hash, passes the move, and `unmakeNullMove` takes it back exactly, hash included |
| Positions.UnmakeOnEmptyHistory | src/Position.cpp:325-444 | both unmake operations leave a position with an empty history alone |
| Positions.Cleared | src/Position.cpp:16-28 | the cleared position is consistent and its hash holds exactly its (absent) piece keys |
| Fen.Word | src/Position.cpp:66 | the first word is a space-free prefix of the text ending at a space or at the end |
| Fen.Words | src/Position.cpp:66 | every word `>>` reads is non-empty and holds no space |
| Fen.WordsOfJoin | src/Position.cpp:66 | words joined by single spaces are read back as the same words |
| Fen.IntStringRoundTrip | src/Position.cpp:134-135 | a printed `int` is a number word that reads back as the same value |
| Fen.LetterTypeTable | src/Position.cpp:80-101 | the letters the FEN reader accepts are exactly the letters the FEN writer prints, each naming its own piece type |
| Fen.PieceLetterRoundTrip | src/Position.cpp:77-98 | reading a printed piece letter (case for colour, lower-case letter for type) gives the piece back |
| Fen.PlaceUnfold | src/Position.cpp:70-105 | a '/', digit or piece letter advances the placement reader; any other character stops it where it is |
| Fen.PlaceStopsIff | src/Position.cpp:99-100 | the placement reader returns false exactly when the field holds a character that is not '/', a digit or a piece letter |
| Fen.PlaceKeepsBuilding | src/Position.cpp:70-105 | placing pieces on empty squares keeps the board invariant and a hash of piece keys only |
| Fen.CastlingText | src/Position.cpp:183-192 | the printed castling field is a non-empty word |
| Fen.CastlingRoundTrip | src/Position.cpp:112-192 | reading the printed castling field gives the same rights mask back |
| Fen.RankTextStep | src/Position.cpp:157-179 | an empty square extends the run of empties; a piece first prints the run's digit, then its letter |
| Fen.PlacementTextWord | src/Position.cpp:156-180 | the printed placement is one non-empty word |
| Fen.ToFenWords | src/Position.cpp:153-203 | the six words read from `getFEN`'s text are its six fields |
| Fen.ReadFieldsHash | src/Position.cpp:107-148 | reading the fields after the placement gives the from-scratch hash and keeps the invariant |
| Fen.FromFenSound | src/Position.cpp:59-151 | when every piece letter lands on an empty square, `setFromFEN` keeps the invariant, succeeds exactly when the placement holds only '/', digits and piece letters, and then has the from-scratch hash |
| Fen.FitsPlace | src/Position.cpp:70-105 | a placement that stays within the board is read without leaving it |
| Fen.StartingFenWellFormed | inc/Position.h:112-113 | the starting FEN splits into its six fields, its placement stays on the board and its counters are numbers |
| PositionClass.Position.constructor | src/Position.cpp:11-14 | a new position holds the standard starting position and satisfies the board invariant |
| PositionClass.Position.Clear | src/Position.cpp:16-28 | `clear` empties every array entry and resets castling, en-passant, clocks, hash and history |
| PositionClass.Position.PutPiece | src/Position.cpp:30-38 | the arrays change exactly as the value-level `putPiece` says, and the invariant is kept |
| PositionClass.Position.RemovePiece | src/Position.cpp:40-51 | the arrays change exactly as the value-level `removePiece` says, and the invariant is kept |
| PositionClass.Position.MovePiece | src/Position.cpp:53-57 | the arrays change exactly as the value-level `movePiece` says, and the invariant is kept |
| PositionClass.Position.MakeNullMove | src/Position.cpp:403-427 | the new state is the null move of the old one |
| PositionClass.Position.UnmakeNullMove | src/Position.cpp:429-444 | the new state is the old one with its null move taken back |
| PositionClass.Position.MovePieces | src/Position.cpp:238-291 | the arrays and the captured piece are those of the value-level piece moves for the move's kind |
| PositionClass.Position.UpdateCastlingRights | src/Position.cpp:293-307 | the castling mask becomes the one the rights rules give |
| PositionClass.Position.FinishMove | src/Position.cpp:293-322 | the saved capture, castling rights, hash keys, side and fullmove number are updated as the value-level `makeMove` says |
| PositionClass.Position.MakeMove | src/Position.cpp:207-323 | the new state is the value-level `makeMove` of the old one, and the invariant is kept |
| PositionClass.Position.UnmovePieces | src/Position.cpp:348-400 | the arrays are those of the value-level take-back of the saved move |
| PositionClass.Position.UnmakeMove | src/Position.cpp:325-401 | the new state is the value-level `unmakeMove` (as written) of the old one |
| PositionClass.Position.PlacePieces | src/Position.cpp:68-105 | the placement loop stops with `ok` false exactly where the placement reader meets an unknown character, and otherwise leaves the pieces the placement names |
| PositionClass.Position.SetFromFen | src/Position.cpp:59-151 | the result flag and the new state are those of the value-level FEN reader |
| PositionClass.Position.ReadFieldWords | src/Position.cpp:107-148 | side, castling, en-passant square and clocks are read from the fields and their keys XORed into the hash |
| PositionClass.Position.RankString | src/Position.cpp:157-179 | a rank is printed as the run-length text of its squares |
| PositionClass.Position.CastlingString | src/Position.cpp:183-192 | the castling field is the letters KQkq of the rights held, or "-" |
| PositionClass.Position.PlacementString | src/Position.cpp:156-180 | the placement is the ranks 8 down to 1 joined by '/' |
| PositionClass.Position.GetFen | src/Position.cpp:153-203 | the text is the FEN of the state |
| Attacks.PawnSymmetric | src/Bitboard.cpp:39-48 | a pawn of one colour on a attacks b exactly when a pawn of the other colour on b attacks a |
| Attacks.KnightSymmetric | src/Bitboard.cpp:51-60 | the knight table is symmetric |
| Attacks.KingSymmetric | src/Bitboard.cpp:62-72 | the king table is symmetric |
| Attacks.LookOutward | src/Position.cpp:451-475 | the pattern looked up from `sq` contains a square exactly when a piece of that type on it attacks `sq` |
| Attacks.AttackedFound | src/Position.cpp:451-475 | every piece `isAttacked` finds attacks the square |
| Attacks.AttackerSeen | src/Position.cpp:451-475 | every piece that attacks the square is found by `isAttacked` |
| Attacks.AttackedIff | src/Position.cpp:446-475 | `isAttacked` holds exactly when some piece of the attacker's colour attacks the square with its own pattern (so `inCheck` holds exactly when the king's square is attacked) |
| Attacks.CountOnIsPopCount | src/Position.cpp:505-513 | the popcount of a piece bitboard is the number of mailbox squares holding that piece |
| Attacks.MaterialFromMailbox | src/Position.cpp:505-513 | `materialCount` is 100, 320, 330, 500 and 900 per pawn, knight, bishop, rook and queen of the colour, counted square by square |
| MoveGen.View | src/MoveGen.cpp:144-188 | the board move generation reads keeps the position's pieces, side to move, castling rights and en-passant square |
| MoveGen.PlayView | src/Position.cpp:207-323 | the board after a move does not depend on the hash, the history or the clocks |
| MoveGen.UndoIgnoresHash | src/Position.cpp:345 | `unmakeMove` overwrites the hash before reading it, so the hash it starts from makes no difference |
| MoveGen.PromotionsIff | src/MoveGen.cpp:27-50 | a promotion is generated with all four promotion pieces, and only those |
| MoveGen.PawnCapturesIff | src/MoveGen.cpp:43-56 | the capture loop emits exactly one move (or the four promotions) per target square |
| MoveGen.PawnPushesIff | src/MoveGen.cpp:21-40 | a single push goes to the empty square ahead, as the four promotions from the promotion rank; a double push needs the start rank and both squares empty |
| MoveGen.PawnMovesIff | src/MoveGen.cpp:12-64 | the moves of one pawn are exactly the pawn-shaped moves from its square (pushes, captures of enemy pieces, en passant onto the set en-passant square) |
| MoveGen.TargetMovesIff | src/MoveGen.cpp:91-94 | the inner loop emits exactly one normal move per target square |
| MoveGen.PieceMovesIff | src/MoveGen.cpp:68-97 | the piece moves are exactly the moves from the pieces to squares their attack pattern reaches that do not hold the mover's own pieces |
| MoveGen.CastlingMovesIff | src/MoveGen.cpp:101-142 | castling is generated exactly when not in check, the right is held, the squares between are empty and the king's path is not attacked |
| MoveGen.PseudoLegalIff | src/MoveGen.cpp:144-188 | the pseudo-legal list holds exactly the moves of the generation rules |
| MoveGen.LegalOnPosition | src/MoveGen.cpp:190-202 | the legality verdict is whether the mover's king is attacked after the move is made |
| MoveGen.IsLegal | src/MoveGen.cpp:190-202 | `isLegal` answers the legality of the move and gives the position back with everything but the hash restored |
| MoveGen.LegalAmongIff | src/MoveGen.cpp:204-216 | the legal filter keeps exactly the legal moves of its list and never more moves than the list holds |
| MoveGen.CapturesAmongIff | src/MoveGen.cpp:218-234 | the capture filter keeps exactly the legal captures of its list |
| MoveGen.LegalMovesIff | src/MoveGen.cpp:204-216 | the legal moves are exactly the generated moves that pass the legality test |
| MoveGen.CapturesIff | src/MoveGen.cpp:218-234 | the captures are exactly the legal moves onto an occupied square or en passant |
| MoveGen.ChildrenReady | src/MoveGen.cpp:236-251 | below a position ready to a depth of two or more, every legal move can be made and leads to a position ready one ply less deep |
| MoveGen.GeneratePawnMoves | src/MoveGen.cpp:12-64 | appends the moves of one pawn |
| MoveGen.AddPawnPushes | src/MoveGen.cpp:21-40 | appends the pushes of one pawn |
| MoveGen.AddPawnCaptures | src/MoveGen.cpp:43-56 | appends the captures of one pawn over its target squares |
| MoveGen.AddTargetMoves | src/MoveGen.cpp:91-94 | appends one move per target square, lowest first |
| MoveGen.GeneratePieceMoves | src/MoveGen.cpp:68-97 | appends the moves of the pieces of one type |
| MoveGen.GenerateCastling | src/MoveGen.cpp:101-142 | appends the castling moves |
| MoveGen.AddKingsideCastling | src/MoveGen.cpp:110-125 | appends kingside castling exactly when its conditions hold |
| MoveGen.AddQueensideCastling | src/MoveGen.cpp:127-141 | appends queenside castling exactly when its conditions hold |
| MoveGen.GeneratePseudoLegalMoves | src/MoveGen.cpp:144-188 | returns the pseudo-legal list: pawns, knights, bishops, rooks, queens, king, castling, in that order |
| MoveGen.GenerateAllPawnMoves | src/MoveGen.cpp:150-154 | returns the moves of every pawn, lowest square first |
| MoveGen.GenerateLegalMoves | src/MoveGen.cpp:204-216 | returns the legal moves in generation order and restores everything but the hash |
| MoveGen.GenerateCaptures | src/MoveGen.cpp:218-234 | returns the legal captures in generation order and restores everything but the hash |
| MoveGen.AddIfLegal | src/MoveGen.cpp:210-213 | keeps a move exactly when it is legal |
| MoveGen.AddIfLegalCapture | src/MoveGen.cpp:225-231 | keeps a move exactly when it is a legal capture |
| MoveGen.ChildNodesStep | src/MoveGen.cpp:245-249 | the loop's running count grows by the count below each move |
| MoveGen.Perft | src/MoveGen.cpp:236-251 | returns the number of leaf nodes `depth` plies below the position (1 at depth 0, the number of legal moves at depth 1) and restores everything but the hash |
| MoveGen.PerftChildren | src/MoveGen.cpp:245-249 | sums the counts below every move of the list |
| MoveGen.PerftChild | src/MoveGen.cpp:246-248 | makes a move, counts below it and takes it back |
| Game.ResultStringInjective | src/Game.cpp:112-125 | each result has its own text, and only a game in progress reads "Game in progress" |
| Game.ParseMove | src/Game.cpp:35-91 | a move read from text names the text's two squares, and is a promotion exactly when the text has a fifth character |
| Game.ParseMoveRejects | src/Game.cpp:36-68 | text shorter than four characters, an unreadable square, a fifth character naming no promotion piece, or a four-character move from an empty square is read as 0 |
| Game.ParseMoveIgnoresCase | src/Game.cpp:53-54 | the promotion letter is read in either case |
| Game.PrintedSquares | inc/Types.h:190-198 | a printed move begins with its from- and to-squares |
| Game.ParsePrintedMove | src/Game.cpp:35-91 | printing a move and reading it back gives the move again, for every promotion and for every other move from an occupied square whose kind matches its piece and squares |
| Game.NextResultOver | src/Game.cpp:95-110 | after the update the game is over exactly when the side to move has no legal move, the draw rules apply, or it was over already |
| Game.NextResultWinner | src/Game.cpp:98-102 | a game in progress is won by White exactly when Black is to move, in check and without a legal move, and the other way round |
| Game.Game.constructor | src/Game.cpp:9-14 | a new game holds the starting position, an AI of depth 6 and no result yet |
| Game.Game.Reset | src/Game.cpp:11-14 | the position becomes the starting position and the game is in progress |
| Game.Game.UpdateGameResult | src/Game.cpp:95-110 | the result becomes the next result of the board, and the position comes back with everything but the hash restored |
| Game.Game.MakeMove | src/Game.cpp:22-33 | a move is accepted exactly when it is legal; a refused move changes nothing but the hash, an accepted one is played and the result updated |
| Game.Game.PlayLegal | src/Game.cpp:30-32 | a legal move is made and the result updated |
| Game.Game.MakeMoveText | src/Game.cpp:16-20 | text is accepted exactly when it reads as a legal move; accepted text plays that move (the position after it, hashes aside) and updates the result from the new board; refused text changes only the hash |
| Game.Game.LoadFen | src/Game.cpp:127-133 | succeeds exactly when `setFromFEN` does; the result is updated only on success |
| UciProtocol.SplitLine | src/UCI.cpp:42-51 | a line of a command word, a space and the rest is dispatched as that command with that rest |
| UciProtocol.ReadNumber | src/UCI.cpp:161-174 | a number read takes at least one character of the word |
| UciProtocol.ReadIntWord | src/UCI.cpp:161-174 | a whole word that is a number reads as its value |
| UciProtocol.Stoi | src/UCI.cpp:280 | `std::stoi` gives a value within the range of `int`, and none where it throws |
| UciProtocol.StoiIntWord | src/UCI.cpp:280 | a whole-number word is read by `std::stoi` as `>> int` reads it |
| UciProtocol.ReadStreamInt | src/UCI.cpp:161-174 | `>> int` reads a value within the range of `int`, also when it fails |
| UciProtocol.ReadStreamIntWord | src/UCI.cpp:161-174 | `>> int` on a number word reads its value and goes on after it |
| UciProtocol.FirstNamed | src/UCI.cpp:347-360 | the move found is the first of the list with the word's squares and promotion, and there is none exactly when no move fits |
| UciProtocol.ReadMoveText | src/UCI.cpp:302-342 | the word passes exactly when it has at least four characters naming two squares and, at exactly five characters, a lower-case n, b, r or q at the end; it then asks for those squares and that promotion |
| UciProtocol.ReadUciMove | src/UCI.cpp:300-361 | a move read is legal and has the word's squares and promotion; none is read when no legal move fits |
| UciProtocol.LegalNotNull | src/UCI.cpp:122-141 | no legal move is the null move 0, so 0 can mean "no move" |
| UciProtocol.ReadPrintedText | inc/Types.h:190-198 | a printed move passes the checks and asks for its own squares and promotion |
| UciProtocol.ReadPrintedUciMove | src/UCI.cpp:300-361 | reading a legal move's printed text back finds a legal move that prints the same |
| UciProtocol.FindNamed | src/UCI.cpp:347-360 | the loop returns the first legal move the word names, or 0 |
| UciProtocol.ReadGoParams | src/UCI.cpp:157-178 | the parameters are those the `go` words set, starting from the defaults |
| UciProtocol.ClockTime | src/UCI.cpp:193-216 | the allowance is at least 10 ms and at most the remaining time less 100 ms (or 10 ms); with a second or more on the clock it lies between 100 ms and a tenth of the remaining time |
| UciProtocol.ClockTimeShare | src/UCI.cpp:195-199 | with no increment and no `movestogo`, a clock of at least three seconds gives a thirtieth of it |
| UciProtocol.ShortMovetimeNeverStops | src/UCI.cpp:184-186 | a `movetime` of at most 50 ms gives a limit of zero or below, and the search is not stopped by time |
| UciProtocol.CorrectedMovetimeStops | src/UCI.cpp:184-186 | with the corrected allowance a positive `movetime` gives a positive limit within it, and the search stops once it has elapsed |
| UciProtocol.HarnessReadsReply | src/UCI.cpp:244-249 | the harness reads back the printed move, and takes the reply for "no move" exactly when the engine found none |
| UciProtocol.GoFromPair | src/UCI.cpp:159-178 | a keyword and a number set that parameter alone |
| UciProtocol.HarnessGoMovetime | src/UCI.cpp:159-186 | the harness's `go movetime v` is read as that move time, and a positive one becomes v - 50 ms |
| UciProtocol.HarnessGoDepth | src/UCI.cpp:159-183 | the harness's `go depth d` is read as that depth with no time limit |
| UciProtocol.HarnessDepthOption | src/UCI.cpp:261-282 | the harness's `setoption name Depth value n` asks for depth n |
| UciProtocol.MovesIndex | src/UCI.cpp:107 | the FEN's words run up to the first `moves` or the end |
| UciProtocol.HarnessStartpos | src/UCI.cpp:95-103 | the harness's `position startpos` line asks for the start position and its moves |
| UciProtocol.HarnessFen | src/UCI.cpp:104-110 | the harness's `position fen` line asks for its FEN and moves |
| Game.ApplyUnhashed | src/Position.cpp:207-323 | making a move does not read the hash: positions equal but for their hashes stay equal but for them, clocks and history included |
| Game.MovedToBy | src/Game.cpp:22-33 | a legal move made on a copy whose hashes differ leaves the position after the move, hashes aside |
| UciProtocol.ConcludedNext | src/Game.cpp:95-110 | the updated result is decided by the board when it has no legal move, and is otherwise the earlier result or a draw |
| UciProtocol.LinePosView | src/UCI.cpp:122-141 | replaying the moves on the whole position gives the same board as replaying them on boards |
| UciProtocol.LinePosUnhashed | src/UCI.cpp:122-141 | the replay from two positions equal but for their hashes ends in positions equal but for their hashes |
| UciProtocol.OnLineStep | src/UCI.cpp:124-139 | playing the next word's legal move moves the replay one word on |
| UciProtocol.OnLineStop | src/UCI.cpp:123-138 | where the words run out or the next one names no legal move, the position reached is the replay of the whole line |
| UciProtocol.LineStateStart | src/UCI.cpp:121-123 | before the first word the loop stands at the start of the line with the earlier result |
| UciProtocol.LineStateNext | src/UCI.cpp:123-138 | a word naming a legal move moves the loop one word on with the result of the new board; any other word ends the line where it stands |
| UciProtocol.LineStateEnd | src/UCI.cpp:121-141 | when the loop ends the position is the replay of the line, and the result is concluded from the final board once a move was played, else unchanged |
| UciProtocol.LineReplaysPrinted | src/UCI.cpp:122-141 | a legal move's printed text, replayed, plays a legal move that prints the same, and the line goes on from there |
| UciProtocol.UCI.constructor | src/UCI.cpp:12-13 | a new game at the start position, depth 6 and debugging off |
| UciProtocol.UCI.HandleNewGame | src/UCI.cpp:88-93 | the position is reset and the search depth handed to the engine again |
| UciProtocol.UCI.ParseMove | src/UCI.cpp:300-361 | returns the legal move the word names, or 0, and restores everything but the hash |
| UciProtocol.UCI.PlayMoveWord | src/UCI.cpp:124-139 | a word naming a legal move plays it: the new position is the old one after that move, clocks and history included, hashes aside, and the result is the next result of the new board; any other word stops the line and changes nothing but the hash |
| UciProtocol.UCI.PlayMoveWords | src/UCI.cpp:122-141 | the moves are played in order up to the first word that is not a legal move: the position is the replay of that line on the whole state, hashes aside; once a move was played, a final board without legal moves decides the result and otherwise it is the earlier result or a draw; with no move played the result is unchanged |
| UciProtocol.UCI.HandlePosition | src/UCI.cpp:95-142 | the start position or the FEN, after a reset, then the moves, with the position and the result as the move loop leaves them; a FEN that fails to load leaves its partial position, no moves and the game in progress; other text changes nothing unless it starts with `moves` |
| UciProtocol.UCI.SetUpStartpos | src/UCI.cpp:100-141 | the position becomes the replay of the moves from the start position, hashes aside; the game is in progress unless the final board or the draw rules end it |
| UciProtocol.UCI.SetUpFen | src/UCI.cpp:104-141 | the position becomes the replay of the moves from the FEN's position, hashes aside, with the result concluded from the final board; or the partial position a failed FEN leaves, with the game in progress |
| UciProtocol.UCI.LoadFenLine | src/UCI.cpp:111-141 | a FEN that loads is followed by the replay of the moves, hashes aside, and a final board without legal moves decides the result; one that fails leaves what the reader left and the game in progress, as the reset set it |
| UciProtocol.UCI.HandleGo | src/UCI.cpp:144-250 | the depth and time limit follow the `go` parameters and the search runs with the start time left as it was; the reply is `bestmove` with the move found (or 0000); the limit is cleared afterwards, the table age moves on by one modulo 256 when a search ran, and the position is restored but for its hash |
| UciProtocol.UCI.HandleSetOption | src/UCI.cpp:261-283 | `Debug` sets debugging to whether the value is `true`; `Depth` sets the search depth and the engine's depth, or ends the program where `std::stoi` throws; anything else changes nothing |
| UciProtocol.ReadFenWords | src/UCI.cpp:106-110 | the FEN is the words after `fen` up to `moves`, joined by single spaces |
| Search.ShouldStopPositive | src/AI.cpp:43-47 | with no limit the search never stops; with a positive limit it stops exactly once that many milliseconds have passed |
| Search.NegativeLimitNeverStops | src/AI.cpp:43-47 | a negative limit, cast to an unsigned 64-bit number, never stops the search within any realistic elapsed time |
| Search.UnsetStartStopsAtOnce | src/AI.cpp:43-47 | with the start time left at 0, a positive limit stops the search as soon as the clock reads at least the limit |
| Search.AI.StartTimedSearch | src/AI.cpp:157-162 | the limit is set and the current clock reading becomes the start time, so a positive limit does not stop the search at once and stops it exactly when that many milliseconds have passed |
| Search.KillerStoreSpec | src/AI.cpp:1315-1323 | after a store the move is the first killer, the old first killer is still a killer, no other move is one, and storing the same move again changes nothing |
| Search.HistoryAfter | src/AI.cpp:1296-1313 | a history entry always stays within [-10000, 10000] |
| Search.HistoryNeverDrops | src/AI.cpp:1296-1313 | a cutoff never lowers an in-range entry and raises it unless it is already at the top |
| Search.GamePhase | src/AI.cpp:1009-1032 | the phase lies between 0 and 256 |
| Search.PhaseScaleSpec | src/AI.cpp:1023-1031 | 24 or more phase points give 256, none gives 0, and the scaled phase never falls as points are added |
| Search.GamePhaseSpec | src/AI.cpp:1009-1032 | full starting material or more is the opening phase 256, no minor or major piece is phase 0, and more material never gives a lower phase |
| Search.CaptureScore | src/AI.cpp:1244-1258 | winning captures score above 20000, even trades exactly 10000 and losing captures below 5000 |
| Search.SwapPermutes | src/AI.cpp:1288-1294 | exchanging two moves keeps the multiset of moves |
| Search.BoundFlag | src/AI.cpp:578-584 | the stored bound is upper exactly when the score did not raise alpha, lower exactly when it reached beta, and exact exactly when it fell strictly inside the window |
| Search.ProbeEntry | src/AI.cpp:302-316 | only an entry for the same position searched at least as deep is used; it returns its own score or narrows the window, and any other entry leaves the window alone |
| Search.ProbeCutoffBound | src/AI.cpp:302-316 | within an open window a lower bound cuts off only at or above beta and an upper bound only at or below alpha |
| Search.StoreThenProbe | src/AI.cpp:302-584 | after a store that replaced the slot, probing the same position no deeper returns the stored exact score, and any cutoff returns the stored score |
| Search.IndexOf | src/AI.cpp:65 | the index is that of the first '\|', or -1 exactly when there is none |
| Search.TrimFront | src/AI.cpp:73 | leading spaces and tabs are removed, and only those |
| Search.TrimBack | src/AI.cpp:74 | trailing spaces and tabs are removed, and only those |
| Search.ParseBookLine | src/AI.cpp:60-77 | empty lines, comment lines and lines without '\|' are skipped; otherwise the FEN is the trimmed text before the first '\|' and the moves are the words after it |
| Search.ReadBookMove | src/AI.cpp:90-101 | a promotion piece is read only from a fifth and last character among q, r, b, n |
| Search.BookMatch | src/AI.cpp:104-115 | the match is the first legal move with the word's squares and promotion piece, and there is none exactly when no legal move fits |
| Search.BookMovesLegal | src/AI.cpp:88-116 | every book move kept is legal in its position, and there are no more of them than words |
| Search.BookOfSound | src/AI.cpp:50-125 | the loaded book holds only legal moves and no FEN with an empty list |
| Search.AI.constructor | src/AI.cpp:16-35 | zeroed killer, history, countermove and PV tables, an empty transposition table, no time limit and an empty book |
| Search.AI.StoreKiller | src/AI.cpp:1315-1323 | plies beyond the table are ignored; otherwise only that ply's two slots change, as the killer rule says |
| Search.AI.UpdateHistory | src/AI.cpp:1296-1313 | only the move's from-to entry changes, by the bounded history rule with bonus depth squared |
| Search.AI.MoveScore | src/AI.cpp:1233-1286 | the move from the transposition table scores the fixed top score |
| Search.AI.TTMoveFirst | src/AI.cpp:1233-1286 | with history scores in their bounds and exchange values no larger than a king, every other move scores strictly below the transposition-table move |
| Search.AI.GoodCaptureFirst | src/AI.cpp:1233-1286 | a winning capture scores above any quiet move without killer, countermove or promotion bonus, and an even trade no lower |
| Search.AI.OrderMoves | src/AI.cpp:1288-1294 | the moves are rearranged, as a permutation, into non-increasing score order |
| Search.AI.InsertAt | src/AI.cpp:1288-1294 | one step of the sort extends the sorted prefix by one and keeps the multiset |
| Search.AI.SinkStep | src/AI.cpp:1288-1294 | exchanging two neighbours exchanges their scores |
| Search.AI.StoreResult | src/AI.cpp:561-584 | only the slot the hash selects changes, by the replacement rule |
| Search.AI.LoadOpeningBook | src/AI.cpp:50-125 | the book is built from the file's lines (empty if the file cannot be opened) and holds only legal moves |
| Search.AI.ProbeOpeningBook | src/AI.cpp:128-150 | 0 when the position's FEN has no entry, otherwise one of the entry's first three moves |
| Search.ReadBookLine | src/AI.cpp:60-120 | one line is added to the book as the line rule says |
| Search.ReadBookEntry | src/AI.cpp:80-120 | an entry's FEN is set up on a fresh position (a FEN that fails is skipped) and its legal moves are stored when there are any |
| Search.ReadBookMoves | src/AI.cpp:88-116 | the move words are matched in order against the position's legal moves |
| Search.ReadBookMoveWord | src/AI.cpp:88-116 | words shorter than four characters are skipped; otherwise the first legal move the word names, if any, is appended, and the position's board is unchanged |
| Search.FindBookMove | src/AI.cpp:104-115 | the scan returns the first legal move the word names |
| Tablebase.WdlToScoreOrders | src/Tablebase.cpp:219-234 | within the search's ply range loss < blessed loss < draw < cursed win < win, wins and losses mirror each other, a faster win and a slower loss score more |
| Tablebase.WdlToScoreValues | src/Tablebase.cpp:219-234 | a win scores 10000 - ply, a loss -10000 + ply, a cursed win 1, a blessed loss -1, a draw or unknown result 0 |
| Tablebase.FirstMatch | src/Tablebase.cpp:185-214 | the index is that of the first legal move with the named squares and promotion, or the list's length when none matches |
| Tablebase.MatchLegalMove | src/Tablebase.cpp:185-214 | the loop returns the first matching legal move, or 0 |
| Tablebase.MatchIsLegal | src/Tablebase.cpp:185-214 | a nonzero move found is in the list and has the named squares and promotion, and a match is found whenever one exists |
| Tablebase.Gate.constructor | src/Tablebase.cpp:28-29 | the tables start unloaded with size 0 |
| Tablebase.Gate.Init | src/Tablebase.cpp:31-53 | an empty path changes nothing; a successful load records the size; the answer is success with a size above zero |
| Tablebase.Gate.Free | src/Tablebase.cpp:55-61 | after `free` nothing is available |
| Tablebase.Gate.ProbeRoot | src/Tablebase.cpp:114-217 | no result unless the tables can probe the position without castling rights; a mate or stalemate at the root gives a loss or a draw; otherwise the result carries Fathom's outcome and the first move of the position's own legal-move list with Fathom's squares and promotion, which is legal, or 0 when none matches |
| Tablebase.ProbeWDLGuards | src/Tablebase.cpp:63-112 | a probe answers only when the tables are loaded, cover the piece count, and the position has no castling rights and a zero halfmove clock; after `free` nothing can be probed |
| Tournament.Strip | scripts/tournament.py:124 | the stripped line neither starts nor ends with white space |
| Tournament.AddDefault | scripts/tournament.py:39-46 | an option is added, at the end, only when wanted and not already given; nothing given is changed |
| Tournament.WithDefaultsSpec | scripts/tournament.py:35-46 | given options keep their order and values; SyzygyPath and BookPath are added after them only when enabled, not given and present on disk |
| Tournament.SetOptions | scripts/tournament.py:66-67 | one `setoption` command per option, in dictionary order |
| Tournament.Await | scripts/tournament.py:119-127 | a line returned starts with the expected text |
| Tournament.AwaitFinds | scripts/tournament.py:123-126 | the first stripped line that starts with the expected text is returned, and the lines after it are left |
| Tournament.AwaitTimesOut | scripts/tournament.py:123-127 | a deadline before any matching line gives None |
| Tournament.BestMoveToken | scripts/tournament.py:105-111 | the token is the second word of the `bestmove` line, and there is one whenever that line has two words |
| Tournament.GetMoveReturnsToken | scripts/tournament.py:85-111 | a `bestmove <token>` reply makes `get_move` return the token |
| Tournament.Engine.constructor | scripts/tournament.py:32-46 | the engine keeps its name and path, holds the given options with the defaults added, and is not running |
| Tournament.Engine.Send | scripts/tournament.py:113-117 | the command is appended to what was sent |
| Tournament.Engine.WaitFor | scripts/tournament.py:119-127 | the line and the remaining output are those of the wait rule |
| Tournament.Engine.Start | scripts/tournament.py:48-70 | on a successful launch the engine runs and has been sent `uci`, one `setoption` per option and `isready`, with both waits made |
| Tournament.Engine.Stop | scripts/tournament.py:72-77 | a running engine is sent `quit`; it stays marked running exactly when it does not exit in time |
| Tournament.Engine.NewGame | scripts/tournament.py:79-83 | sends `ucinewgame` and `isready`, then waits for `readyok` |
| Tournament.Engine.GetMove | scripts/tournament.py:85-111 | sends the position and go commands and returns the token of the `bestmove` reply |
| Tournament.PlayOutcome | scripts/tournament.py:162-202 | a game is drawn exactly when it reaches 300 plies; otherwise the side not to move at the last ply wins |
| Tournament.NullMoveEndsGame | scripts/tournament.py:181-191 | an engine answering `0000` loses at that ply |
| Tournament.TimeoutEndsGame | scripts/tournament.py:119-191 | a read that times out before `bestmove` counts as "no move": the opponent wins at that ply, recorded as checkmate |
| Tournament.Conclude | scripts/tournament.py:204-206 | White is stopped, then Black unless White's stop raised |
| Tournament.PlayGame | scripts/tournament.py:162-206 | a failed launch raises (leaving White running if Black fails); otherwise the game is played as the move loop says and both engines are sent `quit` |
| Tournament.Games | scripts/tournament.py:148-154 | one pairing plays `games_per_pairing` games |
| Tournament.GamesAlternate | scripts/tournament.py:150-154 | colours alternate, the first engine starting with White |
| Tournament.PlanCount | scripts/tournament.py:140-154 | a round robin of n engines plays n * (n - 1) * k games, the total the script prints |
| Tournament.PlanWithin | scripts/tournament.py:143-154 | every scheduled game pairs two different engines of the roster |
| Tournament.TwoEnginesThreeGames | scripts/tournament.py:143-154 | two engines at three games per pairing play six games with alternating colours |
| Tournament.PlanCut | scripts/tournament.py:143-160 | stopping part-way through a row leaves a proper prefix of the schedule |
| Tournament.FirstOccurrences | scripts/tournament.py:136 | the score table's keys are the distinct engine names in order of first appearance |
| Tournament.Zeros | scripts/tournament.py:136 | every engine name starts with a score of zero |
| Tournament.Scored | scripts/tournament.py:208-216 | every name gains exactly the points the result is worth to it: 1 for a win, 0.5 for a draw |
| Tournament.TotalCountsGames | scripts/tournament.py:208-216 | each result hands out exactly one point, so the scores sum to the number of games played |
| Tournament.WinsDrawsWithinGames | scripts/tournament.py:226-229 | wins and draws never exceed games played, so the printed losses are never negative |
| Tournament.PointsAreWinsAndHalfDraws | scripts/tournament.py:208-229 | a name's points are its wins plus half its draws |
| Tournament.RankedSpec | scripts/tournament.py:223 | the standings are in non-increasing score order and are a permutation of the score table |
| Tournament.RankedStable | scripts/tournament.py:223 | names with equal scores keep their dictionary order, as Python's stable sort does |
| Tournament.StandingsSpec | scripts/tournament.py:218-232 | every row is a name with its own score, rows are ordered by score, and wins, draws and losses add up to the games played |
| Tournament.FollowsMeans | scripts/tournament.py:143-159 | following the schedule means the g-th result was played by the engines the g-th entry names, with the same colours |
| Tournament.Recorded | scripts/tournament.py:158-159 | recording and scoring one more result keeps every score equal to the points of the recorded results |
| Tournament.Tournament.constructor | scripts/tournament.py:133-136 | no results yet and a zero score for every name |
| Tournament.Tournament.UpdateScores | scripts/tournament.py:208-216 | the scores become those of the scoring rule |
| Tournament.Tournament.PlayAndRecord | scripts/tournament.py:157-159 | a game raises exactly when the environment does not run smoothly, and then changes neither results nor scores; a finished game is the game the two prepared engines play, recorded with its players and scored |
| Tournament.Tournament.PlayScheduled | scripts/tournament.py:148-159 | one game of a pairing, with the colours the alternation gives |
| Tournament.Tournament.PlayPairing | scripts/tournament.py:148-159 | the results follow the pairing's games, or a proper prefix when a game raised |
| Tournament.Tournament.PlayOpponent | scripts/tournament.py:144-159 | an engine is never paired with itself; the results follow the row one engine further |
| Tournament.Tournament.PlayRow | scripts/tournament.py:144-159 | the results follow engine i's row, or a proper prefix of it |
| Tournament.Tournament.PlayRound | scripts/tournament.py:143-159 | the results follow the schedule one row further |
| Tournament.Tournament.RunRoundRobin | scripts/tournament.py:138-160 | the results follow the whole round-robin schedule, or a proper prefix of it when a game raised; when every game runs smoothly none raises and n(n-1)g games are played |

## Left out

- src/Window.cpp and src/main.cpp are not part of this model: rendering, command-line parsing and mode dispatch are I/O.
- Zobrist key values (src/Zobrist.cpp) are drawn from a seeded random generator. The model keeps the keys abstract: a hash is the set of keys XORed into it. Collisions between different key sets are not modelled.
- Magic-number indexing (src/Magic.cpp:123-175, 180-235) is not modelled. `rookAttacks` and `bishopAttacks` are sliding attacks on the masked occupancy. `Magic.SlidingMasked` proves that masking changes nothing; that the magic multiply-and-shift index is collision-free is a fact about specific constants.
- `findBestMove`, `negamax`, `quiescence`, `evaluate` and its helpers, and `Position::see`, `pinnedPieces` and the x-ray helpers are not modelled. They are heuristic search and evaluation with no stated result contract. `UCI.HandleGo` takes the search as a function parameter, and `Search.AI.MoveScore` takes the static exchange value as one.
- UciProtocol.UCI.HandleGo: the search's effects on the transposition table, the killer, history and countermove tables and the principal variation are not stated, because the search is a parameter; the contract states only its move, whether it ran (for the table age), and the hash it leaves.
- `Search.AI.ProbeOpeningBook` models the random pick among the first three book moves as a nondeterministic choice.
- Draw detection (`isDraw`: the fifty-move rule, repetition and insufficient material) has no implementation in the available sources. `Game` and `UciProtocol` take it as a function parameter.
- The Fathom tablebase calls (`tb_init`, `tb_probe_wdl`, `tb_probe_root`) are foreign C code. Their results are parameters of `Tablebase.Gate.Init`, `ProbeWDL` and `ProbeRoot`. `ProbeRoot` matches Fathom's move against the position's own legal moves.
- The Polyglot book, the logger, `UCI::loop`, the book-file probing of the UCI constructor, `handleDisplay`, `handleStop`, `handleQuit`, `BB::toString`, `Position::print`, `perftDivide`, `Game::loadFromFile`, `Game::saveToFile` and test/perft_suite.cpp are console and file I/O, so none of them is modelled. `Game::saveFEN` is `getFEN` (`PositionClass.Position.GetFen`).
- The harness's process management is not modelled: `Popen`, pipe writes, `time.time()` deadlines and `wait(timeout=2)`. An engine is a channel instead: the commands sent, plus a scripted list of reply lines and deadlines. Whether a process launches or exits in time is a parameter (`Tournament.Env`). The progress and standings printing is left out. The standings rows themselves are computed (`Tournament.StandingsSpec`).
- The remaining scripts (watch_game.py, diagnose.py, test_preference.py, depth8_vs_stockfish.py, self_play_test.py) are not part of this model.
- MoveGen.Perft: the start-position counts 20, 400 and 8902 are not proved. They need the full legal-move enumeration of thousands of positions.
- Fen.ToFenWords: the full FEN round trip `getFEN(setFromFEN(f)) == f` is not proved. The model proves that `getFEN`'s text splits into its six fields, that the castling field, the clocks and the piece letters read back, and what the placement reader does. Reading a printed placement back is not proved.
- Search.GamePhaseSpec: that the starting position has 24 phase points, and so phase 256, is not proved. The lemma proves phase 256 for 24 points or more.
- PositionClass.Position.SetFromFen requires a well-formed FEN: piece letters on the board, six fields, and clocks that are whole `int` words. In the C++ code a non-numeric first clock reads as 0 and an out-of-range one as the `int` bound, while a missing clock, or any clock after a failed read, is never stored, so src/Position.cpp:134-135 copy an uninitialised `int`; a letter off the board would write outside `board`. Missing fields are not modelled.
- Game.Game.LoadFen, UciProtocol.UCI.HandlePosition and Search.AI.LoadOpeningBook further require that every piece letter lands on an empty square, and that move generation stays defined on the positions reached (`Ready`: a king for the side to move and no pawn on its last rank). The C++ code would corrupt its bitboards or call `lsb(0)` otherwise.
- UciProtocol.UCI.SetUpStartpos requires that the starting position and the positions its moves reach keep move generation defined (`LineSettles`); this is not proved for the starting position itself.
- Tournament.Tournament.constructor requires the engines to be distinct objects. The script accepts a list holding the same `Engine` twice; `run_round_robin` then pairs it with itself, `start` launches a second process over the first, and that one process plays both sides. The model keeps each engine's channel separate, so this aliasing is not modelled.
- UciProtocol.UCI.PlayMoveWords, HandlePosition, SetUpStartpos, SetUpFen and LoadFenLine: the position is stated hashes aside, and the result only up to the draw rules' verdict on boards with legal moves (the earlier result or a draw), because `isDraw` is a parameter and the hashes it may read are corrupted by `unmakeMove` (Findings).
- Tournament.Strip and Tournament.BestMoveToken treat the six ASCII white-space characters as white space; Python's `strip` and `split` also strip \x1c-\x1f, \x85, \xa0 and Unicode spaces, which an engine's reply does not contain in practice.
- UciProtocol.UCI.HandleSetOption: the uncaught `std::invalid_argument` or `std::out_of_range` from `std::stoi` is modelled as a `terminated` result. The program end it causes is not modelled further.
- Integer widths: the model works on unbounded integers. 32-bit `int` limits are written out only where the source depends on them: `>> int`, `std::stoi`, and the unsigned cast of the time limit in `shouldStop`. Clock and counter overflow elsewhere is not modelled.

## Findings

| source | as written | input that shows it | evidently intended | confidence | as-written member | corrected member |
|---|---|---|---|---|---|---|
| src/Position.cpp:345-399 | `unmakeMove` restores the saved hash first, then moves the pieces back with `removePiece`/`putPiece`, which XOR their keys into the hash again | any quiet move, e.g. e2e4 from the starting position, made and then unmade: the hash ends up XORed with the pawn's keys on e2 and e4 | the hash after `unmakeMove` equals the hash before `makeMove`, as test/test_position.cpp:248-260 expects | high; not executed | Positions.UnmakeMoveKeepsMovedKeys | Positions.MakeUnmakeRestoresAll |
| src/UCI.cpp:184-186 | an explicit `movetime` becomes a time limit of `movetime - 50` | `go movetime 50` gives limit 0 (no limit); `go movetime 20` gives -30, which `shouldStop` casts to an unsigned number no clock reaches | a positive limit no larger than `movetime`, so the engine answers within the time it was given | medium; not executed | UciProtocol.ShortMovetimeNeverStops | UciProtocol.CorrectedMovetimeStops |
| src/UCI.cpp:227-239 | `handleGo` sets the limit with `setAITimeLimit` and calls `getAIMove`, the one-argument `findBestMove` (src/Game.cpp:93); `searchStartTime` is set only by the two-argument one (src/AI.cpp:157-162) and stays at 0 from the constructor (src/AI.cpp:21), so `shouldStop` (src/AI.cpp:43-47) measures the clock reading itself | `go movetime 1000` on a machine whose `steady_clock` reads more than 950 ms: the check before depth 1 (src/AI.cpp:207-212) stops at once and `rootMoves[0]` is played unsearched | the start time is the clock reading when the search begins, so a positive limit stops the search only once it has elapsed | medium; not executed | Search.UnsetStartStopsAtOnce | Search.AI.StartTimedSearch |

The corrected members are the intended behaviour, proved: `Positions.UndoMoveRestoringHash` restores the saved hash after the pieces are back, `UciProtocol.CorrectedTimeForMove` keeps a short `movetime` as it is, and `Search.AI.StartTimedSearch` records the clock reading as the start time. The third row's confidence rests on `steady_clock` counting from boot, which the standard leaves to the implementation. Everything else keeps modelling the code as written:
- `PositionClass.Position.UnmakeMove` and every operation built on it (`isLegal`, the generators, `perft`, `updateGameResult`) are specified to restore every field except the hash.
- `UciProtocol.UCI.HandleGo` uses the time limit the code computes, and hands the search the start time the game holds, 0 from the constructor.

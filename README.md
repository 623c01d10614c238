# Zugzwang / ChessCpp chess engine core in Dafny

This project models the core of a small C++ chess engine and proves properties of the model. The engine has two generations of code, in the namespaces `ChessCpp` and `Zugzwang`. The core covered here is:

- the bitboard primitives;
- the precomputed edge-distance and knight tables;
- pseudo-legal move generation and the square-attack test;
- the material evaluation and the fail-hard negamax alpha-beta search;
- the principal-variation (PV) table;
- the FEN decoder `Board::set` and `Board::reset`;
- the console's move-string validator and the two move parsers.

One vocabulary serves both generations (module `Types`):

- squares are `0..63`, with `SQ_NONE = 64`;
- colours, piece types and pieces follow the enum values `" PNBRQK  pnbrqk"`;
- a move is a from square, a to square and a kind: normal, promotion to a piece, en passant or castling. `NoMove` is `Move::none()`.

The modules follow the source files:

| module | file | models |
|---|---|---|
| `Bitboards` | `bitboard.dfy` | `src/bitboard.h`: `SquareBb`, `PopLsb`, `PopCount`, `SetBit`, `ClearBit` on `bv64` |
| `Magic` | `magic.dfy` | `src/bitboard.h`: the magic lookup formula with the tables as a parameter |
| `Attacks` | `attacks.dfy` | the attack sets the lookups return, defined square by square from board coordinates |
| `Precomputed` | `precomputed.dfy` | `src/precomputed_move_data.h`: `init()` over two `array2` tables |
| `PrecomputedEdges` | `precomputed.dfy` | `src/precomputed_move_data.cpp`: the older `init()`, which fills the edge table only |
| `MoveGen` | `movegen.dfy` | `src/movegen.cpp`: the generators as methods appending to a `MoveList` class, each proved against a function of the board |
| `MoveGenProps` | `movegen_props.dfy` | what the generated moves are, stated move by move (if-and-only-if) |
| `Evaluation` | `evaluate.dfy` | `src/evaluate.cpp` |
| `Search` | `search.dfy` | `src/search.cpp`: the search loop as a recursive method over a game tree, proved against plain negamax |
| `PvTable` | `pvtable.dfy` | `src/pvtable.cpp` and `src/pvtable.h`: a class over an `array` of slots |
| `MoveMatch`, `MoveInput` | `movestr.dfy` | the matching scan both parsers share; `IsMoveStr` and `ParseMove` of `src/main.cpp` |
| `Uci` | `uci.dfy` | `Uci::parseMove` of `src/uci.h` |
| `BoardSetup` | `board.dfy` | `src/board.cpp`: `Board::reset` and `Board::set`, as a class over a string-stream value |
| `BoardFacts` | `board_props.dfy` | what `set` makes of a FEN string, against an independent reading of the notation |

## How the source is modelled

- **Move generation.** The generators take a `const Board&`, so they see the board as an immutable datatype holding every field they read:
  - `pieces`, `sideToMove`, `epSquare` and `castlingRights`;
  - `byColorBB`, `pieceList`, `pieceNb` and `kingSquare`.

  Each generator is a method that appends to a `MoveList` object. Its `ensures` says the list becomes its old contents followed by a specification function of the board. The `MoveGenProps` lemmas then say, move by move, what those functions contain.
- **Bitboards.** `__builtin_ctzll` and `__builtin_popcountll` are specification functions (`Lsb`, `PopCount`) over `bv64`. A `while (attacks) { PopLsb ... }` loop emits the squares of `attacks` lowest first (`Squares`).
- **Attack lookups.** The magic tables are not part of the source, so each attack set is specified by a ray cast or an offset function (`Attacks`). `Magic` models the lookup formula `((occ & mask) * magic) >> shift` with the product taken as `bv64` multiplication, which wraps modulo 2^64 as the `uint64_t` product does. The product is kept behind a constant (`Magic.MUL`), so the proofs hold for whatever index it yields. It proves that the lookup equals the ray cast for any tables that hold the ray-cast attacks of every blocker set inside a mask covering each slider's lines.
- **Search.** `do_move`, `undo_move` and `is_in_check` are not part of the source. The search therefore runs over a game tree: each node holds its material, its side to move, an in-check flag and its pseudo-legal moves in generation order. Each move either fails `do_move` (`Illegal`) or leads to a child node.
- **FEN decoding.** The `std::istringstream` is a value `Stream(text, pos, good)`. Character extraction, `isspace`, `isdigit` and `>>` into an `int` follow the standard library's rules:
  - a failed extraction leaves its target unchanged and fails every later one;
  - text with no digits stores 0 and fails;
  - an out-of-range number stores the nearest limit and fails.

The model follows the code as written, including where it departs from the rules of chess or of the FEN format:

- Castling is gated only on the king's square and the square it crosses (E1 and F1 for O-O, E1 and D1 for O-O-O, and the same on rank 8). The destination square is not tested for attack.
- Checkmate scores a flat -100000, not adjusted by depth.
- Castling moves are emitted from E1 or E8 without checking that the king stands there; only the rights, the empty squares and the two attack tests gate the move.
- A FEN string holding only a placement field sets black to move with ply 1. The side comes from the token the placement loop left: its last character, which is `w` only for an ill-formed placement. So a field the text does not supply does not always keep its reset value (`BoardFacts.PlacementOnly`).

## Model

| member | source | states |
|---|---|---|
| Types.MakeSquare | src/uci.h:13-14 | the square built from a file and a rank in 0..7 has exactly that file and that rank |
| Types.SquareOfCoordinates | src/uci.h:13-14 | every square is the square of its own file and rank |
| Types.PieceOfIndex | src/board.cpp:45 | `Piece(idx)` for each enum value that names a piece is a piece with exactly that enum value |
| Types.PieceIndexInjective | src/board.cpp:13 | different pieces have different enum values |
| Bitboards.SquareBb | src/bitboard.h:51-54 | `1ULL << s` holds square `s` and no other square |
| Bitboards.SquareBbSingle | src/bitboard.h:51-54 | `SquareBb(s)` has population count 1 and its only square is `s` |
| Bitboards.BitDistinct | src/bitboard.h:53 | the bits of two different squares never overlap |
| Bitboards.BitOfBit | src/bitboard.h:53 | the bit of `s` meets the bit of `t` exactly when `s == t` |
| Bitboards.HasAnd | src/movegen.cpp:149 | a square is in `a & b` iff it is in both |
| Bitboards.HasOr | src/movegen.cpp:11 | a square is in the union of `a` and `b` iff it is in either |
| Bitboards.HasNot | src/movegen.cpp:32 | a square is in `~a` iff it is not in `a` |
| Bitboards.HasAndNot | src/movegen.cpp:32 | `attacks & ~own` holds the attacked squares that are not the mover's own |
| Bitboards.Lsb | src/bitboard.h:58 | `__builtin_ctzll` of a non-zero bitboard is a set square with no set square below it |
| Bitboards.ClearLowestBits | src/bitboard.h:59 | `b & (b - 1)` is `b` with the bit of its lowest square cleared |
| Bitboards.ClearLowest | src/bitboard.h:59 | `b & (b - 1)` holds exactly the squares of `b` other than the lowest |
| Bitboards.PopLsb | src/bitboard.h:56-61 | for non-zero `b`: returns the lowest set square, the new bitboard holds exactly the other squares, the population count drops by one, and the square list loses its head |
| Bitboards.PopCount | src/bitboard.h:63-65 | the population count lies in 0..64 |
| Bitboards.Squares | src/movegen.cpp:34-37 | the squares a `PopLsb` loop visits: exactly the set squares, as many as the population count |
| Bitboards.SquaresIncreasing | src/movegen.cpp:34-37 | a `PopLsb` loop visits each square once, lowest first |
| Bitboards.SquaresSplit | src/bitboard.h:56-61 | the squares of a non-empty bitboard are its lowest square followed by the squares of `b & (b - 1)` |
| Bitboards.SquaresEmpty | src/movegen.cpp:34 | the loop `while (attacks)` stops exactly when no square is left |
| Bitboards.SetBit | src/bitboard.h:67-69 | after `SetBit` bit `sq` is set and every other bit is as before |
| Bitboards.ClearBit | src/bitboard.h:71-73 | after `ClearBit` bit `sq` is clear and every other bit is as before |
| Bitboards.SetClearIdempotent | src/bitboard.h:67-73 | setting or clearing the same bit twice is the same as doing it once |
| Magic.MagicIndex | src/bitboard.h:12-17 | a product shifted right by 52..63 is below 4096, and below 1024 for a shift of at least 54 |
| Magic.RookIndex | src/bitboard.h:11-14 | the rook lookup index stays inside the square's 4096-entry table |
| Magic.BishopIndex | src/bitboard.h:15-18 | the bishop lookup index stays inside the square's 1024-entry table |
| Magic.GetRookAttacks | src/bitboard.h:11-14 | the rook lookup is an entry of the square's table, the one at the index of the occupancy inside the square's mask |
| Magic.GetBishopAttacks | src/bitboard.h:15-18 | the bishop lookup is an entry of the square's table, the one at the index of the occupancy inside the square's mask |
| Magic.GetQueenAttacks | src/bitboard.h:19-21 | a square is in the queen lookup iff it is in the rook lookup or the bishop lookup |
| Magic.RookLookupOnlyMask | src/bitboard.h:11-14 | two occupancies equal on the rook mask give the same rook lookup |
| Magic.BishopLookupOnlyMask | src/bitboard.h:15-18 | two occupancies equal on the bishop mask give the same bishop lookup |
| Magic.RookLookupIsRayCast | src/bitboard.h:11-14 | with tables that hold the ray-cast attacks and masks covering each rook line, the rook lookup equals the ray cast for every occupancy |
| Magic.BishopLookupIsRayCast | src/bitboard.h:15-18 | the same for the bishop |
| Magic.QueenLookupIsRayCast | src/bitboard.h:19-21 | the same for the queen, so the queen lookup is the union of the two ray casts |
| Attacks.KnightAttacks | src/bitboard.h:23 | the knight attack set holds exactly the squares two files and one rank, or one file and two ranks, away |
| Attacks.KingAttacks | src/bitboard.h:24 | the king attack set holds exactly the squares at king-step distance 1 |
| Attacks.PawnAttacks | src/bitboard.h:25-27 | a pawn attacks exactly the two diagonal squares one rank ahead for its colour |
| Attacks.RookAttacks | src/bitboard.h:11-14 | the rook attack set holds exactly the squares on its rank or file with no occupied square strictly between |
| Attacks.BishopAttacks | src/bitboard.h:15-18 | the same along the diagonals |
| Attacks.QueenAttacks | src/bitboard.h:19-21 | the same along ranks, files and diagonals |
| Attacks.QueenIsRookOrBishop | src/bitboard.h:19-21 | queen attacks are rook attacks OR bishop attacks, for every square and occupancy |
| Attacks.RookAttacksOnMask | src/bitboard.h:11-14 | rook attacks depend only on the occupancy inside a mask covering the squares between the rook and its lines |
| Attacks.BishopAttacksOnMask | src/bitboard.h:15-18 | the same for the bishop |
| Attacks.BlockedRay | src/bitboard.h:11-18 | no slider attacks a square behind an occupied square on the way |
| Attacks.NeighbourAlwaysAttacked | src/bitboard.h:11-18 | an adjacent square on a slider's line is attacked whatever the occupancy |
| Attacks.EmptyBoardSliders | src/bitboard.h:11-18 | on an empty board a rook attacks its whole rank and file and a bishop its whole diagonals |
| Attacks.LeaperSymmetry | src/bitboard.h:23-27 | knight and king attacks are symmetric; a white pawn on `s` attacks `t` iff a black pawn on `t` attacks `s` |
| Attacks.KnightDistance | src/bitboard.h:23 | a knight target is at king-step distance 2; no leaper attacks its own square |
| Attacks.Distance | src/precomputed_move_data.h:40 | the king-step (Chebyshev) distance lies in 0..7 and is 0 only from a square to itself |
| Precomputed.Init | src/precomputed_move_data.h:15-46 | after `init()` every one of the 64 x 8 entries of both tables holds its edge distance and its knight target |
| Precomputed.FillEdgeRow | src/precomputed_move_data.h:20-32 | one square's eight edge entries are written and every other row is unchanged |
| Precomputed.FillKnightRow | src/precomputed_move_data.h:34-44 | one square's eight knight entries are written and every other row is unchanged |
| Precomputed.OrthogonalDistances | src/precomputed_move_data.h:20-28 | north = 7 - rank, south = rank, west = file, east = 7 - file; north + south = 7 and west + east = 7 |
| Precomputed.DiagonalDistances | src/precomputed_move_data.h:29-32 | every entry lies in 0..7 and each diagonal is the minimum of its two orthogonal components |
| Precomputed.EdgeDistanceIsRayLength | src/precomputed_move_data.h:20-32 | `k` steps in direction `d` stay on the board exactly when `k` is at most the entry, so the offsets never wrap |
| Precomputed.KnightTargetIsKnightMove | src/precomputed_move_data.h:35-42 | an entry is `SQ_NONE` exactly when `sq + offset` is off the board or fails the distance-2 test; otherwise it is that square, a knight move away |
| Precomputed.KnightTargetsComplete | src/precomputed_move_data.h:34-43 | every knight move from `sq` appears in `sq`'s row |
| Precomputed.KnightOffsetIndex | src/precomputed_move_data.h:9 | every knight move is `sq` plus one of the eight offsets |
| PrecomputedEdges.Init | src/precomputed_move_data.cpp:7-23 | after the older `init()` all 64 x 8 entries hold the edge distances, with the same north/south/west/east and minimum rules |
| MoveGen.MoveList.constructor | src/main.cpp:32 | a new move list is empty |
| MoveGen.MoveList.Insert | src/movegen.cpp:36 | `Insert` appends one move and keeps the earlier entries |
| MoveGen.Count | src/movegen.cpp:17 | `pieceNb` of a piece is within its piece list |
| MoveGen.MovesTo | src/movegen.cpp:34-37 | one plain move per target, from the start square to exactly the targets |
| MoveGen.InsertTargets | src/movegen.cpp:34-37 | the `PopLsb` loop appends a move to each target square, lowest first |
| MoveGen.AddPromotions | src/movegen.cpp:118-123 | `add_promotions` appends the four promotions, queen, rook, bishop, knight |
| MoveGen.InsertPieceMoves | src/movegen.cpp:19-38 | the loop over the listed pieces of one type appends their moves in list order |
| MoveGen.GenerateSlidingMoves | src/movegen.cpp:9-40 | appends the bishop, then rook, then queen moves and nothing else |
| MoveGen.GenerateKnightMoves | src/movegen.cpp:94-108 | appends the knight moves and nothing else |
| MoveGen.IsSquareAttacked | src/movegen.cpp:171-216 | true exactly when a pawn, knight, the king, a bishop, a rook or a queen of the attacker attacks the square under the full occupancy |
| MoveGen.AnyListedAttacks | src/movegen.cpp:174-179 | one early-return loop: true exactly when some listed piece of that type attacks the square |
| MoveGen.MaskMeaning | src/movegen.cpp:172-176 | `attacks & SquareBb(sq)` is non-zero exactly when `sq` is in `attacks` |
| MoveGen.GenerateKingMoves | src/movegen.cpp:42-92 | appends the king's steps, then the castling moves |
| MoveGen.InsertCastlingMoves | src/movegen.cpp:52-91 | appends king-side then queen-side castling of the side to move |
| MoveGen.TryCastle | src/movegen.cpp:54-61 | one castling block appends its move exactly when the right is held, the path is empty and the two tested squares are not attacked |
| MoveGen.OneForward | src/movegen.cpp:128 | the push square is on the same file, one rank further for the mover |
| MoveGen.TwoForward | src/movegen.cpp:137 | the double-push square is on the same file, two ranks further |
| MoveGen.InsertPawnMove | src/movegen.cpp:153-157 | one capture target appends four promotions on the promotion rank and one plain move elsewhere |
| MoveGen.InsertPawnCaptures | src/movegen.cpp:148-158 | the capture loop appends the pawn moves to each capture target, lowest first |
| MoveGen.InsertPawnPushes | src/movegen.cpp:132-145 | appends the pushes of one pawn |
| MoveGen.InsertEnPassant | src/movegen.cpp:161-163 | appends the en-passant capture of one pawn, if any |
| MoveGen.InsertPawnMoves | src/movegen.cpp:126-163 | appends one pawn's pushes, captures and en-passant capture, in that order |
| MoveGen.GeneratePawnMoves | src/movegen.cpp:110-165 | appends the moves of every listed pawn, in list order |
| MoveGen.GeneratePseudoMoves | src/movegen.cpp:218-223 | only appends: earlier entries stay, followed by the pawn, slider, knight and king moves in that order |
| MoveGenProps.TargetsIff | src/movegen.cpp:34-37 | the loop emits a move iff it is a plain move from the start square to a square of the target set |
| MoveGenProps.PawnMovesToIff | src/movegen.cpp:151-158 | a pawn move to a target list is a promotion to Q, R, B or N on the promotion rank and a plain move elsewhere, to a listed target |
| MoveGenProps.PawnMovesToLength | src/movegen.cpp:151-158 | exactly four moves per target on the promotion rank, one elsewhere |
| MoveGenProps.PromotionsAreFour | src/movegen.cpp:118-123 | `add_promotions` emits four moves, exactly the promotions between the two squares, the queen first |
| MoveGenProps.PieceMovesIff | src/movegen.cpp:19-38 | a move of the listed pieces of a type is a plain move from a listed square to an attacked square not held by the mover |
| MoveGenProps.KnightMovesIff | src/movegen.cpp:94-108 | a knight move is a plain move from a listed knight to a knight square not held by the mover |
| MoveGenProps.SlidingMovesIff | src/movegen.cpp:9-40 | a sliding move is a move of a listed bishop, rook or queen |
| MoveGenProps.SlidingMovesNotOwn | src/movegen.cpp:32-37 | a sliding move is plain, never lands on the mover's own piece, and runs along an unblocked line |
| MoveGenProps.KingMovesIff | src/movegen.cpp:44-50 | a king move is a plain step to a square not held by the mover, or one of the castling moves |
| MoveGenProps.WhiteKingSideCastling | src/movegen.cpp:54-61 | white O-O is emitted iff WHITE_OO is held, F1 and G1 are empty and E1 and F1 are not attacked by black; G1 is not tested |
| MoveGenProps.WhiteQueenSideCastling | src/movegen.cpp:63-71 | white O-O-O is emitted iff WHITE_OOO is held, D1, C1 and B1 are empty and E1 and D1 are not attacked by black |
| MoveGenProps.BlackKingSideCastling | src/movegen.cpp:73-80 | black O-O mirrors white's on rank 8 |
| MoveGenProps.BlackQueenSideCastling | src/movegen.cpp:82-90 | black O-O-O mirrors white's on rank 8 |
| MoveGenProps.CastlingShape | src/movegen.cpp:52-91 | a non-plain king move is castling from E1 to G1 or C1 for white, from E8 to G8 or C8 for black |
| MoveGenProps.PawnPushesIff | src/movegen.cpp:132-145 | a push needs an empty square ahead; on the promotion rank it is one of four promotions; a double push needs the start rank and an empty second square |
| MoveGenProps.PawnCapturesIff | src/movegen.cpp:148-158 | a capture goes to a square the pawn attacks that holds an opponent's piece; four promotions on the promotion rank, a plain move elsewhere |
| MoveGenProps.PawnTargetsIff | src/movegen.cpp:148-158 | the capture loop over `attacks & theirs` emits exactly the moves to squares in both sets |
| MoveGenProps.EnPassantIff | src/movegen.cpp:161-163 | the en-passant capture is emitted iff `epSquare != SQ_NONE` and the pawn attacks `epSquare` |
| MoveGenProps.PawnMovesFromShape | src/movegen.cpp:133-158 | a pawn never makes a plain move from its promotion rank and promotes only from it |
| MoveGenProps.PawnListMovesFrom | src/movegen.cpp:125-126 | every pawn move starts on a listed pawn square |
| MoveGenProps.PseudoMovesFrom | src/movegen.cpp:218-223 | every generated move starts on a listed pawn, knight, bishop, rook or queen, on the king square, or (castling) on E1/E8 |
| MoveGenProps.PieceMovesNeverOwn | src/movegen.cpp:32-105 | no slider, knight or plain king move lands on a square of the mover's own colour |
| Evaluation.Evaluate | src/evaluate.cpp:5-8 | the score is the side to move's material minus its opponent's |
| Evaluation.EvaluateIsOwnMinusTheirs | src/evaluate.cpp:6-7 | white to move scores white's material minus black's; black to move scores black's minus white's |
| Evaluation.EvaluateFlip | src/evaluate.cpp:6-7 | handing the move to the other side with material unchanged negates the score |
| Evaluation.EvaluateZero | src/evaluate.cpp:7 | the score is 0 exactly when the material is level |
| Evaluation.EvaluateMirror | src/evaluate.cpp:5-7 | swapping the two sides' material and the side to move leaves the score unchanged |
| Types.Max | src/search.cpp:27 | `std::max` is the larger of its arguments |
| Search.FailHard | src/search.cpp:25-38 | a fail-hard result lies in [alpha, beta]: alpha at or below alpha, beta at or above beta, the value itself in between |
| Search.BestIsMaximum | src/search.cpp:16-28 | no legal child's negated value exceeds `Best`, and some legal child attains it |
| Search.BestStep | src/search.cpp:16-27 | one more move leaves `Best` unchanged when it fails `do_move` and takes the max with the negated child value otherwise |
| Search.ChildScore | src/search.cpp:22 | a child's reply searched with window (-beta, -alpha), negated, fails high exactly when the child's negated value does, and otherwise raises alpha to the same value |
| Search.AlphaBeta | src/search.cpp:8-39 | depth 0 gives the evaluation; no legal move gives -100000 in check and 0 otherwise, whatever the window; otherwise, for alpha < beta, the negamax value clamped to [alpha, beta] |
| Search.NegamaxIsBestChild | src/search.cpp:16-28 | with a legal move, the negamax value is the best negated child value |
| Search.IllegalMovesIgnored | src/search.cpp:18-19 | a move that fails `do_move` changes nothing: removing it leaves the value the same |
| PvTable.SlotOf | src/pvtable.cpp:14-15 | the slot index `posKey % numNodes` is in [0, numNodes) |
| PvTable.StoreIn | src/pvtable.cpp:13-18 | the stored slot holds the key and the move; every other slot is unchanged |
| PvTable.Cleared | src/pvtable.cpp:6-11 | every slot of a cleared table holds key 0 and `Move::none()` |
| PvTable.PVTable.constructor | src/pvtable.h:20-25 | the table has `PVSize / sizeof(PVNode)` slots, all cleared |
| PvTable.PVTable.ClearTable | src/pvtable.cpp:6-11 | `clear_table` clears every slot |
| PvTable.PVTable.Store | src/pvtable.cpp:13-18 | `store` writes the pair into the key's slot and changes no other slot |
| PvTable.PVTable.Probe | src/pvtable.cpp:20-27 | `probe` answers from the key's slot, changing nothing |
| PvTable.ProbeHitIff | src/pvtable.cpp:23-26 | a probe returns the slot's move when the slot's key is the key and `Move::none()` otherwise |
| PvTable.ProbeAfterStore | src/pvtable.cpp:13-27 | after `store(k, m)`, `probe(k)` returns `m` |
| PvTable.ProbeAfterCollision | src/pvtable.cpp:14-26 | after storing another key that maps to the same slot, a probe for the first key misses |
| PvTable.ProbeAfterStoreElsewhere | src/pvtable.cpp:13-27 | a store into another slot does not change what a probe returns |
| PvTable.ProbeCleared | src/pvtable.cpp:6-27 | after `clear_table` every probe returns `Move::none()` |
| MoveMatch.FindMatch | src/uci.h:19-33 | the scan returns the first entry with the parsed squares that is not a promotion to another piece, or `Move::none()` |
| MoveMatch.FirstMatchIsEarliest | src/uci.h:19-33 | a result is a selected entry with no selected entry before it; `Move::none()` means none is selected |
| MoveMatch.MatchHasSquares | src/uci.h:21-27 | a result has the parsed from and to squares, is in the list and, if a promotion, promotes to the piece the letter names |
| MoveMatch.NoLetterNoPromotion | src/uci.h:24-28 | with the terminator `'\0'` as the fifth character no promotion is ever selected |
| MoveMatch.LetterIrrelevantWithoutPromotion | src/uci.h:22-30 | when no promotion has the parsed squares, the fifth character does not change the result |
| MoveMatch.SquareName | src/uci.h:13-14 | a square's name is a file letter followed by a rank digit |
| MoveMatch.SquareNameRoundTrip | src/uci.h:13-14 | decoding a square's name gives the square back |
| MoveMatch.SquareCharsRoundTrip | src/uci.h:13-14 | every file letter and rank digit pair is the name of the square it decodes to |
| MoveMatch.MoveTextRoundTrip | src/uci.h:13-14 | a text made of two square names decodes to those two squares, whatever follows |
| MoveMatch.DecodeInjective | src/main.cpp:29-30 | two texts decode to the same squares only when their first four characters agree |
| MoveMatch.SquareCharsInjective | src/main.cpp:29-30 | different file or rank characters decode to different squares |
| MoveInput.IsMoveStr | src/main.cpp:8-26 | a text is accepted iff it has 4 or 5 characters, its first four name two different squares, and a fifth character is q, r, b or n |
| MoveInput.IsMoveStrIff | src/main.cpp:8-26 | a text of two square names and at most one more character is accepted iff the squares differ and any fifth character is q, r, b or n |
| MoveInput.IsMoveStrShape | src/main.cpp:13-24 | an accepted text has 4 or 5 characters, two valid and different square names, and a fifth character q, r, b or n |
| MoveInput.ParseMove | src/main.cpp:28-49 | returns the first generated move that the text selects, or `Move::None()` |
| Uci.ParseMove | src/uci.h:12-34 | returns the first move of the given generated list with the parsed squares that is not a promotion to a piece other than the one `str[4]` names, or `Move::none()` |
| Uci.FourCharsNoPromotion | src/uci.h:24-28 | a four-character text never selects a promotion |
| BoardSetup.Find | src/board.cpp:44 | `find` returns `npos` when the character is absent, else the first index holding it |
| BoardSetup.PieceCharIndex | src/board.cpp:44-45 | a character found in `PieceToChar` sits at an enum value that names a piece |
| BoardSetup.DigitsEnd | src/board.cpp:72 | the digits `>>` reads are the longest run of decimal digits |
| BoardSetup.ReadInt | src/board.cpp:72 | a failed stream stays failed and keeps the target; the stored value is the old one or fits in `int`; a stream still good afterwards read an in-range number and stopped before the end of the text |
| BoardSetup.Board.constructor | src/board.h:10 | a new board has a 64-square piece array |
| BoardSetup.Board.Reset | src/board.cpp:16-26 | all squares empty, white to move, no en-passant square, both counters 0, no castling rights |
| BoardSetup.Board.Set | src/board.cpp:28-76 | for a text given as bytes, the board ends up holding exactly the fields the FEN decoding gives (`DecodeFen`) |
| BoardSetup.Board.ReadPlacement | src/board.cpp:38-48 | the placement loop places the characters up to the first whitespace from A8 and leaves the stream just past that whitespace |
| BoardSetup.Board.PlaceToken | src/board.cpp:40-47 | one placement character: a digit skips files, `/` drops two ranks, a piece letter stores its piece and advances |
| BoardSetup.Board.ReadSide | src/board.cpp:50-53 | the side to move is read from one character and the separator after it is consumed; nothing else changes |
| BoardSetup.Board.ReadCastling | src/board.cpp:55-63 | the rights become the old rights OR the rights of the letters up to the next whitespace; nothing else changes |
| BoardSetup.Board.GrantRight | src/board.cpp:57-62 | one character ORs in the right it names, if any |
| BoardSetup.Board.ReadEnPassant | src/board.cpp:65-69 | the en-passant square is the one a file letter and the fitting rank name, else `SQ_NONE`; nothing else changes |
| BoardSetup.Board.ReadCounters | src/board.cpp:71-75 | the half-move clock and the full move number are read as `int`s and the full move number becomes the ply count |
| BoardFacts.LetterFound | src/board.cpp:44 | every piece letter is found in `PieceToChar` |
| BoardFacts.LetterAtIndex | src/board.cpp:13 | the letter at each piece's enum value in `PieceToChar` names that piece |
| BoardFacts.PieceOfLetter | src/board.cpp:44-45 | `Piece(PieceToChar.find(c))` is the piece the letter names: upper case white, lower case black |
| BoardFacts.PlaceConcat | src/board.cpp:39-48 | placing a concatenation places its parts in turn |
| BoardFacts.PlaceRank | src/board.cpp:40-46 | a rank text placed from a square writes its pieces there and moves on by the number of squares it describes |
| BoardFacts.FenBoardSquare | src/board.cpp:33 | on the board that rank texts describe, square (f, r) holds the f-th square of the (8 - r)-th text |
| BoardFacts.PlaceRanks | src/board.cpp:39-48 | the first n rank texts joined by `/` place the board they describe, from A8 down |
| BoardFacts.PlacementOfRanks | src/board.cpp:33-48 | eight well-formed rank texts place exactly the board they describe |
| BoardFacts.JoinNoSpaces | src/board.cpp:39 | rank texts joined by `/` hold no whitespace, so the loop reads them whole |
| BoardFacts.FieldAt | src/board.cpp:56 | a field loop at a field followed by whitespace stops at that whitespace |
| BoardFacts.SideAt | src/board.cpp:51-53 | the active colour field and the space after it are read as that colour |
| BoardFacts.EpAt | src/board.cpp:66-69 | a well-formed en-passant field is read whole and gives its square |
| BoardFacts.CounterAt | src/board.cpp:72 | a space and a counter are read as the counter's value |
| BoardFacts.DecodeWellFormed | src/board.cpp:28-76 | a FEN string of well-formed fields decodes to the board its ranks describe, its colour, its rights, its en-passant square (when the rank fits the side), its half-move clock and the ply of its full move number |
| BoardFacts.RightBits | src/board.cpp:58-61 | the four castling letters name four distinct bits |
| BoardFacts.RightsHasIff | src/board.cpp:56-63 | each right is held after the castling field iff it was held before or its letter is in the field |
| BoardFacts.RightsOnlyGrow | src/board.cpp:58-61 | rights are only OR-ed in: none held before is lost |
| BoardFacts.RightsWithinFour | src/board.cpp:56-63 | the castling field sets no bit outside the four rights |
| BoardFacts.EpSquareIff | src/board.cpp:66-69 | the en-passant square is set iff a file letter a-h is followed by `'6'` with white to move or `'3'` with black; it is then on that file and on the matching rank |
| BoardFacts.SideIff | src/board.cpp:51-52 | white is to move iff the character read is `'w'`, or iff the earlier token is `'w'` when nothing can be read |
| BoardFacts.PlyOfFullmove | src/board.cpp:75 | ply = 2(fullmove - 1) + (1 if black) from full move 1 on, smaller full moves count as 1; the parity gives the side, and ply / 2 + 1 gives the full move back |
| BoardFacts.ExhaustedReads | src/board.cpp:51-72 | on a failed stream every later extraction fails and leaves its target unchanged |
| BoardFacts.BlankCounter | src/board.cpp:72 | with only whitespace left, a counter read fails and keeps its value |
| BoardFacts.PlacementOnly | src/board.cpp:28-76 | a text of only a placement field keeps the reset rights, en-passant square and clock, but black is to move with ply 1 unless its last character is `w` |
| BoardFacts.RanksNeverEndInW | src/board.cpp:39-52 | a placement of well-formed rank texts never ends in `w`, so a placement-only FEN always sets black to move |

## Left out

- Console I/O is not modelled, because it has no behaviour to state: `main()`'s read-eval loop (src/main.cpp:53-95), `Board::print` (src/board.cpp:78-109) and the message printed by the `PVTable` constructor (src/pvtable.h:24).
- The magic constants, masks, shifts and filled tables, and `Bitboards::Init`, `CreateBlockerBitboards`, `CreateRookBitboard` and `CreateBishopBitboard`, are not part of this model: their bodies and data are not in the source. The lookups are a parameter (`Magic.MagicTables`). "Lookup equals ray cast" (`Magic.RookLookupIsRayCast` and its two partners) is proved under the hypothesis that the tables hold the ray-cast attacks. The move generator uses the ray-cast sets of `Attacks` directly.
- The leaper tables `KnightAttacks`, `KingAttacks` and `PawnAttacks` (src/bitboard.h:42-44) have no data in the source. They are specified by offsets (`Attacks`).
- `do_move`, `undo_move`, `MakeMove`, `is_in_check`, `is_move_legal` and `PerftTest` are not part of the source. So there is no make/unmake round trip, no legal-move filter and no perft count. The search runs over a game tree whose edges say whether `do_move` succeeded.
- `PVTable::get_pv_line` (src/pvtable.cpp:29-50) is not modelled: it depends on `do_move` and `is_move_legal`, which are not part of the source.
- The `MoveList` capacity and its `count` field are not modelled. The list is an unbounded sequence.
- Integer widths: the model uses unbounded integers for the search scores, the material sums, the evaluation product and `2 * (gamePly - 1)`. It does not model the 32-bit overflow those would have at the extremes. `>>` into an `int` does model the clamping to the `int` range.
- Search.AlphaBeta: the window result is stated only for alpha < beta; for alpha >= beta the contract states nothing beyond the depth-0 and no-legal-move cases. The recursion never produces such a window from a non-empty one: each child is searched on (-beta, -a) with a < beta.
- Search.AlphaBeta: the board is the game-tree node, not mutated and restored in place. The early return on a cut-off is modelled; the `do_move`/`undo_move` pairing is not.
- Search.AlphaBeta: depth is a nat. The source takes an `int depth` (src/search.cpp:8) whose only base case is `depth == 0` (src/search.cpp:9), and every child gets `depth - 1` (src/search.cpp:22). A negative depth therefore never reaches the base case: the recursion stops only at a position with no legal move, and on a game that can repeat positions it does not stop until the stack overflows. The model does not cover calls with a negative depth.
- MoveGen: the `ASSERT(IsOk(oneForward))` of src/movegen.cpp:130 becomes the precondition `PawnsCanAdvance`: no pawn of the side to move stands on its last rank.
- MoveGen: `Valid` asks that array sizes fit the fields and that `epSquare` is `SQ_NONE` or a square. It does not ask that the redundant fields (`byColorBB`, `pieceList`, `pieces`) agree, because the generators never rely on that.
- BoardSetup.Board.Set: placement writes to squares outside 0..63, which the source performs out of bounds on malformed text, are modelled as skipped.
- BoardSetup.Board.Set requires a non-empty FEN text: for an empty text `set` reads the uninitialised `token`.
- BoardSetup.Board.Set takes the FEN text as a sequence of bytes (`IsByteText`). A multi-byte UTF-8 character is given as its bytes, each of which the stream reads separately; there is no decoding of encodings.
- MoveInput.ParseMove requires that a four-character text has no promotion with its squares, because there the source reads `str[4]` past the end of the `string_view`. `Uci.ParseMove` needs no such precondition: `str[4]` of a four-character `std::string` is its terminator.
- Uci.ParseMove: the generator it calls, `ChessCpp::MoveGen::generate_pseudo_moves` (src/uci.h:17), is not part of the source; src/movegen.h:11 declares only `generate_all_moves`. The generated list is therefore a parameter, as the moves of a search node are. The model does not say which moves that list holds, and it does not substitute `Zugzwang::MoveGen::GeneratePseudoMoves` (src/movegen.cpp:218) for it.
- Uci.ParseMove and MoveInput.ParseMove require `SquaresValid`: the first four characters must be a file, a rank, a file and a rank. The source says "assume valid string", and other characters would give squares off the board.
- PvTable.PVTable.constructor takes `sizeof(PVNode)` as a parameter, because it depends on the platform. `new[]`/`delete[]` ownership and the destructor are not modelled.
- The 64-bit position key is a parameter of `Store` and `Probe` instead of `board.posKey`; how the key is computed is not part of the source.
- BoardSetup.Board.ReadCastling: `castlingRights` is an `int` in the source and a byte here. `BoardFacts.RightsWithinFour` shows the decoder never sets a bit above the four rights.

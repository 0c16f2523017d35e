# SoFCheck: a verified model of its fast structures

SoFCheck is a chess engine. Its difficult code is made of structures that are updated step by step, or looked up in tables, and that must agree with a simple definition. This project states the simple definitions once, writes the fast forms in the form they have in the engine, and proves that they agree on every input, along every run, or in every interleaving.

Run `dafny verify dfyconfig.toml` to check everything.

## How it is built

`Types`, `Geometry` and `Rules` hold the reference: cells, lines, sight between two cells, pseudo-legal moves and what a move does, as in Article 3 of the FIDE Laws of Chess. Nothing in them uses a bitboard, a hash or a table. `Rules.Position` is the essential state of a board (64 cells, side, castling rights, en passant mark, two 16-bit counters); `Settled` says that the flags agree with the cells, `Sound` adds that no pawn stands on an end row, and `Valid` is what the engine's validity check accepts.

A 64-bit mask is the set of its one bits, XOR is symmetric difference, and a hash value is such a set too. The Zobrist keys are arbitrary except that the key of an empty cell is zero. Template parameters of the source (`Color C`, `Inverse`, generator filters) are ordinary parameters.

| part | files | what is proved |
|---|---|---|
| board state machine | `Invariants`, `Zobrist`, `Bitboards`, `Boards`, `Runs` | making and unmaking moves in place keeps bitboards, hash and flags equal to a recomputation, over every run and every nesting |
| attacks and legality | `Attacks`, `Legality`, `Draws` | every query and move test on bitboards answers what the rules say; legality is told without making the move |
| move generation | `MoveLists`, `PawnMoves`, `MoveGenerator`, `Between`, `Evasions`, `CaptureBound` | lists are exact, without repeats, complete in every state of check, and fit their buffers |
| magic tables | `Bits`, `MagicGeometry`, `MagicOffsets`, `MagicNumbers`, `RayWalk`, `MagicTables`, `NearAttacks`, `AttackTables` | shared blocks do not disturb each other; a look-up equals the ray walk |
| search | `Quiescence`, `SearchEngine`, `JobRun`, `RootRepetition` | alpha-beta equals negamax inside the window; board, repetition table and frames are restored on every way out; leaves, draws, mates and the first depth are exact |
| jobs | `Jobs` | any number of jobs in any interleaving publish at most one line for a depth, and a job is told to stop exactly when it should be |
| queue | `Queue` | a blocking queue with two condition variables is FIFO, answers whatever it can and loses no wakeup |
| evaluation tag | `EvalTag` | the updated tag equals the tag of the new board |
| second engine | `PieceLists`, `RayTables`, `Dodecahedron`, `SelfTest` | piece lists stay an exact index, and both engines stay on one position |
| text | `Fen`, `FenGrammar`, `FenBoard`, `MoveText`, `GameSet`, `GameLines`, `GameReading` | boards, moves and whole lists of games survive writing and reading, and only well-formed lines are read |

Concurrent parts are state machines: each atomic access, each critical section and each notification is one step, and threads take steps in any order. Spurious wakeups are steps too.

## Where the code and its documentation differ

- The comment on `Event::Stopped` (src/search/private/job.h:43-45) says that every later call returns `Stopped` again. A late line is reported first (src/search/private/job.cpp:89-97). `Jobs.StoppedIsNotPermanent` gives a run, and `Jobs.StoppedIsFinal` the exact condition: no job has a line still to add and no job is about to win the current depth.
- The assertion that a finished depth has a best move (src/search/private/job.cpp:641) holds for a search that was not cut short exactly when the root has a legal move and its hash came up less than twice among the boards before the moves (`JobRun.Run`). A root that came up twice is in the repetition table from the start and is answered with 0 before any move is tried. `RootRepetition.RootMayBeRepeated` gives a game: both sides bring out a knight and take it back, two times.
- `isMoveLegal` looks at one king only: the one that moves, or the first on the board (src/core/movegen.cpp:509-533, src/core/board.h:124-126). `Board::fromFen` does not ask for one king a side, so the game reader meets boards with several; there `Attacks.IsMoveLegal` says which king counts and `GameSet.TwoKingsAreRefused` gives a board. With one king of the side to move the answer is legality by the rules.
- The null move is looked up by its source and destination, both a8, like any other move, so it restarts the move counter when a8 is occupied. `Rules.Play` follows the code.
- "a8a8" is read as the null move although the null move is written "0000"; `MoveText.TextRoundTrip` shows that this is the only text that is not written back.

## Model

| member | source | states |
|---|---|---|
| Invariants.PlayKeepsSound | src/core/move.cpp:227-308 | A playable move leads from a board whose flags agree with its cells, with no pawn on an end row, to another such board: castling rights, en passant mark and pawns included. |
| Invariants.PlayKeepsValid | src/core/board.cpp:383-432 | A legal move, or a null move out of check, leads from a board that the validity check accepts to another one: one king a side, at most 16 men, the side that moved not in check. |
| Invariants.EnemyKingAfter | src/core/move.cpp:227-308 | A king that was not attacked is never taken. |
| Invariants.FlagsAfter | src/core/move.cpp:110-125 | Castling takes away both rights of its side; en passant and double moves take none, so the code need not touch the flags there. |
| Invariants.PromotionGives | src/core/move.h:47-53 | A promotion puts the man of its name and of the side that moved on the destination. |
| Attacks.PseudoLegalIsWellFormed | src/core/move.cpp:30-103 | Every pseudo-legal move has the shape that `isWellFormed` asks for. |
| Zobrist.HashCellsUpdate | src/core/board.cpp:477-485 | Changing one cell changes the recomputed hash by the XOR of the old and the new key of that cell. |
| Zobrist.HashAfterKingside | src/core/private/zobrist.cpp:36-64 | The stored castling key, an XOR of four piece keys, is the whole change of the hash by castling. |
| Bitboards.KingsideMatch | src/core/move.cpp:130-154 | Toggling the four castling bits keeps all colour and piece bitboards exact, for making and for unmaking. |
| Bitboards.EnpassantMatch | src/core/move.cpp:184-205 | Toggling the bits of an en passant capture keeps all bitboards exact. |
| Boards.Board.UpdateCastling | src/core/move.cpp:110-125 | The rights after a change of cells are those whose king and rook homes were not touched, and the hash follows. |
| Boards.Board.MakeKingsideCastling | src/core/move.cpp:130-154 | Cells, bitboards, rights and hash after castling are what the rules give; inverse, the cells and bitboards before it. |
| Boards.Board.MakeEnpassant | src/core/move.cpp:184-205 | Cells, bitboards and hash after an en passant capture are what the rules give; inverse, cells and bitboards before it. |
| Boards.Board.MakePawnDoubleMove | src/core/move.cpp:208-224 | The same for a double move of a pawn. |
| Boards.Board.MoveMake | src/core/move.cpp:227-313 | On a consistent board every pseudo-legal or null move gives exactly the position of the rules, and bitboards, colour boards and hash stay what a recomputation gives. After a promotion the man on the destination is the knight, bishop, rook or queen that the kind of move names. |
| Boards.Board.MoveUnmake | src/core/move.cpp:316-389 | Taking back the last move gives back every essential field, both counters modulo 2^16 included, on a consistent board. |
| Boards.Board.Update | src/core/board.cpp:434-486 | Recomputes every auxiliary field and drops exactly the flags that do not agree with the cells; an en passant mark on a pawn is kept on any row, and the board is consistent exactly when the mark is on the right one. |
| Boards.CellsBack | src/core/move.cpp:316-384 | The cells before a move can be told from those after it and the taken man, for each kind of move. |
| Runs.SettledIsNormal | src/core/board.cpp:434-460 | Recomputation corrects no flag exactly when the flags agree with the cells. |
| Runs.RunKeepsSound | src/core/move.cpp:227-308 | Soundness holds after every run of playable moves. |
| Runs.PlayAll | src/core/move.cpp:227-313 | After any run of pseudo-legal or null moves made in place the board is consistent and holds the position that the rules give. |
| Runs.UpdateChangesNothing | src/core/board.cpp:434-486 | On a consistent board, and so after any such run, `update` leaves every field as it is. |
| Runs.SamePosSameAux | src/core/board.cpp:434-486 | Consistent boards with the same essential fields agree in hash and all bitboards. |
| Runs.Explore | src/core/move.h:124-137 | Making and unmaking moves in any nested order gives back every field of the board. |
| Attacks.TracingIsExact | src/core/movegen.cpp:42-72 | Tracing attacks back from the attacked cell finds exactly the men that attack it. |
| Attacks.CellAttackers | src/core/movegen.cpp:61-72 | The result is the set of men that attack the cell by the rules. |
| Attacks.IsCellAttacked | src/core/movegen.cpp:42-58 | True exactly when some man of the colour attacks the cell by the rules. |
| Attacks.IsCheck | src/core/movegen.cpp:74-77 | True exactly when the king to move, of several the first, is attacked. |
| Attacks.WasMoveLegal | src/core/movegen.cpp:79-82 | True exactly when the side that has moved did not leave its king attacked. |
| Attacks.IsAttackedMasked | src/core/movegen.cpp:488-506 | True exactly when a man inside the mask attacks the cell under the given occupancy. |
| Attacks.IsMoveValid | src/core/movegen.cpp:417-485 | For a well-formed move, true exactly when the move is pseudo-legal by the rules, castling and en passant included. |
| Legality.ShortcutWithoutKing | src/core/movegen.cpp:521-532 | When the king does not move, its attackers after the move are those found by masking source, destination and the pawn taken in passing. |
| Legality.ShortcutCastling | src/core/movegen.cpp:514-519 | For castling the attack on the king's new cell is found on the old occupancy without the king; this needs that its old cell was not attacked. |
| Legality.ShortcutIsExact | src/core/movegen.cpp:509-533 | The test with masked occupancy agrees with making the move, for every pseudo-legal move and the null move. |
| Legality.ShortcutLooksAt | src/core/movegen.cpp:509-533 | On a board with any number of kings the test says whether the one king that it looks at is attacked after the move. |
| Legality.KeepsTheKing | src/core/movegen.cpp:509-533 | With one king of the side to move this is the rule that the king may not be left attacked. |
| Attacks.IsMoveLegal | src/core/movegen.cpp:509-538 | True exactly when the position after making the move does not leave the own king attacked; with several kings, the one that moves or else the first. |
| Attacks.Validate | src/core/board.cpp:383-432 | The answer is positive exactly when the corrected position is valid; otherwise it names a defect the position has. |
| Draws.IsDrawInsufficientMaterial | src/core/board.cpp:488-513 | The chain of tests on masks is true exactly for kings alone, with one knight, or with bishops that all stand on cells of one colour. |
| Draws.BishopKeepsColor | src/core/board.cpp:509-513 | Cells of one colour are those that a bishop may ever go to from each other; a step along a row or column leads to the other colour. |
| PawnMoves.PushIsShift | src/core/movegen.cpp:116-124 | A pawn step is wanted exactly when its destination is in the shifted and masked pawn bitboard. |
| PawnMoves.DoubleIsShift | src/core/movegen.cpp:127-137 | The same for double moves, through two shifts. |
| PawnMoves.TakeIsShift | src/core/movegen.cpp:140-162 | The same for captures to either side. |
| MoveGenerator.GenPawnEnpassant | src/core/movegen.cpp:191-210 | Lists each en passant capture exactly once and nothing else. |
| MoveGenerator.GenKnightOrKing | src/core/movegen.cpp:220-245 | Lists the king or knight moves that are asked for exactly once. |
| MoveGenerator.GenBishopOrRook | src/core/movegen.cpp:248-275 | Lists the slider moves that are asked for exactly once, the queen's lines and diagonals apart. |
| MoveGenerator.GenCastling | src/core/movegen.cpp:278-305 | Out of check lists exactly the castlings that the rules allow. |
| MoveGenerator.GenImplInner | src/core/movegen.cpp:308-330 | For each kind of request, a list of exactly the wanted pseudo-legal moves, none twice. |
| MoveGenerator.CheckOfIsExact | src/core/movegen.cpp:332-349 | The state of check and the mask computed from the attackers describe them exactly: none, one with the cells that resolve it, or at least two. |
| MoveGenerator.MoveGen.constructor | src/core/movegen.cpp:332-349 | The generator fits its board: it knows the state of check and the resolving mask. |
| MoveGenerator.MoveGen.GenAllMoves | src/core/movegen.cpp:352-399 | Out of check lists each pseudo-legal move exactly once; in check lists only pseudo-legal moves and every legal one. |
| MoveGenerator.MoveGen.GenCaptures | src/core/movegen.cpp:391-394 | Lists exactly the captures of the same request. |
| MoveGenerator.MoveGen.GenSimplePromotes | src/core/movegen.cpp:374-414 | Lists exactly the promotions without capture of the same request. |
| MoveGenerator.GeneratedListsSplit | src/core/movegen.cpp:391-414 | In every state of check all moves are the disjoint union of captures and simple moves, and these of simple moves without promotions and simple promotions. |
| MoveGenerator.LegalAnswers | src/core/movegen.cpp:352-371 | In check a legal move is a king move, or in single check en passant or a move into the mask; it is never castling. |
| Evasions.MustResolve | src/core/movegen.cpp:332-371 | In single check a legal move of another man takes the checking man, lands between it and the king, or is en passant. |
| Evasions.DoubleCheckNeedsKing | src/core/movegen.cpp:352-371 | In double check only a king move is legal; en passant cannot resolve it either. |
| Between.BetweenOrdered | gen/core/between_consts.cpp:28-52 | The masked product of two tables is the set of cells strictly between two ordered cells. |
| Between.Between | src/core/private/between.h:30-42 | The look-up gives the cells strictly between two cells on a common line, and nothing for other pairs. |
| CaptureBound.SlotTellsCapture | src/core/movegen.h:108-110 | A man captures at most once in each of eight ways: rays, jumps, or pawn side and promotion. |
| CaptureBound.CapturesFit | src/core/movegen.h:108-110 | On a valid board the list of captures has at most 128 moves in every state of check. |
| CaptureBound.PromotesFit | src/core/movegen.h:112-114 | The list of simple promotions has at most 32 moves. |
| NearAttacks.GenerateDirected | gen/core/near_attacks.cpp:27-46 | The filled table holds for each cell exactly the cells one of the offsets away. |
| NearAttacks.OffsetsAreSteps | gen/core/near_attacks.cpp:48-70 | The four offset lists are the steps of knights, kings, white and black pawns. |
| Bits.DepositBits | src/util/bit.h:152-163 | The loop spreads the low bits of a number over the mask, as the recursive definition says. |
| Bits.DepositExtract | src/util/bit.h:152-163 | Every part of the mask is reached: depositing its extracted number gives it back. |
| Bits.ExtractDeposit | src/util/bit.h:152-163 | Different numbers give different parts of the mask. |
| MagicGeometry.MaskIsEnough | src/core/private/magic_util.h:28-46 | Men on the edge and off the lines do not matter: the attacks depend only on the occupancy inside the relevance mask. |
| MagicGeometry.PostMaskIsLine | src/core/private/magic_util.h:28-46 | The post-mask is exactly the lines through the cell without the cell. |
| MagicGeometry.LeakIsSeen | src/core/private/magic.cpp:74-127 | A bit leaked by a block-mate that survives the post-mask is a neighbour that the piece always attacks. |
| MagicGeometry.MateIsOffLine | src/core/private/magic.cpp:124 | Block-mates are not on a common line, so clearing one's own cell takes nothing wanted from the other. |
| MagicOffsets.InitOffsets | src/core/private/magic.cpp:39-71 | Cells of one block start at one place, entries of different blocks never overlap, and all blocks fit into 65536 and 1792 entries. |
| MagicTables.IsValidMagic | gen/core/magic_consts.cpp:30-45 | True exactly when no two relevant occupancies have the same hash; the hash is the topmost bits of the product kept in 64 bits. |
| MagicTables.HighBits | src/core/private/magic.h:49-51 | The place is the number made of the top bits: it times 2^(64 - bits) is the product kept in 64 bits, rounded down. |
| MagicNumbers.CopiesAreMagic | gen/core/magic_consts.cpp:30-45 | Any number whose one bits copy the relevant men to places that never overlap, each man to the top bits by one of them, is free of collisions. |
| MagicNumbers.BishopA8IsMagic | gen/core/magic_consts.cpp:30-45 | A number that the check accepts for the bishop on a8. |
| MagicNumbers.RookG8IsMagic | gen/core/magic_consts.cpp:30-45 | A number that the check accepts for the rook on g8. |
| MagicTables.MagicTable.WalkRay | src/core/private/magic.cpp:113-122 | One walk adds the cell and what is seen along its ray to the entry, and changes no other entry. |
| MagicTables.SharedEntry | src/core/private/magic.cpp:74-127 | ORing one cell's attacks into a shared entry leaks nothing through the post-mask of its other users and takes nothing from them. |
| MagicTables.MagicTable.InitMagic | src/core/private/magic.cpp:74-127 | After filling, every entry holds all that its slider sees and nothing more behind the post-mask, for all cells and occupancies. |
| MagicTables.MagicTable.EntryIsExact | src/core/private/magic.cpp:74-127 | Entry and post-mask together are exactly the attacks. |
| MagicTables.MagicTable.AttackBitboard | src/core/private/magic.h:45-87 | For every cell and occupancy the look-up equals what the slider sees. |
| MagicTables.MagicTable.MaskedAttackBitboard | src/core/private/magic.h:74-96 | The narrowed look-up equals the attacks inside the mask. |
| AttackTables.Tables.constructor | src/core/private/magic.cpp:74-127 | From any collision-free magic numbers the six tables are filled with exactly the attacks of the pieces. |
| AttackTables.Tables.CellAttackers | src/core/movegen.cpp:61-72 | With the filled tables in place of the definitions the result is still the set of men that attack the cell by the rules. |
| AttackTables.Tables.IsCellAttacked | src/core/movegen.cpp:42-58 | With the filled tables, true exactly when some man of the colour attacks the cell by the rules. |
| AttackTables.Tables.IsAttackedMasked | src/core/movegen.cpp:488-506 | With the filled tables, true exactly when a man inside the mask attacks the cell under the given occupancy. |
| RayWalk.RaysAreAttacks | src/core/private/magic.cpp:96-123 | The four ray walks together are the attacks by the definition of sight. |
| Quiescence.NoisyShrinks | src/search/private/job.cpp:339-363 | Each capture or promotion lowers the number of men plus pawns, so quiescence search ends. |
| Quiescence.QuiescenseMovePicker.Next | src/search/private/move_picker.h:96-109 | Hands out captures, then quiet promotions, each noisy move once and in its order, and ends only when every legal one has been given. |
| Quiescence.SortBy | src/search/private/move_picker.cpp:32-43 | Sorting permutes the moves and orders them by falling key. |
| Quiescence.VictimComesFirst | src/search/private/move_picker.cpp:33-44 | The sum of the two order numbers compares captures first by the victim, the most valuable first, and then by the attacker, the least valuable first. |
| SearchEngine.AnswerNarrows | src/search/private/job.cpp:348-362 | One answered move keeps `alpha` equal to the best known score inside the window. |
| SearchEngine.ScoreForParent | src/search/private/job.cpp:560-567 | A score that is right for a child in its window is right, with the other sign, for its parent: outside the window or valid, an even number of plies to being checkmated and an odd one to giving checkmate. |
| SearchEngine.ValidWhenLoaded | src/search/private/job.cpp:434-444 | A score taken from the table at any depth of the stack stays finite, and a valid one is valid for the node that takes it. |
| SearchEngine.StoredThenFound | src/search/private/job.cpp:407-444 | What a node stores is true of its value, whichever way the window cut it; a cutoff found there later gives that value clamped to any other window. |
| SearchEngine.QValueIsNormal | src/search/private/job.cpp:326-331 | Captures and promotions never make a checkmate score out of static scores that are none. |
| SearchEngine.Searcher.TryMove | src/search/private/job.cpp:344-347 | A move is made if it is legal and otherwise undone at once. |
| SearchEngine.Searcher.QuiescenseSearch | src/search/private/job.cpp:318-366 | Unless cut short, the answer clamped to the window equals the clamped negamax value over all legal captures and promotions; it counts as cut short exactly when `mustStop` was true; it is fail-hard; inside the window it is never a checkmate score if no static score is; the board is restored on every way out. |
| SearchEngine.Searcher.NullMoveSearch | src/search/private/job.cpp:482-500 | Out of check the null move leads to a valid position; board, repetition table and frames are restored. |
| SearchEngine.Searcher.SearchMove | src/search/private/job.cpp:513-568 | One move with its reductions and re-searches: every window is proper, the score is outside the window or valid for its depth, and everything is restored on each of its ways out. At depth 1 the score clamped to the window is the clamped value of the position after the move. |
| SearchEngine.Searcher.SearchMoves | src/search/private/job.cpp:502-594 | Without a legal move the score is that of checkmate at this ply if the king is attacked, and 0 if it is not. Otherwise it is finite, and outside the window or valid for its depth; with the widest window the best move is legal and exists if any legal move does; at depth 1 it is a best one and the score is its value. |
| SearchEngine.Searcher.TtStore | src/search/private/job.cpp:407-422 | What is stored is the score cut to the window and counted from the node; it fits the table, and an exact one is valid, so the table keeps what every look-up relies on. |
| SearchEngine.Searcher.ProbeTable | src/search/private/job.cpp:424-450 | An entry that is deep and recent enough gives a cutoff exactly when it settles the score clamped to the window, and then the score is that of every value that the entry allows; it is finite, and outside the window or valid. |
| SearchEngine.Searcher.Prune | src/search/private/job.cpp:461-478 | A node is cut off at `beta` exactly when the static score is a margin above it, and otherwise at `alpha` exactly when both the static score and the negamax value of the captures and promotions are a margin below it, unless the search was cut short. |
| SearchEngine.Searcher.DoSearch | src/search/private/job.cpp:369-595 | Board, repetition table and lower frames are as found on every way out, and the transposition table keeps its rule; the score is finite, and outside the window or valid; the stack index stays below 265, depth stays positive after null-move reduction, the window of a non-PV node stays empty inside, and the recursion ends. Draws score 0; without depth left the score clamped to the window is the clamped negamax value; a root without a legal move scores as checkmate or stalemate; a root at depth 1 gets a best move and its value. A search counts as cut short exactly when `mustStop` was true in it. |
| SearchEngine.Searcher.Search | src/search/private/job.cpp:212-226 | A position in the repetition table is answered with 0 and nothing is touched; any other is in the table exactly while it is searched. Both assertions behind the search hold: the score is outside the window or valid, and the hash is as before. |
| SearchEngine.Searcher.Run | src/search/private/job.cpp:181-189 | The score is valid. The best move is legal or none; a search that was not cut short has one exactly when the root was not in the repetition table and a legal move exists. A new root without a legal move scores -30000 in check and 0 otherwise. At depth 1, not cut short, no legal move is worth more than the best one, and the score is its value. |
| JobRun.MakeMoves | src/search/private/job.cpp:620-629 | After the moves the tables hold exactly the hashes that came up at least once, and at least twice, before the root. |
| JobRun.Run | src/search/private/job.cpp:619-650 | At every depth the score is valid and the best move is legal or none; unless cut short there is a best move exactly when the root had not come up twice before and has a legal move; a root without one scores as checkmate or stalemate. At the first depth the best move and the score are exact. |
| RootRepetition.RootMayBeRepeated | src/search/private/job.cpp:641 | From the initial position g1f3 g8f6 f3g1 f6g8, played twice, are legal moves to a root that has come up twice before and has a legal move, so that the assertion of a best move fails there. |
| Jobs.JobsStep | src/search/private/job.cpp:201-210 | Every step keeps: a job that was cut has seen the stop flag, or the shared depth has passed its depth. |
| Jobs.LinesStep | src/search/private/job.cpp:631-647 | Every step keeps: each passed depth has exactly one line, added or about to be added by the job that won it. |
| Jobs.OneLinePerDepth | src/search/private/job.cpp:631-647 | In every run no two lines have one depth, no line comes from a search cut short, and every passed depth has its line or its winner. |
| Jobs.ExtractTakesAll | src/search/private/job.cpp:82-87 | Taking the lines leaves none behind; with those taken before they are the lines of all passed depths, but for one that a job is about to add. |
| Jobs.CutIsFinal | src/search/private/job.cpp:201-210 | In every continuation a job that was cut at a depth never publishes a line for that depth. |
| Jobs.PollAnswers | src/search/private/job.cpp:201-210 | What one step of `mustStop` answers: stop when the flag is set or the shared depth is not that of the job; every 1024th call looks at the clock instead, and sets the flag when it is late. |
| Jobs.CutMeansTold | src/search/private/job.cpp:201-210 | Over any run, while a job stays at its depth, it is cut if and only if it was cut before or some call of `mustStop` on the way told it to stop. |
| Jobs.LateMeansStopped | src/search/private/job.cpp:99-105 | A job that found the time to be up leaves the call cut and with the flag set, unless it has moved to another depth. |
| Jobs.StopIsObeyed | src/search/private/job.cpp:631-650 | Once the flag is set a job begins at most one more depth, and none if it has yet to look at the flag. |
| Jobs.StopHasReason | src/search/private/job.cpp:201-210 | The flag is set only by a call of `stop`, a late clock, or a job that has searched the last depth. |
| Jobs.ReaderIsWoken | src/search/private/job.cpp:59-81 | A sleeping reader has missed nothing: if the flag is set or lines wait, a thread that will notify it is on its way. |
| Jobs.DoneMeansStopped | src/search/private/job.cpp:631-650 | A job returns only with the stop flag set. |
| Jobs.StoppedIsFinal | src/search/private/job.h:41-47 | `Stopped` is the answer of all later calls exactly when no job will add a line any more. |
| Jobs.StoppedIsNotPermanent | src/search/private/job.cpp:89-97 | A run in which the reader is told `Stopped` and then `NewLines`. |
| Queue.SequentialIsFifo | src/util/queue.h:37-64 | A legal history of the sequential queue pops in the order of pushing, and never holds more than the size. |
| Queue.StepServes | src/util/queue.h:37-76 | Each step of any thread answers at most one call, as the sequential queue would. |
| Queue.StepAnswers | src/util/queue.h:37-64 | A call that the sequential queue can answer is answered at once and by exactly that event; a thread goes to sleep exactly when its call cannot be answered. |
| Queue.CloseCloses | src/util/queue.h:67-76 | A `close` leaves the queue closed, nothing else does, and nothing is accepted after it. |
| Queue.ClosedStays | src/util/queue.h:67-76 | In every continuation a closed queue stays closed and accepts no value. |
| Queue.ClosedByClose | src/util/queue.h:67-76 | After any run the queue is closed exactly when some thread has called `close`. |
| Queue.StepKeepsInv | src/util/queue.h:37-76 | Every step keeps the history legal, and keeps a wakeup on the way for every item while consumers sleep and for every free slot while producers sleep. |
| Queue.FifoInEveryRun | src/util/queue.h:37-64 | For any number of threads, with spurious wakeups: popped followed by held is pushed, in order, within the size. |
| Queue.SleepersHaveAReason | src/util/queue.h:37-76 | When no thread can go on alone, consumers sleep only on an open empty queue and producers only on an open full one; after closing nobody sleeps. |
| EvalTag.PsqFromBundle | gen/eval/weights.cpp:46-77 | The filled table is the piece-square function: black entries are the negated white ones with the rows flipped. |
| EvalTag.KingsideIsFour | gen/eval/weights.cpp:81-98 | The stored castling change is that of the four cells, for black because of the flip. |
| EvalTag.TagFrom | src/eval/evaluate.cpp:46-57 | The loop sums piece-square costs and stages over the board. |
| EvalTag.StageCounts | src/eval/private/consts.h:28-36 | The stage is the number of knights and bishops, plus twice the rooks, plus four times the queens. |
| EvalTag.TagScores | src/eval/evaluate.cpp:46-57 | From the cost in the tag, kept in 32 bits, one reads the sums of the middlegame and of the endgame worth of all men, black ones negated and seen from their side, while both fit into 16 bits. |
| EvalTag.UpdateIsExact | src/eval/evaluate.cpp:59-94 | The updated tag equals the tag of the board after the move, for every playable move. |
| EvalTag.RunTagIsExact | src/eval/evaluate.cpp:59-94 | The tag handed on along any run of moves equals the tag of the last board. |
| EvalTag.PairRoundTrip | src/eval/score.h:104-135 | Whatever is computed with pairs by sums, differences, negation and multiplication, each wrapping around at 32 bits: both scores can be read from the result if the scores that are meant fit into 16 bits. |
| EvalTag.PairFits | src/eval/score.h:104-111 | Two 16-bit scores fit into the packed number unless the second is -32768 and the first negative. |
| PieceLists.Lists.DelList | selftest/dodecahedron/moves.cpp:61-75 | Removing by swap with the last item keeps every list an exact index. |
| PieceLists.Lists.ChangePiece | selftest/dodecahedron/moves.cpp:99-104 | Changing one cell keeps lists, places, counts and bitboards an exact index of the board. |
| PieceLists.Lists.RecalcBoard | selftest/dodecahedron/board.cpp:23-48 | Builds the exact index from the cells alone. |
| PieceLists.Lists.CheckedIsExact | selftest/dodecahedron/board.cpp:323-365 | What `board_ok` compares is enough: the lists are exact in both directions. |
| Dodecahedron.PlayKeepsRoomy | selftest/dodecahedron/moves.cpp:120-175 | No move of a run fills a list, so the man that is listed twice in mid-move always has a slot. |
| Dodecahedron.ValidIsRoomy | selftest/dodecahedron/board.cpp:262-270 | A valid board leaves room in every list. |
| Dodecahedron.DBoard.MakeMove | selftest/dodecahedron/moves.cpp:120-187 | `make_move` simulates the rules: cells, rights, side, en passant column and move counter. |
| Dodecahedron.DBoard.UnmakeMove | selftest/dodecahedron/moves.cpp:189-220 | `unmake_move` gives the position back, with an exact index: cells, bitboards and the lists as sets. |
| RayTables.Tables.constructor | selftest/dodecahedron/bitboard.cpp:154-180 | The ray tables hold for each direction, cell and length the cells within that many steps, and the last of them. |
| RayTables.Tables.FindNearestLen | selftest/dodecahedron/movegen.cpp:24-29 | The shorter ray is free, and a man stands at the end or nowhere on the ray. |
| RayTables.NearestIsSeen | selftest/dodecahedron/movegen.cpp:31-37 | The nearest man on a ray is the man that is seen there. |
| SelfTest.InlineIsAttacked | selftest/dodecahedron/movegen.cpp:31-61 | True exactly when some man of the colour attacks the cell by the rules. |
| SelfTest.AttacksAgree | selftest/README.md:9-21 | On one position the two engines agree on every cell and colour. |
| SelfTest.PlayBoth | selftest/README.md:9-21 | Along every run of non-null pseudo-legal moves the two engines hold the same position. |
| Fen.ScanRows | src/core/board.cpp:200-256 | Written cells are read back. |
| Fen.ScanCastlingText | src/core/board.cpp:271-290 | Written castling rights are read back. |
| Fen.DigitsRoundTrip | src/core/board.cpp:98-102 | Written numbers are read back. |
| Fen.FenRoundTrip | src/core/board.cpp:197-325 | Reading what was written gives every field, for each position whose en passant mark is on the right row. |
| FenGrammar.FenIsParsed | src/core/board.cpp:197-325 | A text is parsed, and as a given board, if and only if it consists of that board's fields with one space between them: eight rows of eight cells, a side, castling letters in any order without repetition or a dash, the passed cell on the row of the side to move or a dash, and two decimal numbers of 16 bits. |
| Fen.FenFits | src/core/board.h:61 | The text and its final zero fit into 120 characters. |
| FenBoard.AsFen | src/core/board.cpp:40-105 | The loops write the text form of the board. |
| FenBoard.ReadCells | src/core/board.cpp:200-256 | On every text the write position is the cell at the current row and column, so no write leaves the board, and it is 64 at the end; the answer is that of the text form. |
| FenBoard.SetFromFen | src/core/board.cpp:197-325 | Every text either sets a consistent board to what it stands for, or is refused for the first thing wrong. |
| FenBoard.CopyByFen | src/core/board.cpp:40-325 | Setting a board from the text of a consistent one gives the same board in every field. |
| MoveText.MoveRoundTrip | src/core/move_parser.cpp:29-114 | Every playable move survives writing and reading on its board. |
| MoveText.TextRoundTrip | src/core/strutil.cpp:33-47 | A text that is read as a move is the text of that move, except "a8a8". |
| MoveText.PromotionLetter | src/core/strutil.cpp:33-47 | The last letter of a promotion is the letter of the man that then stands on the destination, as in a board's text. |
| MoveText.EnpassantNamesPassedCell | src/core/board.cpp:88-94 | The en passant field names, in the letters of a move, the cell that the pawn has passed. |
| GameSet.InitialText | src/gameset/types.cpp:63-73 | The text that is written as "start" is the text of the initial position, and so of no other board. |
| GameSet.ReadMovesText | src/gameset/reader.cpp:186-204 | Moves that pass the test of the reader, each on the board after those before it, are read back one by one. |
| GameSet.ReadBackIsAccepted | src/gameset/reader.cpp:186-204 | And only those: moves that are read back from their text have all passed the test. |
| GameSet.TestMove | src/gameset/reader.cpp:192-196 | The answers of `isWellFormed`, `isMoveValid` and `isMoveLegal` on the board, taken together, are the test of the reader; with one king of the side to move it is legality by the rules. |
| GameSet.ReadMovesInPlace | src/gameset/reader.cpp:186-204 | The loop that tests and makes the moves on one board gives the answer of the text form, and leaves the last board. |
| GameSet.ValidIsReadable | src/gameset/reader.cpp:186-204 | On a valid board any text may be read: there is a king wherever the reader looks for one. |
| GameSet.LegalIsAccepted | src/gameset/reader.cpp:190-196 | From a valid board on, every run of legal moves passes the test. |
| GameSet.TwoKingsAreRefused | src/gameset/reader.cpp:193-196 | On a board with two kings of the side to move the test refuses a move that leaves no only king attacked. |
| GameSet.CommandLine | src/gameset/reader.cpp:117-210 | Each well-formed command is read back from its line and leaves the board that later moves apply to; moves are well-formed when each passes the test of the reader on its board. |
| GameSet.WinnerLetters | docs/gameset.md:70-72 | W, B and D stand for a win of white, a win of black and a draw, and ? for a game that is not finished. |
| GameLines.HeaderIsRead | src/gameset/reader.cpp:145-160 | A header is read exactly when it is one letter of a winner, a space, and something behind it; it forgets the board. |
| GameLines.MovesAreRead | src/gameset/reader.cpp:186-210 | Of the words of a line each in turn is read on the board after those before it and tested; the line is refused at the first word that fails, with its number and that board, and read in full otherwise. |
| GameLines.LinesAreSorted | src/gameset/reader.cpp:139-212 | A line is skipped exactly when its name is unknown, and refused exactly when its header, board text or moves are wrong, no board precedes the moves, or there are none. |
| GameLines.CommentsAreSkipped | docs/gameset.md:55-59 | A line is ignored exactly when, without the spaces around it, it is empty, starts with #, or has an unknown first word. |
| GameReading.GameReader.Next | src/gameset/reader.cpp:109-115 | The loop gives the next command of the text, skipping blank lines, comments and unknown commands. |
| GameReading.GameReader.NextGame | src/gameset/reader.cpp:43-85 | The loop collects the commands up to the next header, the end or an error, and keeps what was read last for the next call. |
| GameReading.Rebuilt | src/gameset/types.cpp:117-127 | The commands that are written for a game rebuild it. |
| GameReading.FirstGame | src/gameset/reader.cpp:43-85 | On the text of some games the next call gives the first of them and leaves a reader for the others. |
| GameReading.ReadBack | src/gameset/reader.cpp:39-85 | The text of any list of well-formed games, whose moves pass the test of the reader on their boards, is read back as exactly these games, in order, and then the end of the stream. |

## Left out

- Attacks.Validate: has no `BadData` answer, because cells and coordinates have types that hold only values of the enumeration and cells of the board.
- Boards.Board.Update: excludes an en passant mark on an enemy pawn that stands on the last row before it, where the engine reads a cell off the board.
- PieceLists.Lists.RecalcBoard: excludes boards with more than 16 men of one kind. `validate_board` hands them over before it counts (selftest/dodecahedron/board.cpp:262-266), and the list of 16 places overflows there.
- GameSet.ReadMovesInPlace: excludes boards without a king of the side to move, where `getLowest(0)` is undefined, and boards with a pawn on an end row; `GameSet.Accepts` accepts nothing without a king.
- `Move::tag`, cell values outside the enumeration and coordinates outside 0 to 63: `Move.src` and `Move.dst` have the type of a cell, so the range tests of `isWellFormed` and the `BadData` answer of `validate` have no counterpart.
- SearchEngine.Searcher.DoSearch: says what the score is for draws, for a root without a legal move, when no depth is left and at depth 1; deeper it says nothing about how good the score is, because pruning, reductions and trust in the transposition table are heuristics. State, bounds, validity of scores and termination are proved at every depth. It asks that no static score is a checkmate score, as the assertions at src/search/private/job.cpp:326-331 do.
- SearchEngine.Searcher.PickMoves: the main move picker is any order of the generated moves with null moves and further pseudo-legal moves in between; its stages and the history table are not modelled, and nothing is claimed about which moves become killers. The engine plays the move found in the transposition table untested (src/search/private/move_picker.cpp:75-81); that it is pseudo-legal on the board, which needs that no two positions share a hash, is assumed.
- SearchEngine.Searcher.Search: the repetition table is a set of hashes; a hash value of zero, which the real table takes for an empty slot, is not modelled.
- `Flags::Capture` is set as the code sets it, from the board after the move was made; nothing is claimed about it.
- SearchEngine.Searcher.TtLoad: the transposition table of one job is a map from hashes, and a look-up may also give anything that another job may have stored under the same rule; its replacement policy, its size and torn reads are not modelled.
- The static score is an arbitrary function of the position, standing for the evaluator on a valid tag; king safety, pawn structure and mixing of stages are left out.
- EvalTag.UpdateIsExact: sums are unbounded integers; `EvalTag.PairRoundTrip` shows that wrapping around at 32 bits changes nothing while the scores that are meant fit into 16 bits. Whether they fit for given weights is not shown.
- MagicTables.MagicTable.InitMagic: takes arbitrary collision-free magic numbers. The engine's own numbers are generated when it is built and are not part of the repository; `MagicNumbers` shows collision-free ones for two cells. How they are searched for is left out because it need not end. The variant with the BMI2 instructions is left out.
- The bound of 300 on all moves of a position (src/core/movegen.h:106).
- Memory ordering: atomic accesses are sequentially consistent. Time is an arbitrary answer to "is it late".
- Dodecahedron.DBoard.MakeMove: null moves and counters at 65535 are excluded, since the two engines count differently there.
- The castling rights of the second engine are a set of flags instead of two arrays of booleans, and its move generator is left out.
- GameReading.GameReader.NextGame: the captured boards and the wording of error messages are not modelled; text has no zero characters.
- The UCI connector, options, logging, job runner reconfiguration and `main`.
- Jobs.OneLinePerDepth: the contents of a line are its depth and its job; the score and the moves in it are not modelled.

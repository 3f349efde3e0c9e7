# A verified model of the lc0 core

Leela Chess Zero decides by a neural network, but everything around the network is ordinary code that has to be right:
the rules of chess, the evaluation cache, the endgame tables, the planes the network reads and the training data it
learns from. This project models that code in Dafny and proves what it is for. `dafny verify dfyconfig.toml` checks all
of it.

The files follow the program:

| files | what they model |
|---|---|
| `Squares`, `Board` | squares, rays, the board as a value, pseudolegal moves, playing a move, turning the board |
| `Laws`, `MoveEffects` | the Laws of Chess square by square, in coordinates, and that generator, attacks and rights follow them |
| `Legality`, `Invariants`, `Repetition`, `History` | the fast legality test against making the move, what every game keeps, repetition counting |
| `AttackTables`, `ChessBoard` | the sliding-attack tables and the board class with its bitboards changed in place |
| `Fen`, `FenRoundTrip`, `FenAccepted`, `Notation`, `StartPosition` | FEN and move text, written and read back; what any accepted text gives; the initial position |
| `Ring`, `Cache`, `CacheRuns` | the open-addressing cache with pinned values, and whole runs of it |
| `MemCache`, `MemCacheBatches`, `MemCacheRuns` | the caching backend on top: single calls, what a batch leaves in the cache, and the steps of any number of locks and batches in any order |
| `Powers`, `Binomials`, `TableIndex`, `TableEncoder`, `LeadingPawns`, `PawnEncoding` | the index of a Syzygy table |
| `Huffman`, `BitStream`, `PairsTable` | the compression of a Syzygy table |
| `WdlSearch`, `WdlChess`, `WdlWorld` | the capture search that repairs stored values, and a world in which its assumptions hold |
| `PiecePlanes`, `Decoder`, `BitBoards`, `Canonical` | input planes: recovering a move from two of them, and choosing a canonical symmetric image |
| `Rescoring`, `RescoringPass` | the first rescoring pass over training data |

Bitboards are sets of squares; `BitBoards` ties the sets to the 64-bit words where the program permutes bits. Objects the
program updates in place are classes (`ChessBoard`, `PositionHistory`, `MagicTable`, `HashKeyedCache`, the caching backend
and its computation, `Rescorer`), buffers it sorts or fills are arrays, and its loops are loops. Each method is proved
against a function of the inputs or of the old state, and the lemmas prove what that function means.

The rules of chess are those of the FIDE Laws of Chess, Article 3 for the moves, Article 3.9 for check and Article 9.2 for
repetition; FEN is section 16.1 of the PGN Specification and Implementation Guide.

Some findings that a reader of the code may not expect:

* The legality test is exact on every board that can arise in a game, but not on every board a FEN can describe. Pawns
  and knights are counted once per kind, and three or more checkers are not a "double check"; and where the kings stand
  next to each other, which the parser accepts, every move of another piece that passes the test is approved wrongly.
  `Legality.LegalityExact` gives the exact families, `Legality.TwoKnightsMissed` a board in the first.
* A FEN with a negative half-move clock is accepted, and from any negative clock a repetition can be missed: the count
  should be 1 and the scan finds nothing (`History.NegativeClockMissesRepetition`). From zero on none is missed.
* `BoardToFen` alone is rejected by the parser exactly when there is an en passant right, because the square then ends
  the text; `PositionToFen` is not affected. The number `PositionToFen` writes last is a move number, while the parser
  stores it as a ply count.
* The rescorer's `fixed_counts` follows frame 0 unless the first hit confirms the frame it lands on while frame 0
  disagreed; results that alternate from the start never do that.
* With capacity 1 the cache table is completely full between an insertion and the eviction after it. The deletion loop
  still ends: every swap brings an item closer to its home slot.

## Model

| member | source | states |
|---|---|---|
| `Legality.LegalityExact` | src/chess/board.cc:888-957 | For every well-formed board and every pseudolegal move, the pin and attack-line test answers "does this leave our king unattacked" correctly if and only if the move is in neither of two families: with the kings apart, several checkers that the counter does not report as a double check, answered by an unpinned piece; with the kings adjacent, any move of a piece other than the king that the test approves. |
| `Legality.LegalityCorrect` | src/chess/board.cc:859-886 | With the kings apart and under the condition the scan asserts (at most two counted attackers), with at most one checking pawn and one checking knight, the test is true exactly for the legal moves. |
| `Legality.TwoKnightsMissed` | src/chess/board.cc:870-883 | A concrete board on which two checking knights count as one attacker: capturing one of them passes the test and leaves the king in check. |
| `Legality.PieceMoveSafe` | src/chess/board.cc:901-957 | A move of a piece other than the king leaves no check if and only if it answers every check and stays on the line of every pin. |
| `Legality.InLineMeansSameLine` | src/chess/board.cc:945-956 | The cross product of the last test is zero exactly when the target lies on the line through king and piece. |
| `Legality.KingStepSafe` | src/chess/board.cc:929-934 | A king step screened while the king still stands on its old square stays safe after the step when no piece other than their king gave check. |
| `Legality.CountTwoMeansTwoCheckers` | src/chess/board.cc:859-883 | When the counter shows two, two different pieces give check. |
| `Invariants.AfterWellFormed` | src/chess/board.cc:596-726 | Any move that does not take a king keeps piece sets disjoint, one king per side, castling rights backed by king and rook at home, and at most one en passant flag backed by its pawn. |
| `Invariants.SoundAfter` | src/chess/board.cc:596-726 | A legal move of a sound board does not take the king and leaves a sound board: well formed, the opponent not left in check, at most two counted attackers, never two checking pawns or knights. |
| `Invariants.GameStaysSound` | src/chess/board.cc:959-967 | Every board of every game of legal moves from a sound board is sound. |
| `Invariants.GameLegalityExact` | src/chess/board.cc:888-957 | At every point of every such game the fast test is exact for every pseudolegal move, and no pseudolegal move takes a king. |
| `Invariants.StartSound` | src/chess/board.cc:48-53 | The initial position is sound, so the results about games speak of real games. |
| `StartPosition.StartFenReads` | src/chess/board.cc:48-51 | Parsing the text of the initial position, character by character, gives exactly that board, with its clock and move number. |
| `Invariants.CaptureMeansCheck` | src/chess/board.cc:728-760 | A move that could take their king means their king is attacked once the board is turned: the two directions of looking at attacks agree for every kind of piece. |
| `Invariants.EveryCheckExplained` | src/chess/board.cc:596-726 | After a move, every check comes from a piece that just arrived or runs over a square that was just vacated. |
| `Invariants.PlayMovesPieces` | src/chess/board.cc:596-726 | The set updates do to the mailbox view of every square what the rules say: mover, captured piece, promoted piece and both castling pieces end up where they belong and nothing else changes. |
| `Invariants.ZeroingMeansCaptureOrPawn` | src/chess/board.cc:596-726 | The zeroing result is true exactly when a piece of theirs left the board or one of our pawns moved. |
| `Invariants.MirrorMirror` | src/chess/board.cc:57-69 | Turning the board twice gives the board back. |
| `MoveEffects.MirroredMeans` | src/chess/board.cc:57-69 | Turning exchanges the sides on every square and their castling rights and rook files, and passes the move to the other colour. |
| `Laws.KnightJumpMeans` | src/chess/board.cc:130-152 | The knight reaches the nearest squares that lie on no common rank, file or diagonal. |
| `Laws.AttackedMeans` | src/chess/board.cc:728-760 | A square is attacked exactly if some piece of theirs attacks it by Articles 3.1 to 3.8, said with coordinates and squares in between. |
| `Laws.PseudolegalMeans` | src/chess/board.cc:430-575 | On every well-formed board the moves of the generator are exactly those of Article 3: what each piece may do on an open line, pawn steps, captures, en passant and promotion, and Chess960 castling with nothing in the way and no attacked square left or crossed. |
| `MoveEffects.LegalMeans` | src/chess/board.cc:959-967 | A move is legal exactly if it is a move of Article 3 after which no piece of theirs attacks our king. |
| `MoveEffects.RightsAfter` | src/chess/board.cc:608-646 | Each of our rights is lost exactly by a move of the king or of its rook, each of theirs exactly by the capture of its rook, and rook files never change. |
| `MoveEffects.FlagAfter` | src/chess/board.cc:715-724 | After a move there is an en passant flag exactly for a pawn that advanced two squares next to a pawn of theirs. |
| `MoveEffects.CrossedAfter` | src/chess/board.cc:715-724 | The opponent may then take en passant on the square that pawn crossed, and on no other. |
| `ChessBoard.ChessBoard.ApplyMove` | src/chess/board.cc:596-726 | Updated in place in the order of the source, the board becomes the position after the move, castling rights follow Article 3.8, and the result says whether the move zeroes the clock. |
| `ChessBoard.ChessBoard.Mirror` | src/chess/board.cc:57-69 | The board becomes the one the opponent sees. |
| `ChessBoard.ChessBoard.IsUnderAttack` | src/chess/board.cc:728-760 | The table lookups answer exactly whether some piece of theirs attacks the square, along rays on the real occupation and by the Laws of Chess. |
| `ChessBoard.ChessBoard.GenerateKingAttackInfo` | src/chess/board.cc:762-886 | The scan along eight rays, for pawns and for knights finds exactly the pinned pieces, exactly the squares that answer a check, and whether the count is two. |
| `ChessBoard.ChessBoard.ScanRay` | src/chess/board.cc:773-813 | One ray yields a checker with its line, or the piece of ours pinned on it, or neither. |
| `ChessBoard.ChessBoard.LegalMove` | src/chess/board.cc:888-957 | The branches answer as the reference test does, copying and playing the move where the source does. |
| `ChessBoard.ChessBoard.GeneratePseudolegalMoves` | src/chess/board.cc:430-575 | The list holds every move that Article 3 allows before our king is judged, each once, and no other. |
| `ChessBoard.ChessBoard.GenerateLegalMoves` | src/chess/board.cc:959-967 | On a sound board the list holds every move of Article 3 after which no piece of theirs attacks our king, each once, and no other. |
| `ChessBoard.ChessBoard.SetFromFen` | src/chess/board.cc:977-1119 | Parsing field by field in place, including every error exit, gives what the specification of the parser says. |
| `ChessBoard.ChessBoard.PutPiece` | src/chess/board.cc:969-975 | Placing one piece changes the sets of its kind only. |
| `History.PositionHistory.Append` | src/chess/position.cc:105-113 | The new position follows by the move, every stored repetition count equals the number of earlier positions with an equal board (on top of what the start carried) and the cycle length is the distance to the latest of them; earlier entries do not change. |
| `History.PositionHistory.ComputeLastMoveRepetitions` | src/chess/position.cc:115-130 | The scan with its cut-offs, its step of two and its start at distance four finds the same count and distance as a scan of the whole history. |
| `History.PositionHistory.FindEarlier` | src/chess/position.cc:121-129 | On any history the loop returns what the scan with its cut-offs is specified to find. |
| `History.EarlierIsExact` | src/chess/position.cc:119-129 | In a run the early exits lose nothing: the index found is the latest equal board, and none is found only if there is none. |
| `History.EqualBoardsAreFar` | src/chess/position.cc:119-128 | Two equal boards of a run are at least four plies apart, an even distance, with no zeroing move in between. |
| `History.CountIsCardinality` | src/chess/position.cc:115-130 | The count is the number of earlier indices that show the board. |
| `History.ClocksMean` | src/chess/position.cc:40-46 | Along a run the ply count goes up by one, and the fifty-move clock shows the plies since material or pawns last changed. |
| `History.NegativeClockMissesRepetition` | src/chess/position.cc:119 | For every negative starting clock there is a run of two king moves each in which the first board comes back, so the true count is 1, and the scan finds nothing; with a clock of zero or more this never happens. |
| `History.PositionHistory.DidRepeatSinceLastZeroingMove` | src/chess/position.cc:132-139 | True exactly when some position not older than the last zeroing one carries a repetition. |
| `History.PositionHistory.Trim` | src/chess/position.h:120-139 | Dropping positions from the end leaves an exact history. |
| `Repetition.MeasureAfter` | src/chess/position.cc:40-46 | Captures and pawn moves strictly lower a measure of material and pawn advance; all other moves keep it. |
| `AttackTables.MagicTable.Lookup` | src/chess/board.cc:374-409 | One extraction and one lookup give exactly the squares a ray walk sees on the real occupation, for every square and every occupation. |
| `AttackTables.MagicTable.Build` | src/chess/board.cc:263-370 | The loops fill every segment with the attacks of its square; segments follow each other without overlap and end within the declared length. |
| `AttackTables.OnlyMaskMatters` | src/chess/board.cc:276-291 | Occupations that agree on the mask, which leaves out the last square of every ray, see the same squares. |
| `AttackTables.PextInverts` | src/chess/board.cc:319-364 | Enumerating the subsets of a mask by bits and extracting bits through it are inverse. |
| `AttackTables.SegmentStarts` | src/chess/board.cc:367-368 | Where each segment starts, in closed form. |
| `AttackTables.SegmentFits` | src/chess/board.cc:254-255 | Every segment ends within 102400 entries for rooks and 5248 for bishops. |
| `AttackTables.TablesFitExactly` | src/chess/board.cc:254-255 | The two declared lengths are reached exactly. |
| `Ring.InRangeMeans` | src/utils/cache.h:261-267 | The comparison of wrapped indices holds exactly for the indices met walking from start to end. |
| `Ring.HoleMoved` | src/utils/cache.h:245-258 | Moving an item into the hole keeps every other item reachable from its home slot with no gap but the new hole. |
| `Ring.HoleHarmless` | src/utils/cache.h:245-258 | When the scan meets a free slot the remaining hole interrupts no probe path. |
| `Ring.SwapLowersDisplacement` | src/utils/cache.h:245-258 | Every swap lowers the total distance of items from home: the measure that ends the deletion loop even in a full table. |
| `Cache.HashKeyedCache.Insert` | src/utils/cache.h:66-90 | The map gains the entry, the oldest entry leaves if the capacity is exceeded, a key already present keeps its value; the in-place table is fully probed for the key. |
| `Cache.HashKeyedCache.ContainsKey` | src/utils/cache.h:94-108 | True exactly for the keys of the map. |
| `Cache.HashKeyedCache.LookupAndPin` | src/utils/cache.h:113-129 | The value of the key with one more pin, or nothing and no change. |
| `Cache.HashKeyedCache.Unpin` | src/utils/cache.h:133-161 | One pin less, on the evicted value if that is the one meant; the last pin of an evicted value frees it. |
| `Cache.HashKeyedCache.SetCapacity` | src/utils/cache.h:166-197 | Oldest entries leave down to the new capacity; every other entry, its pins and the queue order survive the rehash. |
| `Cache.HashKeyedCache.Clear` | src/utils/cache.h:200-203 | Everything leaves the map; pinned values stay owned. |
| `Cache.HashKeyedCache.EvictItem` | src/utils/cache.h:223-259 | The oldest entry leaves, its value is freed or kept aside while pinned, and the backward shift ends and leaves no gap. |
| `Cache.HashKeyedCache.CloseHole` | src/utils/cache.h:245-258 | Backward-shift deletion terminates and restores the probe invariant without changing what the table holds. |
| `Cache.HashKeyedCache.EvictToCapacity` | src/utils/cache.h:269-273 | Evictions in queue order until the limit is met. |
| `Cache.HashKeyedCache.Destroy` | src/utils/cache.h:58-62 | With no pins outstanding nothing is allocated in the end. |
| `CacheRuns.EvictionIsFifo` | src/utils/cache.h:223-259 | Eviction drops exactly the oldest keys beyond the limit and keeps the values of the others. |
| `CacheRuns.EvictionKeepsPinned` | src/utils/cache.h:235-244 | Of the dropped values exactly the pinned ones are kept aside. |
| `CacheRuns.ResizeIsFifo` | src/utils/cache.h:166-197 | Setting the capacity drops exactly the oldest entries beyond the new limit; the rest keep order, values and pins, and dropped values stay only while pinned. |
| `CacheRuns.YoungEntriesSurvive` | src/utils/cache.h:66-90 | In any run of insertions, lookups, unpins and resizings an entry stays, with its value, as long as fewer entries are younger than the least capacity. |
| `CacheRuns.InsertedIsYoungest` | src/utils/cache.h:66-90 | With capacity above zero a newly inserted key is found with its value and is the youngest. |
| `CacheRuns.PinnedIsNeverFreed` | src/utils/cache.h:113-161 | Over every run of operations pins are conserved per value, and a value with outstanding pins is never freed: through eviction, re-insertion of its key, rehash and clearing. |
| `CacheRuns.LastPinFrees` | src/utils/cache.h:133-161 | A value evicted while pinned leaves with its last pin. |
| `CacheRuns.AllocatedCountsLiveValues` | src/utils/cache.h:235-244 | The allocation counter equals the values in the table plus those evicted while pinned. |
| `Binomials.InitBinomial` | src/syzygy/syzygy.cc:391-402 | The table holds the binomial coefficients: every division is exact. |
| `Binomials.Subfactor` | src/syzygy/syzygy.cc:604-613 | The product and quotient give the number of placements of like pieces: the division is exact. |
| `Binomials.FallingIsChoose` | src/syzygy/syzygy.cc:394-401 | The product of factors is k! times the coefficient by Pascal's rule, also where a factor is zero. |
| `Binomials.RankInjective` | src/syzygy/syzygy.cc:577-584 | The combinatorial number system gives different sets different numbers. |
| `Binomials.RankOnto` | src/syzygy/syzygy.cc:577-584 | Every number below the coefficient is the number of a set. |
| `TableIndex.AdjustedFits` | src/syzygy/syzygy.cc:579-582 | Subtracting the skips renumbers the squares left free without gaps or collisions. |
| `TableIndex.CompleteExactly` | src/syzygy/syzygy.cc:643-659 | The loop places the leading squares and the other pawns if and only if the two positions in the header differ and leave no hole. |
| `TableIndex.SumIsValue` | src/syzygy/syzygy.cc:548-588 | Adding the groups up in piece order gives the mixed-radix number whose digits come in the order of the file. |
| `TableIndex.IndexInRange` | src/syzygy/syzygy.cc:491-589 | Every index is below the size of the table. |
| `TableIndex.IndexInjective` | src/syzygy/syzygy.cc:491-589 | Different placements have different indices, given a bounded leading number that determines the leading squares. |
| `TableEncoder.InitEncInfo` | src/syzygy/syzygy.cc:627-662 | The loops group like pieces, and each factor is the product of the radices placed before it; the result is the product of all. |
| `TableEncoder.SortRange` | src/syzygy/syzygy.cc:572-576 | The exchange sort puts the squares of a group in order and touches no other entry. |
| `TableEncoder.GroupNumber` | src/syzygy/syzygy.cc:577-584 | The loop over a sorted group yields its number after the skips. |
| `TableEncoder.Encode` | src/syzygy/syzygy.cc:550-588 | From the normalised leading squares on, sorting in place and summing gives the index of the sorted placement. |
| `TableEncoder.IndexIdentifies` | src/syzygy/syzygy.cc:491-589 | Two inputs get the same index if and only if their leading numbers agree and every group stands on the same squares, in whatever order like pieces were listed. |
| `LeadingPawns.LeadingPawn` | src/syzygy/syzygy.cc:483-488 | The pawn nearest the edge comes to the front, the rest is a permutation, and the file or rank returned picks the table of the leading square. |
| `LeadingPawns.TwistCounts` | src/syzygy/syzygy.cc:321-329 | The twist value of a leader is the number of squares on which a pawn may stand behind it. |
| `LeadingPawns.FlapOrders` | src/syzygy/syzygy.cc:311-319 | On files a to d the flap values order the squares by file and rank, or by rank and file. |
| `LeadingPawns.InitPawnIdx` | src/syzygy/syzygy.cc:404-426 | Each entry counts the placements with an earlier leading square of the same table, each factor all placements of a table. |
| `LeadingPawns.LeadBound` | src/syzygy/syzygy.cc:543-547 | The number of the leading pawns is below the factor of their table. |
| `LeadingPawns.LeadInjective` | src/syzygy/syzygy.cc:543-547 | Different leading pawns of one table have different numbers. |
| `LeadingPawns.PawnTableIndex` | src/syzygy/syzygy.cc:535-588 | Pawn tables need no assumption on the leading number: the index is below the size, and two placements of one table share an index if and only if they have the same pieces on the same squares. |
| `Huffman.CompleteIsKraft` | src/syzygy/syzygy.cc:769-776 | The completeness of the length table is Kraft's equality. |
| `Huffman.SetupBase` | src/syzygy/syzygy.cc:769-776 | Every halving of the recurrence is exact and the bases end up as the left-aligned first codewords. |
| `Huffman.DecodesWord` | src/syzygy/syzygy.cc:816-820 | A codeword followed by arbitrary bits is read as its symbol and its length. |
| `Huffman.EveryWindowDecodes` | src/syzygy/syzygy.cc:816-820 | Every window begins with the codeword the scan reports. |
| `Huffman.DecodingIsUnique` | src/syzygy/syzygy.cc:816-820 | A window begins with one codeword only. |
| `Huffman.NextSymbol` | src/syzygy/syzygy.cc:816-820 | The scan ends and its shift yields the symbol whose codeword comes first. |
| `PairsTable.NextCoded` | src/syzygy/syzygy.cc:813-829 | At any bit position of a block the 64-bit window holds the whole next codeword, and the scan over it yields the symbol written there. |
| `PawnEncoding.SortByTwist` | src/syzygy/syzygy.cc:536-542 | The exchange sort puts the pawns behind the leader in the order of falling twist and touches nothing else. |
| `PawnEncoding.NumberLeaders` | src/syzygy/syzygy.cc:543-547 | The table entry of the leader plus the binomials of the others is the number of the leading pawns. |
| `PawnEncoding.EncodePawns` | src/syzygy/syzygy.cc:491-589 | The whole pawn branch, from the left-right turn to the last group, leaves a sorted placement of the same men and returns its index. |
| `PawnEncoding.EncodePawnsInjective` | src/syzygy/syzygy.cc:491-589 | Within one table equal results mean equal positions, up to the order of like pieces and a left-right mirror. |
| `PairsTable.RulePacking` | src/syzygy/syzygy.cc:665-670 | Three bytes hold any pair of 12-bit symbol numbers. |
| `PairsTable.CalcSymLen` | src/syzygy/syzygy.cc:664-676 | Byte arithmetic included, each length is that of the expansion less one, and lengths already done stay. |
| `PairsTable.SetupSymLen` | src/syzygy/syzygy.cc:762-767 | After the loop every symbol has the length of its expansion less one, each computed once whatever order the recursion took. |
| `PairsTable.Descend` | src/syzygy/syzygy.cc:832-842 | The descent ends in the literal at the given place of the expansion. |
| `PairsTable.Seek` | src/syzygy/syzygy.cc:797-801 | Walking the block sizes either way ends in the block that holds the position, with the offset inside it. |
| `PairsTable.DecodeBlock` | src/syzygy/syzygy.cc:806-830 | The decoding loop over shifted and refilled windows finds the symbol that covers the literal sought. |
| `PairsTable.DecompressPairs` | src/syzygy/syzygy.cc:783-845 | The result is the idx-th literal of the fully expanded table, or the constant of a table without index. |
| `WdlSearch.RepairExact` | src/syzygy/syzygy.cc:1530-1547 | The better of the stored value and the tried moves is the exact value whenever the table keeps its don't-care promise. |
| `WdlSearch.StateExact` | src/syzygy/syzygy.cc:1516-1544 | Best value and table value alone decide whether a zeroing move is best. |
| `WdlSearch.Search` | src/syzygy/syzygy.cc:1500-1547 | The search terminates. It fails only if the table is missing for the position or for one that tried moves lead to; otherwise the value is exact and the state reports a zeroing best move exactly when a tried move attains the value and either it wins or nothing else was there to play. |
| `WdlChess.ProbeWdl` | src/syzygy/syzygy.cc:1557-1560 | For every table that keeps its promise, en passant ignored included, the probe returns the exact negamax value of chess; it fails only if a table is missing for the position or one that legal captures lead to. |
| `WdlChess.SearchZeroing` | src/syzygy/syzygy.cc:1500-1547 | The same at the root of a DTZ probe, where pawn moves are searched too: a zeroing best move is reported if and only if a zeroing move attains the value and it wins or there are only zeroing moves. |
| `WdlWorld.SomeWorldIsRight` | src/syzygy/syzygy.cc:1487-1498 | The assumptions of the search can be met all at once: there are a move generator, values of all sound positions that obey the rules, and a complete table that keeps its promise. |
| `WdlChess.ChessIsFair` | src/syzygy/syzygy.cc:1487-1498 | Chess with its en passant rule meets the assumptions of the search. |
| `WdlChess.CapturesCapture` | src/syzygy/syzygy.cc:1487-1498 | The moves the search tries as captures are those that take a piece, en passant included. |
| `WdlChess.SameLegalMoves` | src/syzygy/syzygy.cc:1524-1530 | Dropping the en passant right removes the en passant captures from the legal moves and nothing else. |
| `WdlChess.SoundWithoutEp` | src/syzygy/syzygy.cc:1524-1530 | The position the table knows, without the right, is itself sound. |
| `Decoder.DecodeUndoesMove` | src/neural/decoder.cc:253-360 | For every pseudolegal move that does not take a king (promotion, en passant and all Chess960 castlings included) decoding the planes after the move against those before gives that move with its kind, turned round. |
| `Decoder.DecodeCastling` | src/neural/decoder.cc:281-335 | The castling branch recognises every castling, also where king or rook already stands on its target. |
| `Decoder.TwoChanged` | src/neural/decoder.cc:44-54 | The masked difference of a plane in which one piece moved shows exactly its two squares. |
| `Decoder.MirroredPlanes` | src/neural/encoder.cc:275-288 | Turning the board turns the planes and exchanges the sides. |
| `PiecePlanes.PlanesMean` | src/neural/encoder.cc:275-288 | Each of the twelve planes shows exactly the squares on which its kind of piece stands. |
| `Canonical.Choose` | src/neural/encoder.cc:50-102 | The chain of flags gives the transform of the specification. |
| `Canonical.WhatIsTurned` | src/neural/encoder.cc:50-68 | With castling rights nothing is turned, with pawns only files are exchanged, and without rights the king ends on files e to h. |
| `Canonical.CompareTransposing` | src/neural/encoder.cc:36-48 | The comparison of the flipped and mirrored set of squares with its transposition, by the highest square in which they differ. |
| `BitBoards.CompareTransposing` | src/neural/encoder.cc:36-48 | On the 64-bit words, with the bit permutations and the comparison of numbers the program uses, the result is that of the comparison of sets. |
| `BitBoards.WordOrder` | src/neural/encoder.cc:42-47 | Words compare as numbers the way the sets they show compare, and they are equal if and only if the sets are. |
| `Canonical.Trichotomy` | src/neural/encoder.cc:42-47 | Of two sets of squares exactly one is less, or they are equal. |
| `Canonical.CanonicalPawnless` | src/neural/encoder.cc:50-102 | All eight images of a pawnless position without castling rights have one canonical form, ties included. |
| `Canonical.CanonicalWithPawns` | src/neural/encoder.cc:50-102 | With pawns on the board the left-right image has the same canonical form. |
| `Canonical.SamePlanes` | src/neural/encoder.cc:309-325 | Hence all symmetric images of a position are encoded by identical piece planes. |
| `BitBoards.SameEncodedWord` | src/neural/encoder.cc:309-325 | The 64-bit words of those planes are equal. |
| `BitBoards.FlipMoves` | src/utils/bititer.h:66-71 | The three swaps move every bit to its file-flipped square. |
| `BitBoards.MirrorMoves` | src/utils/bititer.h:73-78 | The three swaps move every bit to its rank-mirrored square. |
| `BitBoards.TransposeMoves` | src/utils/bititer.h:80-89 | The three delta swaps move every bit to its transposed square. |
| `BitBoards.ApplyShows` | src/neural/encoder.cc:314-322 | A word that shows a set of squares, permuted as the flags say, shows the transformed set. |
| `BitBoards.TransformPlanes` | src/neural/encoder.cc:309-325 | The loop over the planes applies the transform to the sets they show and leaves the constant planes alone. |
| `Rescoring.Rescorer.FirstPass` | src/trainingdata/rescorer.cc:564-608 | For given hits every frame up to the last one carries the score of the nearest hit at or after it, negated for odd distance, later frames are unchanged, and all four counters say what the specification says. |
| `RescoringPass.FirstPass` | src/trainingdata/rescorer.cc:560-611 | For every recorded game of legal moves the hits are the positions after a zeroing move, without castling rights and with few enough pieces, whose probe does not fail; a hit scores 1 exactly for value 2 and -1 exactly for value -2, so cursed wins and blessed losses are draws. Every frame gets the outcome of the next hit, result and draw field, or stays, and the counters follow. |
| `RescoringPass.FrameIsExact` | src/trainingdata/rescorer.cc:584-605 | A frame reads 1 or -1 exactly if the value of the next position probed is a win or a loss for its side to move, and 0 with a full draw field otherwise; without a next position it keeps what it had. |
| `Rescoring.NearestHitIsNearest` | src/trainingdata/rescorer.cc:579-607 | The hit a frame takes its score from is a hit, and no frame between is one. |
| `Rescoring.ChangedIsCardinality` | src/trainingdata/rescorer.cc:594-595 | The counter of rescored frames counts the frames whose result differs. |
| `Rescoring.CountsTrackFrameZero` | src/trainingdata/rescorer.cc:587-592 | The counters move to the new result of frame 0 if and only if the first hit does not confirm its own frame while frame 0 disagreed. |
| `Rescoring.AlternatingTracked` | src/trainingdata/rescorer.cc:587-592 | For initially alternating results the counters track the new result of frame 0. |
| `Rescoring.MiscountedExample` | src/trainingdata/rescorer.cc:587-592 | Two frames and one hit for which the counters miss the change of frame 0. |
| `MemCache.Computation.AddInput` | src/neural/memcache.cc:112-140 | With no other call in between, a query is answered from the cache if and only if the cached value can answer it, and then with what the wrapped backend would say; otherwise an entry is appended and the query goes on. The cache is as before. |
| `MemCache.Computation.ComputeBlocking` | src/neural/memcache.cc:142-149 | Every entry of the batch gets the reply of the wrapped backend for its own query, whatever other batches did to the cache since it was added, and the computed values are inserted in the order of the entries; nothing happens for an empty wrapped batch. |
| `MemCacheBatches.BatchIsRemembered` | src/neural/memcache.cc:142-149 | A position that was new to the cache is answered from it after its batch, as long as fewer entries than the capacity followed it. |
| `MemCacheBatches.AnswersMeans` | src/neural/memcache.cc:121-125 | A cached value can answer a query exactly if it holds policy or the query asks for none. |
| `MemCache.Backend.GetCachedEvaluation` | src/neural/memcache.cc:166-185 | An evaluation is returned if and only if the cached value can answer, and it is that of the wrapped backend, with as many policy entries as moves were passed. |
| `MemCache.Backend.Lock` | src/utils/cache.h:113-129 | A lock pins the value of the key if there is one; values, and everything known of them, stay. |
| `MemCache.Backend.Read` | src/neural/memcache.cc:122-127 | A pinned value has not been freed and agrees with the network. |
| `MemCache.Backend.Unlock` | src/utils/cache.h:133-161 | The pin is returned, and a value nobody owns any more is freed at once. |
| `MemCacheRuns.EveryReplyIsRight` | src/neural/memcache.cc:112-149 | For any number of locks and batches, of hits, evictions, resizings and clearings, interleaved in any order: every reply from the cache is what the wrapped backend would say, and a batch that is through has given each query it was handed, in order, the reply of the wrapped backend. |
| `MemCacheRuns.HeldIsStable` | src/neural/memcache.cc:116-129 | In any such run a value stays where it is and does not change as long as a lock holds it. |
| `MemCacheRuns.LocksAreConserved` | src/utils/cache.h:113-161 | The pins of a value are the locks that hold it: those at the start, plus lookups that found it, less unpins; while there is one the value is owned. |
| `MemCacheRuns.RunIsCacheRun` | src/neural/memcache.cc:112-149 | The steps drive the cache through one of its own runs, so what is proved of those holds here. |
| `MemCacheRuns.ClearingFreesAll` | src/neural/memcache.cc:73 | Without locks, clearing the cache frees every value. |
| `MemCache.AnswersDeliver` | src/neural/memcache.cc:53-58 | A cached value that passes the test has enough policy to copy and delivers the right reply. |
| `Notation.ParseUndoesWriting` | src/chess/board.cc:1150-1199 | For every pseudolegal move of every well-formed board, both colours and both castling notations, parsing the text gives the move with its kind. |
| `Notation.WritingIsInjective` | src/chess/types.h:231-241 | Hence no two moves of a position are written alike. |
| `Notation.WrittenMeans` | src/chess/types.h:231-241 | The text is the two squares in coordinates seen by White, castling as a king step to the g- or c-file, and a small letter for a promotion. |
| `Notation.NoLetterMeansKnight` | src/chess/board.cc:1170-1179 | A promotion without a letter is read as one to a knight. |
| `FenRoundTrip.ParseUndoesWriting` | src/chess/position.cc:151-157 | Parsing the text of a position restores the board, up to rook files of rights no longer held, and the fifty-move clock. |
| `FenRoundTrip.BoardTextReadsBack` | src/chess/board.cc:1227-1257 | The text of the board alone parses if and only if there is no en passant right. |
| `FenRoundTrip.CastlingRead` | src/chess/board.h:157-174 | Reading the castling field restores rights and rook files, in standard and in file letters, with the rook search from the corner. |
| `FenRoundTrip.EnPassantRead` | src/chess/board.cc:1084-1102 | The en passant field restores the flag or its absence. |
| `FenRoundTrip.IntRead` | src/chess/board.cc:1104-1112 | A 32-bit number is read back from its decimal text. |
| `FenAccepted.AcceptedFits` | src/chess/board.cc:977-1119 | Whatever text the parser accepts, the pieces stand on different squares, no pawn on a back rank, an en passant flag has its pawn behind an empty square, and rook files lie on the proper side of the king. |
| `FenAccepted.ClockAlone` | src/chess/board.cc:1104-1117 | A text that ends after the clock keeps the clock, with move number 1. |

## Left out

What the results assume:

- Cache.HashKeyedCache.Insert: requires that the value handed over is not owned by the cache yet, which is what passing a `unique_ptr` means; capacities are natural numbers, a negative one is not part of the model.
- Cache.HashKeyedCache.Unpin: requires an outstanding pin on the value, as the assertion at its end does.
- History.PositionHistory.Append: the moves of a history are pseudolegal and take no king; the starting clock is not negative (see `History.NegativeClockMissesRepetition` for the others).
- ChessBoard.ChessBoard.GenerateLegalMoves: stated for sound boards; on other well-formed boards it keeps the moves that pass the test, which `Legality.LegalityExact` describes.
- ChessBoard.ChessBoard.SetFromFen: what the fields hold after an exception is not stated.
- FenAccepted.AcceptedFits: promises no kings, no rook on a file given by its letter and no limit on pieces, because the parser asks for none of these.
- FenRoundTrip.ParseUndoesWriting: clock and ply fit 32 bits, as the program's `int` does.
- TableIndex.IndexInjective: for tables without pawns the number of the leading king or piece squares (`kKKIdx` and the three-piece formula) is a parameter, bounded and different for different squares; the mirroring of pawnless positions before it is left out.
- LeadingPawns.InitPawnIdx: `kPawnTwist` and `kFlap` are given by closed forms on the pawn squares.
- Huffman.DecodesWord: codewords have at most 32 bits, so that a 64-bit window always holds a whole one; 64 bits are readable after a block.
- PairsTable.DecompressPairs: the grammar is acyclic, symbols stand for at most 256 literals, and the sparse index is correct.
- WdlChess.ProbeWdl: the table is a function that may fail and otherwise keeps its don't-care promise; the value of a position is any function that is the best over its moves, where captures and pawn moves are worth the negated value of what follows and quiet moves whatever the fifty-move rule makes of them.
- WdlSearch.StateExact: that a failing probe leaves the state FAIL with a draw value is part of the method, not of the lemma.
- MemCache.Computation.ComputeBlocking: entries are used once; if the wrapped backend answers a query at once, its reply reaches the caller only with the batch, and not at all when the wrapped batch is empty, as in the program.
- MemCache.Computation.AddInput: says what one call does when no other call falls inside it; what holds when others do is `MemCacheRuns.EveryReplyIsRight`.
- MemCache.Backend.GetCachedEvaluation: the same for calls in between; here and everywhere in the caching backend equal hashes mean equal evaluation and legal-move list.
- RescoringPass.FirstPass: the moves of the game are legal from a sound position; all positions are probed first and the frames rewritten afterwards, while the program does both in one loop (probing reads no frame, and rewriting no position).
- Canonical.SamePlanes: piece planes only; agreement of transposed moves with transposed planes does not hold in the program, where the square transform and the bit transpose use different diagonals.

What is not modelled:

- The order in which moves are generated, and the outer table test that skips a direction group without sliders while scanning for checks.
- Spin locks: every method of the cache itself is one atomic step. Pinning, reading and unpinning, and the copying and storing of each entry of a batch, are steps of their own, between which anything else may happen. The load factor is a real number.
- The words behind most bitboards, `BitBoard::count`, bit iteration and the packed 16-bit move: sets of squares stand for them; the bit permutations of `bititer.h` and the comparison of bitboards as numbers are proved against sets.
- `code |= tmp << bit_cnt` is an addition, since the bits below are zero.
- The magic-number variant of the attack tables, and the constants of the precomputed pawn, knight and king tables.
- DTZ and DTM tables, `probe_dtz`, root probing, file names, headers and memory mapping.
- The second rescoring pass, policy substitution, deblundering and the other rescorer steps.
- Filling the history planes, the auxiliary planes, the 1858-entry move index, and `PopulateBoard`.
- Hash functions: keys are taken as given.
- Game results, mating material, search, neural network backends, options, logging and file input and output.

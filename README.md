# Words with Tigers: the turn engine in Dafny

This project models the turn engine of the Words with Tigers word game:
- the NestJS services that start a game, validate and carry out a turn, place and lock tiles, read the words a placement forms, draw tiles and decide when and how a game ends;
- the Angular client's game store and game service.

Each service becomes a Dafny module:

| module | file | what it holds |
|---|---|---|
| `Common` | common.dfy | `Option`, `Result` and one `Error` constructor per exception the services raise |
| `OrderedSet` | ordered_set.dfy | a JavaScript `Set` as a sequence of distinct values in insertion order |
| `Lobby` | lobby.dfy | the lobby's connected-player registry, a class over that set |
| `Tiles` | tiles.dfy | the 26-row letter distribution, its expansion into tiles, and the tile collection as a class |
| `Board` | board.dfy | the board as a class: the `boardState` dictionary, the per-position tile documents, the tile bag, and the word scan |
| `Moves` | moves.dfy | `MovesService.createMove`, the score, the dictionary check and the Move schema |
| `Game` | game.dfy | the game session as a class: seating, `processTurn`, turn rotation, refills, end conditions and the outcome |
| `Reducer` | reducer.dfy | the client's NgRx game reducer, as pure functions |
| `Client` | client.dfy | the client's `handleBoardUpdate` and `processTurn` |

How the code maps to Dafny:
- Code that mutates records step by step becomes class methods with `modifies` clauses: the board's fields, the game's players, moves, turn index, status and winner, and the lobby set.
- Loops stay loops with their invariants: the board-filling nested loops, the distribution expansion, the directional scan, the turn switch and the seating loop.
- Each method is proved against a function that specifies it (`Scan`, `WordsFor`, `Written`, `LockedCells`, `Expand`, `ApplyUpdates`, `ValidateTurn`, `Finalized`).
- The properties of those functions are lemmas.

Simplifications:
- Database documents are in-memory values, and ids are `nat`s.
- The `"row,col"` and `"row-col"` dictionary keys are a `Pos` pair. The string encoding is one-to-one on integer pairs.

## Model

| member | source | states |
|---|---|---|
| OrderedSet.Add | backend/src/lobby/lobby.service.ts:7-9 | `set.add`: the value is present afterwards, nothing else is added, the old order is a prefix, distinctness is kept, and adding a present value changes nothing |
| OrderedSet.Delete | backend/src/lobby/lobby.service.ts:11-13 | `set.delete`: the value is gone, every other membership is unchanged, distinctness is kept, and deleting an absent value changes nothing |
| OrderedSet.FromSeq | backend/src/game/game.service.ts:105 | `[...new Set(ids)]`: distinct, the same members as the input, and no longer than it |
| OrderedSet.DeleteAt | backend/src/lobby/lobby.service.ts:11-13 | deleting a member of a duplicate-free set removes exactly its slot and keeps the rest in order |
| OrderedSet.FromDistinct | backend/src/game/game.service.ts:105 | deduplicating an already distinct id list returns it unchanged |
| OrderedSet.FromSeqFirstOccurrence | backend/src/game/game.service.ts:105 | deduplication keeps the order of first occurrence |
| Lobby.LobbyService.constructor | backend/src/lobby/lobby.service.ts:5 | the registry starts empty |
| Lobby.LobbyService.AddPlayer | backend/src/lobby/lobby.service.ts:7-9 | the registry becomes `Add(old, id)` and stays duplicate-free |
| Lobby.LobbyService.RemovePlayer | backend/src/lobby/lobby.service.ts:11-13 | the registry becomes `Delete(old, id)` and stays duplicate-free |
| Lobby.LobbyService.GetPlayers | backend/src/lobby/lobby.service.ts:15-17 | returns the ids in insertion order, without duplicates |
| Lobby.AddThenRemove | backend/src/lobby/lobby.service.ts:7-13 | adding a player who was not registered and removing them again restores the registry |
| Tiles.Copies | backend/src/tiles/tiles.service.ts:64-70 | one table row yields `count` copies of its tile |
| Tiles.ExpandDistribution | backend/src/tiles/tiles.service.ts:62-70 | the nested push loops build exactly `Expand(d)`: each row's copies, rows in table order |
| Tiles.ExpandAppend | backend/src/tiles/tiles.service.ts:63-70 | expansion and tile count distribute over concatenation of tables |
| Tiles.ExpandLength | backend/src/tiles/tiles.service.ts:62-70 | the expansion holds as many tiles as the counts add up to |
| Tiles.ExpandBlock | backend/src/tiles/tiles.service.ts:62-70 | the copies of row `i` occupy the block that starts after the counts of the earlier rows |
| Tiles.ExpandFromRows | backend/src/tiles/tiles.service.ts:62-70 | every tile of the expansion is the tile of some row |
| Tiles.ExpandLetterCount | backend/src/tiles/tiles.service.ts:32-70 | with distinct letters, each row's letter occurs exactly `count` times in the bag |
| Tiles.ExpandNoLetter | backend/src/tiles/tiles.service.ts:32-70 | a letter absent from the table does not occur in the bag |
| Tiles.DistributionShape | backend/src/tiles/tiles.service.ts:32-59 | the table has 26 rows with distinct upper-case letters worth 1 to 10 points, from E (13 copies) to Z |
| Tiles.DistributionTotal | backend/src/tiles/tiles.service.ts:32-70 | the table describes 102 tiles, and the inserted bag holds all 102 |
| Tiles.TileStore.constructor | backend/src/tiles/tiles.service.ts:8 | the collection starts empty |
| Tiles.TileStore.CreateTile | backend/src/tiles/tiles.service.ts:10-13 | the new tile is stored under a fresh id, and every other document is kept |
| Tiles.TileStore.GetTileById | backend/src/tiles/tiles.service.ts:15-21 | returns the stored tile, or "Tile not found" exactly when the id is absent |
| Tiles.TileStore.ResetTileBag | backend/src/tiles/tiles.service.ts:27-75 | after the reset the collection holds exactly the expanded distribution, in order, under consecutive fresh ids |
| Tiles.TileStore.ResetFrom | backend/src/tiles/tiles.service.ts:27-75 | for any table, the collection afterwards holds exactly its expansion under consecutive fresh ids |
| Tiles.TileStore.InsertMany | backend/src/tiles/tiles.service.ts:72 | the emptied collection holds exactly the inserted tiles, in order |
| Board.RunFromShape | backend/src/board/board.service.ts:160-171 | the forward run is the maximal block of consecutive locked cells from the start, with matching letters and tile ids |
| Board.RunStartShape | backend/src/board/board.service.ts:145-158 | the backward walk stops one step past the last locked cell behind the start, and every cell in between is locked |
| Board.ScanShape | backend/src/board/board.service.ts:122-174 | a scan returns consecutive locked cells on the line through the start, with letters and ids matching the squares; the run cannot be extended at either end; it covers the start exactly when the start is locked; it is empty exactly when neither the start nor the next square is locked |
| Board.WordsForShape | backend/src/board/board.service.ts:176-201 | at most two words per placed tile; each is longer than one letter, is the scan through some placed position, and is made only of locked cells |
| Board.WordsForAppend | backend/src/board/board.service.ts:182-198 | the words of two batches of placements are each batch's words, in order |
| Board.WordsSkipUnlocked | backend/src/board/board.service.ts:148-171 | a position that is not a locked cell is in no word |
| Board.GridSize | backend/src/board/board.service.ts:53-57 | an `n` by `n` board has exactly `n * n` positions |
| Board.ApplyUpdatesUnlisted | backend/src/board/board.service.ts:100-114 | a position that no update names keeps its square, or stays absent |
| Board.ApplyUpdatesLast | backend/src/board/board.service.ts:100-114 | a position holds what the last update naming it wrote: `null` without a tile id, otherwise the tile's letter |
| Board.WrittenCells | backend/src/board/board.service.ts:207-221 | after placement, each written position holds the last tile written there, unlocked; unlisted positions are kept |
| Board.WrittenHasPlaced | backend/src/board/board.service.ts:216-220 | every placed position has a document after the upserts |
| Board.PlacementKeepsLocked | backend/src/board/board.service.ts:209-214 | a placement that succeeds never overwrites a locked document |
| Board.WrittenUnlisted | backend/src/board/board.service.ts:216-220 | positions no placed tile names keep their documents |
| Board.LockedCells | backend/src/board/board.service.ts:229-240 | `updateMany` creates no document: the locked documents sit at exactly the old positions |
| Board.LockedCellsKeep | backend/src/board/board.service.ts:229-240 | locking keeps each document's letter and id; a document is locked afterwards exactly when it was locked before or its position is listed |
| Board.FoundIds | backend/src/board/board.service.ts:41-43 | the ids `$in` matches: distinct, no more than were requested, and exactly the requested ids that have a document |
| Board.TilesFromIds | backend/src/board/board.service.ts:41-43 | one tile per matched id, so never more tiles than ids, each the document stored under its id |
| Board.TilesFromIdsMembers | backend/src/board/board.service.ts:41-43 | every requested id that has a document contributes that document, and every returned document was requested |
| Board.TilesFromIdsRepeated | backend/src/board/board.service.ts:41-43 | an id requested twice yields its document once |
| Board.Clearing | backend/src/board/board.service.ts:223-226 | the entries `placeTiles` hands on: the placed positions, each without a tile id |
| Board.Board.InitializeBoard | backend/src/board/board.service.ts:45-87 | the grid has exactly the `size` by `size` positions, every square `null`; the bag is the expansion of the E/A/I table; there are no tile documents |
| Board.Board.GetTileId | backend/src/board/board.service.ts:18-39 | returns the document's id when a document is at the position and the requested letter (if any) matches. Otherwise it raises "no tile found" for a missing document and "mismatch" for a wrong letter |
| Board.Board.UpdateBoardState | backend/src/board/board.service.ts:89-120 | succeeds exactly when every named tile exists; then the dictionary is the updates applied in order; otherwise it is unchanged |
| Board.Board.WordFromDirection | backend/src/board/board.service.ts:122-174 | the two while loops compute exactly `Scan` |
| Board.WalkBack | backend/src/board/board.service.ts:145-158 | the backward walk stops where `RunStart` says the word begins |
| Board.CollectRun | backend/src/board/board.service.ts:160-171 | the forward walk collects exactly `RunFrom` the start: each locked cell's letter and tile, in order |
| Board.Board.GenerateWords | backend/src/board/board.service.ts:176-201 | the loop computes exactly `WordsFor` |
| Board.Board.PlaceTiles | backend/src/board/board.service.ts:203-227 | succeeds exactly when no tile lands on a locked document. On success all tiles are written unlocked and their squares cleared. On refusal: the first blocked tile is reported, the tiles before it stay written, and the dictionary is untouched |
| Board.Board.LockTiles | backend/src/board/board.service.ts:229-240 | the documents become `LockedCells(old, positions)` |
| Board.Board.DrawTiles | backend/src/board/board.service.ts:242-268 | refuses exactly when the bag holds fewer than `count`; otherwise it draws `count` tiles, and drawn tiles plus the remaining bag are the old bag as a multiset |
| Moves.ParseMoveType | backend/src/moves/moves.service.ts:39-77 | PLACE, PASS and RESIGN each map to their move type, and every other string to none |
| Moves.WithDefaults | backend/src/moves/schemas/move.schema.ts:17-40 | a move built from required fields only has `word` and `score` null and no tiles, which passes the validator for PASS and RESIGN |
| Moves.LookUp | backend/src/moves/moves.service.ts:106 | the looked-up tiles, one per id, in order |
| Moves.CalculateScore | backend/src/moves/moves.service.ts:105-108 | read as lookups in the tile collection: succeeds exactly when every id is stored, and then is the sum of the tiles' point values. Otherwise it fails with the id of a missing tile |
| Moves.ScoreAsWritten | backend/src/moves/moves.service.ts:105-108 | as written, the call to an undefined `getTileById` fails for every non-empty id list; only the empty list scores, and it scores 0 |
| Moves.SumPointsAppend | backend/src/moves/moves.service.ts:107 | the sum over two batches is the sum of the two sums |
| Moves.SumPointsAtLeastCount | backend/src/moves/moves.service.ts:107 | tiles worth at least one point each sum to at least their number |
| Moves.CreateMove | backend/src/moves/moves.service.ts:18-86 | a missing game or player fails with the not-found error that `findById` or `getPlayer` throws; then the turn, move type, word and tiles, dictionary and score guards fail in source order, each with its own error, and a failing score call passes its error on. Acceptance is an if-and-only-if for each move type. The move number is the move count plus one, the stored fields are those of the request, and the result satisfies the tiles validator |
| Moves.ConsecutiveNumbers | backend/src/moves/moves.service.ts:60-73 | two moves accepted in sequence get consecutive move numbers |
| Moves.PlaceAcceptedWhenScored | backend/src/moves/moves.service.ts:39-61 | with the score read as collection lookups, a PLACE move is accepted when it has a non-empty word, tiles that are all stored and all worth at least a point, and an accepted word |
| Moves.PlaceRefusedAsWritten | backend/src/moves/moves.service.ts:39-51 | with the scoring call as written, every PLACE move is refused; once the earlier guards pass, the error is the undefined method's |
| Game.Ids | backend/src/game/game.service.ts:314-316 | the user ids of the player records, in order |
| Game.FindPlayer | backend/src/game/game.service.ts:314-316 | `find` returns the first record with the id, or none exactly when no record has it |
| Game.FindDistinct | backend/src/game/game.service.ts:314-316 | with distinct ids, a record is found at its own index |
| Game.TilesInWord | backend/src/game/game.service.ts:242 | the filter keeps exactly the tiles whose letter occurs in the word |
| Game.TilesInWordAppend | backend/src/game/game.service.ts:242 | the filter keeps order: filtering two batches gives the two filters concatenated |
| Game.WordTiles | backend/src/game/game.service.ts:235-246 | one entry per word, holding the tiles whose letter occurs in it |
| Game.TopScore | backend/src/game/game.service.ts:461-463 | the head of the descending sort holds the maximum score |
| Game.TopWinners | backend/src/game/game.service.ts:503-511 | the top-score filter holds exactly one record exactly when one player strictly outscores the rest, and then it holds that player |
| Game.Finalized | backend/src/game/game.service.ts:452-527 | RESIGNATION exactly when the newest move is a resignation, with the winner the unique top scorer if there is one, else the previous winner. Otherwise NATURAL_WINNER exactly when one player strictly leads, and that player wins; TIE leaves no winner and at least two players share the top score |
| Game.EqualScoresTie | backend/src/game/game.service.ts:503-517 | when all scores are equal, a game not ended by resignation is a tie with no winner |
| Game.LastMoves | backend/src/game/game.service.ts:425-428 | the newest `n` moves, newest first |
| Game.OpeningPassEnds | backend/src/game/game.service.ts:425-432 | a PASS as the first move already meets the pass rule, because the window of the last `players.length` moves holds only that PASS; with level scores the game then ends in a tie with no winner |
| Game.PassWindow | backend/src/game/game.service.ts:425-432 | the pass rule holds exactly when every move in the last `n` is a PASS |
| Game.NewestMoveType | backend/src/game/game.service.ts:495-499 | `lastMoves[0]?.moveType` is the newest move's type, and none when there are no moves |
| Game.ValidateTurn | backend/src/game/game.service.ts:309-349 | the pre-checks of `processTurn` with their errors in source order (status, membership, turn, tiles, centre square). It succeeds exactly when all pass, and then returns the caller's index |
| Game.OnlyCreatorMovesFirst | backend/src/game/game.service.ts:314-320 | when exactly the creator's records are active, a PASS or RESIGN is accepted exactly from the creator |
| Game.WithTileIds | backend/src/game/game.service.ts:352-362 | all placements get their tile id, in order, exactly when each lookup succeeds; a failure reports one failing lookup's error |
| Game.EmptyBoardRefusesPlacement | backend/src/board/board.service.ts:18-30 | on a board with no tile documents, as a new game has, the id lookup of any non-empty placement list fails with "no tile found" at its first placement |
| Game.CreateGameMove | backend/src/game/game.service.ts:248-292 | an unknown move type is refused; a PLACE move carries its words, tiles and word-tile map; a PASS or RESIGN move carries none |
| Game.SameRacks | backend/src/game/game.service.ts:419-443 | the end conditions depend only on the number of players and their racks |
| Game.GameSession.constructor | backend/src/game/game.service.ts:113 | a new game is WAITING, with no players, no moves, turn index 0 and no winner |
| Game.GameSession.IsGameEnded | backend/src/game/game.service.ts:169-173 | ended exactly when the status is not IN_PROGRESS |
| Game.GameSession.MarkPlayerDisconnected | backend/src/game/game.service.ts:149-167 | fails exactly when the player is unknown; otherwise only that player's `isConnected` becomes false |
| Game.GameSession.SwitchTurns | backend/src/game/game.service.ts:175-203 | fails with no players. Otherwise the index advances by one modulo the number of players, exactly the player at the new index is active, and nothing else changes |
| Game.GameSession.AllocateTiles | backend/src/game/game.service.ts:205-233 | succeeds exactly when the bag suffices, the player exists and the rack stays at most 7. On success the tiles move from the bag onto that rack (multiset conserved); a refusal after the draw still empties the drawn tiles from the bag |
| Game.GameSession.FinalizeGame | backend/src/game/game.service.ts:480-527 | fails exactly when there are no players; otherwise the status is FINISHED and reason and winner are `Finalized` of the players and the newest move |
| Game.GameSession.CheckEndConditions | backend/src/game/game.service.ts:419-443 | finalizes exactly when the last `players.length` moves are all PASS or the bag and all racks are empty; otherwise it changes nothing |
| Game.GameSession.PlaceAndRead | backend/src/game/game.service.ts:351-371 | a failed id lookup changes nothing. A tile on a locked document stops the placement: the tiles before it stay written, the dictionary is untouched and that cell's error is returned. Otherwise the documents are `Written`, the placed squares cleared, and the words are `WordsFor` the placed positions |
| Game.GameSession.SeatAndDeal | backend/src/game/game.service.ts:123-133 | appends the record, active exactly for the creator, and deals it seven tiles from the bag; this fails exactly when the bag holds fewer than seven |
| Game.GameSession.SeatPlayers | backend/src/game/game.service.ts:123-133 | seats the distinct ids in order, each with seven tiles, active exactly for the creator; the racks and the bag together are the old bag; fails exactly when the bag cannot deal seven to every player |
| Game.AfterRefillShape | backend/src/game/game.service.ts:407-415 | after a refill only the `isActive` flags change. The game finishes exactly when the end conditions hold, with the winner `Finalized` gives and the turn index kept; otherwise it stays in progress with the winner kept, the index advanced by one modulo the number of players, and exactly the player at that index active |
| Game.AfterRefillRecords | backend/src/game/game.service.ts:401-415 | after an accepted PLACE or PASS every record keeps its id, score and connection flag, every other record keeps its rack, and the caller's rack has grown by exactly the drawn tiles |
| Game.GameSession.Refill | backend/src/game/game.service.ts:401-406 | refuses with NotEnoughTiles exactly when the bag holds fewer tiles than the rack lacks, leaving the records and the bag as they were. Otherwise it tops the caller's rack up to seven (nothing when it is full), changes no other record, and the drawn tiles plus the new bag are exactly the old bag |
| Game.GameSession.EndOrSwitch | backend/src/game/game.service.ts:408-415 | players, status, winner and turn index become `AfterRefill` of their old values: the game finishes, with the finalised winner, exactly when the end conditions hold, and otherwise the turn passes on |
| Game.GameSession.CompleteTurn | backend/src/game/game.service.ts:395-416 | locks the listed positions in every outcome and leaves the moves and the dictionary alone. When the bag is short it returns NotEnoughTiles with players, status, winner, turn index and bag unchanged. Otherwise the drawn tiles plus the new bag are the old bag, and the new players, status, winner and turn index are `AfterRefill` of the old ones with the caller's rack grown by the drawn tiles |
| Game.GameSession.RecordPlacement | backend/src/game/game.service.ts:351-388 | a failed id lookup changes nothing; a locked target cell leaves the earlier tiles written and records no move. Otherwise the documents are `Written`, the placed squares cleared, and one move is recorded holding the words read through the placements and the fetched tile documents. Players, status, winner, turn index and bag are untouched |
| Game.GameSession.PlaceTurn | backend/src/game/game.service.ts:326-416 | a failed id lookup changes nothing; a locked target cell leaves the earlier tiles written and no move recorded. Otherwise the move is recorded with the words read through the placements and the fetched tile documents, and the placed cells end written and locked, also when the refill then fails with NotEnoughTiles (players, status, winner, turn index and bag unchanged). On success the drawn tiles plus the new bag are the old bag, and players, status, winner and turn index are `AfterRefill` of the old ones with the caller's rack grown by the drawn tiles |
| Game.GameSession.PassTurn | backend/src/game/game.service.ts:373-416 | the PASS move is always recorded first; without a tile list the turn then fails with the board untouched. Otherwise the listed positions end locked and the dictionary is untouched, also when the refill then fails with NotEnoughTiles (players, status, winner, turn index and bag unchanged). On success the drawn tiles plus the new bag are the old bag, and players, status, winner and turn index are `AfterRefill` of the old ones with the caller's rack grown by the drawn tiles |
| Game.GameSession.ResignTurn | backend/src/game/game.service.ts:373-393 | records the RESIGN move, draws nothing and finishes the game with the outcome of `Finalized` |
| Game.GameSession.PlayTurn | backend/src/game/game.service.ts:326-416 | for a known move type after the pre-checks, routes the turn to the PLACE, PASS or RESIGN branch and states each branch's whole outcome: the board and moves of PLACE and PASS, including a refill that fails with NotEnoughTiles after the move is recorded and the cells locked; for RESIGN, `Finish` of the old state with the bag and board untouched; for PLACE and PASS, bag conservation and `AfterRefill` with the caller found by `FindPlayer` |
| Game.GameSession.ProcessTurn | backend/src/game/game.service.ts:294-417 | a turn refused by the pre-checks or for an unknown move type changes nothing. A PLACE whose id lookup fails changes nothing; one that hits a locked cell records no move and leaves the tiles before it written. A PASS without a tile list records its move and then fails. Otherwise one move is recorded; a PLACE move carries the words read through its placements and the fetched tile documents, and its cells end written and locked; a PASS locks its listed cells and leaves the dictionary alone. If the refill then finds the bag short, the turn fails with NotEnoughTiles, the move stays recorded, the cells stay locked, and players, status, winner, turn index and bag are unchanged. RESIGN finishes the game as `Finish` does, with the finalised winner, drawing nothing. An accepted PLACE or PASS conserves the bag and leaves players, status, winner and turn index as `AfterRefill` of the old ones with the caller's rack grown by the drawn tiles: every other record keeps its rack, score and connection, and the game finishes exactly when the end conditions hold, or else the turn passes to the next player alone |
| Game.BoardBagSize | backend/src/board/board.service.ts:60-72 | a new board's bag holds 30 tiles |
| Game.InitializeGame | backend/src/game/game.service.ts:103-140 | refuses fewer than two distinct ids, and fails when the 30-tile bag cannot deal seven to each. Otherwise the game is IN_PROGRESS with the deduplicated players in order, seven tiles each, only the creator active, and the racks plus the bag equal to the board's initial bag |
| Game.UnlinkedPlayersRefuseEveryTurn | backend/src/game/game.service.ts:123-133 | with no player records linked to the game, every turn is refused as coming from a player outside the game |
| Game.LinkedCreatorMovesFirst | backend/src/game/game.service.ts:314-320 | with the players linked as seated, the first PASS or RESIGN is accepted exactly from the creator |
| Reducer.InitialStateEmpty | frontend/src/app/store/reducers/game.reducer.ts:11-19 | the initial state has an empty board, no players, tiles or moves, null ids, and is not in progress |
| Reducer.Merge | frontend/src/app/store/reducers/game.reducer.ts:29-32 | the spread never touches status, winner or error; the moves are the patch's when supplied, otherwise the old ones |
| Reducer.MergeLaws | frontend/src/app/store/reducers/game.reducer.ts:29-32 | an empty patch is the identity; a patch is idempotent; two patches compose into one; a whole state as a patch replaces every interface field |
| Reducer.MergeOnlySupplied | frontend/src/app/store/reducers/game.reducer.ts:29-32 | each interface field takes the patch's value when supplied and keeps its old value otherwise |
| Reducer.Reduce | frontend/src/app/store/reducers/game.reducer.ts:21-46 | initializeGame sets id, players and IN_PROGRESS status and nothing else. playerMove appends one move. endGame returns the final state with status ENDED and the winner. gameError sets only the error. An unhandled action leaves the state alone |
| Reducer.ReduceLaws | frontend/src/app/store/reducers/game.reducer.ts:23-45 | endGame ignores the prior state; gameError and initializeGame are idempotent |
| Reducer.ReduceAllAppend | frontend/src/app/store/reducers/game.reducer.ts:21-46 | dispatching two batches of actions is dispatching the first, then the second |
| Reducer.EndGameLastWins | frontend/src/app/store/reducers/game.reducer.ts:37-41 | whatever came before, a final endGame leaves exactly its final state, ENDED, with the winner |
| Reducer.MovesAppendOnly | frontend/src/app/store/reducers/game.reducer.ts:29-36 | while no action replaces the moves, the log grows by exactly the dispatched moves, in order |
| Client.KeyTiles | frontend/src/app/services/game.service.ts:136-139 | the keys are exactly the update tiles' positions; each entry is one of the tiles, under its own position |
| Client.KeyTilesLastWins | frontend/src/app/services/game.service.ts:136-139 | the entry at a position is the last tile sent for it |
| Client.StripAll | frontend/src/app/services/game.service.ts:144-148 | the move's tiles are the update's tiles reduced to row, column and letter, in order |
| Client.BoardUpdated | frontend/src/app/services/game.service.ts:134-154 | the board holds exactly the update's tiles and drops the old entries. One PLACE move is appended with the update's score and tiles; its words default to empty. All other fields are kept |
| Client.SecondUpdateReplacesBoard | frontend/src/app/services/game.service.ts:131-157 | after two updates the board is the second one's alone, and both moves are logged in arrival order |
| Client.Route | frontend/src/app/services/game.service.ts:119-126 | nothing is emitted exactly for a PLACE without a tile list (an empty list still counts). Otherwise the event's move type is the requested one, and the payload carries the ids and the tiles as given |
| Client.RouteSeparatesTypes | frontend/src/app/services/game.service.ts:120-126 | two routed moves share an event exactly when their move types are equal |
| Client.GameClient.constructor | frontend/src/app/services/game.service.ts:18-22 | the service starts with no game state and nothing emitted |
| Client.GameClient.SetGameState | frontend/src/app/services/game.service.ts:40-42 | the held state becomes the given one |
| Client.GameClient.HandleBoardUpdate | frontend/src/app/services/game.service.ts:131-157 | no state means no change; otherwise the held state becomes `BoardUpdated` |
| Client.GameClient.ProcessTurn | frontend/src/app/services/game.service.ts:112-128 | without a socket nothing is emitted; otherwise exactly the routed event, if any, is appended to what was sent |

## Left out

- Persistence: MongoDB queries, `save`, `populate`, transactions and `deleteGame`/`deleteBoard`. Documents are in-memory values. A failed call that left partial documents behind leaves the same partial state in the model, with one exception below (Game.InitializeGame).
- Game.InitializeGame: when dealing fails, the source keeps the WAITING game, its board and the players dealt so far (game.service.ts:113-131). The model returns the error and drops that session, so its contract says nothing about those leftovers.
- `GameService.findById`, `getPlayer`, `getPlayers`, `getGameState`, `getGameMoves`, `addMove`, `endGame` and `MovesService.getMovesByGame`/`getMovesByPlayer`: lookups and storage plumbing. The game holds its players and moves directly, and `FinalizeGame` sets the FINISHED status itself.
- The socket gateways, HTTP controllers, `connectToGame`, `disconnectFromGame`, `onReconnect`, and the client's HTTP calls: transport. The client's socket is a constructor flag, and emitted events are a log.
- The clock: timestamps are left out in the backend and passed as a parameter to `Client.BoardUpdated`.
- Board.Board.DrawTiles: `Math.random()` is not modelled. The method may take any remaining tile at each step, so its contract states the count and multiset conservation, not which tiles.
- Moves.CreateMove: the dictionary service is a function parameter returning the HTTP answer (status and entries) or a failure. The network itself is not modelled.
- `MovesService.placeMove`, `passOrResignMove` and `getMoves`, which `GameService` calls, are not defined in the source. `Game.CreateGameMove` records the move it is handed, and `Game.LastMoves` reads the game's own move list.
- Game.GameSession.ProcessTurn:
  - the `isGameEnded` test right after locking (game.service.ts:399) is not modelled: nothing between the status check and that test changes the status;
  - `lockTiles(board, tiles)` on a PASS without a tile list throws when it maps over `undefined`, and the model returns `TileListMissing`;
  - an empty position list is taken to lock nothing, where MongoDB refuses an empty `$or`.
- Game.GameSession.ProcessTurn: player scores are never updated, as in the source. The end-of-game outcome compares the stored scores.
- Game.Finalized: the source stores the winning GamePlayer record's `_id` as the game's winner (backend/src/game/game.service.ts:473, 512). The model names the winner by that record's `userId`, which is one-to-one with the records of a game.
- Game.GameSession.ProcessTurn: `Promise.all` over the tile-id lookups fails with one failing lookup's error. Which one is a race in the source, so the contract only says it is one of them.
- Board.TilesFromIds: `$in` returns documents in collection order, not id order. The model keeps the order of first request and states membership, once-per-id and length, not the order.
- Board.TilesFromIds: in the source, `getTilesFromIds` reads the same tile documents, by the `_id`s that `getTileId` returned, and each carries a required `pointValue` (backend/src/board/schemas/tile.schema.ts:12-13). The model's `Cell` keeps only letter, lock and id, and the upsert in `placeTiles` (backend/src/board/board.service.ts:216-220) writes no point value. So the fetched documents are a separate map, `tileDocs`, passed to `ProcessTurn`, and nothing ties it to the ids in the cells. This is a modelling choice.
- Moves.CalculateScore: `boardService.getTileById` is not defined, so the model reads the call as the tile collection's `getTileById` (tiles.service.ts:15-21), a lookup in a map. The code as written is `Moves.ScoreAsWritten` (see Findings).
- Game.GameSession: the turn index is taken to start at 0; the game schema declares no `currentTurnIndex` field.
- `generateWords` returns `{word, tiles}` objects where a `string[]` is declared. The model hands only the word strings to move creation. In the source those objects reach `generateWordTiles`, whose `word.includes(tile.letter)` (backend/src/game/game.service.ts:242) would throw a TypeError as soon as a word and a tile exist. No reachable board produces a word (see the next line), so that throw never happens; on boards with words, the model behaves as if the strings had been passed.
- The board's `boardState` and the per-position tile documents are kept as two separate stores, as in the source. No operation writes a cell record with `isLocked` into `boardState`: `initializeBoard` writes `null`, `updateBoardState` writes `null` or a bare letter, and `placeTiles` resets the placed squares to `null`. So on boards these operations build, the scan finds no word. The scan's contracts and lemmas hold for any dictionary contents. The tile documents start empty (`InitializeGame` ensures `cells == map[]`), and only `placeTiles` creates them, after the `getTileId` lookups have succeeded. So on a game built by `initializeGame` every PLACE fails with "no tile found" (`Game.EmptyBoardRefusesPlacement`). The `processTurn` contracts still cover boards whose documents exist.
- Letters: the backend declares them as `string` (backend/src/board/schemas/tile.schema.ts:9, backend/src/game/game.service.ts:298), and so does the client store. The backend model narrows each letter to one `char`, so multi-character and empty letters cannot be written there. The client model keeps `string`.
- Game.WithTileIds: `getTileId` skips the letter comparison when the requested letter is falsy (backend/src/board/board.service.ts:32), so a placement with an empty letter takes any tile at its square. The model always passes the placement's letter as `Some(...)` and does not model that case. `Board.Board.GetTileId` itself does model an absent letter (`None` skips the check).
- Reducer.Merge: a patch field present with the value `undefined` would overwrite with `undefined`. Patches here either supply a value or omit the field.

## Findings

| source | as written | input that shows it | evidently intended | confidence | as-written member | corrected member |
|---|---|---|---|---|---|---|
| backend/src/moves/moves.service.ts:105-108 | `calculateScore` calls `this.boardService.getTileById`, which BoardService does not define: each call throws a TypeError, so the score promise rejects | any PLACE request with a word, a non-empty tile list and a word the dictionary accepts: `createMove` fails instead of scoring, so no PLACE move is ever created | the ids are looked up in the tile collection (`TilesService.getTileById`) and their point values summed | not executed | Moves.ScoreAsWritten, Moves.PlaceRefusedAsWritten | Moves.CalculateScore, Moves.PlaceAcceptedWhenScored |
| backend/src/game/game.service.ts:123-133 | `initializeGame` creates a GamePlayer document per id but never adds it to `game.players`, which `processTurn` searches (line 314) | any started game, then `processTurn` from the creator: the player list is empty, so the turn fails with "Player not part of this game" | the seated players are linked into the game, so the creator can take the first turn | not executed | Game.UnlinkedPlayersRefuseEveryTurn | Game.InitializeGame, Game.LinkedCreatorMovesFirst |

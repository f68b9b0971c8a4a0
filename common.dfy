/** Values shared by every part of the turn engine: optional values, results
    of operations that can be refused, and the errors the services raise. */
module Common {

  datatype Option<T> = None | Some(value: T)

  /** The outcome of a service call that may throw: either its value or the
      error it raises. */
  datatype Result<T> = Ok(value: T) | Err(error: Error)

  type TileId = nat
  type UserId = string

  /** The exceptions raised by the services, one constructor per distinct
      message in the source. */
  datatype Error =
    // game.service.ts
    | TooFewPlayers              // fewer than two distinct player ids
    | GameAlreadyEnded           // processTurn on a game that is not IN_PROGRESS
    | PlayerNotInGame            // the caller has no player record in the game
    | NotYourTurn                // the caller's record is not active
    | TilesRequired              // PLACE without tiles
    | StartTileNotCovered        // first PLACE missing the centre cell
    | PlayerNotFound             // getPlayer, allocateTiles, markPlayerDisconnected: no such record
    | RackExceeded               // more than seven tiles on a rack
    | NoPlayers                  // switchTurns / finalizeGame with no players
    | WordsAndTilesRequired      // GameService.createMove PLACE without words or tiles
    | InvalidMoveType            // a move type other than PLACE, PASS, RESIGN
    | TileListMissing            // lockTiles maps over a tile list the request left out
    // board.service.ts
    | NoTileAt(row: int, col: int)         // getTileId: no tile document at the position
    | LetterMismatch(row: int, col: int)   // getTileId: the stored letter differs
    | CellLocked(row: int, col: int)       // placeTiles onto a locked position
    | NotEnoughTiles                       // drawTiles asks for more than the bag holds
    | TileNotFound(id: TileId)             // a tile id absent from the tile collection
    // moves.service.ts
    | GameNotFound               // findById: no game document with the given id
    | MethodUndefined            // calculateScore calls a getTileById that BoardService does not define
    | WordAndTilesRequired       // MovesService.createMove PLACE without word or tiles
    | InvalidWord                // the dictionary rejected the word
    | ScoreCalculationFailed     // the tiles sum to a zero score
    | ContentNotAllowed          // PASS or RESIGN carrying a word or tiles
}

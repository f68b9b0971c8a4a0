/** The game aggregate: seating players, the turn state machine, turn
    rotation, rack refills, the end conditions and the final outcome. The game
    record, its player records and its moves are held in memory. */
module Game {
  import opened Common
  import opened Tiles
  import opened OrderedSet
  import opened Board
  import opened Moves

  datatype Status = Waiting | InProgress | Finished | Abandoned

  datatype EndReason = NaturalWinner | Tie | Resignation

  /** The most tiles a rack may hold, and the size a refill tops it up to. */
  const RackSize: int := 7

  /** A player record of one game; the model identifies it by its user id. */
  datatype PlayerRecord = PlayerRecord(userId: UserId, score: int, rack: seq<Tile>, isActive: bool, isConnected: bool)

  /** A move as the game records it: what is handed to the move service for
      recording (the move type, the number of moves before it, the words and
      tiles of a PLACE move and the tiles of each word). */
  datatype GameMove = GameMove(
    playerId: UserId,
    moveType: MoveType,
    moveCount: nat,
    words: seq<string>,
    tiles: seq<Tile>,
    wordTiles: map<string, seq<Tile>>)

  datatype TurnResult = TurnResult(move: GameMove, tilesDrawn: seq<Tile>)

  /** The final outcome: why the game ended and the winner left on the record. */
  datatype Outcome = Outcome(reason: EndReason, winner: Option<UserId>)

  function Ids(players: seq<PlayerRecord>): (r: seq<UserId>)
    ensures |r| == |players|
    ensures forall i :: 0 <= i < |players| ==> r[i] == players[i].userId
  {
    seq(|players|, i requires 0 <= i < |players| => players[i].userId)
  }

  /** `players.find(p => p.userId === id)`: the first record with that user id. */
  function FindPlayer(players: seq<PlayerRecord>, id: UserId): (r: Option<nat>)
    ensures r.None? <==> forall i :: 0 <= i < |players| ==> players[i].userId != id
    ensures r.Some? ==> r.value < |players| && players[r.value].userId == id
    ensures r.Some? ==> forall j :: 0 <= j < r.value ==> players[j].userId != id
  {
    if players == [] then None
    else if players[0].userId == id then Some(0)
    else
      match FindPlayer(players[1..], id)
      case None =>
        assert forall i :: 1 <= i < |players| ==> players[i] == players[1..][i - 1];
        None
      case Some(k) =>
        assert forall j :: 1 <= j <= k ==> players[j] == players[1..][j - 1];
        Some(k + 1)
  }

  /** With distinct user ids, two records of the same user are one record. */
  lemma SameUser(players: seq<PlayerRecord>, i: nat, j: nat)
    requires Distinct(Ids(players)) && i < |players| && j < |players|
    requires players[i].userId == players[j].userId
    ensures i == j
  {
    var ids := Ids(players);
    assert ids[i] == ids[j];
    SameAt(ids, i, j);
  }

  /** With distinct user ids, a record is found exactly at its own index. */
  lemma FindDistinct(players: seq<PlayerRecord>, i: nat)
    requires Distinct(Ids(players)) && i < |players|
    ensures FindPlayer(players, players[i].userId) == Some(i)
  {
    var r := FindPlayer(players, players[i].userId);
    assert r.Some?;
    var k := r.value;
    assert !(i < k);
    SameUser(players, k, i);
  }

  // ---------------------------------------------------------------------
  // generateWordTiles

  /** The `filter` of `generateWordTiles`: the tiles whose letter occurs in
      the word, in their original order. */
  function TilesInWord(tiles: seq<Tile>, word: string): (r: seq<Tile>)
    ensures |r| <= |tiles|
    ensures forall t :: t in r ==> t in tiles && t.letter in word
    ensures forall i :: 0 <= i < |tiles| && tiles[i].letter in word ==> tiles[i] in r
  {
    if tiles == [] then []
    else
      var rest := TilesInWord(tiles[1..], word);
      assert forall i :: 1 <= i < |tiles| ==> tiles[i] == tiles[1..][i - 1];
      (if tiles[0].letter in word then [tiles[0]] else []) + rest
  }

  /** The filter keeps the order of the tiles: filtering two batches is
      filtering each and concatenating. */
  lemma {:induction false} TilesInWordAppend(a: seq<Tile>, b: seq<Tile>, word: string)
    ensures TilesInWord(a + b, word) == TilesInWord(a, word) + TilesInWord(b, word)
  {
    if a == [] {
      assert a + b == b;
    } else {
      assert (a + b)[0] == a[0] && (a + b)[1..] == a[1..] + b;
      TilesInWordAppend(a[1..], b, word);
    }
  }

  /** `generateWordTiles`: each word maps to the tiles whose letter occurs in it. */
  function WordTiles(words: seq<string>, tiles: seq<Tile>): (r: map<string, seq<Tile>>)
    ensures forall w :: w in r <==> w in words
    ensures forall w :: w in r ==> r[w] == TilesInWord(tiles, w)
  {
    map w | w in words :: TilesInWord(tiles, w)
  }

  // ---------------------------------------------------------------------
  // Winner selection

  function TopScore(players: seq<PlayerRecord>): (top: int)
    requires |players| > 0
    ensures forall i :: 0 <= i < |players| ==> players[i].score <= top
    ensures exists i :: 0 <= i < |players| && players[i].score == top
  {
    if |players| == 1 then players[0].score
    else
      var rest := TopScore(players[1..]);
      assert forall i :: 1 <= i < |players| ==> players[i] == players[1..][i - 1];
      if players[0].score >= rest then players[0].score else rest
  }

  /** The `filter` by score: the records with the given score, in order. */
  function AtScore(players: seq<PlayerRecord>, score: int): (r: seq<PlayerRecord>)
    ensures forall p :: p in r ==> p in players && p.score == score
  {
    if players == [] then []
    else (if players[0].score == score then [players[0]] else []) + AtScore(players[1..], score)
  }

  /** Player `i` strictly outscores every other player. */
  predicate StrictTop(players: seq<PlayerRecord>, i: int) {
    0 <= i < |players| && forall j :: 0 <= j < |players| && j != i ==> players[j].score < players[i].score
  }

  lemma {:induction false} AtScoreSingle(players: seq<PlayerRecord>, score: int, i: nat)
    requires i < |players| && players[i].score == score
    requires forall j :: 0 <= j < |players| && j != i ==> players[j].score != score
    ensures AtScore(players, score) == [players[i]]
  {
    if i > 0 {
      assert players[0].score != score;
      AtScoreSingle(players[1..], score, i - 1);
    } else {
      AtScoreNone(players[1..], score);
    }
  }

  lemma {:induction false} AtScoreNone(players: seq<PlayerRecord>, score: int)
    requires forall j :: 0 <= j < |players| ==> players[j].score != score
    ensures AtScore(players, score) == []
  {
    if players != [] {
      AtScoreNone(players[1..], score);
    }
  }

  lemma {:induction false} AtScoreHas(players: seq<PlayerRecord>, score: int, i: nat)
    requires i < |players| && players[i].score == score
    ensures |AtScore(players, score)| >= 1
  {
    if i > 0 {
      AtScoreHas(players[1..], score, i - 1);
    }
  }

  lemma {:induction false} AtScoreTwo(players: seq<PlayerRecord>, score: int, i: nat, j: nat)
    requires i < j < |players| && players[i].score == score && players[j].score == score
    ensures |AtScore(players, score)| >= 2
  {
    if i > 0 {
      AtScoreTwo(players[1..], score, i - 1, j - 1);
    } else {
      AtScoreHas(players[1..], score, j - 1);
    }
  }

  /** The winners `filter` holds exactly one record precisely when one
      player strictly outscores all others, and then it is that player. */
  lemma TopWinners(players: seq<PlayerRecord>)
    requires |players| > 0
    ensures |AtScore(players, TopScore(players))| >= 1
    ensures |AtScore(players, TopScore(players))| == 1 <==> exists i :: StrictTop(players, i)
    ensures forall i :: StrictTop(players, i) ==> AtScore(players, TopScore(players)) == [players[i]]
  {
    var top := TopScore(players);
    var k :| 0 <= k < |players| && players[k].score == top;
    AtScoreHas(players, top, k);
    if exists i :: StrictTop(players, i) {
      var i :| StrictTop(players, i);
      AtScoreSingle(players, top, i);
    } else {
      TieWitness(players);
      var i, j :| 0 <= i < j < |players| && players[i].score == players[j].score == top;
      AtScoreTwo(players, top, i, j);
    }
  }

  /** `finalizeScores` then `finalizeGame` on a non-empty player list: the
      reason given the type of the most recent move, and the winner the game
      record is left with. */
  function Finalized(players: seq<PlayerRecord>, lastMove: Option<MoveType>, previous: Option<UserId>): (o: Outcome)
    requires |players| > 0
    ensures o.reason == Resignation <==> lastMove == Some(Resign)
    ensures o.reason == NaturalWinner <==> lastMove != Some(Resign) && exists i :: StrictTop(players, i)
    ensures forall i :: StrictTop(players, i) && lastMove != Some(Resign) ==> o.winner == Some(players[i].userId)
    ensures o.reason == Tie ==>
      (o.winner.None? && exists i, j :: 0 <= i < j < |players| && players[i].score == players[j].score == TopScore(players))
    ensures o.reason == Resignation ==>
      o.winner == if exists i :: StrictTop(players, i) then Some(TopUser(players)) else previous
  {
    TopWinners(players);
    var winners := AtScore(players, TopScore(players));
    var scoresWinner := if |winners| == 1 then Some(winners[0].userId) else None;
    if lastMove == Some(Resign) then
      Outcome(Resignation, if scoresWinner.Some? then scoresWinner else previous)
    else if |winners| == 1 then Outcome(NaturalWinner, Some(winners[0].userId))
    else
      assert !exists i :: StrictTop(players, i);
      TieWitness(players);
      Outcome(Tie, None)
  }

  /** The first record with the top score: the head of the sorted list. */
  function TopUser(players: seq<PlayerRecord>): (u: UserId)
    requires |players| > 0
    ensures forall i :: StrictTop(players, i) ==> u == players[i].userId
  {
    TopWinners(players);
    AtScore(players, TopScore(players))[0].userId
  }

  /** Without a strict top scorer, two players share the top score. */
  lemma TieWitness(players: seq<PlayerRecord>)
    requires |players| > 0
    requires !exists i :: StrictTop(players, i)
    ensures exists i, j :: 0 <= i < j < |players| && players[i].score == players[j].score == TopScore(players)
  {
    var top := TopScore(players);
    var k :| 0 <= k < |players| && players[k].score == top;
    assert !StrictTop(players, k);
    var j :| 0 <= j < |players| && j != k && players[j].score >= players[k].score;
    if j < k {
      assert players[j].score == players[k].score == top;
    } else {
      assert players[k].score == players[j].score == top;
    }
  }

  /** When every player has the same score, a game not ended by resignation
      is a tie (given at least two players). */
  lemma EqualScoresTie(players: seq<PlayerRecord>, lastMove: Option<MoveType>, previous: Option<UserId>)
    requires |players| >= 2
    requires forall i :: 0 <= i < |players| ==> players[i].score == players[0].score
    requires lastMove != Some(Resign)
    ensures Finalized(players, lastMove, previous) == Outcome(Tie, None)
  {
    if exists i :: StrictTop(players, i) {
      var i :| StrictTop(players, i);
      var j := if i == 0 then 1 else 0;
      assert players[j].score < players[i].score;
    }
  }

  // ---------------------------------------------------------------------
  // End conditions

  /** The most recent `n` moves, newest first. */
  function LastMoves(moves: seq<GameMove>, n: int): (r: seq<GameMove>)
    ensures |r| == if n <= 0 then 0 else if n < |moves| then n else |moves|
    ensures forall k :: 0 <= k < |r| ==> r[k] == moves[|moves| - 1 - k]
  {
    var len := if n <= 0 then 0 else if n < |moves| then n else |moves|;
    seq(len, k requires 0 <= k < len => moves[|moves| - 1 - k])
  }

  predicate AllPass(ms: seq<GameMove>) {
    forall k :: 0 <= k < |ms| ==> ms[k].moveType == Pass
  }

  /** The pass rule looks at a window of the last `n` moves: it holds when
      every move in that window is a PASS (vacuously when there are none). */
  lemma PassWindow(moves: seq<GameMove>, n: int)
    ensures AllPass(LastMoves(moves, n)) <==>
      forall j :: 0 <= j < |moves| && |moves| - n <= j ==> moves[j].moveType == Pass
  {
    var r := LastMoves(moves, n);
    if AllPass(r) {
      forall j | 0 <= j < |moves| && |moves| - n <= j ensures moves[j].moveType == Pass {
        assert r[|moves| - 1 - j] == moves[j];
      }
    }
  }

  predicate RacksEmpty(players: seq<PlayerRecord>) {
    forall i :: 0 <= i < |players| ==> |players[i].rack| == 0
  }

  /** `checkEndConditions`: the last `|players|` moves are all PASS, or the
      bag and every rack are empty. */
  predicate ShouldEnd(moves: seq<GameMove>, players: seq<PlayerRecord>, bagSize: nat) {
    AllPass(LastMoves(moves, |players|)) || (bagSize == 0 && RacksEmpty(players))
  }

  /** The type of the newest move among the last `n`, as `lastMoves[0]?.moveType` reads it. */
  function NewestMoveType(moves: seq<GameMove>, n: int): (r: Option<MoveType>)
    ensures r.Some? <==> n > 0 && |moves| > 0
    ensures r.Some? ==> r.value == moves[|moves| - 1].moveType
  {
    var last := LastMoves(moves, n);
    if |last| > 0 then Some(last[0].moveType) else None
  }

  /** A PASS as the very first move already meets the pass rule: the window
      of the last `|players|` moves holds only that PASS. With the scores
      still level the game then ends in a tie with no winner. */
  lemma {:induction false} OpeningPassEnds(players: seq<PlayerRecord>, pass: GameMove, bagSize: nat, previous: Option<UserId>)
    requires |players| >= 2 && pass.moveType == Pass
    requires forall i :: 0 <= i < |players| ==> players[i].score == players[0].score
    ensures ShouldEnd([pass], players, bagSize)
    ensures Finalized(players, NewestMoveType([pass], |players|), previous) == Outcome(Tie, None)
  {
    assert LastMoves([pass], |players|) == [pass];
    EqualScoresTie(players, NewestMoveType([pass], |players|), previous);
  }

  // ---------------------------------------------------------------------
  // processTurn's checks and derived values

  /** The first PLACE move must cover the centre square `(⌊size/2⌋, ⌊size/2⌋)`. */
  predicate CoversCentre(tiles: seq<Placement>, size: int) {
    exists i :: 0 <= i < |tiles| && tiles[i].row == size / 2 && tiles[i].col == size / 2
  }

  /** The checks `processTurn` makes before it changes anything, in order;
      on success, the index of the caller's player record. */
  function ValidateTurn(status: Status, players: seq<PlayerRecord>, moveCount: nat, boardSize: int,
                        playerId: UserId, moveType: string, tiles: Option<seq<Placement>>): (r: Result<nat>)
    ensures status != InProgress ==> r == Err(GameAlreadyEnded)
    ensures status == InProgress && FindPlayer(players, playerId).None? ==> r == Err(PlayerNotInGame)
    ensures r.Ok? <==>
      (status == InProgress && FindPlayer(players, playerId).Some? &&
       players[FindPlayer(players, playerId).value].isActive &&
       (moveType == "PLACE" ==> tiles.Some? && |tiles.value| > 0 && (moveCount == 0 ==> CoversCentre(tiles.value, boardSize))))
    ensures r.Ok? ==> Some(r.value) == FindPlayer(players, playerId)
    ensures (status == InProgress && FindPlayer(players, playerId).Some? &&
             !players[FindPlayer(players, playerId).value].isActive) ==> r == Err(NotYourTurn)
    ensures r.Err? && moveType == "PLACE" && (tiles.None? || tiles.value == []) ==>
      r.error in {GameAlreadyEnded, PlayerNotInGame, NotYourTurn, TilesRequired}
    ensures r == Err(StartTileNotCovered) ==> moveType == "PLACE" && moveCount == 0
    ensures (status == InProgress && FindPlayer(players, playerId).Some? &&
             players[FindPlayer(players, playerId).value].isActive &&
             moveType == "PLACE" && (tiles.None? || tiles.value == [])) ==> r == Err(TilesRequired)
    ensures (status == InProgress && FindPlayer(players, playerId).Some? &&
             players[FindPlayer(players, playerId).value].isActive &&
             moveType == "PLACE" && tiles.Some? && tiles.value != [] &&
             moveCount == 0 && !CoversCentre(tiles.value, boardSize)) ==> r == Err(StartTileNotCovered)
  {
    if status != InProgress then Err(GameAlreadyEnded)
    else match FindPlayer(players, playerId)
      case None => Err(PlayerNotInGame)
      case Some(k) =>
        if !players[k].isActive then Err(NotYourTurn)
        else if moveType == "PLACE" && (tiles.None? || |tiles.value| == 0) then Err(TilesRequired)
        else if moveType == "PLACE" && moveCount == 0 && !CoversCentre(tiles.value, boardSize) then Err(StartTileNotCovered)
        else Ok(k)
  }

  /** When exactly the players with the creator's id are active (as seating
      leaves them), only the creator gets past the turn check. */
  lemma OnlyCreatorMovesFirst(players: seq<PlayerRecord>, createdBy: UserId, playerId: UserId, moveCount: nat, size: int,
                              moveType: string, tiles: Option<seq<Placement>>)
    requires forall i :: 0 <= i < |players| ==> (players[i].isActive <==> players[i].userId == createdBy)
    requires moveType != "PLACE"
    ensures ValidateTurn(InProgress, players, moveCount, size, playerId, moveType, tiles).Ok? <==>
      playerId == createdBy && exists i :: 0 <= i < |players| && players[i].userId == createdBy
  {
  }

  /** The ids `getTileId` finds for each placement, in order; refused when
      any placement has no tile document or a different letter. */
  function WithTileIds(b: Board, ps: seq<Placement>): (r: Result<seq<PlacedTile>>)
    reads b
    ensures r.Ok? <==> forall i :: 0 <= i < |ps| ==> b.GetTileId(ps[i].row, ps[i].col, Some(ps[i].letter)).Ok?
    ensures r.Ok? ==> |r.value| == |ps|
    ensures r.Ok? ==> forall i :: 0 <= i < |ps| ==>
      r.value[i] == PlacedTile(ps[i].row, ps[i].col, ps[i].letter, b.GetTileId(ps[i].row, ps[i].col, Some(ps[i].letter)).value)
    ensures r.Err? ==> exists i :: 0 <= i < |ps| && b.GetTileId(ps[i].row, ps[i].col, Some(ps[i].letter)) == Err(r.error)
  {
    if ps == [] then Ok([])
    else
      var p := ps[0];
      var id := b.GetTileId(p.row, p.col, Some(p.letter));
      assert forall i :: 1 <= i < |ps| ==> ps[i] == ps[1..][i - 1];
      if id.Err? then Err(id.error)
      else
        match WithTileIds(b, ps[1..])
        case Err(e) => Err(e)
        case Ok(rest) => Ok([PlacedTile(p.row, p.col, p.letter, id.value)] + rest)
  }

  function PlacementPositions(ps: seq<Placement>): (r: seq<Pos>)
    ensures |r| == |ps| && forall i :: 0 <= i < |ps| ==> r[i] == Pos(ps[i].row, ps[i].col)
  {
    seq(|ps|, i requires 0 <= i < |ps| => Pos(ps[i].row, ps[i].col))
  }

  /** On a board with no tile documents, as `initializeGame` leaves it, the
      id lookup of any non-empty placement list fails at its first placement:
      documents are only written by `placeTiles`, which runs after the lookup. */
  lemma EmptyBoardRefusesPlacement(b: Board, ps: seq<Placement>)
    requires b.cells == map[] && ps != []
    ensures WithTileIds(b, ps) == Err(NoTileAt(ps[0].row, ps[0].col))
  {
  }

  function TileIdsOf(ts: seq<PlacedTile>): (r: seq<TileId>)
    ensures |r| == |ts| && forall i :: 0 <= i < |ts| ==> r[i] == ts[i].tileId
  {
    seq(|ts|, i requires 0 <= i < |ts| => ts[i].tileId)
  }

  function WordsOf(ws: seq<WordResult>): (r: seq<string>)
    ensures |r| == |ws| && forall i :: 0 <= i < |ws| ==> r[i] == ws[i].word
  {
    seq(|ws|, i requires 0 <= i < |ws| => ws[i].word)
  }

  /** `GameService.createMove`: a PLACE move carries its words, its tiles
      and the tiles of each word; PASS and RESIGN carry only their type and
      count; any other type is refused. */
  function CreateGameMove(playerId: UserId, kind: Option<MoveType>, moveCount: nat, words: seq<string>, tiles: seq<Tile>): (r: Result<GameMove>)
    ensures r.Err? <==> kind.None?
    ensures r.Err? ==> r.error == InvalidMoveType
    ensures r.Ok? ==> r.value.moveType == kind.value && r.value.moveCount == moveCount && r.value.playerId == playerId
    ensures r.Ok? && kind.value == Place ==>
      (r.value.words == words && r.value.tiles == tiles &&
       forall w :: w in words ==> w in r.value.wordTiles && r.value.wordTiles[w] == TilesInWord(tiles, w))
    ensures r.Ok? && kind.value != Place ==> r.value.words == [] && r.value.tiles == [] && r.value.wordTiles == map[]
  {
    match kind
    case None => Err(InvalidMoveType)
    case Some(Place) => Ok(GameMove(playerId, Place, moveCount, words, tiles, WordTiles(words, tiles)))
    case Some(k) => Ok(GameMove(playerId, k, moveCount, [], [], map[]))
  }

  /** A player as `initializeGame` leaves it: active exactly when it is the
      creator, seven tiles, no score, connected. */
  predicate Seated(p: PlayerRecord, createdBy: UserId) {
    (p.isActive <==> p.userId == createdBy) && |p.rack| == RackSize && p.score == 0 && p.isConnected
  }

  /** Locking the positions of placements that all have a document leaves
      each of them locked. */
  lemma PlacementsLocked(cells: map<Pos, Cell>, ps: seq<Placement>)
    requires forall i :: 0 <= i < |ps| ==> Pos(ps[i].row, ps[i].col) in cells
    ensures forall i :: 0 <= i < |ps| ==>
      var p := Pos(ps[i].row, ps[i].col);
      p in LockedCells(cells, PlacementPositions(ps)) && LockedCells(cells, PlacementPositions(ps))[p].isLocked
  {
    forall i | 0 <= i < |ps|
      ensures Pos(ps[i].row, ps[i].col) in PlacementPositions(ps)
    {
      assert PlacementPositions(ps)[i] == Pos(ps[i].row, ps[i].col);
    }
    LockedCellsKeep(cells, PlacementPositions(ps));
  }

  /** The index after `i` in a circle of `n` seats (a circle of none stays put). */
  function NextTurn(i: int, n: int): (r: int)
    ensures n > 0 && i >= 0 ==> 0 <= r < n
  {
    if n <= 0 then i else (i + 1) % n
  }

  function Clamp(n: int): nat {
    if n < 0 then 0 else n
  }

  /** The fields of the game record that a turn changes. */
  datatype TurnState = TurnState(players: seq<PlayerRecord>, status: Status, winner: Option<UserId>, turnIndex: int)

  /** The player records after record `k` has drawn `drawn`. */
  function Refilled(players: seq<PlayerRecord>, k: nat, drawn: seq<Tile>): seq<PlayerRecord>
    requires k < |players|
  {
    players[k := players[k].(rack := players[k].rack + drawn)]
  }

  /** `finalizeGame` on the record: FINISHED, with the winner `Finalized` leaves. */
  function Finish(s: TurnState, moves: seq<GameMove>): TurnState
    requires |s.players| > 0
  {
    s.(status := Finished, winner := Finalized(s.players, NewestMoveType(moves, |s.players|), s.winner).winner)
  }

  /** The end of a PLACE or PASS turn once the rack is refilled: the game is
      finalized when the end conditions hold, and otherwise the next seat
      becomes the only active player. Only `isActive` of a record changes. */
  function AfterRefill(s: TurnState, moves: seq<GameMove>, bagSize: nat): TurnState
    requires |s.players| > 0
  {
    if ShouldEnd(moves, s.players, bagSize) then Finish(s, moves)
    else
      var idx := NextTurn(s.turnIndex, |s.players|);
      TurnState(seq(|s.players|, i requires 0 <= i < |s.players| => s.players[i].(isActive := i == idx)), InProgress, s.winner, idx)
  }

  /** What `AfterRefill` does: only the `isActive` flags change; the game
      ends exactly when the end conditions hold, with the finalised winner;
      otherwise the turn passes on and exactly one player is active. */
  lemma {:induction false} AfterRefillShape(s: TurnState, moves: seq<GameMove>, bagSize: nat)
    requires |s.players| > 0
    ensures var t := AfterRefill(s, moves, bagSize);
      |t.players| == |s.players| &&
      forall i :: 0 <= i < |t.players| ==> t.players[i] == s.players[i].(isActive := t.players[i].isActive)
    ensures var t := AfterRefill(s, moves, bagSize);
      t.status == Finished <==> ShouldEnd(moves, s.players, bagSize)
    ensures var t := AfterRefill(s, moves, bagSize);
      t.status == Finished ==>
        t.players == s.players && t.turnIndex == s.turnIndex &&
        t.winner == Finalized(s.players, NewestMoveType(moves, |s.players|), s.winner).winner
    ensures var t := AfterRefill(s, moves, bagSize);
      t.status != Finished ==>
        t.status == InProgress && t.winner == s.winner && t.turnIndex == NextTurn(s.turnIndex, |s.players|) &&
        forall i :: 0 <= i < |t.players| ==> (t.players[i].isActive <==> i == t.turnIndex)
  {
  }

  /** After an accepted PLACE or PASS, every record but the caller's keeps
      its rack, score and connection flag, and the caller's rack has grown by
      exactly the drawn tiles. */
  lemma AfterRefillRecords(s: TurnState, k: nat, drawn: seq<Tile>, moves: seq<GameMove>, bagSize: nat)
    requires k < |s.players|
    ensures var t := AfterRefill(s.(players := Refilled(s.players, k, drawn)), moves, bagSize);
      |t.players| == |s.players| &&
      t.players[k].rack == s.players[k].rack + drawn &&
      forall i :: 0 <= i < |t.players| ==>
        t.players[i].userId == s.players[i].userId && t.players[i].score == s.players[i].score &&
        t.players[i].isConnected == s.players[i].isConnected &&
        (i != k ==> t.players[i].rack == s.players[i].rack)
  {
    AfterRefillShape(s.(players := Refilled(s.players, k, drawn)), moves, bagSize);
  }

  /** All tiles on the racks, as a multiset. */
  ghost function RackTiles(players: seq<PlayerRecord>): multiset<Tile> {
    if players == [] then multiset{}
    else RackTiles(players[..|players| - 1]) + multiset(players[|players| - 1].rack)
  }

  /** The end conditions read only the number of players and their racks. */
  lemma SameRacks(moves: seq<GameMove>, a: seq<PlayerRecord>, b: seq<PlayerRecord>, bagSize: nat)
    requires |a| == |b| && forall i :: 0 <= i < |a| ==> a[i].rack == b[i].rack
    ensures ShouldEnd(moves, a, bagSize) <==> ShouldEnd(moves, b, bagSize)
  {
  }

  lemma DistinctIndex(players: seq<PlayerRecord>, i: int, j: int)
    requires Distinct(Ids(players)) && 0 <= i < |players| && 0 <= j < |players|
    ensures players[i].userId == players[j].userId <==> i == j
  {
    var ids := Ids(players);
    if i < j {
      assert ids[i] != ids[j];
    } else if j < i {
      assert ids[j] != ids[i];
    }
  }

  // ---------------------------------------------------------------------
  // The game record

  class GameSession {
    const createdBy: UserId
    const board: Board
    var status: Status
    /** The game's player records, in seating order. */
    var players: seq<PlayerRecord>
    var moves: seq<GameMove>
    var currentTurnIndex: int
    var winner: Option<UserId>

    /** Player ids are distinct, the turn index is not negative and no rack
        holds more than seven tiles. */
    ghost predicate Valid()
      reads this
    {
      Distinct(Ids(players)) && 0 <= currentTurnIndex &&
      forall i :: 0 <= i < |players| ==> |players[i].rack| <= RackSize
    }

    /** The pre-checks of `processTurn` against the current state. */
    function TurnCheck(playerId: UserId, moveType: string, tiles: Option<seq<Placement>>): Result<nat>
      reads this, board
    {
      ValidateTurn(status, players, |moves|, board.boardSize, playerId, moveType, tiles)
    }

    /** A new game record: status WAITING, no players, no moves, no winner. */
    constructor (createdBy: UserId, board: Board)
      ensures this.createdBy == createdBy && this.board == board
      ensures status == Waiting && players == [] && moves == [] && currentTurnIndex == 0 && winner.None?
      ensures Valid()
    {
      this.createdBy := createdBy;
      this.board := board;
      status := Waiting;
      players := [];
      moves := [];
      currentTurnIndex := 0;
      winner := None;
    }

    /** `isGameEnded`. */
    function IsGameEnded(): (ended: bool)
      reads this
      ensures ended <==> status != InProgress
    {
      status != InProgress
    }

    /** `markPlayerDisconnected`: clear the caller's `isConnected` flag. */
    method MarkPlayerDisconnected(playerId: UserId) returns (r: Result<()>)
      requires Valid()
      modifies this`players
      ensures Valid()
      ensures r.Err? <==> FindPlayer(old(players), playerId).None?
      ensures r.Err? ==> r.error == PlayerNotFound && players == old(players)
      ensures r.Ok? ==> var k := FindPlayer(old(players), playerId).value;
        players == old(players)[k := old(players)[k].(isConnected := false)]
    {
      var found := FindPlayer(players, playerId);
      if found.None? {
        return Err(PlayerNotFound);
      }
      var k := found.value;
      ghost var before := players;
      players := players[k := players[k].(isConnected := false)];
      assert Ids(players) == Ids(before);
      r := Ok(());
    }

    /** `switchTurns`: advance the turn index circularly and make the
        player at the new index the only active one. */
    method SwitchTurns() returns (r: Result<UserId>)
      requires Valid()
      modifies this`currentTurnIndex, this`players
      ensures Valid()
      ensures r.Err? <==> old(players) == []
      ensures r.Err? ==> r.error == NoPlayers && currentTurnIndex == old(currentTurnIndex) && players == old(players)
      ensures |players| == |old(players)|
      ensures r.Ok? ==> currentTurnIndex == NextTurn(old(currentTurnIndex), |players|)
      ensures r.Ok? ==> r.value == players[currentTurnIndex].userId
      ensures r.Ok? ==> forall i :: 0 <= i < |players| ==> players[i] == old(players)[i].(isActive := i == currentTurnIndex)
    {
      if |players| == 0 {
        return Err(NoPlayers);
      }
      var idx := NextTurn(currentTurnIndex, |players|);
      var next := players[idx].userId;
      ghost var before := players;
      var i := 0;
      while i < |players|
        invariant 0 <= i <= |players| == |before|
        invariant forall k :: 0 <= k < |players| ==>
          players[k] == before[k].(isActive := if k < i then before[k].userId == next else before[k].isActive)
      {
        players := players[i := players[i].(isActive := players[i].userId == next)];
        i := i + 1;
      }
      forall k | 0 <= k < |players| ensures players[k] == before[k].(isActive := k == idx) {
        DistinctIndex(before, k, idx);
      }
      assert Ids(players) == Ids(before);
      currentTurnIndex := idx;
      r := Ok(next);
    }

    /** `allocateTiles`: draw first, then find the player and refuse a rack
        that would exceed seven tiles; the tiles drawn before a refusal are
        gone from the bag. */
    method AllocateTiles(playerId: UserId, count: int) returns (r: Result<seq<Tile>>)
      requires Valid()
      modifies this`players, board`tileBag
      ensures Valid()
      ensures r.Ok? <==>
        (|old(board.tileBag)| >= count && FindPlayer(old(players), playerId).Some? &&
         |old(players)[FindPlayer(old(players), playerId).value].rack| + Clamp(count) <= RackSize)
      ensures |old(board.tileBag)| < count ==>
        r == Err(NotEnoughTiles) && board.tileBag == old(board.tileBag)
      ensures r.Err? ==> players == old(players)
      ensures r.Err? && |old(board.tileBag)| >= count ==>
        (r.error == (if FindPlayer(old(players), playerId).None? then PlayerNotFound else RackExceeded) &&
         |board.tileBag| == |old(board.tileBag)| - Clamp(count) &&
         multiset(board.tileBag) <= multiset(old(board.tileBag)))
      ensures r.Ok? ==> |r.value| == Clamp(count)
      ensures r.Ok? ==> multiset(r.value) + multiset(board.tileBag) == multiset(old(board.tileBag))
      ensures r.Ok? ==> var k := FindPlayer(old(players), playerId).value;
        players == old(players)[k := old(players)[k].(rack := old(players)[k].rack + r.value)]
    {
      var drawn := board.DrawTiles(count);
      if drawn.Err? {
        return Err(drawn.error);
      }
      var found := FindPlayer(players, playerId);
      if found.None? {
        return Err(PlayerNotFound);
      }
      var k := found.value;
      if |players[k].rack| + |drawn.value| > RackSize {
        return Err(RackExceeded);
      }
      ghost var before := players;
      players := players[k := players[k].(rack := players[k].rack + drawn.value)];
      assert Ids(players) == Ids(before);
      r := Ok(drawn.value);
    }

    /** `finalizeScores` followed by the rest of `finalizeGame`: refused with
        no players; otherwise the outcome by the type of the newest move, and
        the status becomes FINISHED. */
    method FinalizeGame() returns (r: Result<EndReason>)
      requires Valid()
      modifies this`status, this`winner
      ensures Valid()
      ensures r.Err? <==> players == []
      ensures r.Err? ==> r.error == NoPlayers && status == old(status) && winner == old(winner)
      ensures r.Ok? ==> var o := Finalized(players, NewestMoveType(moves, |players|), old(winner));
        r.value == o.reason && winner == o.winner && status == Finished
    {
      if players == [] {
        return Err(NoPlayers);
      }
      var o := Finalized(players, NewestMoveType(moves, |players|), winner);
      winner := o.winner;
      status := Finished;
      r := Ok(o.reason);
    }

    /** `checkEndConditions`: finalize when the last `|players|` moves are
        all PASS, or when the bag and every rack are empty. */
    method CheckEndConditions() returns (r: Result<()>)
      requires Valid()
      modifies this`status, this`winner
      ensures Valid()
      ensures !ShouldEnd(moves, players, |board.tileBag|) ==> r.Ok? && status == old(status) && winner == old(winner)
      ensures ShouldEnd(moves, players, |board.tileBag|) && players == [] ==>
        r == Err(NoPlayers) && status == old(status) && winner == old(winner)
      ensures ShouldEnd(moves, players, |board.tileBag|) && players != [] ==>
        r.Ok? && status == Finished &&
        winner == Finalized(players, NewestMoveType(moves, |players|), old(winner)).winner
    {
      if AllPass(LastMoves(moves, |players|)) || (|board.tileBag| == 0 && RacksEmpty(players)) {
        var f := FinalizeGame();
        if f.Err? {
          return Err(f.error);
        }
      }
      r := Ok(());
    }

    /** The PLACE part of `processTurn`: look up the tile ids, place the
        tiles, then read the words through the placed positions (those of
        the placements, since looking up the ids keeps each row and column). */
    method PlaceAndRead(ps: seq<Placement>) returns (r: Result<(seq<PlacedTile>, seq<string>)>)
      modifies board`cells, board`boardState
      ensures old(WithTileIds(board, ps)).Err? ==>
        r == Err(old(WithTileIds(board, ps)).error) && unchanged(board)
      ensures old(WithTileIds(board, ps)).Ok? && r.Ok? ==>
        !AnyBlocked(old(board.cells), old(WithTileIds(board, ps)).value)
      ensures old(WithTileIds(board, ps)).Ok? && r.Err? ==>
        board.boardState == old(board.boardState) &&
        StoppedAt(old(board.cells), board.cells, old(WithTileIds(board, ps)).value, r.error)
      ensures r.Ok? ==>
        (old(WithTileIds(board, ps)) == Ok(r.value.0) &&
         board.cells == Written(old(board.cells), r.value.0) &&
         board.boardState == ApplyUpdates(old(board.boardState), Clearing(r.value.0), map[]) &&
         r.value.1 == WordsOf(WordsFor(board.boardState, PlacementPositions(ps))))
      ensures r.Ok? ==> forall i :: 0 <= i < |ps| ==> Pos(ps[i].row, ps[i].col) in board.cells
    {
      var withIds := WithTileIds(board, ps);
      if withIds.Err? {
        return Err(withIds.error);
      }
      var placed := withIds.value;
      ghost var cells0 := board.cells;
      assert forall i :: 0 <= i < |ps| ==> PosOfPlaced(placed[i]) == Pos(ps[i].row, ps[i].col);
      var p := board.PlaceTiles(placed);
      if p.Err? {
        return Err(p.error);
      }
      assert forall i :: 0 <= i < |placed| ==> !Blocked(cells0, placed, i);
      assert !AnyBlocked(cells0, placed);
      WrittenHasPlaced(old(board.cells), placed);
      var found := board.GenerateWords(PlacementPositions(ps));
      r := Ok((placed, WordsOf(found)));
    }

    /** One pass of the seating loop of `initializeGame`: create the
        player record, active exactly when it is the creator, and deal it
        seven tiles. */
    method SeatAndDeal(id: UserId) returns (r: Result<seq<Tile>>)
      requires Valid() && id !in Ids(players)
      modifies this`players, board`tileBag
      ensures r.Err? <==> |old(board.tileBag)| < RackSize
      ensures r.Err? ==> r.error == NotEnoughTiles
      ensures r.Ok? ==>
        Valid() && |r.value| == RackSize &&
        players == old(players) + [PlayerRecord(id, 0, r.value, id == createdBy, true)] &&
        multiset(r.value) + multiset(board.tileBag) == multiset(old(board.tileBag))
    {
      var seat := PlayerRecord(id, 0, [], id == createdBy, true);
      ghost var before := players;
      players := players + [seat];
      assert Ids(players) == Ids(before) + [id];
      FindDistinct(players, |before|);
      var drawn := AllocateTiles(id, RackSize);
      if drawn.Err? {
        return Err(drawn.error);
      }
      assert players == before + [seat.(rack := [] + drawn.value)];
      assert [] + drawn.value == drawn.value;
      r := Ok(drawn.value);
    }

    /** The seating loop of `initializeGame` over distinct ids. */
    method SeatPlayers(ids: seq<UserId>) returns (r: Result<()>)
      requires Valid() && players == [] && Distinct(ids)
      modifies this`players, board`tileBag
      ensures r.Err? <==> RackSize * |ids| > |old(board.tileBag)|
      ensures r.Err? ==> r.error == NotEnoughTiles
      ensures r.Ok? ==>
        Valid() && Ids(players) == ids && (forall i :: 0 <= i < |players| ==> Seated(players[i], createdBy)) &&
        RackTiles(players) + multiset(board.tileBag) == multiset(old(board.tileBag))
    {
      for i := 0 to |ids|
        invariant Valid() && Ids(players) == ids[..i]
        invariant forall j :: 0 <= j < i ==> Seated(players[j], createdBy)
        invariant RackSize * i <= |old(board.tileBag)| && |board.tileBag| == |old(board.tileBag)| - RackSize * i
        invariant RackTiles(players) + multiset(board.tileBag) == multiset(old(board.tileBag))
      {
        assert ids[i] !in Ids(players);
        ghost var before := players;
        var dealt := SeatAndDeal(ids[i]);
        if dealt.Err? {
          return Err(dealt.error);
        }
        assert players[..|players| - 1] == before;
        assert Ids(players) == ids[..i + 1] by {
          assert ids[..i + 1] == ids[..i] + [ids[i]];
        }
      }
      assert ids[..|ids|] == ids;
      r := Ok(());
    }

    /** The fields a turn changes, as one value. */
    function State(): TurnState
      reads this
    {
      TurnState(players, status, winner, currentTurnIndex)
    }

    /** The refill of `processTurn`: top the caller's rack up to seven
        tiles, drawing only when it holds fewer. `drawTiles` refuses, and
        leaves the bag as it was, when the bag holds fewer than are needed. */
    method Refill(k: nat) returns (r: Result<seq<Tile>>)
      requires Valid() && k < |players|
      modifies this`players, board`tileBag
      ensures Valid()
      ensures r.Err? <==> |old(board.tileBag)| < RackSize - |old(players)[k].rack|
      ensures r.Err? ==> r.error == NotEnoughTiles && players == old(players) && board.tileBag == old(board.tileBag)
      ensures r.Ok? ==>
        |r.value| == Clamp(RackSize - |old(players)[k].rack|) &&
        multiset(r.value) + multiset(board.tileBag) == multiset(old(board.tileBag)) &&
        players == Refilled(old(players), k, r.value)
    {
      var toDraw := RackSize - |players[k].rack|;
      if toDraw <= 0 {
        assert players[k].rack + [] == players[k].rack;
        assert players == Refilled(players, k, []);
        return Ok([]);
      }
      FindDistinct(players, k);
      r := AllocateTiles(players[k].userId, toDraw);
    }

    /** The last steps of `processTurn`: check the end conditions, then
        switch turns if the game is still in progress. */
    method EndOrSwitch()
      requires Valid() && |players| > 0 && status == InProgress
      modifies this`players, this`status, this`winner, this`currentTurnIndex
      ensures Valid()
      ensures Ids(players) == Ids(old(players))
      ensures State() == AfterRefill(old(State()), moves, |board.tileBag|)
    {
      var _ := CheckEndConditions();
      if status != InProgress {
        return;
      }
      ghost var before := players;
      var _ := SwitchTurns();
      ghost var idx := currentTurnIndex;
      assert players == seq(|before|, i requires 0 <= i < |before| => before[i].(isActive := i == idx));
    }

    /** The end of a PLACE or PASS turn in `processTurn`: lock the listed
        positions, top the rack up to seven, check the end conditions and,
        if the game goes on, switch turns. */
    method CompleteTurn(k: nat, ps: seq<Placement>, move: GameMove) returns (r: Result<TurnResult>)
      requires Valid() && k < |players| && status == InProgress
      modifies this`players, this`status, this`winner, this`currentTurnIndex, board`cells, board`tileBag
      ensures Valid()
      ensures |players| == |old(players)| && Ids(players) == Ids(old(players))
      ensures moves == old(moves) && board.boardState == old(board.boardState)
      ensures board.cells == LockedCells(old(board.cells), PlacementPositions(ps))
      ensures r.Err? <==> |old(board.tileBag)| < RackSize - |old(players)[k].rack|
      ensures r.Err? ==> r == Err(NotEnoughTiles) && State() == old(State()) && board.tileBag == old(board.tileBag)
      ensures r.Ok? ==>
        r.value.move == move &&
        |r.value.tilesDrawn| == Clamp(RackSize - |old(players)[k].rack|) &&
        multiset(r.value.tilesDrawn) + multiset(board.tileBag) == multiset(old(board.tileBag)) &&
        State() == AfterRefill(old(State()).(players := Refilled(old(players), k, r.value.tilesDrawn)), moves, |board.tileBag|)
    {
      board.LockTiles(PlacementPositions(ps));
      ghost var before := players;
      var drawn := Refill(k);
      if drawn.Err? {
        return Err(drawn.error);
      }
      assert Ids(players) == Ids(before);
      EndOrSwitch();
      r := Ok(TurnResult(move, drawn.value));
    }

    /** The PLACE branch of `processTurn` up to the recorded move: look up
        the tile ids, place the tiles and read the words, fetch the placed
        tile documents and record the move. */
    method RecordPlacement(playerId: UserId, ps: seq<Placement>, tileDocs: map<TileId, Tile>) returns (r: Result<GameMove>)
      modifies this`moves, board`cells, board`boardState
      ensures State() == old(State()) && players == old(players) && board.tileBag == old(board.tileBag)
      ensures old(WithTileIds(board, ps)).Err? ==>
        r == Err(old(WithTileIds(board, ps)).error) && unchanged(this) && unchanged(board)
      ensures old(WithTileIds(board, ps)).Ok? &&
              AnyBlocked(old(board.cells), old(WithTileIds(board, ps)).value) ==>
        r.Err? && moves == old(moves) && board.boardState == old(board.boardState) &&
        StoppedAt(old(board.cells), board.cells, old(WithTileIds(board, ps)).value, r.error)
      ensures r.Ok? <==> old(WithTileIds(board, ps)).Ok? && !AnyBlocked(old(board.cells), old(WithTileIds(board, ps)).value)
      ensures r.Ok? ==>
        var placed := old(WithTileIds(board, ps)).value;
        board.cells == Written(old(board.cells), placed) &&
        board.boardState == ApplyUpdates(old(board.boardState), Clearing(placed), map[]) &&
        r.value == CreateGameMove(playerId, Some(Place), |old(moves)|,
                                  WordsOf(WordsFor(board.boardState, PlacementPositions(ps))),
                                  TilesFromIds(tileDocs, TileIdsOf(placed))).value &&
        moves == old(moves) + [r.value] &&
        r.value.playerId == playerId && r.value.moveType == Place && r.value.moveCount == |old(moves)| &&
        r.value.words == WordsOf(WordsFor(board.boardState, PlacementPositions(ps))) &&
        r.value.tiles == TilesFromIds(tileDocs, TileIdsOf(placed))
      ensures r.Ok? ==> forall i :: 0 <= i < |ps| ==> Pos(ps[i].row, ps[i].col) in board.cells
    {
      var pr := PlaceAndRead(ps);
      if pr.Err? {
        return Err(pr.error);
      }
      var (placed, words) := pr.value;
      var placedTiles := TilesFromIds(tileDocs, TileIdsOf(placed));
      var move := CreateGameMove(playerId, Some(Place), |moves|, words, placedTiles).value;
      moves := moves + [move];
      r := Ok(move);
    }

    /** The PLACE branch of `processTurn`, after the pre-checks: record the
        placement, then complete the turn. */
    method PlaceTurn(playerId: UserId, ps: seq<Placement>, tileDocs: map<TileId, Tile>) returns (r: Result<TurnResult>)
      requires Valid() && status == InProgress && FindPlayer(players, playerId).Some?
      modifies this`moves, this`players, this`status, this`winner, this`currentTurnIndex
      modifies board`cells, board`boardState, board`tileBag
      ensures Valid()
      ensures |players| == |old(players)| && Ids(players) == Ids(old(players))
      ensures old(WithTileIds(board, ps)).Err? ==>
        r == Err(old(WithTileIds(board, ps)).error) && unchanged(this) && unchanged(board)
      ensures old(WithTileIds(board, ps)).Ok? &&
              AnyBlocked(old(board.cells), old(WithTileIds(board, ps)).value) ==>
        r.Err? && moves == old(moves) && board.boardState == old(board.boardState) &&
        StoppedAt(old(board.cells), board.cells, old(WithTileIds(board, ps)).value, r.error)
      ensures old(WithTileIds(board, ps)).Ok? &&
              !AnyBlocked(old(board.cells), old(WithTileIds(board, ps)).value) ==>
        var placed := old(WithTileIds(board, ps)).value; var k := FindPlayer(old(players), playerId).value;
        board.cells == LockedCells(Written(old(board.cells), placed), PlacementPositions(ps)) &&
        board.boardState == ApplyUpdates(old(board.boardState), Clearing(placed), map[]) &&
        moves == old(moves) + [CreateGameMove(playerId, Some(Place), |old(moves)|,
                                              WordsOf(WordsFor(board.boardState, PlacementPositions(ps))),
                                              TilesFromIds(tileDocs, TileIdsOf(placed))).value] &&
        (r.Err? <==> |old(board.tileBag)| < RackSize - |old(players)[k].rack|)
      ensures r.Err? ==> State() == old(State())
      ensures r.Err? && old(WithTileIds(board, ps)).Ok? &&
              !AnyBlocked(old(board.cells), old(WithTileIds(board, ps)).value) ==>
        r == Err(NotEnoughTiles) && board.tileBag == old(board.tileBag)
      ensures r.Ok? ==>
        old(WithTileIds(board, ps)).Ok? &&
        !AnyBlocked(old(board.cells), old(WithTileIds(board, ps)).value) &&
        var placed := old(WithTileIds(board, ps)).value;
        moves == old(moves) + [r.value.move] &&
        r.value.move.playerId == playerId && r.value.move.moveType == Place && r.value.move.moveCount == |old(moves)| &&
        r.value.move.words == WordsOf(WordsFor(board.boardState, PlacementPositions(ps))) &&
        r.value.move.tiles == TilesFromIds(tileDocs, TileIdsOf(placed))
      ensures r.Ok? ==>
        forall i :: 0 <= i < |ps| ==>
          var p := Pos(ps[i].row, ps[i].col); p in board.cells && board.cells[p].isLocked
      ensures r.Ok? ==>
        var k := FindPlayer(old(players), playerId).value;
        |r.value.tilesDrawn| == Clamp(RackSize - |old(players)[k].rack|) &&
        multiset(r.value.tilesDrawn) + multiset(board.tileBag) == multiset(old(board.tileBag)) &&
        State() == AfterRefill(old(State()).(players := Refilled(old(players), k, r.value.tilesDrawn)), moves, |board.tileBag|)
    {
      var k := FindPlayer(players, playerId).value;
      var move := RecordPlacement(playerId, ps, tileDocs);
      if move.Err? {
        return Err(move.error);
      }
      PlacementsLocked(board.cells, ps);
      r := CompleteTurn(k, ps, move.value);
    }

    /** The PASS branch of `processTurn`, after the pre-checks: record the
        move, then complete the turn, which needs a tile list to lock. */
    method PassTurn(playerId: UserId, tiles: Option<seq<Placement>>) returns (r: Result<TurnResult>)
      requires Valid() && status == InProgress && FindPlayer(players, playerId).Some?
      modifies this`moves, this`players, this`status, this`winner, this`currentTurnIndex, board`cells, board`tileBag
      ensures Valid()
      ensures |players| == |old(players)| && Ids(players) == Ids(old(players))
      ensures moves == old(moves) + [GameMove(playerId, Pass, |old(moves)|, [], [], map[])]
      ensures tiles.None? ==> r == Err(TileListMissing) && unchanged(board)
      ensures tiles.Some? ==>
        var k := FindPlayer(old(players), playerId).value;
        board.cells == LockedCells(old(board.cells), PlacementPositions(tiles.value)) &&
        (r.Err? <==> |old(board.tileBag)| < RackSize - |old(players)[k].rack|)
      ensures r.Err? ==> State() == old(State())
      ensures r.Err? && tiles.Some? ==> r == Err(NotEnoughTiles) && board.tileBag == old(board.tileBag)
      ensures r.Ok? ==> tiles.Some? && r.value.move == GameMove(playerId, Pass, |old(moves)|, [], [], map[])
      ensures r.Ok? ==>
        var k := FindPlayer(old(players), playerId).value;
        |r.value.tilesDrawn| == Clamp(RackSize - |old(players)[k].rack|) &&
        multiset(r.value.tilesDrawn) + multiset(board.tileBag) == multiset(old(board.tileBag)) &&
        State() == AfterRefill(old(State()).(players := Refilled(old(players), k, r.value.tilesDrawn)), moves, |board.tileBag|)
    {
      var k := FindPlayer(players, playerId).value;
      var move := CreateGameMove(playerId, Some(Pass), |moves|, [], []).value;
      moves := moves + [move];
      if tiles.None? {
        return Err(TileListMissing);
      }
      r := CompleteTurn(k, tiles.value, move);
    }

    /** The RESIGN branch of `processTurn`, after the pre-checks: record the
        move and finalize the game, drawing nothing. */
    method ResignTurn(k: nat, playerId: UserId) returns (r: Result<TurnResult>)
      requires Valid() && k < |players| && status == InProgress
      modifies this`moves, this`status, this`winner
      ensures Valid()
      ensures moves == old(moves) + [GameMove(playerId, Resign, |old(moves)|, [], [], map[])]
      ensures r == Ok(TurnResult(GameMove(playerId, Resign, |old(moves)|, [], [], map[]), []))
      ensures status == Finished &&
        winner == Finalized(players, NewestMoveType(moves, |players|), old(winner)).winner
    {
      var move := CreateGameMove(playerId, Some(Resign), |moves|, [], []).value;
      moves := moves + [move];
      var _ := FinalizeGame();
      r := Ok(TurnResult(move, []));
    }

    /** The branch of `processTurn` for a move type `createMove` knows, once
        the pre-checks have found the caller in a game in progress. */
    method PlayTurn(playerId: UserId, moveType: string, tiles: Option<seq<Placement>>, tileDocs: map<TileId, Tile>)
      returns (r: Result<TurnResult>)
      requires Valid() && status == InProgress && FindPlayer(players, playerId).Some?
      requires ParseMoveType(moveType).Some? && (ParseMoveType(moveType) == Some(Place) ==> tiles.Some?)
      modifies this`moves, this`players, this`status, this`winner, this`currentTurnIndex
      modifies board`cells, board`boardState, board`tileBag
      ensures Valid()
      ensures |players| == |old(players)| && Ids(players) == Ids(old(players))
      ensures ParseMoveType(moveType) == Some(Place) && old(WithTileIds(board, tiles.value)).Err? ==>
        r == Err(old(WithTileIds(board, tiles.value)).error) && unchanged(this) && unchanged(board)
      ensures ParseMoveType(moveType) == Some(Place) && old(WithTileIds(board, tiles.value)).Ok? &&
              AnyBlocked(old(board.cells), old(WithTileIds(board, tiles.value)).value) ==>
        r.Err? && moves == old(moves) && board.boardState == old(board.boardState) &&
        StoppedAt(old(board.cells), board.cells, old(WithTileIds(board, tiles.value)).value, r.error)
      ensures ParseMoveType(moveType) == Some(Place) && old(WithTileIds(board, tiles.value)).Ok? &&
              !AnyBlocked(old(board.cells), old(WithTileIds(board, tiles.value)).value) ==>
        var placed := old(WithTileIds(board, tiles.value)).value; var k := FindPlayer(old(players), playerId).value;
        board.cells == LockedCells(Written(old(board.cells), placed), PlacementPositions(tiles.value)) &&
        board.boardState == ApplyUpdates(old(board.boardState), Clearing(placed), map[]) &&
        moves == old(moves) + [CreateGameMove(playerId, Some(Place), |old(moves)|,
                                              WordsOf(WordsFor(board.boardState, PlacementPositions(tiles.value))),
                                              TilesFromIds(tileDocs, TileIdsOf(placed))).value] &&
        (r.Err? <==> |old(board.tileBag)| < RackSize - |old(players)[k].rack|)
      ensures ParseMoveType(moveType) == Some(Pass) && tiles.None? ==>
        r == Err(TileListMissing) && unchanged(board) &&
        moves == old(moves) + [GameMove(playerId, Pass, |old(moves)|, [], [], map[])]
      ensures ParseMoveType(moveType) == Some(Pass) && tiles.Some? ==>
        var k := FindPlayer(old(players), playerId).value;
        board.cells == LockedCells(old(board.cells), PlacementPositions(tiles.value)) &&
        board.boardState == old(board.boardState) &&
        moves == old(moves) + [GameMove(playerId, Pass, |old(moves)|, [], [], map[])] &&
        (r.Err? <==> |old(board.tileBag)| < RackSize - |old(players)[k].rack|)
      ensures r.Err? ==>
        players == old(players) && status == old(status) && winner == old(winner) && currentTurnIndex == old(currentTurnIndex)
      ensures r.Err? &&
              ((ParseMoveType(moveType) == Some(Place) && old(WithTileIds(board, tiles.value)).Ok? &&
                !AnyBlocked(old(board.cells), old(WithTileIds(board, tiles.value)).value)) ||
               (ParseMoveType(moveType) == Some(Pass) && tiles.Some?)) ==>
        r == Err(NotEnoughTiles) && board.tileBag == old(board.tileBag)
      ensures r.Ok? ==>
        (moves == old(moves) + [r.value.move] && r.value.move.playerId == playerId &&
         r.value.move.moveCount == |old(moves)| && Some(r.value.move.moveType) == ParseMoveType(moveType))
      ensures r.Ok? ==> multiset(r.value.tilesDrawn) + multiset(board.tileBag) == multiset(old(board.tileBag))
      ensures r.Ok? && ParseMoveType(moveType) == Some(Place) ==>
        tiles.Some? && old(WithTileIds(board, tiles.value)).Ok? &&
        var placed := old(WithTileIds(board, tiles.value)).value;
        board.cells == LockedCells(Written(old(board.cells), placed), PlacementPositions(tiles.value)) &&
        board.boardState == ApplyUpdates(old(board.boardState), Clearing(placed), map[]) &&
        r.value.move.words == WordsOf(WordsFor(board.boardState, PlacementPositions(tiles.value))) &&
        r.value.move.tiles == TilesFromIds(tileDocs, TileIdsOf(placed))
      ensures r.Ok? && ParseMoveType(moveType) == Some(Place) ==>
        forall i :: 0 <= i < |tiles.value| ==>
          var p := Pos(tiles.value[i].row, tiles.value[i].col); p in board.cells && board.cells[p].isLocked
      ensures r.Ok? && ParseMoveType(moveType) == Some(Resign) ==>
        r.value.tilesDrawn == [] && State() == Finish(old(State()), moves) && unchanged(board)
      ensures r.Ok? && ParseMoveType(moveType) != Some(Resign) ==>
        var k := FindPlayer(old(players), playerId).value;
        |r.value.tilesDrawn| == Clamp(RackSize - |old(players)[k].rack|) &&
        State() == AfterRefill(old(State()).(players := Refilled(old(players), k, r.value.tilesDrawn)), moves, |board.tileBag|)
    {
      match ParseMoveType(moveType).value
      case Place =>
        r := PlaceTurn(playerId, tiles.value, tileDocs);
      case Pass =>
        r := PassTurn(playerId, tiles);
      case Resign =>
        r := ResignTurn(FindPlayer(players, playerId).value, playerId);
    }

    /** `processTurn`: the pre-checks, then the branch for the move type; a
        type `createMove` does not know is refused before anything is written. */
    method ProcessTurn(playerId: UserId, moveType: string, tiles: Option<seq<Placement>>, tileDocs: map<TileId, Tile>)
      returns (r: Result<TurnResult>)
      requires Valid()
      modifies this`moves, this`players, this`status, this`winner, this`currentTurnIndex
      modifies board`cells, board`boardState, board`tileBag
      ensures Valid()
      ensures |players| == |old(players)| && Ids(players) == Ids(old(players))
      ensures old(TurnCheck(playerId, moveType, tiles)).Err? ==>
        r == Err(old(TurnCheck(playerId, moveType, tiles)).error) && unchanged(this) && unchanged(board)
      ensures old(TurnCheck(playerId, moveType, tiles)).Ok? && ParseMoveType(moveType).None? ==>
        r == Err(InvalidMoveType) && unchanged(this) && unchanged(board)
      ensures old(TurnCheck(playerId, moveType, tiles)).Ok? && ParseMoveType(moveType) == Some(Place) && old(WithTileIds(board, tiles.value)).Err? ==>
        r == Err(old(WithTileIds(board, tiles.value)).error) && unchanged(this) && unchanged(board)
      ensures old(TurnCheck(playerId, moveType, tiles)).Ok? && ParseMoveType(moveType) == Some(Place) && old(WithTileIds(board, tiles.value)).Ok? &&
              AnyBlocked(old(board.cells), old(WithTileIds(board, tiles.value)).value) ==>
        r.Err? && moves == old(moves) && board.boardState == old(board.boardState) &&
        StoppedAt(old(board.cells), board.cells, old(WithTileIds(board, tiles.value)).value, r.error)
      ensures old(TurnCheck(playerId, moveType, tiles)).Ok? && ParseMoveType(moveType) == Some(Place) && old(WithTileIds(board, tiles.value)).Ok? &&
              !AnyBlocked(old(board.cells), old(WithTileIds(board, tiles.value)).value) ==>
        var placed := old(WithTileIds(board, tiles.value)).value; var k := FindPlayer(old(players), playerId).value;
        board.cells == LockedCells(Written(old(board.cells), placed), PlacementPositions(tiles.value)) &&
        board.boardState == ApplyUpdates(old(board.boardState), Clearing(placed), map[]) &&
        moves == old(moves) + [CreateGameMove(playerId, Some(Place), |old(moves)|,
                                              WordsOf(WordsFor(board.boardState, PlacementPositions(tiles.value))),
                                              TilesFromIds(tileDocs, TileIdsOf(placed))).value] &&
        (r.Err? <==> |old(board.tileBag)| < RackSize - |old(players)[k].rack|)
      ensures old(TurnCheck(playerId, moveType, tiles)).Ok? && ParseMoveType(moveType) == Some(Pass) && tiles.None? ==>
        r == Err(TileListMissing) && unchanged(board) &&
        moves == old(moves) + [GameMove(playerId, Pass, |old(moves)|, [], [], map[])]
      ensures old(TurnCheck(playerId, moveType, tiles)).Ok? && ParseMoveType(moveType) == Some(Pass) && tiles.Some? ==>
        var k := FindPlayer(old(players), playerId).value;
        board.cells == LockedCells(old(board.cells), PlacementPositions(tiles.value)) &&
        board.boardState == old(board.boardState) &&
        moves == old(moves) + [GameMove(playerId, Pass, |old(moves)|, [], [], map[])] &&
        (r.Err? <==> |old(board.tileBag)| < RackSize - |old(players)[k].rack|)
      ensures r.Err? ==>
        players == old(players) && status == old(status) && winner == old(winner) && currentTurnIndex == old(currentTurnIndex)
      ensures r.Err? && old(TurnCheck(playerId, moveType, tiles)).Ok? && 
              ((ParseMoveType(moveType) == Some(Place) && old(WithTileIds(board, tiles.value)).Ok? &&
                !AnyBlocked(old(board.cells), old(WithTileIds(board, tiles.value)).value)) ||
               (ParseMoveType(moveType) == Some(Pass) && tiles.Some?)) ==>
        r == Err(NotEnoughTiles) && board.tileBag == old(board.tileBag)
      ensures r.Ok? ==>
        (old(TurnCheck(playerId, moveType, tiles)).Ok? &&
         moves == old(moves) + [r.value.move] && r.value.move.playerId == playerId &&
         r.value.move.moveCount == |old(moves)| && Some(r.value.move.moveType) == ParseMoveType(moveType))
      ensures r.Ok? ==> multiset(r.value.tilesDrawn) + multiset(board.tileBag) == multiset(old(board.tileBag))
      ensures r.Ok? && ParseMoveType(moveType) == Some(Place) ==>
        tiles.Some? && old(WithTileIds(board, tiles.value)).Ok? &&
        var placed := old(WithTileIds(board, tiles.value)).value;
        board.cells == LockedCells(Written(old(board.cells), placed), PlacementPositions(tiles.value)) &&
        board.boardState == ApplyUpdates(old(board.boardState), Clearing(placed), map[]) &&
        r.value.move.words == WordsOf(WordsFor(board.boardState, PlacementPositions(tiles.value))) &&
        r.value.move.tiles == TilesFromIds(tileDocs, TileIdsOf(placed))
      ensures r.Ok? && ParseMoveType(moveType) == Some(Place) ==>
        forall i :: 0 <= i < |tiles.value| ==>
          var p := Pos(tiles.value[i].row, tiles.value[i].col); p in board.cells && board.cells[p].isLocked
      ensures r.Ok? && ParseMoveType(moveType) == Some(Resign) ==>
        r.value.tilesDrawn == [] && State() == Finish(old(State()), moves) && unchanged(board)
      ensures r.Ok? && ParseMoveType(moveType) != Some(Resign) ==>
        var k := FindPlayer(old(players), playerId).value;
        |r.value.tilesDrawn| == Clamp(RackSize - |old(players)[k].rack|) &&
        State() == AfterRefill(old(State()).(players := Refilled(old(players), k, r.value.tilesDrawn)), moves, |board.tileBag|)
    {
      var v := ValidateTurn(status, players, |moves|, board.boardSize, playerId, moveType, tiles);
      if v.Err? {
        return Err(v.error);
      }
      match ParseMoveType(moveType)
      case None =>
        r := Err(InvalidMoveType);
      case Some(_) =>
        r := PlayTurn(playerId, moveType, tiles, tileDocs);
    }
  }

  // ---------------------------------------------------------------------
  // initializeGame

  /** The bag a new board starts with holds 30 tiles. */
  lemma BoardBagSize()
    ensures |Expand(BoardDistribution)| == 30
  {
    ExpandLength(BoardDistribution);
    assert BoardDistribution[1..][1..][1..] == [];
  }

  /** `initializeGame`: deduplicate the ids keeping first occurrences,
      refuse fewer than two, create the board and the game, seat each player
      (active exactly when it is the creator) and deal it seven tiles, then
      start the game. Dealing fails once the 30-tile bag runs short, that is
      for more than four players. */
  method InitializeGame(createdBy: UserId, playerIds: seq<UserId>) returns (r: Result<GameSession>)
    ensures r.Err? <==> |FromSeq(playerIds)| < 2 || RackSize * |FromSeq(playerIds)| > 30
    ensures |FromSeq(playerIds)| < 2 ==> r == Err(TooFewPlayers)
    ensures r.Err? && |FromSeq(playerIds)| >= 2 ==> r.error == NotEnoughTiles
    ensures r.Ok? ==>
      fresh(r.value) && fresh(r.value.board) && r.value.Valid() &&
      r.value.createdBy == createdBy && Ids(r.value.players) == FromSeq(playerIds) &&
      r.value.status == InProgress && r.value.moves == [] && r.value.currentTurnIndex == 0 &&
      r.value.winner.None? && r.value.board.boardSize == DefaultBoardSize && r.value.board.cells == map[]
    ensures r.Ok? ==> forall i :: 0 <= i < |r.value.players| ==> Seated(r.value.players[i], createdBy)
    ensures r.Ok? ==>
      RackTiles(r.value.players) + multiset(r.value.board.tileBag) == multiset(Expand(BoardDistribution))
  {
    var ids := FromSeq(playerIds);
    if |ids| < 2 {
      return Err(TooFewPlayers);
    }
    var board := new Board.InitializeBoard(DefaultBoardSize);
    BoardBagSize();
    var g := new GameSession(createdBy, board);
    var seated := g.SeatPlayers(ids);
    if seated.Err? {
      return Err(seated.error);
    }
    g.status := InProgress;
    r := Ok(g);
  }

  /** As written, `initializeGame` creates the player documents but never
      links them into the game record, so the list `processTurn` searches is
      empty and every turn is refused as coming from a player outside the
      game. */
  lemma UnlinkedPlayersRefuseEveryTurn(moveCount: nat, size: int, playerId: UserId, moveType: string,
                                       tiles: Option<seq<Placement>>)
    ensures ValidateTurn(InProgress, [], moveCount, size, playerId, moveType, tiles) == Err(PlayerNotInGame)
  {
  }

  /** With the players linked, the creator (when among the ids) may make the
      first PASS or RESIGN, and nobody else may. */
  lemma LinkedCreatorMovesFirst(g: GameSession, playerId: UserId, moveType: string, tiles: Option<seq<Placement>>)
    requires g.status == InProgress && g.moves == []
    requires forall i :: 0 <= i < |g.players| ==> (g.players[i].isActive <==> g.players[i].userId == g.createdBy)
    requires moveType != "PLACE"
    ensures ValidateTurn(g.status, g.players, |g.moves|, g.board.boardSize, playerId, moveType, tiles).Ok? <==>
      playerId == g.createdBy && g.createdBy in Ids(g.players)
  {
    OnlyCreatorMovesFirst(g.players, g.createdBy, playerId, 0, g.board.boardSize, moveType, tiles);
    if g.createdBy in Ids(g.players) {
      var i :| 0 <= i < |g.players| && Ids(g.players)[i] == g.createdBy;
    }
  }
}

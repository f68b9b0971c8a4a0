/** Move construction: `MovesService.createMove`, its guards and numbering,
    the score as the sum of the tiles' point values, the dictionary lookup as
    an oracle, and the Move schema's validator and defaults. */
module Moves {
  import opened Common
  import opened Tiles

  datatype MoveType = Place | Pass | Resign

  /** The move type as a request spells it; anything else is no move type. */
  function ParseMoveType(s: string): (r: Option<MoveType>)
    ensures r == Some(Place) <==> s == "PLACE"
    ensures r == Some(Pass) <==> s == "PASS"
    ensures r == Some(Resign) <==> s == "RESIGN"
    ensures r.None? <==> s != "PLACE" && s != "PASS" && s != "RESIGN"
  {
    if s == "PLACE" then Some(Place)
    else if s == "PASS" then Some(Pass)
    else if s == "RESIGN" then Some(Resign)
    else None
  }

  /** A stored move. `moveType` and `moveNumber` are required, so every
      value of this type has them; `word` and `score` may be null. */
  datatype Move = Move(
    gameId: string,
    playerId: UserId,
    moveType: MoveType,
    word: Option<string>,
    score: Option<int>,
    tiles: seq<TileId>,
    moveNumber: int)

  /** The schema's `tiles` validator: a PLACE move needs at least one tile,
      any other move none. */
  predicate TilesValid(moveType: MoveType, tiles: seq<TileId>) {
    if moveType == Place then |tiles| > 0 else |tiles| == 0
  }

  /** A move built with only the required fields: `word` and `score` take
      their default null and `tiles` its default empty list. */
  function WithDefaults(gameId: string, playerId: UserId, moveType: MoveType, moveNumber: int): (m: Move)
    ensures m.word.None? && m.score.None? && m.tiles == []
    ensures m.moveType == moveType && m.moveNumber == moveNumber
    ensures moveType != Place ==> TilesValid(m.moveType, m.tiles)
  {
    Move(gameId, playerId, moveType, None, None, [], moveNumber)
  }

  /** The request `createMove` receives; `word` and `tiles` are optional. */
  datatype MoveRequest = MoveRequest(
    gameId: string,
    playerId: UserId,
    moveType: string,
    word: Option<string>,
    tiles: Option<seq<TileId>>)

  /** JavaScript truthiness of an optional string: present and not empty. */
  predicate Truthy(w: Option<string>) {
    w.Some? && w.value != ""
  }

  /** What the dictionary service answers for a word: a response with an
      HTTP status and a number of entries, or a failed request. */
  datatype DictionaryAnswer = Response(status: int, entries: nat) | Failure

  /** `validateWord`: a word is valid only on a 200 answer with at least one
      entry; a failed request counts as invalid. */
  predicate ValidateWord(answer: DictionaryAnswer) {
    answer.Response? && answer.status == 200 && answer.entries > 0
  }

  /** The tiles the store holds for the given ids, in order, when it holds
      all of them. */
  function LookUp(store: map<TileId, Tile>, ids: seq<TileId>): (r: seq<Tile>)
    requires forall i :: 0 <= i < |ids| ==> ids[i] in store
    ensures |r| == |ids|
    ensures forall i :: 0 <= i < |ids| ==> r[i] == store[ids[i]]
  {
    seq(|ids|, i requires 0 <= i < |ids| => store[ids[i]])
  }

  /** The `reduce` of `calculateScore`: point values added from a zero start. */
  function SumPoints(ts: seq<Tile>): int {
    if ts == [] then 0 else ts[0].pointValue + SumPoints(ts[1..])
  }

  /** `calculateScore`: fetch every tile (a missing one fails the call) and
      add up their point values. */
  function CalculateScore(store: map<TileId, Tile>, ids: seq<TileId>): (r: Result<int>)
    ensures r.Ok? <==> forall i :: 0 <= i < |ids| ==> ids[i] in store
    ensures r.Ok? ==> r.value == SumPoints(LookUp(store, ids))
    ensures r.Err? ==> exists i :: 0 <= i < |ids| && ids[i] !in store && r.error == TileNotFound(ids[i])
  {
    if ids == [] then Ok(0)
    else if ids[0] !in store then Err(TileNotFound(ids[0]))
    else
      var rest := CalculateScore(store, ids[1..]);
      if rest.Err? then
        assert exists i :: 0 <= i < |ids[1..]| && ids[1..][i] !in store && rest.error == TileNotFound(ids[1..][i]);
        Err(rest.error)
      else
        assert LookUp(store, ids)[1..] == LookUp(store, ids[1..]);
        Ok(store[ids[0]].pointValue + rest.value)
  }

  /** The score of two batches of tiles is the sum of their scores. */
  lemma {:induction false} SumPointsAppend(a: seq<Tile>, b: seq<Tile>)
    ensures SumPoints(a + b) == SumPoints(a) + SumPoints(b)
  {
    if a == [] {
      assert a + b == b;
    } else {
      assert (a + b)[0] == a[0] && (a + b)[1..] == a[1..] + b;
      SumPointsAppend(a[1..], b);
    }
  }

  /** When every tile is worth at least one point, the score is at least the
      number of tiles; so a non-empty PLACE move over such tiles never meets
      the zero-score refusal. */
  lemma {:induction false} SumPointsAtLeastCount(ts: seq<Tile>)
    requires forall i :: 0 <= i < |ts| ==> ts[i].pointValue >= 1
    ensures SumPoints(ts) >= |ts|
  {
    if ts != [] {
      SumPointsAtLeastCount(ts[1..]);
    }
  }

  /** `calculateScore` as written: it maps each id to a call of
      `boardService.getTileById`, a method BoardService does not define, so
      any non-empty list fails; an empty one sums to 0. */
  function ScoreAsWritten(ids: seq<TileId>): (r: Result<int>)
    ensures r.Ok? <==> ids == []
    ensures r.Ok? ==> r.value == 0
    ensures r.Err? ==> r.error == MethodUndefined
  {
    if ids == [] then Ok(0) else Err(MethodUndefined)
  }

  /** `createMove` on a request, given the number of moves the game has
      recorded (none when `findById` finds no game), the caller's `isActive`
      flag (none when `getPlayer` finds no record), the dictionary's answer
      for each word, and the scoring call. `findById` and `getPlayer` throw
      their own not-found errors, so the "Game not found" and "Player not part
      of this game" checks after them never fire. */
  function CreateMove(req: MoveRequest, moveCount: Option<nat>, isActive: Option<bool>,
                      dictionary: string -> DictionaryAnswer, score: seq<TileId> -> Result<int>): (r: Result<Move>)
    ensures moveCount.None? ==> r == Err(GameNotFound)
    ensures moveCount.Some? && isActive.None? ==> r == Err(PlayerNotFound)
    ensures moveCount.Some? && isActive == Some(false) ==> r == Err(NotYourTurn)
    ensures moveCount.Some? && isActive == Some(true) && ParseMoveType(req.moveType).None? ==> r == Err(InvalidMoveType)
    ensures moveCount.Some? && isActive == Some(true) && ParseMoveType(req.moveType) == Some(Place) ==>
      (r.Ok? <==> (Truthy(req.word) && req.tiles.Some? && req.tiles.value != [] &&
                   ValidateWord(dictionary(req.word.value)) &&
                   score(req.tiles.value).Ok? && score(req.tiles.value).value != 0))
    ensures (moveCount.Some? && isActive == Some(true) && ParseMoveType(req.moveType) == Some(Place) &&
             !(Truthy(req.word) && req.tiles.Some? && req.tiles.value != [])) ==>
      r == Err(WordAndTilesRequired)
    ensures (moveCount.Some? && isActive == Some(true) && ParseMoveType(req.moveType) == Some(Place) &&
             Truthy(req.word) && req.tiles.Some? && req.tiles.value != [] &&
             !ValidateWord(dictionary(req.word.value))) ==>
      r == Err(InvalidWord)
    ensures (moveCount.Some? && isActive == Some(true) && ParseMoveType(req.moveType) == Some(Place) &&
             Truthy(req.word) && req.tiles.Some? && req.tiles.value != [] &&
             ValidateWord(dictionary(req.word.value)) && score(req.tiles.value).Err?) ==>
      r == Err(score(req.tiles.value).error)
    ensures (moveCount.Some? && isActive == Some(true) && ParseMoveType(req.moveType) == Some(Place) &&
             Truthy(req.word) && req.tiles.Some? && req.tiles.value != [] &&
             ValidateWord(dictionary(req.word.value)) &&
             score(req.tiles.value).Ok? && score(req.tiles.value).value == 0) ==>
      r == Err(ScoreCalculationFailed)
    ensures moveCount.Some? && isActive == Some(true) && ParseMoveType(req.moveType) in {Some(Pass), Some(Resign)} ==>
      (r.Ok? <==> !Truthy(req.word) && (req.tiles.None? || req.tiles.value == [])) &&
      (r.Err? ==> r.error == ContentNotAllowed)
    ensures r.Ok? ==>
      (Some(r.value.moveType) == ParseMoveType(req.moveType) &&
       r.value.gameId == req.gameId && r.value.playerId == req.playerId &&
       r.value.moveNumber == moveCount.value + 1 && TilesValid(r.value.moveType, r.value.tiles))
    ensures r.Ok? && r.value.moveType == Place ==>
      (r.value.word == req.word && req.tiles.Some? && r.value.tiles == req.tiles.value &&
       r.value.score.Some? && score(req.tiles.value) == Ok(r.value.score.value) &&
       r.value.score.value != 0)
    ensures r.Ok? && r.value.moveType != Place ==>
      r.value.word.None? && r.value.score.None? && r.value.tiles == []
  {
    if moveCount.None? then Err(GameNotFound)
    else if isActive.None? then Err(PlayerNotFound)
    else if !isActive.value then Err(NotYourTurn)
    else
      var n := moveCount.value;
      match ParseMoveType(req.moveType)
      case Some(Place) =>
        if !Truthy(req.word) || req.tiles.None? || |req.tiles.value| == 0 then Err(WordAndTilesRequired)
        else if !ValidateWord(dictionary(req.word.value)) then Err(InvalidWord)
        else
          var points := score(req.tiles.value);
          if points.Err? then Err(points.error)
          else if points.value == 0 then Err(ScoreCalculationFailed)
          else Ok(Move(req.gameId, req.playerId, Place, req.word, Some(points.value), req.tiles.value, n + 1))
      case Some(kind) =>
        if Truthy(req.word) || (req.tiles.Some? && |req.tiles.value| > 0) then Err(ContentNotAllowed)
        else Ok(WithDefaults(req.gameId, req.playerId, kind, n + 1))
      case None => Err(InvalidMoveType)
  }

  /** As written, no PLACE move is ever created: the word and tile checks
      and the dictionary may pass, but the scoring call then fails. */
  lemma {:induction false} PlaceRefusedAsWritten(req: MoveRequest, moveCount: Option<nat>, isActive: Option<bool>,
                                                 dictionary: string -> DictionaryAnswer)
    requires ParseMoveType(req.moveType) == Some(Place)
    ensures CreateMove(req, moveCount, isActive, dictionary, ScoreAsWritten).Err?
    ensures moveCount.Some? && isActive == Some(true) && Truthy(req.word) && req.tiles.Some? &&
            req.tiles.value != [] && ValidateWord(dictionary(req.word.value)) ==>
      CreateMove(req, moveCount, isActive, dictionary, ScoreAsWritten) == Err(MethodUndefined)
  {
    if moveCount.Some? && isActive == Some(true) && Truthy(req.word) && req.tiles.Some? && req.tiles.value != [] {
      assert ScoreAsWritten(req.tiles.value).Err?;
    }
  }

  /** Two moves accepted one after the other, the first recorded before the
      second is built, carry consecutive move numbers. */
  lemma ConsecutiveNumbers(a: MoveRequest, b: MoveRequest, count: nat,
                           dictionary: string -> DictionaryAnswer, score: seq<TileId> -> Result<int>)
    requires CreateMove(a, Some(count), Some(true), dictionary, score).Ok?
    requires CreateMove(b, Some(count + 1), Some(true), dictionary, score).Ok?
    ensures CreateMove(b, Some(count + 1), Some(true), dictionary, score).value.moveNumber ==
            CreateMove(a, Some(count), Some(true), dictionary, score).value.moveNumber + 1
  {
  }

  /** Read as a lookup in the tile collection, the scoring call lets a PLACE
      move over tiles that are all in the collection and all worth at least
      one point be refused only for a missing word or tile list or for a word
      the dictionary rejects. */
  lemma PlaceAcceptedWhenScored(req: MoveRequest, count: nat, dictionary: string -> DictionaryAnswer, store: map<TileId, Tile>)
    requires ParseMoveType(req.moveType) == Some(Place)
    requires Truthy(req.word) && req.tiles.Some? && req.tiles.value != []
    requires ValidateWord(dictionary(req.word.value))
    requires forall i :: 0 <= i < |req.tiles.value| ==> req.tiles.value[i] in store && store[req.tiles.value[i]].pointValue >= 1
    ensures CreateMove(req, Some(count), Some(true), dictionary, ids => CalculateScore(store, ids)).Ok?
  {
    var ts := LookUp(store, req.tiles.value);
    SumPointsAtLeastCount(ts);
  }
}

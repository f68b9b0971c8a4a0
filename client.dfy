/** The browser-side game service: it keeps the latest game state, folds the
    server's board updates into it, and turns a player's move into the socket
    event the server listens for. */
module Client {
  import opened Common
  import opened Board
  import opened Moves
  import opened Reducer

  /** An `updateBoard` message: the tiles placed, the words formed (the
      server may leave them out) and the move's score (possibly absent). */
  datatype UpdateMessage = UpdateMessage(tiles: seq<BoardTile>, words: Option<seq<string>>, score: Option<int>)

  datatype Event = PlaceTiles | PassTurn | ResignGame

  /** One socket emission: the event and its `{ gameId, playerId, tiles }` payload. */
  datatype Emission = Emission(event: Event, gameId: string, playerId: string, tiles: Option<seq<MoveTile>>)

  function KeyOf(t: BoardTile): Pos {
    Pos(t.row, t.col)
  }

  /** `tiles.reduce((acc, tile) => { acc["row-col"] = tile; ... }, {})`: each
      tile under its position, a later tile replacing an earlier one. */
  function KeyTiles(ts: seq<BoardTile>): (m: map<Pos, BoardTile>)
    ensures m.Keys == set t | t in ts :: KeyOf(t)
    ensures forall p :: p in m ==> m[p] in ts && KeyOf(m[p]) == p
    decreases |ts|
  {
    if ts == [] then map[]
    else
      var init := ts[..|ts| - 1];
      var last := ts[|ts| - 1];
      assert forall t :: t in ts <==> t in init || t == last;
      KeyTiles(init)[KeyOf(last) := last]
  }

  /** The entry at a position is the LAST tile sent for it. */
  lemma {:induction false} KeyTilesLastWins(ts: seq<BoardTile>, i: nat)
    requires i < |ts|
    requires forall j :: i < j < |ts| ==> KeyOf(ts[j]) != KeyOf(ts[i])
    ensures KeyOf(ts[i]) in KeyTiles(ts) && KeyTiles(ts)[KeyOf(ts[i])] == ts[i]
    decreases |ts|
  {
    if i < |ts| - 1 {
      var init := ts[..|ts| - 1];
      KeyTilesLastWins(init, i);
      assert KeyOf(ts[|ts| - 1]) != KeyOf(ts[i]);
    }
  }

  /** `tile => ({ row, col, letter })`. */
  function Strip(t: BoardTile): MoveTile {
    MoveTile(t.row, t.col, t.letter)
  }

  function StripAll(ts: seq<BoardTile>): (r: seq<MoveTile>)
    ensures |r| == |ts| && forall i :: 0 <= i < |ts| ==> r[i] == Strip(ts[i])
    decreases |ts|
  {
    if ts == [] then [] else [Strip(ts[0])] + StripAll(ts[1..])
  }

  /** The state `handleBoardUpdate` publishes when a state is present:
      the board replaced by the update's tiles, one PLACE move appended
      (stamped `now`), every other field as it was. */
  function BoardUpdated(s: GameState, u: UpdateMessage, now: string): (r: GameState)
    ensures r.boardState.Keys == set t | t in u.tiles :: KeyOf(t)
    ensures forall p :: p in r.boardState ==> r.boardState[p] in u.tiles && KeyOf(r.boardState[p]) == p
    ensures |r.moves| == |s.moves| + 1 && r.moves[..|s.moves|] == s.moves
    ensures r.moves[|s.moves|].moveType == Place && r.moves[|s.moves|].score == u.score
    ensures r.moves[|s.moves|].timestamp == now
    ensures r.moves[|s.moves|].words == (if u.words.Some? then u.words.value else [])
    ensures |r.moves[|s.moves|].tiles| == |u.tiles|
    ensures forall i :: 0 <= i < |u.tiles| ==>
      r.moves[|s.moves|].tiles[i] == MoveTile(u.tiles[i].row, u.tiles[i].col, u.tiles[i].letter)
    ensures r.(boardState := s.boardState, moves := s.moves) == s
  {
    var words := if u.words.Some? then u.words.value else [];
    s.(boardState := KeyTiles(u.tiles),
       moves := s.moves + [MoveView(words, StripAll(u.tiles), u.score, Place, now)])
  }

  /** Two updates in a row: the board is the second one's alone, and both
      moves are logged in arrival order. */
  lemma SecondUpdateReplacesBoard(s: GameState, u: UpdateMessage, v: UpdateMessage, n1: string, n2: string)
    ensures BoardUpdated(BoardUpdated(s, u, n1), v, n2).boardState == KeyTiles(v.tiles)
    ensures BoardUpdated(BoardUpdated(s, u, n1), v, n2).moves ==
            s.moves + [BoardUpdated(s, u, n1).moves[|s.moves|], BoardUpdated(s, v, n2).moves[|s.moves|]]
  {
    var once := BoardUpdated(s, u, n1);
    assert once.moves[..|s.moves|] == s.moves;
  }

  /** The move type the server records for each event. */
  function EventMoveType(e: Event): MoveType {
    match e
    case PlaceTiles => Place
    case PassTurn => Pass
    case ResignGame => Resign
  }

  /** `processTurn`'s branches once a socket is present. A tile list that
      was passed counts even when it is empty; only an absent one stops a
      PLACE. */
  function Route(gameId: string, playerId: string, moveType: MoveType, tiles: Option<seq<MoveTile>>): (r: Option<Emission>)
    ensures r.None? <==> moveType == Place && tiles.None?
    ensures r.Some? ==> r.value.gameId == gameId && r.value.playerId == playerId && r.value.tiles == tiles
    ensures r.Some? ==> EventMoveType(r.value.event) == moveType
  {
    if moveType.Place? && tiles.Some? then Some(Emission(PlaceTiles, gameId, playerId, tiles))
    else if moveType.Pass? then Some(Emission(PassTurn, gameId, playerId, tiles))
    else if moveType.Resign? then Some(Emission(ResignGame, gameId, playerId, tiles))
    else None
  }

  /** Each move type has its own event: two routed moves that differ in
      type never share an event. */
  lemma RouteSeparatesTypes(gameId: string, playerId: string, m1: MoveType, m2: MoveType, tiles: Option<seq<MoveTile>>)
    requires Route(gameId, playerId, m1, tiles).Some? && Route(gameId, playerId, m2, tiles).Some?
    ensures Route(gameId, playerId, m1, tiles).value.event == Route(gameId, playerId, m2, tiles).value.event <==> m1 == m2
  {
  }

  /** The service object: the latest game state (null until set), whether a
      game socket is open, and the events emitted on it so far. */
  class GameClient {
    var gameState: Option<GameState>
    const socketOpen: bool
    var sent: seq<Emission>

    constructor (socketOpen: bool)
      ensures gameState.None? && this.socketOpen == socketOpen && sent == []
    {
      gameState := None;
      this.socketOpen := socketOpen;
      sent := [];
    }

    /** `setGameState`. */
    method SetGameState(s: GameState)
      modifies this`gameState
      ensures gameState == Some(s)
    {
      gameState := Some(s);
    }

    /** `handleBoardUpdate`: nothing happens while no state is held. */
    method HandleBoardUpdate(u: UpdateMessage, now: string)
      modifies this`gameState
      ensures old(gameState).None? ==> gameState.None?
      ensures old(gameState).Some? ==> gameState == Some(BoardUpdated(old(gameState).value, u, now))
    {
      if gameState.Some? {
        var updated := BoardUpdated(gameState.value, u, now);
        SetGameState(updated);
      }
    }

    /** `processTurn`: at most one event, and none without a socket. */
    method ProcessTurn(gameId: string, playerId: string, moveType: MoveType, tiles: Option<seq<MoveTile>>)
      modifies this`sent
      ensures !socketOpen ==> sent == old(sent)
      ensures socketOpen && Route(gameId, playerId, moveType, tiles).None? ==> sent == old(sent)
      ensures socketOpen && Route(gameId, playerId, moveType, tiles).Some? ==>
        sent == old(sent) + [Route(gameId, playerId, moveType, tiles).value]
    {
      if socketOpen {
        var e := Route(gameId, playerId, moveType, tiles);
        if e.Some? {
          sent := sent + [e.value];
        }
      }
    }
  }
}

/** The client's game store: the state the browser keeps about one game and
    the reducer that answers each dispatched action with a new state. Every
    case builds a fresh record by spreading the old one, so the model is a
    set of functions on an immutable `GameState`. */
module Reducer {
  import opened Common
  import opened Board
  import opened Moves

  datatype RackTile = RackTile(letter: string, pointValue: int)

  datatype PlayerView = PlayerView(userId: string, username: string, score: int,
                                   currentRack: seq<RackTile>, isActive: bool)

  /** A tile object stored in `boardState`. Tiles that arrive with a board
      update carry no `isLocked` field, hence the option. */
  datatype BoardTile = BoardTile(row: int, col: int, letter: string, isLocked: Option<bool>)

  datatype MoveTile = MoveTile(row: int, col: int, letter: string)

  datatype MoveView = MoveView(words: seq<string>, tiles: seq<MoveTile>, score: Option<int>,
                               moveType: MoveType, timestamp: string)

  /** The store's record. The first seven fields are the declared interface;
      `status`, `winner` and `error` are the fields the reducer adds at run
      time (absent until a case writes them). The `"row-col"` keys of
      `boardState` are positions. */
  datatype GameState = GameState(
    gameId: Option<string>,
    boardState: map<Pos, BoardTile>,
    players: seq<PlayerView>,
    currentPlayerId: Option<string>,
    isGameInProgress: bool,
    tileBag: seq<RackTile>,
    moves: seq<MoveView>,
    status: Option<string>,
    winner: Option<string>,
    error: Option<string>)

  /** A `Partial<GameState>`: each interface field either supplied or absent. */
  datatype Patch = Patch(
    gameId: Option<Option<string>>,
    boardState: Option<map<Pos, BoardTile>>,
    players: Option<seq<PlayerView>>,
    currentPlayerId: Option<Option<string>>,
    isGameInProgress: Option<bool>,
    tileBag: Option<seq<RackTile>>,
    moves: Option<seq<MoveView>>)

  /** The actions of the game store. `SetGameState` is declared beside the
      others but has no case in the reducer. */
  datatype Action =
    | InitializeGame(gameId: string, players: seq<PlayerView>)
    | UpdateGameState(patch: Patch)
    | PlayerMove(move: MoveView)
    | EndGame(winner: string, finalState: GameState)
    | GameError(error: string)
    | SetGameState(gameState: GameState)

  const InitialGameState: GameState :=
    GameState(None, map[], [], None, false, [], [], None, None, None)

  const NoChange: Patch := Patch(None, None, None, None, None, None, None)

  /** The state before any action: an empty board, no players, no tiles, no
      moves, no ids, not in progress, and none of the run-time fields. */
  lemma InitialStateEmpty()
    ensures InitialGameState.boardState == map[] && InitialGameState.players == []
    ensures InitialGameState.tileBag == [] && InitialGameState.moves == []
    ensures InitialGameState.gameId.None? && InitialGameState.currentPlayerId.None?
    ensures !InitialGameState.isGameInProgress
    ensures InitialGameState.status.None? && InitialGameState.winner.None? && InitialGameState.error.None?
  {
  }

  function Pick<T>(supplied: Option<T>, current: T): T {
    if supplied.Some? then supplied.value else current
  }

  /** `{ ...state, ...patch }`. */
  function Merge(s: GameState, p: Patch): (r: GameState)
    ensures r.status == s.status && r.winner == s.winner && r.error == s.error
    ensures p.moves.None? ==> r.moves == s.moves
    ensures p.moves.Some? ==> r.moves == p.moves.value
  {
    s.(gameId := Pick(p.gameId, s.gameId),
       boardState := Pick(p.boardState, s.boardState),
       players := Pick(p.players, s.players),
       currentPlayerId := Pick(p.currentPlayerId, s.currentPlayerId),
       isGameInProgress := Pick(p.isGameInProgress, s.isGameInProgress),
       tileBag := Pick(p.tileBag, s.tileBag),
       moves := Pick(p.moves, s.moves))
  }

  /** The patch that supplies every interface field of `t`. */
  function Whole(t: GameState): Patch {
    Patch(Some(t.gameId), Some(t.boardState), Some(t.players), Some(t.currentPlayerId),
          Some(t.isGameInProgress), Some(t.tileBag), Some(t.moves))
  }

  /** Two patches applied in turn: a field of the later one wins. */
  function Then(p: Patch, q: Patch): Patch {
    Patch(if q.gameId.Some? then q.gameId else p.gameId,
          if q.boardState.Some? then q.boardState else p.boardState,
          if q.players.Some? then q.players else p.players,
          if q.currentPlayerId.Some? then q.currentPlayerId else p.currentPlayerId,
          if q.isGameInProgress.Some? then q.isGameInProgress else p.isGameInProgress,
          if q.tileBag.Some? then q.tileBag else p.tileBag,
          if q.moves.Some? then q.moves else p.moves)
  }

  /** `updateGameState` overrides exactly the supplied fields: an empty patch
      changes nothing, a patch applied twice acts once, two patches act as
      their combination, and a whole state as patch replaces every interface
      field while the run-time fields stay. */
  lemma MergeLaws(s: GameState, t: GameState, p: Patch, q: Patch)
    ensures Merge(s, NoChange) == s
    ensures Merge(Merge(s, p), p) == Merge(s, p)
    ensures Merge(Merge(s, p), q) == Merge(s, Then(p, q))
    ensures Merge(s, Whole(t)) == t.(status := s.status, winner := s.winner, error := s.error)
  {
  }

  /** A field of the result differs from the old state only where the patch
      supplied it. */
  lemma MergeOnlySupplied(s: GameState, p: Patch)
    ensures p.gameId.None? ==> Merge(s, p).gameId == s.gameId
    ensures p.boardState.None? ==> Merge(s, p).boardState == s.boardState
    ensures p.players.None? ==> Merge(s, p).players == s.players
    ensures p.currentPlayerId.None? ==> Merge(s, p).currentPlayerId == s.currentPlayerId
    ensures p.isGameInProgress.None? ==> Merge(s, p).isGameInProgress == s.isGameInProgress
    ensures p.tileBag.None? ==> Merge(s, p).tileBag == s.tileBag
    ensures p.gameId.Some? ==> Merge(s, p).gameId == p.gameId.value
    ensures p.boardState.Some? ==> Merge(s, p).boardState == p.boardState.value
    ensures p.players.Some? ==> Merge(s, p).players == p.players.value
    ensures p.currentPlayerId.Some? ==> Merge(s, p).currentPlayerId == p.currentPlayerId.value
    ensures p.isGameInProgress.Some? ==> Merge(s, p).isGameInProgress == p.isGameInProgress.value
    ensures p.tileBag.Some? ==> Merge(s, p).tileBag == p.tileBag.value
  {
  }

  /** `gameReducer`: one dispatched action. */
  function Reduce(s: GameState, a: Action): (r: GameState)
    ensures a.InitializeGame? ==>
      r.gameId == Some(a.gameId) && r.players == a.players && r.status == Some("IN_PROGRESS") &&
      r.(gameId := s.gameId, players := s.players, status := s.status) == s
    ensures a.UpdateGameState? ==> r.status == s.status && r.winner == s.winner && r.error == s.error
    ensures a.PlayerMove? ==>
      |r.moves| == |s.moves| + 1 && r.moves[..|s.moves|] == s.moves && r.moves[|s.moves|] == a.move &&
      r.(moves := s.moves) == s
    ensures a.EndGame? ==>
      r.status == Some("ENDED") && r.winner == Some(a.winner) &&
      r.(status := a.finalState.status, winner := a.finalState.winner) == a.finalState
    ensures a.GameError? ==> r.error == Some(a.error) && r.(error := s.error) == s
    ensures a.SetGameState? ==> r == s
  {
    match a
    case InitializeGame(id, ps) => s.(gameId := Some(id), players := ps, status := Some("IN_PROGRESS"))
    case UpdateGameState(p) => Merge(s, p)
    case PlayerMove(m) => s.(moves := s.moves + [m])
    case EndGame(w, f) => f.(status := Some("ENDED"), winner := Some(w))
    case GameError(e) => s.(error := Some(e))
    case SetGameState(_) => s
  }

  /** `endGame` forgets the prior state entirely; `gameError` is idempotent;
      `initializeGame` twice with the same payload acts once. */
  lemma ReduceLaws(s: GameState, t: GameState, a: Action)
    ensures a.EndGame? ==> Reduce(s, a) == Reduce(t, a)
    ensures a.GameError? ==> Reduce(Reduce(s, a), a) == Reduce(s, a)
    ensures a.InitializeGame? ==> Reduce(Reduce(s, a), a) == Reduce(s, a)
  {
  }

  /** The store after dispatching `acts` in order. */
  function ReduceAll(s: GameState, acts: seq<Action>): GameState
    decreases |acts|
  {
    if acts == [] then s else ReduceAll(Reduce(s, acts[0]), acts[1..])
  }

  lemma {:induction false} ReduceAllAppend(s: GameState, a: seq<Action>, b: seq<Action>)
    ensures ReduceAll(s, a + b) == ReduceAll(ReduceAll(s, a), b)
    decreases |a|
  {
    if a != [] {
      assert (a + b)[0] == a[0] && (a + b)[1..] == a[1..] + b;
      ReduceAllAppend(Reduce(s, a[0]), a[1..], b);
    } else {
      assert a + b == b;
    }
  }

  /** Whatever was dispatched before, a final `endGame` leaves exactly its
      final state, marked ended, with the winner. */
  lemma EndGameLastWins(s: GameState, acts: seq<Action>, winner: string, finalState: GameState)
    ensures ReduceAll(s, acts + [EndGame(winner, finalState)]) ==
            finalState.(status := Some("ENDED"), winner := Some(winner))
  {
    ReduceAllAppend(s, acts, [EndGame(winner, finalState)]);
  }

  /** An action that leaves the move history alone or extends it. */
  predicate KeepsMoves(a: Action) {
    !a.EndGame? && !(a.UpdateGameState? && a.patch.moves.Some?)
  }

  /** The moves carried by the `playerMove` actions of `acts`, in order. */
  function Played(acts: seq<Action>): seq<MoveView>
    decreases |acts|
  {
    if acts == [] then []
    else (if acts[0].PlayerMove? then [acts[0].move] else []) + Played(acts[1..])
  }

  /** As long as no action replaces the history, the move log only grows,
      and by exactly the dispatched moves, in dispatch order. */
  lemma {:induction false} MovesAppendOnly(s: GameState, acts: seq<Action>)
    requires forall i :: 0 <= i < |acts| ==> KeepsMoves(acts[i])
    ensures ReduceAll(s, acts).moves == s.moves + Played(acts)
    decreases |acts|
  {
    if acts != [] {
      var head := if acts[0].PlayerMove? then [acts[0].move] else [];
      var t := Reduce(s, acts[0]);
      assert KeepsMoves(acts[0]);
      assert t.moves == s.moves + head;
      MovesAppendOnly(t, acts[1..]);
      assert Played(acts) == head + Played(acts[1..]);
      assert s.moves + head + Played(acts[1..]) == s.moves + (head + Played(acts[1..]));
    }
  }
}

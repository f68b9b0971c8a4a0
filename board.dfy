/** One game's board: the `boardState` dictionary of squares keyed by
    position, the per-position tile documents that placement and locking
    write, and the embedded bag of undrawn tiles. */
module Board {
  import opened Common
  import opened Tiles

  /** A board position; the source keys it as the string "row,col", which is
      one-to-one on integer pairs. */
  datatype Pos = Pos(row: int, col: int)

  /** A placed tile as the word scan and placement read it: `{letter,
      isLocked, tileId}`. The tile document's point value is not part of it. */
  datatype Cell = Cell(letter: char, isLocked: bool, tileId: TileId)

  /** A value of the `boardState` dictionary: `null`, the bare letter that
      `updateBoardState` writes, or a cell record. Only a cell record has an
      `isLocked` field, so only a locked cell record is part of a word. */
  datatype Square = Empty | Letter(letter: char) | Occupied(cell: Cell)

  datatype Direction = Horizontal | Vertical

  /** A tile the client asks to place: `{row, col, letter}`. */
  datatype Placement = Placement(row: int, col: int, letter: char)

  /** A placement with the id of the tile found at its position. */
  datatype PlacedTile = PlacedTile(row: int, col: int, letter: char, tileId: TileId)

  /** One entry of an `updateBoardState` call; no `tileId` clears the square. */
  datatype BoardUpdate = BoardUpdate(row: int, col: int, tileId: Option<TileId>)

  /** What `getWordFromDirection` returns: the letters read and the cells they came from. */
  datatype WordTile = WordTile(row: int, col: int, tileId: TileId)
  datatype WordResult = WordResult(word: string, tiles: seq<WordTile>)

  const DefaultBoardSize: int := 15

  /** The table `initializeBoard` seeds a board's bag from: only E, A and I. */
  const BoardDistribution: seq<Entry> := [Entry('E', 1, 13), Entry('A', 1, 9), Entry('I', 1, 8)]

  predicate InGrid(p: Pos, size: int) {
    0 <= p.row < size && 0 <= p.col < size
  }

  function PosOf(t: WordTile): Pos {
    Pos(t.row, t.col)
  }

  // ---------------------------------------------------------------------
  // Walking along a row or a column

  /** The coordinate that changes when stepping in direction `d`. */
  function Along(p: Pos, d: Direction): int {
    if d == Horizontal then p.col else p.row
  }

  /** The position on `p`'s row (or column) whose coordinate along `d` is `k`. */
  function At(p: Pos, d: Direction, k: int): Pos {
    if d == Horizontal then Pos(p.row, k) else Pos(k, p.col)
  }

  /** One step forward: `(0, 1)` horizontally, `(1, 0)` vertically. */
  function Forward(p: Pos, d: Direction): Pos {
    At(p, d, Along(p, d) + 1)
  }

  function Backward(p: Pos, d: Direction): Pos {
    At(p, d, Along(p, d) - 1)
  }

  predicate SameLine(p: Pos, q: Pos, d: Direction) {
    if d == Horizontal then p.row == q.row else p.col == q.col
  }

  /** The scan's loop test: the square holds a cell record whose `isLocked` is set. */
  predicate LockedAt(state: map<Pos, Square>, p: Pos) {
    p in state && state[p].Occupied? && state[p].cell.isLocked
  }

  /** The keys at or after `p` on its line: what a forward walk can still visit. */
  function KeysAhead(state: map<Pos, Square>, p: Pos, d: Direction): set<Pos> {
    set q | q in state.Keys && SameLine(p, q, d) && Along(q, d) >= Along(p, d)
  }

  function KeysBehind(state: map<Pos, Square>, p: Pos, d: Direction): set<Pos> {
    set q | q in state.Keys && SameLine(p, q, d) && Along(q, d) <= Along(p, d)
  }

  /** Where the forward scan starts: back over locked cells, then one step on. */
  function RunStart(state: map<Pos, Square>, p: Pos, d: Direction): Pos
    decreases KeysBehind(state, p, d)
  {
    if LockedAt(state, p) then
      assert p !in KeysBehind(state, Backward(p, d), d);
      RunStart(state, Backward(p, d), d)
    else Forward(p, d)
  }

  /** The locked cells from `p` forward, and their letters. */
  function RunFrom(state: map<Pos, Square>, p: Pos, d: Direction): WordResult
    decreases KeysAhead(state, p, d)
  {
    if LockedAt(state, p) then
      assert p !in KeysAhead(state, Forward(p, d), d);
      var rest := RunFrom(state, Forward(p, d), d);
      var c := state[p].cell;
      WordResult([c.letter] + rest.word, [WordTile(p.row, p.col, c.tileId)] + rest.tiles)
    else WordResult("", [])
  }

  /** `getWordFromDirection` as a function of the board's squares. */
  function Scan(state: map<Pos, Square>, p: Pos, d: Direction): WordResult {
    RunFrom(state, RunStart(state, p, d), d)
  }

  /** The first loop of `getWordFromDirection`: back over the locked cells,
      then one step forward. */
  method WalkBack(state: map<Pos, Square>, p: Pos, d: Direction) returns (start: Pos)
    ensures start == RunStart(state, p, d)
  {
    var cur := p;
    while LockedAt(state, cur)
      invariant RunStart(state, cur, d) == RunStart(state, p, d)
      decreases KeysBehind(state, cur, d)
    {
      assert cur !in KeysBehind(state, Backward(cur, d), d);
      cur := Backward(cur, d);
    }
    start := Forward(cur, d);
  }

  /** The second loop of `getWordFromDirection`: the locked cells from
      `start` forward, letter by letter. */
  method CollectRun(state: map<Pos, Square>, start: Pos, d: Direction) returns (r: WordResult)
    ensures r == RunFrom(state, start, d)
  {
    var cur := start;
    r := WordResult("", []);
    while LockedAt(state, cur)
      invariant Join(r, RunFrom(state, cur, d)) == RunFrom(state, start, d)
      decreases KeysAhead(state, cur, d)
    {
      assert cur !in KeysAhead(state, Forward(cur, d), d);
      var c := state[cur].cell;
      var one := WordResult([c.letter], [WordTile(cur.row, cur.col, c.tileId)]);
      var rest := RunFrom(state, Forward(cur, d), d);
      assert RunFrom(state, cur, d) == Join(one, rest);
      JoinAssoc(r, one, rest);
      r := Join(r, one);
      cur := Forward(cur, d);
    }
    assert RunFrom(state, cur, d) == WordResult("", []);
    assert Join(r, WordResult("", [])) == r;
  }

  /** Pairwise concatenation of two scan results. */
  function Join(a: WordResult, b: WordResult): WordResult {
    WordResult(a.word + b.word, a.tiles + b.tiles)
  }

  lemma JoinAssoc(a: WordResult, b: WordResult, c: WordResult)
    ensures Join(a, Join(b, c)) == Join(Join(a, b), c)
  {
    assert a.word + (b.word + c.word) == a.word + b.word + c.word;
    assert a.tiles + (b.tiles + c.tiles) == a.tiles + b.tiles + c.tiles;
  }

  /** The forward run from `p` is the maximal block of consecutive locked
      cells starting at `p`: cell `i` sits `i` steps after `p`, carries its
      square's letter and tile id, and the square just past the block is not
      a locked cell. */
  lemma {:induction false} RunFromShape(state: map<Pos, Square>, p: Pos, d: Direction)
    ensures var r := RunFrom(state, p, d);
      |r.word| == |r.tiles| &&
      (forall i :: 0 <= i < |r.tiles| ==>
        PosOf(r.tiles[i]) == At(p, d, Along(p, d) + i) && LockedAt(state, PosOf(r.tiles[i])) &&
        r.word[i] == state[PosOf(r.tiles[i])].cell.letter &&
        r.tiles[i].tileId == state[PosOf(r.tiles[i])].cell.tileId) &&
      !LockedAt(state, At(p, d, Along(p, d) + |r.tiles|))
    decreases KeysAhead(state, p, d)
  {
    if LockedAt(state, p) {
      assert p !in KeysAhead(state, Forward(p, d), d);
      var q := Forward(p, d);
      RunFromShape(state, q, d);
      var rest := RunFrom(state, q, d);
      var r := RunFrom(state, p, d);
      assert r.tiles == [WordTile(p.row, p.col, state[p].cell.tileId)] + rest.tiles;
      forall i | 0 < i < |r.tiles|
        ensures PosOf(r.tiles[i]) == At(p, d, Along(p, d) + i)
      {
        assert r.tiles[i] == rest.tiles[i - 1];
      }
    }
  }

  /** The scan's backward phase: from a locked cell it stops on the first
      cell of the locked block holding it; from any other square it moves one
      step forward. */
  lemma {:induction false} RunStartShape(state: map<Pos, Square>, p: Pos, d: Direction)
    ensures var b := RunStart(state, p, d);
      SameLine(b, p, d) &&
      (LockedAt(state, p) ==>
        Along(b, d) <= Along(p, d) && !LockedAt(state, Backward(b, d)) &&
        forall k :: Along(b, d) <= k <= Along(p, d) ==> LockedAt(state, At(p, d, k))) &&
      (!LockedAt(state, p) ==> b == Forward(p, d))
    decreases KeysBehind(state, p, d)
  {
    if LockedAt(state, p) {
      assert p !in KeysBehind(state, Backward(p, d), d);
      var q := Backward(p, d);
      RunStartShape(state, q, d);
      var b := RunStart(state, p, d);
      forall k | Along(b, d) <= k <= Along(p, d)
        ensures LockedAt(state, At(p, d, k))
      {
        if k < Along(p, d) {
          assert At(q, d, k) == At(p, d, k);
        } else {
          assert At(p, d, k) == p;
        }
      }
    }
  }

  /** What the directional scan returns: a run of consecutive locked cells,
      read forward, with one letter per cell; the run cannot be extended at
      either end; it holds the starting square exactly when that square is a
      locked cell, and an unlocked starting square is never part of it (the
      scan then reads the block that follows it, if any). */
  lemma ScanShape(state: map<Pos, Square>, p: Pos, d: Direction)
    ensures var r := Scan(state, p, d);
      |r.word| == |r.tiles| &&
      (forall i :: 0 <= i < |r.tiles| ==>
        LockedAt(state, PosOf(r.tiles[i])) && SameLine(PosOf(r.tiles[i]), p, d) &&
        r.word[i] == state[PosOf(r.tiles[i])].cell.letter &&
        r.tiles[i].tileId == state[PosOf(r.tiles[i])].cell.tileId) &&
      (forall i :: 0 < i < |r.tiles| ==> PosOf(r.tiles[i]) == Forward(PosOf(r.tiles[i - 1]), d)) &&
      (r.tiles != [] ==>
        !LockedAt(state, Backward(PosOf(r.tiles[0]), d)) &&
        !LockedAt(state, Forward(PosOf(r.tiles[|r.tiles| - 1]), d))) &&
      (LockedAt(state, p) <==> exists i :: 0 <= i < |r.tiles| && PosOf(r.tiles[i]) == p) &&
      (!LockedAt(state, p) && r.tiles != [] ==> PosOf(r.tiles[0]) == Forward(p, d)) &&
      (r.tiles == [] <==> !LockedAt(state, p) && !LockedAt(state, Forward(p, d)))
  {
    var b := RunStart(state, p, d);
    RunStartShape(state, p, d);
    RunFromShape(state, b, d);
    var r := Scan(state, p, d);
    var n := |r.tiles|;
    assert forall i :: 0 <= i < n ==> SameLine(PosOf(r.tiles[i]), p, d);
    if n > 0 {
      assert PosOf(r.tiles[0]) == b;
      assert Forward(PosOf(r.tiles[n - 1]), d) == At(b, d, Along(b, d) + n);
    }
    if LockedAt(state, p) {
      var i := Along(p, d) - Along(b, d);
      assert At(p, d, Along(b, d) + n) == At(b, d, Along(b, d) + n);
      assert i < n;
      assert PosOf(r.tiles[i]) == p;
    } else {
      assert forall i :: 0 <= i < n ==> PosOf(r.tiles[i]) != p;
      assert b == Forward(p, d);
      if n == 0 {
        assert At(b, d, Along(b, d)) == b;
      }
    }
  }

  // ---------------------------------------------------------------------
  // generateWords

  /** A scan result counts as a word only when it is longer than one letter. */
  function Keep(r: WordResult): seq<WordResult> {
    if |r.word| > 1 then [r] else []
  }

  /** `generateWords`: for each placed position in order, its horizontal word
      and then its vertical word, each kept only when longer than one letter.
      Nothing is deduplicated. */
  function WordsFor(state: map<Pos, Square>, placed: seq<Pos>): seq<WordResult> {
    if placed == [] then []
    else WordsFor(state, placed[..|placed| - 1]) + WordsAt(state, placed[|placed| - 1])
  }

  /** The words through one placed position: horizontal, then vertical. */
  function WordsAt(state: map<Pos, Square>, p: Pos): seq<WordResult> {
    Keep(Scan(state, p, Horizontal)) + Keep(Scan(state, p, Vertical))
  }

  /** At most two words per placed tile, each longer than one letter, each
      the scan of some placed position in some direction, and made only of
      locked cells. */
  lemma {:induction false} WordsForShape(state: map<Pos, Square>, placed: seq<Pos>)
    ensures |WordsFor(state, placed)| <= 2 * |placed|
    ensures forall w :: w in WordsFor(state, placed) ==>
      |w.word| > 1 &&
      (exists i, d :: 0 <= i < |placed| && w == Scan(state, placed[i], d)) &&
      forall t :: t in w.tiles ==> LockedAt(state, PosOf(t))
  {
    if placed != [] {
      var init, p := placed[..|placed| - 1], placed[|placed| - 1];
      assert placed == init + [p];
      WordsForSnoc(state, init, p);
      WordsForShape(state, init);
      WordsAtShape(state, p);
      forall w | w in WordsFor(state, placed)
        ensures exists i, d :: 0 <= i < |placed| && w == Scan(state, placed[i], d)
      {
        if w in WordsFor(state, init) {
          var i, d :| 0 <= i < |init| && w == Scan(state, init[i], d);
          assert placed[i] == init[i];
        } else {
          var d :| w == Scan(state, p, d);
          assert w == Scan(state, placed[|placed| - 1], d);
        }
      }
    }
  }

  /** The words at one position: at most two, each longer than one letter,
      each a scan through that position, made only of locked cells. */
  lemma WordsAtShape(state: map<Pos, Square>, p: Pos)
    ensures |WordsAt(state, p)| <= 2
    ensures forall w :: w in WordsAt(state, p) ==>
      |w.word| > 1 && (exists d :: w == Scan(state, p, d)) &&
      forall t :: t in w.tiles ==> LockedAt(state, PosOf(t))
  {
    ScanLocked(state, p, Horizontal);
    ScanLocked(state, p, Vertical);
  }

  /** Every tile of a scan sits on a locked cell. */
  lemma ScanLocked(state: map<Pos, Square>, p: Pos, d: Direction)
    ensures forall t :: t in Scan(state, p, d).tiles ==> LockedAt(state, PosOf(t))
  {
    ScanShape(state, p, d);
    var r := Scan(state, p, d);
    forall t | t in r.tiles ensures LockedAt(state, PosOf(t)) {
      var k :| 0 <= k < |r.tiles| && r.tiles[k] == t;
    }
  }

  /** One more placement adds its own words at the end. */
  lemma WordsForSnoc(state: map<Pos, Square>, s: seq<Pos>, p: Pos)
    ensures WordsFor(state, s + [p]) == WordsFor(state, s) + WordsAt(state, p)
  {
    assert (s + [p])[..|s + [p]| - 1] == s;
  }

  lemma AppendAssoc(x: seq<WordResult>, y: seq<WordResult>, z: seq<WordResult>)
    ensures x + y + z == x + (y + z)
  {
  }

  /** The words of two batches of placements are the words of each batch, in
      order: the scan results are concatenated and never merged. */
  lemma {:induction false} WordsForAppend(state: map<Pos, Square>, a: seq<Pos>, b: seq<Pos>)
    ensures WordsFor(state, a + b) == WordsFor(state, a) + WordsFor(state, b)
    decreases |b|
  {
    if b == [] {
      assert a + b == a;
    } else {
      var b', last := b[..|b| - 1], b[|b| - 1];
      assert b == b' + [last];
      assert a + b == (a + b') + [last];
      WordsForSnoc(state, a + b', last);
      WordsForSnoc(state, b', last);
      WordsForAppend(state, a, b');
      AppendAssoc(WordsFor(state, a), WordsFor(state, b'), WordsAt(state, last));
    }
  }

  /** A placed position whose square is not a locked cell is in none of the
      words: since `generateWords` runs before `lockTiles`, the tiles of the
      move being played contribute no letters. */
  lemma WordsSkipUnlocked(state: map<Pos, Square>, placed: seq<Pos>, p: Pos)
    requires !LockedAt(state, p)
    ensures forall w :: w in WordsFor(state, placed) ==> forall t :: t in w.tiles ==> PosOf(t) != p
  {
    WordsForShape(state, placed);
  }

  // ---------------------------------------------------------------------
  // Grid creation

  function GridKeys(size: int): set<Pos> {
    set r, c | 0 <= r < size && 0 <= c < size :: Pos(r, c)
  }

  function RowKeys(r: int, n: nat): set<Pos> {
    set c | 0 <= c < n :: Pos(r, c)
  }

  /** The positions of the first `k` rows, row by row as the outer loop adds them. */
  function RowsKeys(k: nat, n: nat): set<Pos> {
    if k == 0 then {} else RowsKeys(k - 1, n) + RowKeys(k - 1, n)
  }

  lemma {:induction false} RowKeysSize(r: int, n: nat)
    ensures |RowKeys(r, n)| == n
  {
    if n > 0 {
      RowKeysSize(r, n - 1);
      assert RowKeys(r, n) == RowKeys(r, n - 1) + {Pos(r, n - 1)};
    }
  }

  lemma {:induction false} RowsKeysMembers(k: nat, n: nat)
    ensures forall p :: p in RowsKeys(k, n) <==> 0 <= p.row < k && 0 <= p.col < n
  {
    if k > 0 {
      RowsKeysMembers(k - 1, n);
    }
  }

  lemma RowsApart(k: nat, n: nat)
    ensures RowsKeys(k, n) * RowKeys(k, n) == {}
  {
    RowsKeysMembers(k, n);
    forall p | p in RowsKeys(k, n) ensures p !in RowKeys(k, n) {
      assert p.row < k;
    }
  }

  lemma DisjointUnionSize(a: set<Pos>, b: set<Pos>)
    requires a * b == {}
    ensures |a + b| == |a| + |b|
  {
  }

  lemma NextMultiple(k: nat, n: nat)
    requires k > 0
    ensures (k - 1) * n + n == k * n
  {
  }

  lemma {:induction false} RowsKeysSize(k: nat, n: nat)
    ensures |RowsKeys(k, n)| == k * n
  {
    if k > 0 {
      RowsKeysSize(k - 1, n);
      RowKeysSize(k - 1, n);
      RowsApart(k - 1, n);
      DisjointUnionSize(RowsKeys(k - 1, n), RowKeys(k - 1, n));
      NextMultiple(k, n);
    }
  }

  /** A board of size `n` has exactly `n * n` positions. */
  lemma GridSize(n: nat)
    ensures |GridKeys(n)| == n * n
  {
    RowsKeysSize(n, n);
    RowsKeysMembers(n, n);
    assert GridKeys(n) == RowsKeys(n, n);
  }

  // ---------------------------------------------------------------------
  // updateBoardState

  /** The square an update writes: `null` without a tile id, otherwise the
      tile's bare letter. */
  function UpdatedSquare(u: BoardUpdate, tiles: map<TileId, Tile>): Square
    requires u.tileId.Some? ==> u.tileId.value in tiles
  {
    if u.tileId.None? then Empty else Letter(tiles[u.tileId.value].letter)
  }

  predicate TilesKnown(updates: seq<BoardUpdate>, tiles: map<TileId, Tile>) {
    forall i :: 0 <= i < |updates| && updates[i].tileId.Some? ==> updates[i].tileId.value in tiles
  }

  /** The dictionary after applying the updates in order. */
  function ApplyUpdates(state: map<Pos, Square>, updates: seq<BoardUpdate>, tiles: map<TileId, Tile>): map<Pos, Square>
    requires TilesKnown(updates, tiles)
  {
    if updates == [] then state
    else
      var u := updates[|updates| - 1];
      ApplyUpdates(state, updates[..|updates| - 1], tiles)[Pos(u.row, u.col) := UpdatedSquare(u, tiles)]
  }

  /** A position that no update names keeps its square (or its absence). */
  lemma {:induction false} ApplyUpdatesUnlisted(state: map<Pos, Square>, updates: seq<BoardUpdate>, tiles: map<TileId, Tile>, p: Pos)
    requires TilesKnown(updates, tiles)
    requires forall i :: 0 <= i < |updates| ==> Pos(updates[i].row, updates[i].col) != p
    ensures p in ApplyUpdates(state, updates, tiles) <==> p in state
    ensures p in state ==> ApplyUpdates(state, updates, tiles)[p] == state[p]
  {
    if updates != [] {
      var init := updates[..|updates| - 1];
      assert TilesKnown(init, tiles);
      ApplyUpdatesUnlisted(state, init, tiles, p);
    }
  }

  /** A position holds what the last update naming it wrote. */
  lemma {:induction false} ApplyUpdatesLast(state: map<Pos, Square>, updates: seq<BoardUpdate>, tiles: map<TileId, Tile>, i: nat)
    requires TilesKnown(updates, tiles)
    requires i < |updates|
    requires forall j :: i < j < |updates| ==> Pos(updates[j].row, updates[j].col) != Pos(updates[i].row, updates[i].col)
    ensures Pos(updates[i].row, updates[i].col) in ApplyUpdates(state, updates, tiles)
    ensures ApplyUpdates(state, updates, tiles)[Pos(updates[i].row, updates[i].col)] == UpdatedSquare(updates[i], tiles)
  {
    if i < |updates| - 1 {
      var init := updates[..|updates| - 1];
      assert TilesKnown(init, tiles);
      ApplyUpdatesLast(state, init, tiles, i);
    }
  }

  // ---------------------------------------------------------------------
  // placeTiles

  function CellOf(t: PlacedTile): Cell {
    Cell(t.letter, false, t.tileId)
  }

  function PosOfPlaced(t: PlacedTile): Pos {
    Pos(t.row, t.col)
  }

  /** The tile documents after upserting each placed tile, unlocked, in order. */
  function Written(cells: map<Pos, Cell>, ts: seq<PlacedTile>): map<Pos, Cell> {
    if ts == [] then cells
    else
      var t := ts[|ts| - 1];
      Written(cells, ts[..|ts| - 1])[PosOfPlaced(t) := CellOf(t)]
  }

  /** Placing tile `i` fails: its position holds a locked document once the
      tiles before it have been written. */
  predicate Blocked(cells: map<Pos, Cell>, ts: seq<PlacedTile>, i: nat)
    requires i < |ts|
  {
    var w := Written(cells, ts[..i]);
    PosOfPlaced(ts[i]) in w && w[PosOfPlaced(ts[i])].isLocked
  }

  /** Some tile of `ts` would land on a locked document. */
  predicate AnyBlocked(cells: map<Pos, Cell>, ts: seq<PlacedTile>) {
    exists i :: 0 <= i < |ts| && Blocked(cells, ts, i)
  }

  /** Placing `ts` on `before` stopped at its first blocked tile: the
      tiles ahead of it are written, and the error names its cell. */
  predicate StoppedAt(before: map<Pos, Cell>, after: map<Pos, Cell>, ts: seq<PlacedTile>, e: Error) {
    exists k :: 0 <= k < |ts| && Blocked(before, ts, k) &&
      (forall i :: 0 <= i < k ==> !Blocked(before, ts, i)) &&
      after == Written(before, ts[..k]) && e == CellLocked(ts[k].row, ts[k].col)
  }

  /** Writing keeps every locked document, and leaves every written position
      unlocked; so a tile is blocked exactly when its position was locked
      before the call and no earlier tile of the call went there. */
  lemma {:induction false} WrittenCells(cells: map<Pos, Cell>, ts: seq<PlacedTile>, p: Pos)
    ensures var w := Written(cells, ts);
      (p in w <==> p in cells || exists i :: 0 <= i < |ts| && PosOfPlaced(ts[i]) == p) &&
      ((forall i :: 0 <= i < |ts| ==> PosOfPlaced(ts[i]) != p) ==> (p in cells ==> w[p] == cells[p])) &&
      ((exists i :: 0 <= i < |ts| && PosOfPlaced(ts[i]) == p) ==> !w[p].isLocked)
  {
    if ts != [] {
      var init := ts[..|ts| - 1];
      WrittenCells(cells, init, p);
      if exists i :: 0 <= i < |ts| && PosOfPlaced(ts[i]) == p {
        var i :| 0 <= i < |ts| && PosOfPlaced(ts[i]) == p;
        if i < |ts| - 1 {
          assert PosOfPlaced(init[i]) == p;
        }
      }
      if exists i :: 0 <= i < |init| && PosOfPlaced(init[i]) == p {
        var i :| 0 <= i < |init| && PosOfPlaced(init[i]) == p;
        assert PosOfPlaced(ts[i]) == p;
      }
    }
  }

  /** Every placed position has a document once the tiles are written. */
  lemma WrittenHasPlaced(cells: map<Pos, Cell>, ts: seq<PlacedTile>)
    ensures forall i :: 0 <= i < |ts| ==> PosOfPlaced(ts[i]) in Written(cells, ts)
  {
    forall i | 0 <= i < |ts| ensures PosOfPlaced(ts[i]) in Written(cells, ts) {
      WrittenCells(cells, ts, PosOfPlaced(ts[i]));
    }
  }

  /** A placement that gets through never changes a locked document. */
  lemma PlacementKeepsLocked(cells: map<Pos, Cell>, ts: seq<PlacedTile>, p: Pos)
    requires forall i :: 0 <= i < |ts| ==> !Blocked(cells, ts, i)
    requires p in cells && cells[p].isLocked
    ensures p in Written(cells, ts) && Written(cells, ts)[p] == cells[p]
  {
    if exists i :: 0 <= i < |ts| && PosOfPlaced(ts[i]) == p {
      var i := FirstIndex(ts, p);
      assert forall j :: 0 <= j < i ==> PosOfPlaced(ts[..i][j]) != p;
      assert !Blocked(cells, ts, i);
      WrittenUnlisted(cells, ts[..i], p);
      assert false;
    }
    WrittenUnlisted(cells, ts, p);
  }

  /** A position no placed tile names keeps its document. */
  lemma {:induction false} WrittenUnlisted(cells: map<Pos, Cell>, ts: seq<PlacedTile>, p: Pos)
    requires forall i :: 0 <= i < |ts| ==> PosOfPlaced(ts[i]) != p
    ensures p in Written(cells, ts) <==> p in cells
    ensures p in cells ==> Written(cells, ts)[p] == cells[p]
  {
    if ts != [] {
      WrittenUnlisted(cells, ts[..|ts| - 1], p);
    }
  }

  /** The first placed tile naming a position. */
  lemma FirstIndex(ts: seq<PlacedTile>, p: Pos) returns (i: nat)
    requires exists i :: 0 <= i < |ts| && PosOfPlaced(ts[i]) == p
    ensures i < |ts| && PosOfPlaced(ts[i]) == p
    ensures forall j :: 0 <= j < i ==> PosOfPlaced(ts[j]) != p
  {
    var k :| 0 <= k < |ts| && PosOfPlaced(ts[k]) == p;
    i := k;
    while exists j :: 0 <= j < i && PosOfPlaced(ts[j]) == p
      invariant i <= k && PosOfPlaced(ts[i]) == p
      decreases i
    {
      var j :| 0 <= j < i && PosOfPlaced(ts[j]) == p;
      i := j;
    }
  }

  // ---------------------------------------------------------------------
  // lockTiles

  /** The tile documents with `isLocked` set at the listed positions that
      have a document; `updateMany` creates none. */
  function LockedCells(cells: map<Pos, Cell>, positions: seq<Pos>): (r: map<Pos, Cell>)
    ensures r.Keys == cells.Keys
  {
    map p | p in cells :: if p in positions then cells[p].(isLocked := true) else cells[p]
  }

  /** Locking keeps each document's letter and id, and a document is locked
      afterwards exactly when it was before or its position is listed. */
  lemma LockedCellsKeep(cells: map<Pos, Cell>, positions: seq<Pos>)
    ensures forall p :: p in cells ==>
      var r := LockedCells(cells, positions);
      r[p].letter == cells[p].letter && r[p].tileId == cells[p].tileId &&
      (r[p].isLocked <==> cells[p].isLocked || p in positions)
  {
  }

  // ---------------------------------------------------------------------
  // drawTiles

  lemma RemoveAt(s: seq<Tile>, i: nat)
    requires i < |s|
    ensures multiset(s) == multiset(s[..i] + s[i + 1..]) + multiset{s[i]}
  {
    assert s == s[..i] + [s[i]] + s[i + 1..];
  }

  /** The ids `$in` matches: each requested id that has a document, once,
      in first-request order. */
  function FoundIds(store: map<TileId, Tile>, ids: seq<TileId>): (k: seq<TileId>)
    ensures |k| <= |ids|
    ensures forall i, j :: 0 <= i < j < |k| ==> k[i] != k[j]
    ensures forall id :: id in k <==> id in ids && id in store
    decreases |ids|
  {
    if ids == [] then []
    else
      var init, last := ids[..|ids| - 1], ids[|ids| - 1];
      assert ids == init + [last];
      var k0 := FoundIds(store, init);
      if last in store && last !in k0 then k0 + [last] else k0
  }

  /** `getTilesFromIds`: the documents of the collection whose id was
      requested, each once however often its id was requested. */
  function TilesFromIds(store: map<TileId, Tile>, ids: seq<TileId>): (r: seq<Tile>)
    ensures |r| == |FoundIds(store, ids)| <= |ids|
    ensures forall i :: 0 <= i < |r| ==> r[i] == store[FoundIds(store, ids)[i]]
  {
    var k := FoundIds(store, ids);
    seq(|k|, i requires 0 <= i < |k| => store[k[i]])
  }

  /** Every requested id with a document contributes that document, and
      every document returned was requested. */
  lemma TilesFromIdsMembers(store: map<TileId, Tile>, ids: seq<TileId>)
    ensures forall id :: id in ids && id in store ==> store[id] in TilesFromIds(store, ids)
    ensures forall t :: t in TilesFromIds(store, ids) ==> exists id :: id in ids && id in store && store[id] == t
  {
    var k := FoundIds(store, ids);
    var r := TilesFromIds(store, ids);
    forall id | id in ids && id in store ensures store[id] in r {
      var i :| 0 <= i < |k| && k[i] == id;
      assert r[i] == store[id];
    }
    forall t | t in r ensures exists id :: id in ids && id in store && store[id] == t {
      var i :| 0 <= i < |r| && r[i] == t;
      assert k[i] in k;
    }
  }

  /** A repeated id yields its document once. */
  lemma {:induction false} TilesFromIdsRepeated(store: map<TileId, Tile>, id: TileId)
    requires id in store
    ensures TilesFromIds(store, [id, id]) == [store[id]]
  {
    assert [id, id][..1] == [id];
    assert FoundIds(store, [id]) == [id] by {
      assert [id][..0] == [];
    }
  }

  class Board {
    const boardSize: int
    var boardState: map<Pos, Square>
    /** The tile documents of this board, by position. */
    var cells: map<Pos, Cell>
    var tileBag: seq<Tile>

    /** `initializeBoard`: every position of the `size` by `size` grid holds
        `null`, no tile documents, and the bag is the expansion of the
        three-letter seed table (30 tiles). */
    constructor InitializeBoard(size: int)
      ensures boardSize == size
      ensures forall p :: p in boardState <==> InGrid(p, size)
      ensures forall p :: p in boardState ==> boardState[p] == Empty
      ensures cells == map[]
      ensures tileBag == Expand(BoardDistribution)
    {
      var state: map<Pos, Square> := map[];
      var row := 0;
      while row < size
        invariant 0 <= row && (size >= 0 ==> row <= size)
        invariant forall p :: p in state <==> 0 <= p.row < row && 0 <= p.col < size
        invariant forall p :: p in state ==> state[p] == Empty
      {
        var col := 0;
        while col < size
          invariant 0 <= col <= size
          invariant forall p :: p in state <==> (0 <= p.row < row && 0 <= p.col < size) || (p.row == row && 0 <= p.col < col)
          invariant forall p :: p in state ==> state[p] == Empty
        {
          state := state[Pos(row, col) := Empty];
          col := col + 1;
        }
        row := row + 1;
      }
      var bag := ExpandDistribution(BoardDistribution);
      boardSize := size;
      boardState := state;
      cells := map[];
      tileBag := bag;
    }

    /** `getTileId`: the id of the tile document at a position, refused when
        there is none or when a letter is given and the stored one differs. */
    function GetTileId(row: int, col: int, letter: Option<char>): (r: Result<TileId>)
      reads this
      ensures r.Ok? <==> Pos(row, col) in cells && (letter.Some? ==> cells[Pos(row, col)].letter == letter.value)
      ensures r.Ok? ==> r.value == cells[Pos(row, col)].tileId
      ensures Pos(row, col) !in cells ==> r == Err(NoTileAt(row, col))
      ensures Pos(row, col) in cells && r.Err? ==> r == Err(LetterMismatch(row, col))
    {
      var p := Pos(row, col);
      if p !in cells then Err(NoTileAt(row, col))
      else if letter.Some? && cells[p].letter != letter.value then Err(LetterMismatch(row, col))
      else Ok(cells[p].tileId)
    }

    /** `updateBoardState`: apply the updates in order to a copy of the
        dictionary and store it only if every tile id is found. */
    method UpdateBoardState(updates: seq<BoardUpdate>, tiles: map<TileId, Tile>) returns (r: Result<()>)
      modifies this`boardState
      ensures r.Ok? <==> TilesKnown(updates, tiles)
      ensures r.Ok? ==> boardState == ApplyUpdates(old(boardState), updates, tiles)
      ensures r.Err? ==> boardState == old(boardState) && r.error.TileNotFound?
    {
      var state := boardState;
      for i := 0 to |updates|
        invariant TilesKnown(updates[..i], tiles)
        invariant state == ApplyUpdates(boardState, updates[..i], tiles)
      {
        var u := updates[i];
        if u.tileId.Some? && u.tileId.value !in tiles {
          return Err(TileNotFound(u.tileId.value));
        }
        assert updates[..i + 1][..i] == updates[..i];
        state := state[Pos(u.row, u.col) := UpdatedSquare(u, tiles)];
      }
      assert updates[..|updates|] == updates;
      boardState := state;
      r := Ok(());
    }

    /** `getWordFromDirection`: walk back over locked cells, step forward
        once, then collect the locked cells ahead. */
    method WordFromDirection(row: int, col: int, d: Direction) returns (r: WordResult)
      ensures r == Scan(boardState, Pos(row, col), d)
    {
      var start := WalkBack(boardState, Pos(row, col), d);
      r := CollectRun(boardState, start, d);
    }

    /** `generateWords` over the positions of the placed tiles. */
    method GenerateWords(placed: seq<Pos>) returns (words: seq<WordResult>)
      ensures words == WordsFor(boardState, placed)
    {
      words := [];
      for i := 0 to |placed|
        invariant words == WordsFor(boardState, placed[..i])
      {
        assert placed[..i + 1][..i] == placed[..i];
        var h := WordFromDirection(placed[i].row, placed[i].col, Horizontal);
        if |h.word| > 1 {
          words := words + [h];
        }
        var v := WordFromDirection(placed[i].row, placed[i].col, Vertical);
        if |v.word| > 1 {
          words := words + [v];
        }
      }
      assert placed[..|placed|] == placed;
    }

    /** `placeTiles`: upsert each tile, unlocked, refusing at the first
        position whose document is locked (the tiles before it stay
        written); then clear the placed squares of the dictionary, since the
        update entries it builds carry no tile id. */
    method PlaceTiles(ts: seq<PlacedTile>) returns (r: Result<()>)
      modifies this`cells, this`boardState
      ensures r.Ok? <==> forall i :: 0 <= i < |ts| ==> !Blocked(old(cells), ts, i)
      ensures r.Ok? ==> (cells == Written(old(cells), ts) &&
        boardState == ApplyUpdates(old(boardState), Clearing(ts), map[]))
      ensures r.Err? ==> boardState == old(boardState)
      ensures r.Err? ==> StoppedAt(old(cells), cells, ts, r.error)
    {
      for i := 0 to |ts|
        invariant cells == Written(old(cells), ts[..i])
        invariant forall j :: 0 <= j < i ==> !Blocked(old(cells), ts, j)
        invariant boardState == old(boardState)
      {
        var t := ts[i];
        var p := PosOfPlaced(t);
        if p in cells && cells[p].isLocked {
          assert Blocked(old(cells), ts, i);
          return Err(CellLocked(t.row, t.col));
        }
        assert ts[..i + 1][..i] == ts[..i];
        cells := cells[p := CellOf(t)];
      }
      assert ts[..|ts|] == ts;
      assert TilesKnown(Clearing(ts), map[]);
      r := UpdateBoardState(Clearing(ts), map[]);
    }

    /** `lockTiles`: set `isLocked` on the documents at the listed positions. */
    method LockTiles(positions: seq<Pos>)
      modifies this`cells
      ensures cells == LockedCells(old(cells), positions)
    {
      cells := LockedCells(cells, positions);
    }

    /** `drawTiles`: refuse when the bag holds fewer than `count` tiles;
        otherwise remove `count` tiles, one at a time, each from a position of
        the bag the caller cannot predict. */
    method DrawTiles(count: int) returns (r: Result<seq<Tile>>)
      modifies this`tileBag
      ensures r.Err? <==> |old(tileBag)| < count
      ensures r.Err? ==> r.error == NotEnoughTiles && tileBag == old(tileBag)
      ensures r.Ok? ==> |r.value| == (if count < 0 then 0 else count)
      ensures r.Ok? ==> |tileBag| == |old(tileBag)| - |r.value|
      ensures r.Ok? ==> multiset(r.value) + multiset(tileBag) == multiset(old(tileBag))
    {
      if |tileBag| < count {
        return Err(NotEnoughTiles);
      }
      var drawn := [];
      var i := 0;
      while i < count
        invariant 0 <= i <= count || (i == 0 && count < 0)
        invariant |drawn| == i && |tileBag| == |old(tileBag)| - i
        invariant multiset(drawn) + multiset(tileBag) == multiset(old(tileBag))
      {
        var k :| 0 <= k < |tileBag|;
        RemoveAt(tileBag, k);
        drawn := drawn + [tileBag[k]];
        tileBag := tileBag[..k] + tileBag[k + 1..];
        i := i + 1;
      }
      r := Ok(drawn);
    }
  }

  /** The update entries `placeTiles` hands to `updateBoardState`: the
      positions of the placed tiles, without tile ids. */
  function Clearing(ts: seq<PlacedTile>): (r: seq<BoardUpdate>)
    ensures |r| == |ts|
    ensures forall i :: 0 <= i < |r| ==> r[i] == BoardUpdate(ts[i].row, ts[i].col, None)
  {
    seq(|ts|, i requires 0 <= i < |ts| => BoardUpdate(ts[i].row, ts[i].col, None))
  }
}

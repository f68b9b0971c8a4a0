/** The letter tiles: the 26-letter distribution table, its expansion into
    one tile per copy, and the tile collection that `TilesService` manages. */
module Tiles {
  import opened Common

  /** A letter tile. Letters are single characters. */
  datatype Tile = Tile(letter: char, pointValue: int)

  /** One row of a distribution table: `count` copies of a letter worth `pointValue`. */
  datatype Entry = Entry(letter: char, pointValue: int, count: nat)

  /** The table `resetTileBag` seeds the tile collection from. */
  const Distribution: seq<Entry> := [
    Entry('E', 1, 13), Entry('A', 1, 9), Entry('I', 1, 8), Entry('O', 1, 8),
    Entry('T', 1, 7), Entry('R', 1, 6), Entry('S', 1, 5), Entry('D', 2, 5),
    Entry('N', 2, 5), Entry('L', 2, 4), Entry('U', 2, 4), Entry('H', 3, 4),
    Entry('G', 3, 3), Entry('Y', 3, 2), Entry('B', 4, 2), Entry('C', 4, 2),
    Entry('F', 4, 2), Entry('M', 4, 2), Entry('P', 4, 2), Entry('W', 4, 2),
    Entry('V', 5, 2), Entry('K', 5, 1), Entry('X', 8, 1), Entry('J', 10, 1),
    Entry('Q', 10, 1), Entry('Z', 10, 1)
  ]

  function TileOf(e: Entry): Tile {
    Tile(e.letter, e.pointValue)
  }

  /** The tiles one table row yields. */
  function Copies(e: Entry): (r: seq<Tile>)
    ensures |r| == e.count
    ensures forall k :: 0 <= k < |r| ==> r[k] == TileOf(e)
  {
    seq(e.count, _ => TileOf(e))
  }

  /** The expansion of a table: each row's copies, rows in table order. */
  function Expand(d: seq<Entry>): seq<Tile> {
    if d == [] then [] else Copies(d[0]) + Expand(d[1..])
  }

  /** The number of tiles a table describes. */
  function TotalCount(d: seq<Entry>): nat {
    if d == [] then 0 else d[0].count + TotalCount(d[1..])
  }

  predicate DistinctLetters(d: seq<Entry>) {
    forall i, j :: 0 <= i < j < |d| ==> d[i].letter != d[j].letter
  }

  /** How many tiles of `s` carry `letter`. */
  function CountLetter(s: seq<Tile>, letter: char): nat {
    if s == [] then 0 else (if s[0].letter == letter then 1 else 0) + CountLetter(s[1..], letter)
  }

  /** The nested loop of `resetTileBag` (and of `initializeBoard`): for each
      row, push `count` copies of its tile. */
  method ExpandDistribution(d: seq<Entry>) returns (bag: seq<Tile>)
    ensures bag == Expand(d)
  {
    bag := [];
    for i := 0 to |d|
      invariant bag == Expand(d[..i])
    {
      var e := d[i];
      for k := 0 to e.count
        invariant bag == Expand(d[..i]) + seq(k, _ => TileOf(e))
      {
        bag := bag + [TileOf(e)];
      }
      ExpandSnoc(d[..i], e);
      assert d[..i + 1] == d[..i] + [e];
    }
    assert d[..|d|] == d;
  }

  lemma {:induction false} ExpandSnoc(d: seq<Entry>, e: Entry)
    ensures Expand(d + [e]) == Expand(d) + Copies(e)
  {
    if d == [] {
      assert [e][1..] == [];
    } else {
      assert (d + [e])[1..] == d[1..] + [e];
      ExpandSnoc(d[1..], e);
    }
  }

  lemma {:induction false} ExpandAppend(a: seq<Entry>, b: seq<Entry>)
    ensures Expand(a + b) == Expand(a) + Expand(b)
    ensures TotalCount(a + b) == TotalCount(a) + TotalCount(b)
  {
    if a == [] {
      assert a + b == b;
    } else {
      assert (a + b)[1..] == a[1..] + b;
      ExpandAppend(a[1..], b);
    }
  }

  /** The expansion holds exactly as many tiles as the counts add up to. */
  lemma {:induction false} ExpandLength(d: seq<Entry>)
    ensures |Expand(d)| == TotalCount(d)
  {
    if d != [] {
      ExpandLength(d[1..]);
    }
  }

  /** The expansion is grouped by letter in table order: the copies of row `i`
      occupy the `count` slots that follow the tiles of the rows before it. */
  lemma ExpandBlock(d: seq<Entry>, i: nat, k: nat)
    requires i < |d| && k < d[i].count
    ensures TotalCount(d[..i]) + k < |Expand(d)|
    ensures Expand(d)[TotalCount(d[..i]) + k] == TileOf(d[i])
  {
    assert d == d[..i] + ([d[i]] + d[i + 1..]);
    ExpandAppend(d[..i], [d[i]] + d[i + 1..]);
    ExpandLength(d[..i]);
    assert Expand([d[i]] + d[i + 1..]) == Copies(d[i]) + Expand(d[i + 1..]);
  }

  /** Every tile of the expansion is the tile of some row of the table. */
  lemma {:induction false} ExpandFromRows(d: seq<Entry>, t: Tile)
    requires t in Expand(d)
    ensures exists i :: 0 <= i < |d| && t == TileOf(d[i])
  {
    if t in Copies(d[0]) {
      assert t == TileOf(d[0]);
    } else {
      ExpandFromRows(d[1..], t);
      var i :| 0 <= i < |d[1..]| && t == TileOf(d[1..][i]);
      assert t == TileOf(d[i + 1]);
    }
  }

  lemma {:induction false} CountLetterAppend(a: seq<Tile>, b: seq<Tile>, letter: char)
    ensures CountLetter(a + b, letter) == CountLetter(a, letter) + CountLetter(b, letter)
  {
    if a == [] {
      assert a + b == b;
    } else {
      assert (a + b)[1..] == a[1..] + b;
      CountLetterAppend(a[1..], b, letter);
    }
  }

  lemma {:induction false} CountLetterCopies(e: Entry, letter: char, n: nat)
    requires n <= e.count
    ensures CountLetter(Copies(e)[..n], letter) == if e.letter == letter then n else 0
  {
    if n > 0 {
      assert Copies(e)[..n] == Copies(e)[..n - 1] + [TileOf(e)];
      CountLetterAppend(Copies(e)[..n - 1], [TileOf(e)], letter);
      CountLetterCopies(e, letter, n - 1);
    }
  }

  /** With distinct letters, a table row's letter occurs exactly `count` times
      in the expansion. */
  lemma {:induction false} ExpandLetterCount(d: seq<Entry>, i: nat)
    requires DistinctLetters(d) && i < |d|
    ensures CountLetter(Expand(d), d[i].letter) == d[i].count
  {
    ExpandNoLetter(d[..i], d[i].letter);
    ExpandNoLetter(d[i + 1..], d[i].letter);
    assert d == d[..i] + ([d[i]] + d[i + 1..]);
    ExpandAppend(d[..i], [d[i]] + d[i + 1..]);
    assert Expand([d[i]] + d[i + 1..]) == Copies(d[i]) + Expand(d[i + 1..]);
    CountLetterAppend(Expand(d[..i]), Copies(d[i]) + Expand(d[i + 1..]), d[i].letter);
    CountLetterAppend(Copies(d[i]), Expand(d[i + 1..]), d[i].letter);
    CountLetterCopies(d[i], d[i].letter, d[i].count);
    assert Copies(d[i])[..d[i].count] == Copies(d[i]);
  }

  /** A letter that no row of the table carries does not occur in its expansion. */
  lemma {:induction false} ExpandNoLetter(d: seq<Entry>, letter: char)
    requires forall j :: 0 <= j < |d| ==> d[j].letter != letter
    ensures CountLetter(Expand(d), letter) == 0
  {
    if d != [] {
      ExpandNoLetter(d[1..], letter);
      CountLetterAppend(Copies(d[0]), Expand(d[1..]), letter);
      CountLetterCopies(d[0], letter, d[0].count);
      assert Copies(d[0])[..d[0].count] == Copies(d[0]);
    }
  }

  /** The row of the standard table that carries letter `c` (-1 for none). */
  function TableRow(c: char): int {
    match c
    case 'E' => 0
    case 'A' => 1
    case 'I' => 2
    case 'O' => 3
    case 'T' => 4
    case 'R' => 5
    case 'S' => 6
    case 'D' => 7
    case 'N' => 8
    case 'L' => 9
    case 'U' => 10
    case 'H' => 11
    case 'G' => 12
    case 'Y' => 13
    case 'B' => 14
    case 'C' => 15
    case 'F' => 16
    case 'M' => 17
    case 'P' => 18
    case 'W' => 19
    case 'V' => 20
    case 'K' => 21
    case 'X' => 22
    case 'J' => 23
    case 'Q' => 24
    case 'Z' => 25
    case _ => -1
  }

  /** The shape of the standard table: 26 rows with distinct upper-case
      letters, every point value between 1 and 10 (E worth 1, Z worth 10). */
  lemma DistributionShape()
    ensures |Distribution| == 26 && DistinctLetters(Distribution)
    ensures forall i :: 0 <= i < |Distribution| ==> 1 <= Distribution[i].pointValue <= 10
    ensures forall i :: 0 <= i < |Distribution| ==> 'A' <= Distribution[i].letter <= 'Z'
    ensures Distribution[0] == Entry('E', 1, 13) && Distribution[25] == Entry('Z', 10, 1)
  {
    assert forall i :: 0 <= i < |Distribution| ==> TableRow(Distribution[i].letter) == i;
  }

  /** The count of the rows from index `i` on, summed by index. */
  function CountFrom(d: seq<Entry>, i: nat): nat
    decreases |d| - i
  {
    if i >= |d| then 0 else d[i].count + CountFrom(d, i + 1)
  }

  lemma {:induction false} CountFromSuffix(d: seq<Entry>, i: nat)
    requires i <= |d|
    ensures TotalCount(d[i..]) == CountFrom(d, i)
    decreases |d| - i
  {
    if i < |d| {
      assert d[i..][1..] == d[i + 1..];
      CountFromSuffix(d, i + 1);
    }
  }

  lemma DistributionCountFrom()
    ensures CountFrom(Distribution, 0) == 102
  {
    assert CountFrom(Distribution, 25) == 1;
    assert CountFrom(Distribution, 24) == 2;
    assert CountFrom(Distribution, 23) == 3;
    assert CountFrom(Distribution, 22) == 4;
    assert CountFrom(Distribution, 21) == 5;
    assert CountFrom(Distribution, 20) == 7;
    assert CountFrom(Distribution, 19) == 9;
    assert CountFrom(Distribution, 18) == 11;
    assert CountFrom(Distribution, 17) == 13;
    assert CountFrom(Distribution, 16) == 15;
    assert CountFrom(Distribution, 15) == 17;
    assert CountFrom(Distribution, 14) == 19;
    assert CountFrom(Distribution, 13) == 21;
    assert CountFrom(Distribution, 12) == 24;
    assert CountFrom(Distribution, 11) == 28;
    assert CountFrom(Distribution, 10) == 32;
    assert CountFrom(Distribution, 9) == 36;
    assert CountFrom(Distribution, 8) == 41;
    assert CountFrom(Distribution, 7) == 46;
    assert CountFrom(Distribution, 6) == 51;
    assert CountFrom(Distribution, 5) == 57;
    assert CountFrom(Distribution, 4) == 64;
    assert CountFrom(Distribution, 3) == 72;
    assert CountFrom(Distribution, 2) == 80;
    assert CountFrom(Distribution, 1) == 89;
    assert CountFrom(Distribution, 0) == 102;
  }

  /** The standard table describes 102 tiles, and its expansion holds them all. */
  lemma DistributionTotal()
    ensures TotalCount(Distribution) == 102 && |Expand(Distribution)| == 102
  {
    DistributionCountFrom();
    CountFromSuffix(Distribution, 0);
    assert Distribution[0..] == Distribution;
    ExpandLength(Distribution);
  }

  /** The tile collection: documents keyed by id. */
  class TileStore {
    var tiles: map<TileId, Tile>
    /** The next id the collection hands out; every stored id is below it. */
    var nextId: TileId

    ghost predicate Valid()
      reads this
    {
      forall id :: id in tiles ==> id < nextId
    }

    constructor ()
      ensures Valid() && tiles == map[]
    {
      tiles, nextId := map[], 0;
    }

    /** `createTile`: store a new tile under a fresh id. */
    method CreateTile(letter: char, pointValue: int) returns (id: TileId)
      requires Valid()
      modifies this
      ensures Valid()
      ensures id !in old(tiles) && tiles == old(tiles)[id := Tile(letter, pointValue)]
    {
      id := nextId;
      tiles := tiles[id := Tile(letter, pointValue)];
      nextId := nextId + 1;
    }

    /** `getTileById`: the stored tile, or "Tile not found" when the id is absent. */
    function GetTileById(id: TileId): (r: Result<Tile>)
      reads this
      ensures r.Ok? <==> id in tiles
      ensures r.Ok? ==> r.value == tiles[id]
      ensures r.Err? ==> r.error == TileNotFound(id)
    {
      if id in tiles then Ok(tiles[id]) else Err(TileNotFound(id))
    }

    /** The collection holds exactly `bag`, under consecutive ids from `first` on. */
    ghost predicate HoldsInOrder(first: TileId, bag: seq<Tile>)
      reads this
    {
      (forall id :: id in tiles <==> first <= id < first + |bag|) &&
      (forall id :: id in tiles ==> tiles[id] == bag[id - first])
    }

    /** `resetTileBag`: delete every tile, then insert the expansion of the
        standard table (102 tiles, see DistributionTotal) under fresh ids, in order. */
    method ResetTileBag()
      requires Valid()
      modifies this
      ensures Valid()
      ensures HoldsInOrder(old(nextId), Expand(Distribution))
    {
      ResetFrom(Distribution);
    }

    /** `resetTileBag` for any table. */
    method ResetFrom(d: seq<Entry>)
      requires Valid()
      modifies this
      ensures Valid()
      ensures HoldsInOrder(old(nextId), Expand(d))
    {
      var toInsert := ExpandDistribution(d);
      tiles := map[];
      InsertMany(toInsert);
    }

    /** `insertMany` into an emptied collection. */
    method InsertMany(toInsert: seq<Tile>)
      requires tiles == map[]
      modifies this
      ensures Valid()
      ensures HoldsInOrder(old(nextId), toInsert)
    {
      var first := nextId;
      for k := 0 to |toInsert|
        invariant nextId == first + k
        invariant forall id :: id in tiles <==> first <= id < first + k
        invariant forall id :: id in tiles ==> tiles[id] == toInsert[id - first]
      {
        tiles := tiles[nextId := toInsert[k]];
        nextId := nextId + 1;
      }
    }
  }
}

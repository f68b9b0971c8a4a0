/** A JavaScript `Set` as the source uses it: distinct values kept in
    insertion order. The lobby registry keeps its connected players in one,
    and `initializeGame` deduplicates the requested player ids through one.
    Both hold player ids, so the values here are strings. */
module OrderedSet {

  predicate Distinct(s: seq<string>) {
    forall i, j :: 0 <= i < j < |s| ==> s[i] != s[j]
  }

  /** In a distinct sequence, equal entries sit at the same index. */
  lemma SameAt(s: seq<string>, i: nat, j: nat)
    requires Distinct(s) && i < |s| && j < |s| && s[i] == s[j]
    ensures i == j
  {
  }

  /** `set.add(x)`: a value already present keeps its place; a new one goes last. */
  function Add(s: seq<string>, x: string): (r: seq<string>)
    ensures x in r
    ensures forall y :: y in r <==> y == x || y in s
    ensures |s| <= |r| <= |s| + 1 && r[..|s|] == s
    ensures Distinct(s) ==> Distinct(r)
    ensures x in s ==> r == s
  {
    if x in s then s else s + [x]
  }

  /** `set.delete(x)`: every other value keeps its relative order. */
  function Delete(s: seq<string>, x: string): (r: seq<string>)
    ensures x !in r
    ensures forall y :: y != x ==> (y in r <==> y in s)
    ensures |r| <= |s|
    ensures x !in s ==> r == s
    ensures Distinct(s) ==> Distinct(r)
  {
    if s == [] then []
    else if s[0] == x then Delete(s[1..], x)
    else
      var rest := Delete(s[1..], x);
      assert Distinct(s) ==> s[0] !in s[1..] && s[0] !in rest;
      [s[0]] + rest
  }

  /** `[...new Set(s)]`: the values of `s`, each once, in order of first occurrence. */
  function FromSeq(s: seq<string>): (r: seq<string>)
    ensures Distinct(r)
    ensures forall y :: y in r <==> y in s
    ensures |r| <= |s|
  {
    if s == [] then [] else Add(FromSeq(s[..|s| - 1]), s[|s| - 1])
  }

  /** Deleting a value from a set without duplicates removes exactly its one
      slot and keeps the others in order. */
  lemma {:induction false} DeleteAt(s: seq<string>, k: nat)
    requires Distinct(s) && k < |s|
    ensures Delete(s, s[k]) == s[..k] + s[k + 1..]
  {
    var rest := s[1..];
    if k == 0 {
      assert s[0] !in rest by {
        forall i | 0 <= i < |rest| ensures rest[i] != s[0] {
          assert rest[i] == s[i + 1];
        }
      }
      assert Delete(s, s[0]) == rest;
      assert rest == s[..0] + s[1..];
    } else {
      assert Distinct(rest) by {
        forall i, j | 0 <= i < j < |rest| ensures rest[i] != rest[j] {
          assert rest[i] == s[i + 1] && rest[j] == s[j + 1];
        }
      }
      assert s[0] != s[k];
      assert Delete(s, s[k]) == [s[0]] + Delete(rest, s[k]);
      assert rest[k - 1] == s[k];
      DeleteAt(rest, k - 1);
      assert rest[..k - 1] == s[1..k];
      assert rest[k..] == s[k + 1..];
      assert s[..k] == [s[0]] + s[1..k];
    }
  }

  /** Dropping the last value of a sequence without duplicates leaves one
      without duplicates that lacks that value. */
  lemma DistinctInit(s: seq<string>)
    requires Distinct(s) && s != []
    ensures Distinct(s[..|s| - 1]) && s[|s| - 1] !in s[..|s| - 1]
  {
    var init := s[..|s| - 1];
    forall i | 0 <= i < |init| ensures init[i] != s[|s| - 1] {
      assert init[i] == s[i];
    }
  }

  /** A sequence that already has no duplicates is its own set. */
  lemma {:induction false} FromDistinct(s: seq<string>)
    requires Distinct(s)
    ensures FromSeq(s) == s
  {
    if s != [] {
      var init, last := s[..|s| - 1], s[|s| - 1];
      DistinctInit(s);
      FromDistinct(init);
      assert init + [last] == s;
    }
  }

  /** The deduplicated order is the order of first occurrence: a value that
      first occurs in `s` before another also comes before it in `FromSeq(s)`. */
  lemma {:induction false} FromSeqFirstOccurrence(s: seq<string>, i: nat, j: nat)
    requires i < j < |s|
    requires s[i] !in s[..i] && s[j] !in s[..j]
    ensures exists a, b :: 0 <= a < b < |FromSeq(s)| && FromSeq(s)[a] == s[i] && FromSeq(s)[b] == s[j]
  {
    var init := s[..|s| - 1];
    if j == |s| - 1 {
      assert s[i] in init;
      var r := FromSeq(init);
      assert s[j] !in init by { assert init == s[..j]; }
      assert s[j] !in r;
      var a :| 0 <= a < |r| && r[a] == s[i];
      assert FromSeq(s) == r + [s[j]];
      assert FromSeq(s)[a] == s[i] && FromSeq(s)[|r|] == s[j];
    } else {
      assert init[..i] == s[..i] && init[..j] == s[..j];
      FromSeqFirstOccurrence(init, i, j);
      var a, b :| 0 <= a < b < |FromSeq(init)| && FromSeq(init)[a] == s[i] && FromSeq(init)[b] == s[j];
      assert FromSeq(s)[..|FromSeq(init)|] == FromSeq(init);
      assert FromSeq(s)[a] == FromSeq(init)[a] && FromSeq(s)[b] == FromSeq(init)[b];
    }
  }
}

/** The lobby registry: the ids of the players currently connected to the
    lobby, held in a private `Set` field that the service mutates in place. */
module Lobby {
  import opened OrderedSet

  class LobbyService {
    /** The `players` set, as its insertion-ordered contents. */
    var players: seq<string>

    ghost predicate Valid()
      reads this
    {
      Distinct(players)
    }

    constructor ()
      ensures Valid() && players == []
    {
      players := [];
    }

    method AddPlayer(playerId: string)
      requires Valid()
      modifies this
      ensures Valid()
      ensures players == Add(old(players), playerId)
    {
      if playerId !in players {
        players := players + [playerId];
      }
    }

    method RemovePlayer(playerId: string)
      requires Valid()
      modifies this
      ensures Valid()
      ensures players == Delete(old(players), playerId)
    {
      players := Delete(players, playerId);
    }

    /** `Array.from(this.players)`: the ids, distinct, in insertion order. */
    method GetPlayers() returns (ids: seq<string>)
      requires Valid()
      ensures ids == players && Distinct(ids)
    {
      ids := players;
    }
  }

  /** Deleting from a sequence extended at the end deletes from its prefix and
      keeps the new element unless it is the one deleted. */
  lemma {:induction false} DeleteSnoc(s: seq<string>, y: string, x: string)
    ensures Delete(s + [y], x) == Delete(s, x) + (if y == x then [] else [y])
  {
    if s == [] {
      assert [y][1..] == [];
    } else {
      assert (s + [y])[1..] == s[1..] + [y];
      DeleteSnoc(s[1..], y, x);
    }
  }

  /** A player added and then removed again leaves the registry as it was
      before, provided the player was not registered already. */
  lemma AddThenRemove(s: seq<string>, p: string)
    requires p !in s
    ensures Delete(Add(s, p), p) == s
  {
    DeleteSnoc(s, p, p);
  }
}

/**
 * The player registry: an insertion-ordered dictionary from identity to player,
 * written as the sequence of keys in insertion order plus a map, together with
 * the bookkeeping of who is "it".
 */
module Registry {
  import opened Wrappers
  import opened Players

  /** No identity occurs twice in `s`. */
  predicate Distinct(s: seq<Id>) {
    s == [] || (s[0] !in s[1..] && Distinct(s[1..]))
  }

  /** In a duplicate-free sequence the entry at `i` occurs at no other position. */
  lemma {:induction false} DistinctApart(s: seq<Id>, i: nat)
    requires Distinct(s) && i < |s|
    ensures forall k :: 0 <= k < |s| && k != i ==> s[k] != s[i]
  {
    if i > 0 {
      DistinctApart(s[1..], i - 1);
      assert s[i] in s[1..];
      forall k | 1 <= k < |s| && k != i
        ensures s[k] != s[i]
      {
        assert s[1..][k - 1] == s[k];
      }
    } else {
      forall k | 1 <= k < |s|
        ensures s[k] != s[0]
      {
        assert s[1..][k - 1] == s[k];
      }
    }
  }

  /** Appending an identity not yet present keeps a sequence duplicate-free. */
  lemma {:induction false} DistinctAppend(s: seq<Id>, x: Id)
    requires Distinct(s) && x !in s
    ensures Distinct(s + [x])
  {
    if s != [] {
      DistinctAppend(s[1..], x);
      assert (s + [x])[1..] == s[1..] + [x];
    }
  }

  /** `ids` lists every registered identity exactly once. */
  predicate Registered(ids: seq<Id>, players: map<Id, Player>) {
    && Distinct(ids)
    && (forall id :: id in ids ==> id in players)
    && (forall id :: id in players ==> id in ids)
  }

  /**
   * There is a holder exactly when somebody is registered; the holder is
   * registered and flagged, and nobody else carries the flag.
   */
  predicate ItAgrees(ids: seq<Id>, players: map<Id, Player>, itId: Option<Id>) {
    && (itId.Some? <==> ids != [])
    && (itId.Some? ==> itId.value in players && players[itId.value].isIt)
    && (forall id :: id in players && players[id].isIt ==> itId == Some(id))
  }

  /** The keys of the dictionary after one entry is deleted. */
  function Without(ids: seq<Id>, id: Id): (r: seq<Id>)
    ensures forall x :: x in r <==> x in ids && x != id
    ensures Distinct(ids) ==> Distinct(r)
    ensures id !in ids ==> r == ids
  {
    if ids == [] then []
    else if ids[0] == id then Without(ids[1..], id)
    else
      var r := [ids[0]] + Without(ids[1..], id);
      assert r[1..] == Without(ids[1..], id);
      r
  }

  /** Deleting a key from both the key sequence and the map keeps them in step. */
  lemma DeleteKeepsRegistered(ids: seq<Id>, players: map<Id, Player>, id: Id)
    requires Registered(ids, players)
    ensures Registered(Without(ids, id), players - {id})
  {
  }

  /** Deleting a registered key closes the gap it leaves and keeps every other key in its place. */
  lemma {:induction false} WithoutSplices(ids: seq<Id>, id: Id, k: nat)
    requires Distinct(ids) && k < |ids| && ids[k] == id
    ensures Without(ids, id) == ids[..k] + ids[k + 1..]
  {
    var tail := ids[1..];
    if k == 0 {
      assert id !in tail;
      assert ids[..k] + ids[k + 1..] == tail;
    } else {
      assert tail[k - 1] == id;
      assert ids[0] != id by { assert id in tail; }
      WithoutSplices(tail, id, k - 1);
      SpliceBehindHead(ids, id, k);
    }
  }

  /** A gap behind the first key: the first key stays in front of the spliced tail. */
  lemma SpliceBehindHead(ids: seq<Id>, id: Id, k: nat)
    requires 0 < k < |ids| && ids[0] != id
    requires Without(ids[1..], id) == ids[1..][..k - 1] + ids[1..][k..]
    ensures Without(ids, id) == ids[..k] + ids[k + 1..]
  {
    assert [ids[0]] + ids[1..][..k - 1] == ids[..k];
    assert ids[1..][k..] == ids[k + 1..];
  }

  /** The number of flagged players among `ids`. */
  function CountIt(ids: seq<Id>, players: map<Id, Player>): nat
    requires forall i :: 0 <= i < |ids| ==> ids[i] in players
  {
    if ids == [] then 0
    else (if players[ids[0]].isIt then 1 else 0) + CountIt(ids[1..], players)
  }

  lemma {:induction false} CountOnlyFlagged(ids: seq<Id>, players: map<Id, Player>, h: Id)
    requires Distinct(ids) && h in players
    requires forall i :: 0 <= i < |ids| ==> ids[i] in players
    requires forall i :: 0 <= i < |ids| && players[ids[i]].isIt ==> ids[i] == h
    ensures CountIt(ids, players) == if h in ids && players[h].isIt then 1 else 0
  {
    if ids != [] {
      assert Distinct(ids[1..]);
      CountOnlyFlagged(ids[1..], players, h);
      if ids[0] == h {
        assert h !in ids[1..];
      } else {
        assert h in ids <==> h in ids[1..];
      }
    }
  }

  /** Exactly one player is "it" when the registry is non-empty, and none when it is empty. */
  lemma OneItWhenOccupied(ids: seq<Id>, players: map<Id, Player>, itId: Option<Id>)
    requires Registered(ids, players) && ItAgrees(ids, players, itId)
    ensures CountIt(ids, players) == if ids == [] then 0 else 1
  {
    if ids != [] {
      CountOnlyFlagged(ids, players, itId.value);
    }
  }

  /** The dictionary after `playerInput` for `id`: the stored input is replaced, if `id` is registered. */
  function WithInput(players: map<Id, Player>, id: Id, input: Input): map<Id, Player> {
    if id in players then players[id := players[id].(input := input)] else players
  }

  lemma InputOverwrites(players: map<Id, Player>, id: Id, input: Input)
    ensures WithInput(players, id, input).Keys == players.Keys
    ensures id in players ==> WithInput(players, id, input)[id] == players[id].(input := input)
    ensures forall x :: x in players && x != id ==> WithInput(players, id, input)[x] == players[x]
    ensures id !in players ==> WithInput(players, id, input) == players
  {
  }

  /** Sending the same input twice leaves the state the first message left. */
  lemma InputIdempotent(players: map<Id, Player>, id: Id, input: Input)
    ensures WithInput(WithInput(players, id, input), id, input) == WithInput(players, id, input)
  {
  }

  /** One scoring pass on one player: +1 unless the player is "it". */
  function Award(p: Player): Player {
    if p.isIt then p else p.(score := p.score + 1)
  }

  function Scored(players: map<Id, Player>): map<Id, Player> {
    map id | id in players :: Award(players[id])
  }

  lemma ScoringRule(players: map<Id, Player>, id: Id)
    requires id in players
    ensures id in Scored(players)
    ensures Scored(players)[id].score == players[id].score + (if players[id].isIt then 0 else 1)
    ensures Scored(players)[id].(score := players[id].score) == players[id]
  {
  }

  lemma ScoringKeepsIt(ids: seq<Id>, players: map<Id, Player>, itId: Option<Id>)
    requires Registered(ids, players) && ItAgrees(ids, players, itId)
    ensures Registered(ids, Scored(players)) && ItAgrees(ids, Scored(players), itId)
  {
  }
}

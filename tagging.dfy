/**
 * The tag coordinator: a global cooldown, a proximity test, and the transfer
 * of "it" to the first other player in registry order that is within reach.
 */
module Tagging {
  import opened Wrappers
  import opened Geometry
  import opened Players
  import opened Registry

  /** Milliseconds that must pass after a transfer before the next one. */
  const TagCooldown: int := 5000

  /** The square of the Euclidean distance between two points. */
  function DistSq(a: Vec3, b: Vec3): (d: real)
    ensures d >= 0.0
    ensures a == b ==> d == 0.0
  {
    var dx, dy, dz := a.x - b.x, a.y - b.y, a.z - b.z;
    assert dx * dx >= 0.0 && dy * dy >= 0.0 && dz * dz >= 0.0;
    dx * dx + dy * dy + dz * dz
  }

  /**
   * For a non-negative distance d, d < 1 exactly when d * d < 1, so comparing
   * the squared distance with 1 decides the same as comparing the distance.
   */
  lemma SquaredThreshold(d: real)
    requires d >= 0.0
    ensures d < 1.0 <==> d * d < 1.0
  {
    if d < 1.0 {
      assert d * d <= d * 1.0;
    } else {
      assert d * d >= d * 1.0;
    }
  }

  /** Two cubes are within tagging distance (strictly closer than 1 unit). */
  predicate InReach(a: Vec3, b: Vec3) {
    DistSq(a, b) < 1.0
  }

  /** `id` is a player other than the holder and within the holder's reach. */
  predicate Tags(players: map<Id, Player>, holder: Id, id: Id)
    requires holder in players && id in players
  {
    id != holder && InReach(players[holder].position, players[id].position)
  }

  /** The cooldown has run out and there is a holder: the only state in which a tag is looked for. */
  predicate TagDue(itId: Option<Id>, lastTagTime: int, now: int) {
    itId.Some? && now - lastTagTime > TagCooldown
  }

  /** The position in `ids` of the first player the holder tags, if any. */
  function FirstTagged(ids: seq<Id>, players: map<Id, Player>, holder: Id): (r: Option<nat>)
    requires holder in players
    requires forall i :: 0 <= i < |ids| ==> ids[i] in players
    ensures r.Some? ==> r.value < |ids| && Tags(players, holder, ids[r.value])
    ensures r.Some? ==> forall j :: 0 <= j < r.value ==> !Tags(players, holder, ids[j])
    ensures r.None? ==> forall j :: 0 <= j < |ids| ==> !Tags(players, holder, ids[j])
  {
    if ids == [] then None
    else if Tags(players, holder, ids[0]) then Some(0)
    else match FirstTagged(ids[1..], players, holder)
      case None => None
      case Some(k) => Some(k + 1)
  }

  /** The scan of the registry for a player the holder touches, in insertion order. */
  method FindTarget(ids: seq<Id>, players: map<Id, Player>, holder: Id) returns (target: Option<nat>)
    requires holder in players
    requires forall i :: 0 <= i < |ids| ==> ids[i] in players
    ensures target == FirstTagged(ids, players, holder)
  {
    var it := players[holder];
    target := None;
    for i := 0 to |ids|
      invariant forall j :: 0 <= j < i ==> !Tags(players, holder, ids[j])
    {
      var id := ids[i];
      if id == holder {
        continue;
      }
      var player := players[id];
      if DistSq(it.position, player.position) < 1.0 {
        target := Some(i);
        break;
      }
    }
  }

  /** The state change of a tag: the holder gives up the flag for 10 points and `target` takes it. */
  function Transfer(players: map<Id, Player>, holder: Id, target: Id): map<Id, Player>
    requires holder in players && target in players
  {
    var was := players[holder];
    var next := players[holder := was.(score := was.score + 10, isIt := false)];
    next[target := next[target].(isIt := true)]
  }

  lemma TransferRule(players: map<Id, Player>, holder: Id, target: Id)
    requires holder in players && target in players && holder != target
    ensures var r := Transfer(players, holder, target);
      && r.Keys == players.Keys
      && r[holder] == players[holder].(score := players[holder].score + 10, isIt := false)
      && r[target] == players[target].(isIt := true)
      && forall id :: id in players && id != holder && id != target ==> r[id] == players[id]
  {
  }

  /** A transfer to another registered player keeps the "it" bookkeeping consistent. */
  lemma TransferKeepsIt(ids: seq<Id>, players: map<Id, Player>, holder: Id, target: Id)
    requires Registered(ids, players) && ItAgrees(ids, players, Some(holder))
    requires target in players && target != holder
    ensures Registered(ids, Transfer(players, holder, target))
    ensures ItAgrees(ids, Transfer(players, holder, target), Some(target))
  {
  }
}

/**
 * The shared world of the server: the player registry in insertion order, the
 * "it" identity and the time of the last tag, with the connection, input and
 * disconnection handlers, the game-loop tick and the scoring pass.
 */
module Server {
  import opened Wrappers
  import opened Geometry
  import opened Players
  import opened Registry
  import opened Physics
  import opened Tagging

  datatype Cue = JumpCue | TagCue

  /** What the server broadcasts besides the per-tick snapshot of all players. */
  datatype Event =
    | NewPlayer(id: Id, position: Vec3, isIt: bool)
    | PlayerDisconnected(id: Id)
    | UpdateIt(id: Id)
    | PlaySound(cue: Cue)

  /** One jump sound per player whose update fired a jump, in registry order. */
  function JumpSounds(ids: seq<Id>, players: map<Id, Player>): (r: seq<Event>)
    requires forall i :: 0 <= i < |ids| ==> ids[i] in players
    ensures |r| <= |ids|
    ensures forall e :: e in r ==> e == PlaySound(JumpCue)
  {
    if ids == [] then []
    else
      var last := ids[|ids| - 1];
      JumpSounds(ids[..|ids| - 1], players) + (if Advance(players[last]).jumped then [PlaySound(JumpCue)] else [])
  }

  /** A player who is grounded and holding jump makes the tick emit a jump sound. */
  lemma {:induction false} JumperSounds(ids: seq<Id>, players: map<Id, Player>, i: nat)
    requires forall k :: 0 <= k < |ids| ==> ids[k] in players
    requires i < |ids| && players[ids[i]].onGround && players[ids[i]].input.jump
    ensures PlaySound(JumpCue) in JumpSounds(ids, players)
  {
    var n := |ids| - 1;
    if i < n {
      assert ids[..n][i] == ids[i];
      JumperSounds(ids[..n], players, i);
    }
  }

  /** One more player in the prefix adds its own jump sound, if any, at the end. */
  lemma JumpSoundsExtend(ids: seq<Id>, players: map<Id, Player>, i: nat)
    requires forall k :: 0 <= k < |ids| ==> ids[k] in players
    requires i < |ids|
    ensures JumpSounds(ids[..i + 1], players)
      == JumpSounds(ids[..i], players) + (if Advance(players[ids[i]]).jumped then [PlaySound(JumpCue)] else [])
  {
    assert ids[..i + 1][..i] == ids[..i];
  }

  /** A player who does not jump this tick adds no sound. */
  lemma {:induction false} NoJumpersNoSounds(ids: seq<Id>, players: map<Id, Player>)
    requires forall i :: 0 <= i < |ids| ==> ids[i] in players
    requires forall i :: 0 <= i < |ids| ==> !players[ids[i]].onGround || !players[ids[i]].input.jump
    ensures JumpSounds(ids, players) == []
  {
    if ids != [] {
      NoJumpersNoSounds(ids[..|ids| - 1], players);
    }
  }

  /** A map that holds the integrated record at every registered key is the physics pass of a tick. */
  lemma MovedPointwise(ids: seq<Id>, before: map<Id, Player>, after: map<Id, Player>)
    requires Registered(ids, before) && after.Keys == before.Keys
    requires forall k :: 0 <= k < |ids| ==> after[ids[k]] == Advance(before[ids[k]]).player
    ensures after == Moved(before)
  {
    forall id | id in after
      ensures after[id] == Moved(before)[id]
    {
      var k :| 0 <= k < |ids| && ids[k] == id;
    }
  }

  /** Integrating the player at position `i` extends the integrated prefix by one and leaves the rest alone. */
  lemma IntegrateNext(ids: seq<Id>, players: map<Id, Player>, moved: map<Id, Player>, i: nat, player: Player)
    requires Registered(ids, players) && moved.Keys == players.Keys && i < |ids|
    requires forall k :: 0 <= k < i ==> moved[ids[k]] == Advance(players[ids[k]]).player
    requires forall k :: i <= k < |ids| ==> moved[ids[k]] == players[ids[k]]
    requires player == Advance(players[ids[i]]).player
    ensures forall k :: 0 <= k < i + 1 ==> moved[ids[i] := player][ids[k]] == Advance(players[ids[k]]).player
    ensures forall k :: i + 1 <= k < |ids| ==> moved[ids[i] := player][ids[k]] == players[ids[k]]
  {
    DistinctApart(ids, i);
  }

  /** The physics loop of the game loop: every player's record is integrated, in registry order. */
  method IntegrateAll(ids: seq<Id>, players: map<Id, Player>) returns (moved: map<Id, Player>, events: seq<Event>)
    requires Registered(ids, players)
    ensures moved == Moved(players)
    ensures events == JumpSounds(ids, players)
  {
    moved, events := players, [];
    for i := 0 to |ids|
      invariant moved.Keys == players.Keys
      invariant forall k :: 0 <= k < i ==> moved[ids[k]] == Advance(players[ids[k]]).player
      invariant forall k :: i <= k < |ids| ==> moved[ids[k]] == players[ids[k]]
      invariant events == JumpSounds(ids[..i], players)
    {
      var id := ids[i];
      var player, jumped := StepPlayer(moved[id]);
      IntegrateNext(ids, players, moved, i, player);
      JumpSoundsExtend(ids, players, i);
      moved := moved[id := player];
      if jumped {
        events := events + [PlaySound(JumpCue)];
      }
    }
    assert ids[..|ids|] == ids;
    MovedPointwise(ids, players, moved);
  }

  /** The scoring loop: each registered player who is not "it" gains one point, in registry order. */
  method AwardAll(ids: seq<Id>, players: map<Id, Player>) returns (scored: map<Id, Player>)
    requires Registered(ids, players)
    ensures scored == Scored(players)
  {
    scored := players;
    for i := 0 to |ids|
      invariant scored.Keys == players.Keys
      invariant forall k :: 0 <= k < i ==> scored[ids[k]] == Award(players[ids[k]])
      invariant forall k :: i <= k < |ids| ==> scored[ids[k]] == players[ids[k]]
    {
      var id := ids[i];
      DistinctApart(ids, i);
      if !scored[id].isIt {
        scored := scored[id := scored[id].(score := scored[id].score + 1)];
      }
    }
    forall id | id in scored
      ensures scored[id] == Scored(players)[id]
    {
      var k :| 0 <= k < |ids| && ids[k] == id;
    }
  }

  /** A transfer changes only flags and the old holder's score: settled players stay settled and no score goes down. */
  lemma TransferKeepsSettled(players: map<Id, Player>, holder: Id, target: Id)
    requires holder in players && target in players && holder != target
    requires forall id :: id in players ==> Settled(players[id])
    ensures var r := Transfer(players, holder, target);
      && r.Keys == players.Keys
      && (forall id :: id in r ==> Settled(r[id]))
      && (forall id :: id in r ==> r[id].score >= players[id].score)
  {
    TransferRule(players, holder, target);
  }

  class World {
    var ids: seq<Id>
    var players: map<Id, Player>
    var itId: Option<Id>
    var lastTagTime: int

    ghost predicate Valid()
      reads this
    {
      Registered(ids, players) && ItAgrees(ids, players, itId)
    }

    /** The world before anybody has connected. */
    constructor ()
      ensures Valid()
      ensures ids == [] && players == map[] && itId == None && lastTagTime == 0
    {
      ids, players, itId, lastTagTime := [], map[], None, 0;
    }

    /** A new connection: the player spawns on the central platform and is "it" if nobody is. */
    method Connect(id: Id) returns (events: seq<Event>)
      requires Valid()
      requires id !in players
      modifies this
      ensures Valid()
      ensures ids == old(ids) + [id]
      ensures players == old(players)[id := Newcomer.(isIt := old(itId).None?)]
      ensures itId == if old(itId).None? then Some(id) else old(itId)
      ensures lastTagTime == old(lastTagTime)
      ensures events == [NewPlayer(id, SpawnPoint, old(itId).None?)]
    {
      DistinctAppend(ids, id);
      players := players[id := Newcomer];
      ids := ids + [id];
      if itId.None? {
        itId := Some(id);
        players := players[id := players[id].(isIt := true)];
      }
      events := [NewPlayer(id, players[id].position, players[id].isIt)];
    }

    /** A `playerInput` message: the stored input is replaced if the player is still registered. */
    method SetInput(id: Id, input: Input)
      requires Valid()
      modifies this
      ensures Valid()
      ensures players == WithInput(old(players), id, input)
      ensures ids == old(ids) && itId == old(itId) && lastTagTime == old(lastTagTime)
    {
      if id in players {
        players := players[id := players[id].(input := input)];
      }
    }

    /**
     * A disconnection. When the holder leaves and others remain, the remaining
     * player at position `pick % |remaining|` of the registry becomes "it".
     */
    method Disconnect(id: Id, pick: nat) returns (events: seq<Event>)
      requires Valid()
      modifies this
      ensures Valid()
      ensures ids == Without(old(ids), id)
      ensures lastTagTime == old(lastTagTime)
      ensures old(itId) != Some(id) ==>
                && itId == old(itId)
                && players == old(players) - {id}
                && events == [PlayerDisconnected(id)]
      ensures old(itId) == Some(id) && ids == [] ==>
                && itId == None
                && players == map[]
                && events == [PlayerDisconnected(id)]
      ensures old(itId) == Some(id) && ids != [] ==>
                var heir := ids[pick % |ids|];
                && itId == Some(heir)
                && players == (old(players) - {id})[heir := old(players)[heir].(isIt := true)]
                && events == [UpdateIt(heir), PlayerDisconnected(id)]
    {
      var rest, remaining := players - {id}, Without(ids, id);
      DeleteKeepsRegistered(ids, players, id);
      events := [];
      if itId == Some(id) {
        if |remaining| > 0 {
          var heir := remaining[pick % |remaining|];
          itId := Some(heir);
          rest := rest[heir := rest[heir].(isIt := true)];
          events := [UpdateIt(heir)];
        } else {
          itId := None;
        }
      }
      players, ids := rest, remaining;
      events := events + [PlayerDisconnected(id)];
    }

    /**
     * One pass of the game loop at clock reading `now`: every player is
     * integrated in registry order, then at most one tag is transferred.
     */
    method Tick(now: int) returns (events: seq<Event>)
      requires Valid()
      modifies this
      ensures Valid()
      ensures ids == old(ids)
      ensures players.Keys == old(players).Keys
      ensures forall id :: id in players ==> Settled(players[id])
      ensures forall id :: id in players ==> players[id].score >= old(players)[id].score
      ensures itId != old(itId) ==> TagDue(old(itId), old(lastTagTime), now) && lastTagTime == now
      ensures var moved := Moved(old(players));
        var hit := if TagDue(old(itId), old(lastTagTime), now) then FirstTagged(ids, moved, old(itId).value) else None;
        if hit.None? then
          && players == moved && itId == old(itId) && lastTagTime == old(lastTagTime)
          && events == JumpSounds(ids, old(players))
        else
          var target := ids[hit.value];
          && players == Transfer(moved, old(itId).value, target)
          && itId == Some(target) && lastTagTime == now
          && events == JumpSounds(ids, old(players)) + [UpdateIt(target), PlaySound(TagCue)]
    {
      ghost var before, holder, lastTag := players, itId, lastTagTime;
      var moved, sounds := IntegrateAll(ids, players);
      MovedSettles(before);
      MovedKeepsIt(ids, before, holder);
      players := moved;
      var tagEvents := TagPass(now);
      events := sounds + tagEvents;
      ghost var hit := if TagDue(holder, lastTag, now) then FirstTagged(ids, moved, holder.value) else None;
      if hit.Some? {
        TransferKeepsSettled(moved, holder.value, ids[hit.value]);
      }
    }

    /**
     * The tagging half of a tick: once the cooldown has run out, "it" passes
     * to the first other player in registry order within reach of the holder.
     */
    method TagPass(now: int) returns (events: seq<Event>)
      requires Valid()
      modifies this
      ensures Valid()
      ensures ids == old(ids)
      ensures var hit := if TagDue(old(itId), old(lastTagTime), now) then FirstTagged(ids, old(players), old(itId).value) else None;
        if hit.None? then
          && players == old(players) && itId == old(itId) && lastTagTime == old(lastTagTime)
          && events == []
        else
          var target := ids[hit.value];
          && target != old(itId).value
          && players == Transfer(old(players), old(itId).value, target)
          && itId == Some(target) && lastTagTime == now
          && events == [UpdateIt(target), PlaySound(TagCue)]
    {
      events := [];
      if itId.Some? && now - lastTagTime > TagCooldown {
        var holder := itId.value;
        var hit := FindTarget(ids, players, holder);
        if hit.Some? {
          var target := ids[hit.value];
          TransferKeepsIt(ids, players, holder, target);
          var updated := players;
          updated := updated[holder := updated[holder].(score := updated[holder].score + 10, isIt := false)];
          updated := updated[target := updated[target].(isIt := true)];
          assert updated == Transfer(players, holder, target);
          players := updated;
          itId := Some(target);
          lastTagTime := now;
          events := [UpdateIt(target), PlaySound(TagCue)];
        }
      }
    }

    /** The scoring pass: every player who is not "it" gains one point. */
    method ScoreTick()
      requires Valid()
      modifies this
      ensures Valid()
      ensures players == Scored(old(players))
      ensures ids == old(ids) && itId == old(itId) && lastTagTime == old(lastTagTime)
    {
      ScoringKeepsIt(ids, players, itId);
      players := AwardAll(ids, players);
    }
  }
}

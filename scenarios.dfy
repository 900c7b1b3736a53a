/** Verified scenarios on the world that pin down the tag, cooldown and reconnection behaviour. */
module Scenarios {
  import opened Wrappers
  import opened Geometry
  import opened Players
  import opened Physics
  import opened Registry
  import opened Tagging
  import opened Server

  /** Two players who have just spawned, with no input, land together on the central platform without a sound. */
  lemma NewcomersLand(a: Id, b: Id, players: map<Id, Player>)
    requires a != b
    requires players == map[a := Newcomer.(isIt := true), b := Newcomer.(isIt := false)]
    ensures JumpSounds([a, b], players) == []
    ensures Moved(players) == map[a := Newcomer.(isIt := true, position := Vec3(0.0, 1.5, 0.0)),
                                  b := Newcomer.(isIt := false, position := Vec3(0.0, 1.5, 0.0))]
  {
    NewcomerLandsOnCentralPlatform(true);
    NewcomerLandsOnCentralPlatform(false);
    NoJumpersNoSounds([a, b], players);
    var moved := Moved(players);
    assert moved.Keys == {a, b};
    assert moved[a] == Advance(Newcomer.(isIt := true)).player;
    assert moved[b] == Advance(Newcomer.(isIt := false)).player;
  }

  /** Of two players on the same spot, the holder tags the other and scores 10. */
  lemma SameSpotTag(a: Id, b: Id, moved: map<Id, Player>)
    requires a != b
    requires moved == map[a := Newcomer.(isIt := true, position := Vec3(0.0, 1.5, 0.0)),
                          b := Newcomer.(isIt := false, position := Vec3(0.0, 1.5, 0.0))]
    ensures FirstTagged([a, b], moved, a) == Some(1)
    ensures Transfer(moved, a, b)[a].score == 10 && Transfer(moved, a, b)[b].score == 0
  {
    assert Tags(moved, a, b);
    TransferRule(moved, a, b);
  }

  /**
   * Two players spawn on the same spot; at the first tick after the cooldown
   * the first becomes untagged with 10 points and the second is "it".
   */
  method TagAfterCooldown() returns (it: Option<Id>, scoreA: nat, scoreB: nat, events: seq<Event>)
    ensures it == Some("b") && scoreA == 10 && scoreB == 0
    ensures events == [UpdateIt("b"), PlaySound(TagCue)]
  {
    var w := new World();
    var joinA := w.Connect("a");
    var joinB := w.Connect("b");
    assert w.ids == ["a", "b"];
    assert w.players == map["a" := Newcomer.(isIt := true), "b" := Newcomer.(isIt := false)];
    NewcomersLand("a", "b", w.players);
    SameSpotTag("a", "b", Moved(w.players));
    events := w.Tick(TagCooldown + 1);
    it, scoreA, scoreB := w.itId, w.players["a"].score, w.players["b"].score;
  }

  /** The same two players one millisecond earlier: the cooldown holds and nothing changes hands. */
  method NoTagWithinCooldown() returns (it: Option<Id>, scoreA: nat, events: seq<Event>)
    ensures it == Some("a") && scoreA == 0 && events == []
  {
    var w := new World();
    var joinA := w.Connect("a");
    var joinB := w.Connect("b");
    NoJumpersNoSounds(w.ids, w.players);
    events := w.Tick(TagCooldown);
    it, scoreA := w.itId, w.players["a"].score;
  }

  /** The last player leaves, so nobody is "it"; the next player to connect becomes "it" at once. */
  method LastLeaverThenNewcomer() returns (afterLeave: Option<Id>, afterJoin: Option<Id>, flagged: bool)
    ensures afterLeave == None && afterJoin == Some("b") && flagged
  {
    var w := new World();
    var joinA := w.Connect("a");
    var leave := w.Disconnect("a", 0);
    afterLeave := w.itId;
    var joinB := w.Connect("b");
    afterJoin, flagged := w.itId, w.players["b"].isIt;
  }
}

/**
 * The per-tick physics integrator: additive axis movement, a jump that fires
 * only from the ground, gravity, and discrete landing on the floor or on the
 * first platform of the table that catches the falling cube.
 */
module Physics {
  import opened Wrappers
  import opened Geometry
  import opened Players
  import opened Registry

  const MovementSpeed: real := 0.1
  const JumpForce: real := 0.25
  const Gravity: real := 0.02

  /** 1 when the flag is set and 0 otherwise: the truth value of an input flag as a number. */
  function Flag(b: bool): real {
    if b then 1.0 else 0.0
  }

  /** One player's update: the new record and whether a jump fired (and its sound was emitted). */
  datatype Step = Step(player: Player, jumped: bool)

  /** Movement, jump and gravity: the player as it stands before collision resolution. */
  function Launch(p: Player): Step {
    var jumped := p.input.jump && p.onGround;
    var vy := (if jumped then JumpForce else p.velocityY) - Gravity;
    var pos := Vec3(
      p.position.x + MovementSpeed * (Flag(p.input.right) - Flag(p.input.left)),
      p.position.y + vy,
      p.position.z + MovementSpeed * (Flag(p.input.backward) - Flag(p.input.forward)));
    Step(p.(position := pos, velocityY := vy, onGround := p.onGround && !jumped), jumped)
  }

  /** Collision resolution: the floor first, then the first platform of the table that catches. */
  function Resolve(p: Player): Player {
    if p.position.y - HalfHeight <= FloorHeight then
      p.(position := p.position.(y := FloorHeight + HalfHeight), velocityY := 0.0, onGround := true)
    else
      match FirstCatch(Platforms, p.position, p.velocityY)
      case Some(k) =>
        p.(position := p.position.(y := Platforms[k].yTop + HalfHeight), velocityY := 0.0, onGround := true)
      case None => p.(onGround := false)
  }

  /** The cube rests on the floor or on the top of a platform whose footprint holds it. */
  predicate OnSurface(pos: Vec3) {
    || pos.y == FloorHeight + HalfHeight
    || exists k :: 0 <= k < |Platforms| && Covers(Platforms[k], pos.x, pos.z) && pos.y == Platforms[k].yTop + HalfHeight
  }

  /** Never below the floor, and a grounded player is at rest on a surface. */
  predicate Settled(p: Player) {
    && p.position.y >= FloorHeight + HalfHeight
    && (p.onGround ==> p.velocityY == 0.0 && OnSurface(p.position))
  }

  /** The body of the game loop for one player. */
  function Advance(p: Player): Step {
    var s := Launch(p);
    Step(Resolve(s.player), s.jumped)
  }

  /**
   * What one player's update promises: the player ends at or above the floor
   * and, when grounded, at rest on a surface; x and z move by the input alone;
   * a jump fires exactly when jump is held on the ground; an airborne player
   * only feels gravity; flag, score and input are untouched.
   */
  lemma AdvanceRules(p: Player)
    ensures var r := Advance(p);
      && Settled(r.player)
      && (r.jumped <==> p.input.jump && p.onGround)
      && r.player.position.x == p.position.x + MovementSpeed * (Flag(p.input.right) - Flag(p.input.left))
      && r.player.position.z == p.position.z + MovementSpeed * (Flag(p.input.backward) - Flag(p.input.forward))
      && (!r.player.onGround ==>
            && r.player.velocityY == (if r.jumped then JumpForce else p.velocityY) - Gravity
            && r.player.position.y == p.position.y + r.player.velocityY
            && r.player.position.y > FloorHeight + HalfHeight)
      && r.player.isIt == p.isIt && r.player.score == p.score && r.player.input == p.input
  {
    var q := Launch(p).player;
    if q.position.y - HalfHeight > FloorHeight && FirstCatch(Platforms, q.position, q.velocityY).Some? {
      var k := FirstCatch(Platforms, q.position, q.velocityY).value;
      assert Covers(Platforms[k], q.position.x, q.position.z);
    }
  }

  /**
   * Which surface a landing lands on: the floor when the bottom of the cube
   * reaches it, otherwise the first platform in table order that catches it.
   */
  lemma LandingRule(p: Player)
    ensures var q := Launch(p).player; var r := Advance(p).player;
      if q.position.y - HalfHeight <= FloorHeight then
        r.onGround && r.position.y == FloorHeight + HalfHeight
      else
        match FirstCatch(Platforms, q.position, q.velocityY)
        case Some(k) =>
          && r.onGround && r.position.y == Platforms[k].yTop + HalfHeight
          && Catches(Platforms[k], q.position, q.velocityY)
          && forall j :: 0 <= j < k ==> !Catches(Platforms[j], q.position, q.velocityY)
        case None => !r.onGround
  {
  }

  /** The four movement keys, applied one after another to the horizontal coordinates. */
  method Steer(x0: real, z0: real, input: Input) returns (x: real, z: real)
    ensures x == x0 + MovementSpeed * (Flag(input.right) - Flag(input.left))
    ensures z == z0 + MovementSpeed * (Flag(input.backward) - Flag(input.forward))
  {
    x, z := x0, z0;
    if input.forward { z := z - MovementSpeed; }
    if input.backward { z := z + MovementSpeed; }
    if input.left { x := x - MovementSpeed; }
    if input.right { x := x + MovementSpeed; }
  }

  /** The game loop's update of one player, step by step as the server performs it. */
  method StepPlayer(p: Player) returns (q: Player, jumped: bool)
    ensures Step(q, jumped) == Advance(p)
  {
    var input := p.input;
    var x, z := Steer(p.position.x, p.position.z, input);
    var y := p.position.y;
    var velocityY, onGround := p.velocityY, p.onGround;
    jumped := false;
    if input.jump && onGround {
      velocityY := JumpForce;
      onGround := false;
      jumped := true;
    }
    velocityY := velocityY - Gravity;
    y := y + velocityY;
    ghost var launched := Launch(p);
    assert launched.jumped == jumped && launched.player.velocityY == velocityY;
    assert launched.player.position == Vec3(x, y, z);
    onGround := false;
    if y - HalfHeight <= FloorHeight {
      y := FloorHeight + HalfHeight;
      velocityY := 0.0;
      onGround := true;
    } else {
      var k := ScanPlatforms(Vec3(x, y, z), velocityY);
      if k.Some? {
        y := Platforms[k.value].yTop + HalfHeight;
        velocityY := 0.0;
        onGround := true;
      }
    }
    q := p.(position := Vec3(x, y, z), velocityY := velocityY, onGround := onGround);
    assert q == Resolve(launched.player);
  }

  /** Every registered player after the physics pass of one tick. */
  function Moved(players: map<Id, Player>): (r: map<Id, Player>)
    ensures r.Keys == players.Keys
  {
    map id | id in players :: Advance(players[id]).player
  }

  /** The physics pass keeps every "it" flag and every score. */
  lemma MovedKeepsIt(ids: seq<Id>, players: map<Id, Player>, itId: Option<Id>)
    requires Registered(ids, players) && ItAgrees(ids, players, itId)
    ensures Registered(ids, Moved(players)) && ItAgrees(ids, Moved(players), itId)
    ensures forall id :: id in players ==> Moved(players)[id].score == players[id].score
  {
    forall id | id in players
      ensures Moved(players)[id].isIt == players[id].isIt && Moved(players)[id].score == players[id].score
    {
      AdvanceRules(players[id]);
    }
  }

  /** After the physics pass every player is settled. */
  lemma MovedSettles(players: map<Id, Player>)
    ensures forall id :: id in players ==> Settled(Moved(players)[id])
  {
    forall id | id in players
      ensures Settled(Moved(players)[id])
    {
      AdvanceRules(players[id]);
    }
  }

  /** A new player spawns grounded but half sunk into the central platform. */
  lemma NewcomerNotOnSurface()
    ensures Newcomer.onGround && !OnSurface(Newcomer.position)
  {
    forall k | 0 <= k < |Platforms| && Covers(Platforms[k], 0.0, 0.0)
      ensures Platforms[k].yTop + HalfHeight != 1.0
    {
      assert k == 0 || k == 1;
    }
  }

  /** A new player that sends nothing lands on the central platform at height 1.5 after one tick. */
  lemma NewcomerLandsOnCentralPlatform(isIt: bool)
    ensures Advance(Newcomer.(isIt := isIt)) == Step(Newcomer.(isIt := isIt, position := Vec3(0.0, 1.5, 0.0)), false)
  {
    var q := Launch(Newcomer.(isIt := isIt)).player;
    assert q.position == Vec3(0.0, 0.98, 0.0) && q.velocityY == -0.02;
    assert !Catches(Platforms[0], q.position, q.velocityY);
    assert Catches(Platforms[1], q.position, q.velocityY);
    assert FirstCatch(Platforms, q.position, q.velocityY) == Some(1);
  }

  /** Holding jump from the ground fires one jump; the next tick, airborne, fires none. */
  lemma HeldJumpFiresOnce()
    ensures var p := Player(Vec3(7.0, 0.5, 0.0), 0.0, true, false, 0, NoInput.(jump := true));
      var first := Advance(p);
      var second := Advance(first.player);
      && first.jumped && !first.player.onGround && first.player.velocityY == 0.23
      && !second.jumped && second.player.velocityY == 0.21
  {
    var p := Player(Vec3(7.0, 0.5, 0.0), 0.0, true, false, 0, NoInput.(jump := true));
    var q1 := Launch(p).player;
    assert q1.position == Vec3(7.0, 0.73, 0.0);
    assert FirstCatch(Platforms, q1.position, q1.velocityY) == None;
    var q2 := Launch(Advance(p).player).player;
    assert q2.position == Vec3(7.0, 0.94, 0.0) && q2.velocityY == 0.21;
    assert FirstCatch(Platforms, q2.position, q2.velocityY) == None;
  }
}

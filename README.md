# cube-tag server simulation in Dafny

This project models the authoritative game simulation of the cube-tag server (`server.js`). The server keeps one shared world made of:

- a player registry, a dictionary kept in insertion order;
- the identity of the player who is "it";
- the time of the last tag;
- a static table of platforms.

Four kinds of event change the world:

- a connection adds a player at the spawn point and makes it "it" when nobody is;
- a `playerInput` message overwrites that player's stored input;
- a disconnection removes the player and, if it was "it", hands the flag to a player chosen among the rest;
- a game-loop tick integrates every player's physics in registry order and then moves "it" at most once. This happens when the 5000 ms cooldown has run out and another player is closer than 1 unit. The first such player in registry order takes the flag, and the old holder gains 10 points.

A separate scoring pass gives one point to every player who is not "it".

Modules, leaves first:

- `Wrappers` (wrappers.dfy): `Option`.
- `Geometry` (geometry.dfy): positions, the platform table and the first-platform landing scan.
- `Players` (players.dfy): identities, inputs, the player record and the record a new player starts with.
- `Registry` (registry.dfy): the insertion-ordered registry as a key sequence plus a map. It holds the "it" bookkeeping invariant, key deletion, input overwrite and the scoring pass on values.
- `Physics` (physics.dfy): one player's update (movement, jump, gravity, landing) as a specification function, the step-by-step method that implements it, and the lemmas about it.
- `Tagging` (tagging.dfy): distance, the cooldown test, the first-in-order target scan and the transfer.
- `Server` (server.dfy): the `World` class, whose fields are the server's globals, with methods for the handlers, the tick and the scoring pass. Each method returns the events the server broadcasts.
- `Scenarios` (scenarios.dfy): three verified scenarios on a `World` covering tagging after the cooldown, no tag within it, and reassignment after the last player leaves.

The class invariant `World.Valid()` has two parts:

- the key sequence is duplicate-free and matches the map's keys;
- there is a holder exactly when somebody is registered, the holder is flagged, and nobody else is.

Every handler, the tick and the scoring pass preserve it. `Registry.OneItWhenOccupied` turns it into "the number of flagged players is 1 when the registry is non-empty and 0 when it is empty".

Two consequences of the code that are worth stating:

- A new player spawns at (0, 1, 0) with `onGround = true`. The source comments this as "spawn on central platform" (server.js:37), but the central platform's top is at height 1, so the cube is half inside it and not at rest on any surface (`Physics.NewcomerNotOnSurface`). Its first tick with no input takes it to height 0.98. The base floor test fails and the central platform catches it at height 1.5 (`Physics.NewcomerLandsOnCentralPlatform`). It does not settle on the floor at 0.5. So "grounded implies at rest on a surface" holds after every tick (`World.Tick` ensures `Settled` for every player), but not right after a connection.
- When the holder leaves, the new holder is picked from the remaining players and `lastTagTime` is kept (server.js:63-74), so a reassignment neither starts nor resets the cooldown.

## Model

| member | source | states |
|---|---|---|
| `Geometry.FirstCatch` | server.js:107-121 | the index returned is a platform that catches the falling cube (footprint holds (x,z), bottom at or below the top, falling), and no earlier platform in table order does; None means no platform catches |
| `Geometry.ScanPlatforms` | server.js:107-121 | the platform loop with its early `break` returns exactly the first catching platform of the table |
| `Physics.AdvanceRules` | server.js:82-122 | after one player's update: y >= 0.5; a grounded player has zero velocity and rests 0.5 above the floor or a platform under it; x moves by 0.1·([right]−[left]) and z by 0.1·([backward]−[forward]), without normalising; a jump fires exactly when jump is held and the player was grounded at the start; an airborne player's velocity is the previous one (or the jump force) minus gravity, and its height moves by that velocity; flag, score and input are kept |
| `Physics.LandingRule` | server.js:100-121 | the floor test comes first; otherwise the player lands, at that platform's top plus 0.5, on the first platform in table order that catches it, and stays airborne when none does |
| `Physics.Steer` | server.js:86-89 | the four movement keys, applied one after another, move x by 0.1·([right]−[left]) and z by 0.1·([backward]−[forward]) |
| `Physics.StepPlayer` | server.js:82-122 | the field-by-field update of one player (movement, jump, gravity, reset of `onGround`, floor test, platform scan) yields exactly the record and the jump flag that `Physics.Advance` gives |
| `Physics.MovedKeepsIt` | server.js:82-123 | the physics pass keeps the registry, the "it" bookkeeping and every score |
| `Physics.MovedSettles` | server.js:97-121 | after the physics pass every player is at or above the floor, and every grounded player is at rest on a surface |
| `Physics.NewcomerNotOnSurface` | server.js:36-43 | a freshly spawned player is grounded but not at rest on any surface |
| `Physics.NewcomerLandsOnCentralPlatform` | server.js:37-43 | after one tick with no input a new player is exactly its spawn record moved to (0, 1.5, 0): grounded, zero velocity, flag, score and input kept, and no jump fired |
| `Physics.HeldJumpFiresOnce` | server.js:90-98 | holding jump on the floor fires the jump once (velocity 0.23 after gravity); on the next tick, airborne, no jump fires and gravity alone brings the velocity to 0.21 |
| `Registry.Without` | server.js:64 | deleting a key leaves exactly the other keys and keeps them duplicate-free; deleting an unknown key changes nothing |
| `Registry.DistinctAppend` | server.js:35-42 | adding a new identity at the end keeps the key sequence duplicate-free |
| `Registry.WithoutSplices` | server.js:64-66 | deleting a registered key closes its gap and keeps every other key in insertion order |
| `Registry.CountOnlyFlagged` | server.js:46-49 | when only one identity can carry the flag, the number of flagged players is 1 if it is registered and flagged, else 0 |
| `Registry.OneItWhenOccupied` | server.js:46-49 | under the registry invariant exactly one player is "it" when the registry is non-empty, and none when it is empty |
| `Registry.InputOverwrites` | server.js:56-60 | `playerInput` replaces the whole stored input of a registered player and touches nothing else; for an unknown identity it changes nothing |
| `Registry.InputIdempotent` | server.js:56-60 | sending the same input twice leaves the state that sending it once left |
| `Registry.ScoringRule` | server.js:155-157 | the scoring pass adds exactly 1 to each player who is not "it", leaves the holder's score alone and changes no other field |
| `Registry.ScoringKeepsIt` | server.js:155-157 | the scoring pass keeps the registry and the "it" bookkeeping |
| `Tagging.DistSq` | server.js:130-134 | the squared distance is non-negative, and zero for two equal points |
| `Tagging.SquaredThreshold` | server.js:130-135 | for a non-negative distance d, d < 1 exactly when d·d < 1, so testing the squared distance decides as the square root test does |
| `Tagging.FirstTagged` | server.js:128-146 | the index returned is another player within reach (squared distance below 1) of the holder, and no earlier player in registry order is one; None means nobody is in reach |
| `Tagging.FindTarget` | server.js:127-146 | the registry scan skipping the holder and stopping at the first player in reach returns exactly that first player |
| `Tagging.TransferRule` | server.js:136-140 | a transfer gives the old holder exactly +10 and clears its flag, sets the new holder's flag, and changes no other player |
| `Tagging.TransferKeepsIt` | server.js:136-140 | a transfer to another registered player keeps the "it" bookkeeping, with the new holder as "it" |
| `Server.JumpSounds` | server.js:93 | the jump sounds are one `playSound('jump')` per update that fired a jump, never more events than players |
| `Server.JumperSounds` | server.js:90-94 | a player who is grounded and holding jump at the start of a tick makes the tick emit a jump sound |
| `Server.NoJumpersNoSounds` | server.js:90-94 | a tick in which nobody is grounded with jump held emits no jump sound |
| `Server.World.constructor` | server.js:10-12 | the world starts with no players, no holder and `lastTagTime = 0` |
| `Server.World.Connect` | server.js:36-52 | the new player is appended to the registry at (0,1,0) with zero velocity, grounded, score 0 and empty input; it is "it" and becomes the holder exactly when there was no holder; nothing else changes; a `newPlayer` event announces it |
| `Server.World.SetInput` | server.js:56-60 | the stored input is overwritten for a registered player, and for an unknown one nothing changes |
| `Server.World.Disconnect` | server.js:63-75 | exactly that player is removed and `lastTagTime` is untouched; a non-holder leaving keeps "it"; the holder leaving with others left makes the remaining player at position `pick mod count` "it" and emits `updateIt`; the last player leaving clears the holder; `playerDisconnected` comes last |
| `Server.World.Tick` | server.js:81-147 | every player is integrated; afterwards all are settled and no score has gone down; when a holder exists and `now − lastTagTime > 5000` and some other player is in reach, exactly one transfer goes to the first in registry order, with `lastTagTime := now` and `updateIt` plus the tag sound after the jump sounds; otherwise only physics happens; "it" changes only when the cooldown has run out |
| `Server.IntegrateAll` | server.js:82-123 | the physics loop over the registry leaves every player's record as the one-player update gives it, visiting players in registry order, and emits one jump sound per jump in that order |
| `Server.AwardAll` | server.js:155-157 | the scoring loop over the registry yields exactly the scoring pass: +1 to each player who is not "it", the holder unchanged |
| `Server.TransferKeepsSettled` | server.js:136-140 | a transfer keeps every player settled and lowers no score |
| `Server.World.TagPass` | server.js:126-147 | tagging happens only with a holder and with the cooldown run out; it moves the flag to the first other player in reach, with +10 to the old holder and `lastTagTime := now`, or changes nothing |
| `Server.World.ScoreTick` | server.js:154-157 | the registry after the scoring pass is the old one with +1 for every player who is not "it" |
| `Scenarios.NewcomersLand` | server.js:82-123 | two players who have just spawned land together at (0, 1.5, 0) on their first tick, and no jump sound is emitted |
| `Scenarios.SameSpotTag` | server.js:128-140 | of two players on the same spot, the holder's scan finds the other one first, and the transfer leaves the old holder with 10 points and the new one with 0 |
| `Scenarios.TagAfterCooldown` | server.js:126-146 | two players spawned on the same spot: at the first tick after the cooldown, "it" passes from the first to the second and the first scores 10 |
| `Scenarios.NoTagWithinCooldown` | server.js:126 | the same players at `now − lastTagTime = 5000`: no transfer, no score change, no event |
| `Scenarios.LastLeaverThenNewcomer` | server.js:46-49 | after the last player leaves nobody is "it", and the next player to connect is "it" at once |

## Left out

- Express, HTTP and Socket.IO wiring, static file serving, `server.listen` and `console.log` (server.js:1-7, 29, 33, 76, 161) are not modelled.
- Delivering events over the network is not modelled. Each operation returns its events as a list: `newPlayer`, `playerDisconnected`, `updateIt` and `playSound`.
- The `currentPlayers` and `updatePlayers` snapshots (server.js:53, 150, 158) are not events in the model. Each is the registry state itself.
- `setInterval` scheduling and the interleaving of the two timers with the handlers (server.js:81, 151, 154, 159) are not modelled. Each tick and each scoring pass is one atomic method call.
- `Date.now()` becomes the parameter `now` of `Tick`. The code reads the clock twice, for the cooldown test and for the new `lastTagTime` (server.js:126, 141). The model uses one reading for both.
- `Math.random()` becomes the parameter `pick` of `Disconnect`. The new holder is the remaining player at index `pick mod count`, so any remaining player can be chosen. That the choice is uniform is not modelled.
- Positions and velocities are `real`, so the 0.1, 0.02 and 0.25 steps are exact. IEEE-754 rounding is not modelled, and nothing here claims a bit-exact float result.
- Scores are unbounded naturals. Loss of integer precision above 2^53 is not modelled.
- Tunnelling through a platform at high speed is a consequence of the discrete step. It is not stated as a property.
- A `playerInput` payload is modelled as five booleans, each the truthiness of one field; a missing field is false. A payload of another type reads as `{}` and so as `NoInput`. A `null` or missing payload makes the tick throw at server.js:86, which aborts the tick and stops the process; this is not modelled.
- `Object.keys` and `Object.entries` list integer-like keys before the others. Socket identities are not integer-like, so the model uses plain insertion order.
- `Server.World.Connect` requires the identity to be unregistered. Every connection has its own socket identity, so the code never adds an existing key.
- `public/client.js` (rendering, camera, keyboard capture, UI) is not part of this model.

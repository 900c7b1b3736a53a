/** The player record of the registry and the record a new connection starts with. */
module Players {
  import opened Geometry

  /** A connection identity. Socket identities are never empty, so they are always truthy. */
  type Id = s: string | s != [] witness "id"

  /** The latest input a client sent; a flag missing from the message is false. */
  datatype Input = Input(forward: bool, backward: bool, left: bool, right: bool, jump: bool)

  /** The empty input `{}` every player starts with. */
  const NoInput: Input := Input(false, false, false, false, false)

  datatype Player = Player(
    position: Vec3,
    velocityY: real,
    onGround: bool,
    isIt: bool,
    score: nat,
    input: Input)

  const SpawnPoint: Vec3 := Vec3(0.0, 1.0, 0.0)

  /** A newly connected player before "it" is assigned. */
  const Newcomer: Player := Player(SpawnPoint, 0.0, true, false, 0, NoInput)
}

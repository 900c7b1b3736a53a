/**
 * World geometry: the static platform table of server.js and the
 * point-in-footprint query the physics step runs against it.
 */
module Geometry {
  import opened Wrappers

  /** A position in world space; `real` stands in for JavaScript doubles. */
  datatype Vec3 = Vec3(x: real, y: real, z: real)

  /** An axis-aligned footprint with a flat top at height `yTop`. */
  datatype Platform = Platform(xMin: real, xMax: real, zMin: real, zMax: real, yTop: real)

  /** Height of the base floor and half the vertical extent of a player's cube. */
  const FloorHeight: real := 0.0
  const HalfHeight: real := 0.5

  /** The platform table, in the order the landing scan visits it. */
  const Platforms: seq<Platform> := [
    Platform(-15.0, 15.0, -15.0, 15.0, 0.0),   // base floor
    Platform(-5.0, 5.0, -5.0, 5.0, 1.0),       // central platform
    Platform(5.0, 10.0, 5.0, 10.0, 2.0),       // elevated platform
    Platform(-10.0, -5.0, -10.0, -5.0, 1.5),   // mid-level platform
    Platform(10.0, 15.0, 10.0, 15.0, 3.0),     // high platform
    Platform(-15.0, -10.0, -15.0, -10.0, 2.5)  // additional high platform
  ]

  /** The footprint of `pl` contains the point (x, z), bounds included. */
  predicate Covers(pl: Platform, x: real, z: real) {
    pl.xMin <= x <= pl.xMax && pl.zMin <= z <= pl.zMax
  }

  /**
   * A cube centred at `pos` and moving vertically at `vy` lands on `pl`:
   * it is over the footprint, its bottom is at or below the top, and it is falling.
   */
  predicate Catches(pl: Platform, pos: Vec3, vy: real) {
    Covers(pl, pos.x, pos.z) && pos.y - HalfHeight <= pl.yTop && vy < 0.0
  }

  /** The index of the first platform in `ps` that catches the cube, if any. */
  function FirstCatch(ps: seq<Platform>, pos: Vec3, vy: real): (r: Option<nat>)
    ensures r.Some? ==> r.value < |ps| && Catches(ps[r.value], pos, vy)
    ensures r.Some? ==> forall j :: 0 <= j < r.value ==> !Catches(ps[j], pos, vy)
    ensures r.None? ==> forall j :: 0 <= j < |ps| ==> !Catches(ps[j], pos, vy)
  {
    if ps == [] then None
    else if Catches(ps[0], pos, vy) then Some(0)
    else match FirstCatch(ps[1..], pos, vy)
      case None => None
      case Some(k) => Some(k + 1)
  }

  /** The landing scan over the platform table, stopping at the first platform that catches. */
  method ScanPlatforms(pos: Vec3, vy: real) returns (k: Option<nat>)
    ensures k == FirstCatch(Platforms, pos, vy)
  {
    k := None;
    for i := 0 to |Platforms|
      invariant forall j :: 0 <= j < i ==> !Catches(Platforms[j], pos, vy)
    {
      if Catches(Platforms[i], pos, vy) {
        k := Some(i);
        break;
      }
    }
  }
}

/**
 * Values crossing the boundary to the game engine: transforms, the object
 * that entered a trigger volume, and the world state consulted by the
 * eligibility check. Engine floats are exact reals here.
 */
module Engine {
  import opened Wrappers

  datatype Vector2 = Vector2(x: real, y: real)
  datatype Vector3 = Vector3(x: real, y: real, z: real)
  datatype Quaternion = Quaternion(x: real, y: real, z: real, w: real)

  /** A player as `Player.Get` finds it: its role name and its look direction. */
  datatype Player = Player(role: string, rotation: Vector2)

  /**
   * The game object owning the collider that entered a trigger; `player` is
   * what `Player.Get` returns for it.
   */
  datatype GameObject = GameObject(tag: string, name: string, position: Vector3, player: Option<Player>)

  /**
   * The world state read during one trigger: light-containment
   * decontamination, warhead detonation, and the current time in seconds.
   */
  datatype World = World(lczDecontaminated: bool, warheadDetonated: bool, now: real)

  /** `sub` occurs in `s` starting at position `i`. */
  predicate OccursAt(s: string, sub: string, i: int) {
    0 <= i <= |s| - |sub| && s[i..i + |sub|] == sub
  }

  /** `s.Contains(sub)`: `sub` occurs in `s` as a contiguous substring. */
  predicate Contains(s: string, sub: string) {
    exists i | 0 <= i <= |s| - |sub| :: OccursAt(s, sub, i)
  }
}

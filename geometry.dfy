/** Plane geometry used by every body of the game: vectors, the
    screen-edge wrap policy and closed-interval overlap. */
module Geometry {

  /** A 2D vector: a position, a velocity or a bounding-box size.
      Screen coordinates: the origin is the top-left corner and y grows downward. */
  datatype Vec = Vec(x: real, y: real)

  function Add(a: Vec, b: Vec): Vec
  {
    Vec(a.x + b.x, a.y + b.y)
  }

  function Abs(r: real): real
  {
    if r < 0.0 then -r else r
  }

  /** The boundary policy: a coordinate past `max` is reset to `min` and one
      below `min` is reset to `max`. This is a hard reset to the opposite
      bound, not a modulo: the size of the overshoot is forgotten. */
  function ForceToRange(n: real, min: real, max: real): (r: real)
    ensures min <= max ==> min <= r <= max
    ensures min <= max ==> (r == n <==> min <= n <= max)
    ensures n > max ==> r == min
    ensures n < min && min <= max ==> r == max
  {
    if n > max then min
    else if n < min then max
    else n
  }

  /** Applying the wrap a second time changes nothing. */
  lemma ForceToRangeIdempotent(n: real, min: real, max: real)
    requires min <= max
    ensures ForceToRange(ForceToRange(n, min, max), min, max) == ForceToRange(n, min, max)
  {
  }

  /** Closed intervals [aLo, aHi] and [bLo, bHi] share at least one point. */
  predicate IntervalsMeet(aLo: real, aHi: real, bLo: real, bHi: real)
  {
    aLo <= bHi && bLo <= aHi
  }

  /** Wrapping a position into the arena [0, arena.x] x [0, arena.y], axis by axis. */
  function Wrapped(c: Vec, arena: Vec): (r: Vec)
    ensures 0.0 <= arena.x && 0.0 <= arena.y ==> 0.0 <= r.x <= arena.x && 0.0 <= r.y <= arena.y
    ensures 0.0 <= c.x <= arena.x && 0.0 <= c.y <= arena.y ==> r == c
  {
    Vec(ForceToRange(c.x, 0.0, arena.x), ForceToRange(c.y, 0.0, arena.y))
  }
}

/** The three kinds of body that live in the game (the player's ship,
    bullets and asteroids), their tuning constants, how each is created,
    how each moves in one frame, and the bounding-box collision test. */
module Entities {
  import opened Geometry

  /** Object identity. Two bodies are the same object exactly when their ids are equal. */
  type BodyId = nat

  /** The per-kind state of a body: the ship's heading in degrees, or an asteroid's power. */
  datatype Kind = Player(rotation: real) | Bullet | Asteroid(power: int)

  /** A body: its identity, kind, centre, axis-aligned bounding-box size and velocity. */
  datatype Body = Body(id: BodyId, kind: Kind, center: Vec, size: Vec, velocity: Vec)

  /** Controls held down during a frame (arrow keys and space bar). */
  datatype Keys = Keys(left: bool, right: bool, up: bool, space: bool)

  /** The trigonometry of the game, which the model leaves uninterpreted:
      `velocity(angle, speed)` is the velocity of the given speed along the heading,
      `rotate(point, angle)` turns a point about the origin. */
  datatype Trig = Trig(velocity: (real, real) -> Vec, rotate: (Vec, real) -> Vec)

  const AsteroidCount: nat := 3
  const AsteroidMaxSpeed: real := 3.0
  /** Asteroid box side, indexed by power. */
  const AsteroidSizes: seq<real> := [15.0, 20.0, 28.0, 36.0, 44.0]

  const PlayerSpeed: real := 0.2
  const Friction: real := 0.98
  /** Degrees turned per frame; the source adds ROTATION_SPEED % 360. */
  const RotationSpeed: int := 5
  const BulletSpeed: real := 10.0
  const PlayerSide: real := 15.0
  const BulletSide: real := 3.0
  /** The bullet leaves the ship at this offset, turned by the ship's heading. */
  const GunOffset: Vec := Vec(0.0, 20.0)

  /** The ship at the start of a game: centred horizontally, two box heights above
      the vertical centre, at rest and heading up. */
  function NewPlayer(id: BodyId, gameSize: Vec): (r: Body)
    ensures r.id == id && r.kind == Player(0.0) && r.velocity == Vec(0.0, 0.0)
    ensures r.size == Vec(15.0, 15.0)
    ensures r.center.x * 2.0 == gameSize.x && r.center.y + 30.0 == gameSize.y / 2.0
  {
    Body(id, Player(0.0), Vec(gameSize.x / 2.0, gameSize.y / 2.0 - PlayerSide * 2.0),
         Vec(PlayerSide, PlayerSide), Vec(0.0, 0.0))
  }

  /** A bullet: a 3 x 3 box at the given centre, flying at the given velocity. */
  function NewBullet(id: BodyId, center: Vec, velocity: Vec): (r: Body)
    ensures r.id == id && r.kind == Bullet && r.center == center && r.velocity == velocity
    ensures r.size == Vec(3.0, 3.0)
  {
    Body(id, Bullet, center, Vec(BulletSide, BulletSide), velocity)
  }

  /** An asteroid; its box is looked up once, from the power it is created with. */
  function NewAsteroid(id: BodyId, center: Vec, velocity: Vec, power: int): (r: Body)
    requires 0 <= power < |AsteroidSizes|
    ensures r.kind == Asteroid(power) && r.id == id && r.center == center && r.velocity == velocity
    ensures r.size.x == r.size.y == AsteroidSizes[power]
  {
    Body(id, Asteroid(power), center, Vec(AsteroidSizes[power], AsteroidSizes[power]), velocity)
  }

  /** Bounding-box overlap. A body never collides with itself; misses are strict
      comparisons, so boxes whose edges touch do collide. */
  function Colliding(a: Body, b: Body): (r: bool)
    ensures r <==> a.id != b.id
                   && Abs(a.center.x - b.center.x) <= (a.size.x + b.size.x) / 2.0
                   && Abs(a.center.y - b.center.y) <= (a.size.y + b.size.y) / 2.0
  {
    if a.id == b.id then false
    else if a.center.x + a.size.x / 2.0 < b.center.x - b.size.x / 2.0
         || a.center.x - a.size.x / 2.0 > b.center.x + b.size.x / 2.0 then false
    else if a.center.y + a.size.y / 2.0 < b.center.y - b.size.y / 2.0
         || a.center.y - a.size.y / 2.0 > b.center.y + b.size.y / 2.0 then false
    else true
  }

  /** The collision test reads the same in both directions. */
  lemma CollidingSymmetric(a: Body, b: Body)
    ensures Colliding(a, b) == Colliding(b, a)
  {
  }

  /** Two distinct bodies collide exactly when their closed boxes meet on both axes. */
  lemma CollidingIsBoxOverlap(a: Body, b: Body)
    ensures Colliding(a, b) <==>
      a.id != b.id
      && IntervalsMeet(a.center.x - a.size.x / 2.0, a.center.x + a.size.x / 2.0,
                       b.center.x - b.size.x / 2.0, b.center.x + b.size.x / 2.0)
      && IntervalsMeet(a.center.y - a.size.y / 2.0, a.center.y + a.size.y / 2.0,
                       b.center.y - b.size.y / 2.0, b.center.y + b.size.y / 2.0)
  {
  }

  /** Bullet.update: the bullet drifts by its velocity, with no wrap at the edges. */
  function BulletMoved(b: Body): (r: Body)
    ensures r.id == b.id && r.kind == b.kind && r.size == b.size && r.velocity == b.velocity
    ensures r.center.x - b.center.x == b.velocity.x && r.center.y - b.center.y == b.velocity.y
  {
    b.(center := Add(b.center, b.velocity))
  }

  /** Asteroid.update: drift by the velocity, then wrap each coordinate into the arena. */
  function AsteroidMoved(b: Body, arena: Vec): (r: Body)
    ensures r.id == b.id && r.kind == b.kind && r.size == b.size && r.velocity == b.velocity
    ensures r.center == Wrapped(Add(b.center, b.velocity), arena)
  {
    b.(center := Wrapped(Add(b.center, b.velocity), arena))
  }

  /** The ship's heading after one frame: right wins over left. */
  function Turned(rotation: real, keys: Keys): (r: real)
    ensures keys.right ==> r == rotation + 5.0
    ensures !keys.right && keys.left ==> r == rotation - 5.0
    ensures !keys.right && !keys.left ==> r == rotation
  {
    if keys.right then rotation + (RotationSpeed % 360) as real
    else if keys.left then rotation - (RotationSpeed % 360) as real
    else rotation
  }

  /** The ship's velocity after one frame: thrust along the (new) heading,
      or friction when the thrust key is up. */
  function Thrusted(v: Vec, rotation: real, keys: Keys, trig: Trig): Vec
  {
    if keys.up then Add(v, trig.velocity(rotation, PlayerSpeed))
    else Vec(v.x * Friction, v.y * Friction)
  }

  /** Player.update without the shot: turn, accelerate or slow down, move, wrap. */
  function PlayerMoved(b: Body, keys: Keys, trig: Trig, arena: Vec): (r: Body)
    requires b.kind.Player?
    ensures r.id == b.id && r.kind.Player? && r.size == b.size
    ensures r.kind.rotation == Turned(b.kind.rotation, keys)
    ensures r.velocity == Thrusted(b.velocity, r.kind.rotation, keys, trig)
    ensures r.center == Wrapped(Add(b.center, r.velocity), arena)
  {
    var rotation := Turned(b.kind.rotation, keys);
    var velocity := Thrusted(b.velocity, rotation, keys, trig);
    b.(kind := Player(rotation), velocity := velocity, center := Wrapped(Add(b.center, velocity), arena))
  }

  /** `b.update()` apart from the ship's shot: each kind moves by its own rule. */
  function Moved(b: Body, keys: Keys, trig: Trig, arena: Vec): Body
  {
    match b.kind
    case Bullet => BulletMoved(b)
    case Asteroid(_) => AsteroidMoved(b, arena)
    case Player(_) => PlayerMoved(b, keys, trig, arena)
  }

  /** Every body of a list moved once, in order. */
  function MovedAll(s: seq<Body>, keys: Keys, trig: Trig, arena: Vec): (r: seq<Body>)
    ensures |r| == |s|
  {
    if s == [] then [] else [Moved(s[0], keys, trig, arena)] + MovedAll(s[1..], keys, trig, arena)
  }

  /** The k-th body of the moved list is the k-th body moved. */
  lemma {:induction false} MovedAllAt(s: seq<Body>, k: nat, keys: Keys, trig: Trig, arena: Vec)
    requires k < |s|
    ensures MovedAll(s, keys, trig, arena)[k] == Moved(s[k], keys, trig, arena)
  {
    if k > 0 {
      MovedAllAt(s[1..], k - 1, keys, trig, arena);
    }
  }

  lemma {:induction false} MovedAllConcat(a: seq<Body>, b: seq<Body>, keys: Keys, trig: Trig, arena: Vec)
    ensures MovedAll(a + b, keys, trig, arena) == MovedAll(a, keys, trig, arena) + MovedAll(b, keys, trig, arena)
  {
    if a == [] {
      assert a + b == b;
    } else {
      assert (a + b)[1..] == a[1..] + b;
      MovedAllConcat(a[1..], b, keys, trig, arena);
    }
  }

  /** Player.shoot: a bullet at the gun offset turned by the ship's current heading,
      flying along that heading at bullet speed. */
  function ShotFrom(p: Body, id: BodyId, trig: Trig): (r: Body)
    requires p.kind.Player?
    ensures r.id == id && r.kind == Bullet && r.size == Vec(BulletSide, BulletSide)
    ensures r.velocity == trig.velocity(p.kind.rotation, BulletSpeed)
    ensures Add(r.center, trig.rotate(GunOffset, p.kind.rotation)) == p.center
  {
    var tip := trig.rotate(GunOffset, p.kind.rotation);
    NewBullet(id, Vec(p.center.x - tip.x, p.center.y - tip.y), trig.velocity(p.kind.rotation, BulletSpeed))
  }

  /** An asteroid's random velocity from two unit samples (the source calls
      Math.random() once per axis, for initial asteroids and fragments alike). */
  function RandomVelocity(sample: Vec): (r: Vec)
    ensures 0.0 <= sample.x < 1.0 && 0.0 <= sample.y < 1.0 ==>
              0.0 <= r.x < AsteroidMaxSpeed && 0.0 <= r.y < AsteroidMaxSpeed
  {
    Vec(sample.x * AsteroidMaxSpeed, sample.y * AsteroidMaxSpeed)
  }
}

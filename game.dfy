/** The game object: the live body list and the removal queue, updated in
    place once per frame, in the order the source does it. Every method is
    proved to leave the state its specification function in Simulation gives. */
module GameLoop {
  import opened Geometry
  import opened Entities
  import opened Removal
  import opened Simulation
  import opened FrameProperties

  /** The unit samples drawn for one initial asteroid: its position, its
      velocity and its power. */
  datatype Launch = Launch(position: Vec, speed: Vec, power: real)

  predicate UnitSample(r: real)
  {
    0.0 <= r < 1.0
  }

  /** An initial asteroid: a random position in the arena, a random velocity
      and a power of 2, 3 or 4. */
  function InitialAsteroid(id: BodyId, launch: Launch, gameSize: Vec): (r: Body)
    requires UnitSample(launch.power)
    ensures r.kind.Asteroid? && 2 <= r.kind.power <= 4 && r.id == id
    ensures (UnitSample(launch.position.x) && UnitSample(launch.position.y) && 0.0 <= gameSize.x && 0.0 <= gameSize.y)
              ==> 0.0 <= r.center.x <= gameSize.x && 0.0 <= r.center.y <= gameSize.y
  {
    ScaledWithin(launch.position.x, gameSize.x);
    ScaledWithin(launch.position.y, gameSize.y);
    NewAsteroid(id, PlaceIn(launch.position, gameSize), RandomVelocity(launch.speed), InitialPower(launch.power))
  }

  /** `Math.floor(Math.random()*3 + 2)`. */
  function InitialPower(u: real): (p: int)
    requires UnitSample(u)
    ensures 2 <= p <= 4
  {
    var scaled := u * 3.0;
    assert 0.0 <= scaled < 3.0;
    (scaled + 2.0).Floor
  }

  /** `Math.random()*extent`. */
  function Scale(u: real, extent: real): real
  {
    u * extent
  }

  /** A unit sample scaled by a non-negative extent lies within [0, extent]. */
  lemma ScaledWithin(u: real, extent: real)
    ensures UnitSample(u) && 0.0 <= extent ==> 0.0 <= Scale(u, extent) <= extent
  {
    if UnitSample(u) && 0.0 <= extent {
      var rest := 1.0 - u;
      assert extent - u * extent == rest * extent;
      assert 0.0 <= rest * extent by {
        assert 0.0 < rest;
      }
    }
  }

  /** A random position in the arena. */
  function PlaceIn(sample: Vec, gameSize: Vec): Vec
  {
    Vec(Scale(sample.x, gameSize.x), Scale(sample.y, gameSize.y))
  }

  class Game {
    var bodies: seq<Body>
    var removeQueue: seq<BodyId>
    /** The identity the next allocated body receives. */
    var nextId: nat
    const gameSize: Vec

    function State(): World
      reads this
    {
      World(bodies, removeQueue, nextId)
    }

    /** Between frames: identities unique and fresh, powers within the size table,
        nothing queued, and an arena of non-negative size. */
    predicate Valid()
      reads this
    {
      Inv(State()) && removeQueue == [] && 0.0 <= gameSize.x && 0.0 <= gameSize.y
    }

    /** The ship first, then one asteroid per launch. */
    constructor (gameSize: Vec, launches: seq<Launch>)
      requires 0.0 <= gameSize.x && 0.0 <= gameSize.y
      requires |launches| == AsteroidCount
      requires forall k :: 0 <= k < |launches| ==> UnitSample(launches[k].power)
      ensures Valid() && this.gameSize == gameSize
      ensures |bodies| == 1 + |launches| && bodies[0] == NewPlayer(0, gameSize)
      ensures forall k :: 1 <= k < |bodies| ==> bodies[k] == InitialAsteroid(k, launches[k - 1], gameSize)
    {
      this.gameSize := gameSize;
      bodies := [NewPlayer(0, gameSize)];
      removeQueue := [];
      nextId := 1;
      new;
      for k := 0 to |launches|
        invariant |bodies| == 1 + k && nextId == 1 + k && removeQueue == []
        invariant bodies[0] == NewPlayer(0, gameSize)
        invariant forall m :: 1 <= m < |bodies| ==> bodies[m] == InitialAsteroid(m, launches[m - 1], gameSize)
        invariant Valid()
      {
        var id := NewId();
        AddBodies(InitialAsteroid(id, launches[k], gameSize));
      }
    }

    /** Allocation of a new object: a fresh identity. */
    method NewId() returns (id: BodyId)
      modifies this
      ensures id == old(nextId) && nextId == old(nextId) + 1
      ensures bodies == old(bodies) && removeQueue == old(removeQueue)
    {
      id := nextId;
      nextId := nextId + 1;
    }

    /** Game.addBodies. */
    method AddBodies(b: Body)
      modifies this
      ensures State() == AddBody(old(State()), b)
    {
      bodies := bodies + [b];
    }

    /** Game.removeBody. */
    method RemoveBody(id: BodyId)
      modifies this
      ensures State() == Simulation.RemoveBody(old(State()), id)
    {
      removeQueue := removeQueue + [id];
    }

    /** Game.emptyRemoveQueue: splice each queued body out at its indexOf, then
        clear the queue. */
    method EmptyRemoveQueue()
      modifies this
      ensures State() == EmptyQueue(old(State()))
    {
      if |removeQueue| > 0 {
        var i := 0;
        while i < |removeQueue|
          invariant 0 <= i <= |removeQueue|
          invariant removeQueue == old(removeQueue) && nextId == old(nextId)
          invariant Drain(bodies, removeQueue[i..]) == Drain(old(bodies), old(removeQueue))
        {
          assert removeQueue[i..][1..] == removeQueue[i + 1..];
          bodies := SpliceOne(bodies, IndexOf(bodies, removeQueue[i]));
          i := i + 1;
        }
      }
      removeQueue := [];
    }

    /** Player.shoot for the ship at position i. */
    method Shoot(i: nat, trig: Trig)
      requires i < |bodies| && bodies[i].kind.Player?
      modifies this
      ensures State() == Simulation.Shoot(old(State()), i, trig)
    {
      var ship := bodies[i];
      var id := NewId();
      AddBodies(ShotFrom(ship, id, trig));
    }

    /** Player.update for the ship at position i: fire, turn, thrust or brake,
        move, and wrap each coordinate. */
    method UpdatePlayer(i: nat, keys: Keys, trig: Trig)
      requires i < |bodies| && bodies[i].kind.Player?
      modifies this
      ensures State() == UpdateAt(old(State()), i, keys, trig, gameSize)
    {
      var ship := bodies[i];
      if keys.space {
        Shoot(i, trig);
      }
      var rotation := ship.kind.rotation;
      if keys.right {
        rotation := rotation + (RotationSpeed % 360) as real;
      } else if keys.left {
        rotation := rotation - (RotationSpeed % 360) as real;
      }
      var velocity := ship.velocity;
      if keys.up {
        var change := trig.velocity(rotation, PlayerSpeed);
        velocity := Vec(velocity.x + change.x, velocity.y + change.y);
      } else {
        velocity := Vec(velocity.x * Friction, velocity.y * Friction);
      }
      var center := Vec(ship.center.x + velocity.x, ship.center.y + velocity.y);
      center := Vec(ForceToRange(center.x, 0.0, gameSize.x), ForceToRange(center.y, 0.0, gameSize.y));
      bodies := bodies[i := ship.(kind := Player(rotation), velocity := velocity, center := center)];
    }

    /** `bodies[i].update()`. */
    method UpdateBody(i: nat, keys: Keys, trig: Trig)
      requires i < |bodies|
      modifies this
      ensures State() == UpdateAt(old(State()), i, keys, trig, gameSize)
    {
      var b := bodies[i];
      match b.kind
      case Bullet =>
        bodies := bodies[i := b.(center := Vec(b.center.x + b.velocity.x, b.center.y + b.velocity.y))];
      case Asteroid(_) =>
        var center := Vec(b.center.x + b.velocity.x, b.center.y + b.velocity.y);
        center := Vec(ForceToRange(center.x, 0.0, gameSize.x), ForceToRange(center.y, 0.0, gameSize.y));
        bodies := bodies[i := b.(center := center)];
      case Player(_) =>
        UpdatePlayer(i, keys, trig);
    }

    /** `bodies[i].collision(bodies[j])`. */
    method Collision(i: nat, j: nat, random: BodyId -> Vec)
      requires i < |bodies| && j < |bodies| && PowersBounded(bodies)
      modifies this
      ensures State() == ReactAt(old(State()), i, j, random)
    {
      var self := bodies[i];
      match self.kind
      case Bullet =>
        RemoveBody(self.id);
      case Player(_) =>
      case Asteroid(power) =>
        if !bodies[j].kind.Asteroid? {
          RemoveBody(self.id);
          bodies := bodies[i := self.(kind := Asteroid(power - 1))];
          if power - 1 > 0 {
            var id := NewId();
            AddBodies(Fragment(id, self.center, power - 1, random));
            id := NewId();
            AddBodies(Fragment(id, self.center, power - 1, random));
            id := NewId();
            AddBodies(Fragment(id, self.center, power - 1, random));
          }
        }
    }

    /** The first loop of Game.update: every body updates itself, including
        the bullets appended by this loop. */
    method UpdateAll(keys: Keys, trig: Trig)
      modifies this
      ensures State() == UpdatePass(old(State()), 0, keys, trig, gameSize)
    {
      var i := 0;
      while i < |bodies|
        invariant i <= |bodies|
        invariant UpdatePass(State(), i, keys, trig, gameSize) == UpdatePass(old(State()), 0, keys, trig, gameSize)
        decreases |bodies| - i + PlayerCount(bodies[i..])
      {
        UpdateProgress(State(), i, keys, trig, gameSize);
        UpdateBody(i, keys, trig);
        i := i + 1;
      }
    }

    /** The inner collision loop for body i: body i against every later body,
        including fragments appended while the loop runs. */
    method CollideWith(i: nat, random: BodyId -> Vec)
      requires i < |bodies| && PowersBounded(bodies)
      modifies this
      ensures PowersBounded(bodies) && Bound(State()) == old(Bound(State()))
      ensures CollidePass(State(), i + 1, i + 2, random) == CollidePass(old(State()), i, i + 1, random)
    {
      var j := i + 1;
      while j < |bodies|
        invariant i < j && i < |bodies| && PowersBounded(bodies)
        invariant CollidePass(State(), i, j, random) == CollidePass(old(State()), i, i + 1, random)
        invariant Bound(State()) == old(Bound(State()))
        decreases Bound(State()) + 1 - j
      {
        if Colliding(bodies[i], bodies[j]) {
          ghost var before := State();
          Collision(i, j, random);
          Collision(j, i, random);
          assert State() == CollidePair(before, i, j, random);
        }
        j := j + 1;
      }
    }

    /** The nested collision loops of Game.update. */
    method CollideAll(random: BodyId -> Vec)
      requires PowersBounded(bodies)
      modifies this
      ensures State() == CollidePass(old(State()), 0, 1, random)
    {
      var i := 0;
      while i < |bodies|
        invariant PowersBounded(bodies)
        invariant CollidePass(State(), i, i + 1, random) == CollidePass(old(State()), 0, 1, random)
        decreases Bound(State()) - i
      {
        ghost var bound := Bound(State());
        CollideWith(i, random);
        assert Bound(State()) == bound;
        i := i + 1;
      }
    }

    /** Game.update: update every body, then let every pair i < j that collides
        react (i first), then drain the removal queue. Both loops re-read the
        length of the list. */
    method Update(keys: Keys, trig: Trig, random: BodyId -> Vec)
      requires Valid()
      modifies this
      ensures Valid()
      ensures State() == Frame(old(State()), keys, trig, random, gameSize)
    {
      ghost var start := State();
      UpdateAll(keys, trig);
      CollideAll(random);
      EmptyRemoveQueue();
      FrameKeepsInv(start, keys, trig, random, gameSize);
    }
  }
}

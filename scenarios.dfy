/** Frames worked out on concrete bodies in an 800 x 600 arena, with no key
    held and every body at rest: an asteroid split, and two frames whose
    removal queue holds more entries than the list holds bodies. */
module Scenarios {
  import opened Geometry
  import opened Entities
  import opened Removal
  import opened Simulation
  import opened FrameProperties

  const Arena: Vec := Vec(800.0, 600.0)
  const NoKeys: Keys := Keys(false, false, false, false)
  const AtRest: Vec := Vec(0.0, 0.0)
  const Corner: Vec := Vec(100.0, 100.0)

  /** The ship where a game starts it, at (400, 270). */
  function Ship(): Body
  {
    NewPlayer(0, Arena)
  }

  lemma ShipStaysPut(trig: Trig)
    ensures PlayerMoved(Ship(), NoKeys, trig, Arena) == Ship()
  {
    assert Thrusted(AtRest, 0.0, NoKeys, trig) == AtRest;
  }

  /** A body at rest inside the arena does not move when no key is held. */
  lemma AtRestStaysPut(b: Body, trig: Trig)
    requires b == Ship() || (b.velocity == AtRest && !b.kind.Player? && 0.0 <= b.center.x <= 800.0 && 0.0 <= b.center.y <= 600.0)
    ensures Moved(b, NoKeys, trig, Arena) == b
  {
    if b == Ship() {
      ShipStaysPut(trig);
    } else {
      assert Add(b.center, b.velocity) == b.center;
    }
  }

  // ---------------------------------------------------------------------------
  // A split that the ship survives

  function SplitStart(): World
  {
    World([Ship(), NewAsteroid(1, Vec(421.0, 270.0), AtRest, 2)], [], 2)
  }

  /** The world after the rock has reacted to the ship. */
  function SplitHit(random: BodyId -> Vec): World
  {
    var rock := NewAsteroid(1, Vec(421.0, 270.0), AtRest, 2);
    World([Ship(), rock.(kind := Asteroid(1)), Fragment(2, rock.center, 1, random),
           Fragment(3, rock.center, 1, random), Fragment(4, rock.center, 1, random)], [1], 5)
  }

  lemma SplitUpdate(trig: Trig)
    ensures UpdatePass(SplitStart(), 0, NoKeys, trig, Arena) == SplitStart()
  {
    var w := SplitStart();
    forall k | 0 <= k < |w.bodies| ensures Moved(w.bodies[k], NoKeys, trig, Arena) == w.bodies[k] {
      AtRestStaysPut(w.bodies[k], trig);
    }
    UpdatePassAtRest(w, NoKeys, trig, Arena);
  }

  /** The ship's box reaches 7.5 to the right of its centre and a power-2 rock's
      14 to its left: 21 units apart they overlap by half a unit. The power-1
      fragments, 10 wide each side, stay clear of the ship. */
  lemma SplitCollide(random: BodyId -> Vec)
    ensures CollidePass(SplitStart(), 0, 1, random) == SplitHit(random)
  {
    var w, c := SplitStart(), SplitHit(random);
    assert Colliding(w.bodies[0], w.bodies[1]);
    assert ReactAt(w, 0, 1, random) == w;
    assert ReactAt(w, 1, 0, random) == c;
    assert CollidePass(w, 0, 1, random) == CollidePass(c, 0, 2, random);
    assert !Colliding(c.bodies[0], c.bodies[2]) && !Colliding(c.bodies[0], c.bodies[3])
        && !Colliding(c.bodies[0], c.bodies[4]);
    assert CollidePass(c, 0, 2, random) == CollidePass(c, 0, 3, random);
    assert CollidePass(c, 0, 3, random) == CollidePass(c, 0, 4, random);
    assert CollidePass(c, 0, 4, random) == CollidePass(c, 0, 5, random);
    assert CollidePass(c, 0, 5, random) == CollidePass(c, 1, 2, random);
    AsteroidFieldPassesThrough(c, 1, 2, random);
  }

  /** A power-2 rock at rest whose box just overlaps the ship's: after one frame
      the ship is unchanged and the rock is replaced by three power-1 fragments
      at its centre, which are too small to reach the ship and so survive. */
  lemma SplitScenario(trig: Trig, random: BodyId -> Vec)
    ensures var rock := NewAsteroid(1, Vec(421.0, 270.0), AtRest, 2);
            var f := Frame(SplitStart(), NoKeys, trig, random, Arena);
            && f.removeQueue == [] && f.nextId == 5
            && f.bodies == [Ship(), Fragment(2, rock.center, 1, random), Fragment(3, rock.center, 1, random),
                            Fragment(4, rock.center, 1, random)]
  {
    SplitUpdate(trig);
    SplitCollide(random);
    var c := SplitHit(random);
    assert IndexOf(c.bodies, 1) == 1;
    assert Drain(c.bodies, [1]) == [Ship()] + c.bodies[2..];
  }

  // ---------------------------------------------------------------------------
  // One shot that empties the list

  function ShotStart(): World
  {
    World([Ship(), NewAsteroid(1, Corner, AtRest, 2), NewBullet(2, Corner, AtRest)], [], 3)
  }

  /** After the bullet hit the rock: the rock has power 1 and three power-1
      fragments sit on top of the bullet. */
  function ShotHit(random: BodyId -> Vec): World
  {
    World([Ship(), NewAsteroid(1, Corner, AtRest, 2).(kind := Asteroid(1)), NewBullet(2, Corner, AtRest),
           Fragment(3, Corner, 1, random), Fragment(4, Corner, 1, random), Fragment(5, Corner, 1, random)],
          [1, 2], 6)
  }

  /** After the bullet met each fragment in turn: each fragment is spent and
      the bullet is queued once more per fragment. */
  function ShotDone(random: BodyId -> Vec): World
  {
    World([Ship(), NewAsteroid(1, Corner, AtRest, 2).(kind := Asteroid(1)), NewBullet(2, Corner, AtRest),
           Fragment(3, Corner, 1, random).(kind := Asteroid(0)), Fragment(4, Corner, 1, random).(kind := Asteroid(0)),
           Fragment(5, Corner, 1, random).(kind := Asteroid(0))],
          [1, 2, 2, 3, 2, 4, 2, 5], 6)
  }

  lemma ShotUpdate(trig: Trig)
    ensures UpdatePass(ShotStart(), 0, NoKeys, trig, Arena) == ShotStart()
  {
    var w := ShotStart();
    forall k | 0 <= k < |w.bodies| ensures Moved(w.bodies[k], NoKeys, trig, Arena) == w.bodies[k] {
      AtRestStaysPut(w.bodies[k], trig);
    }
    UpdatePassAtRest(w, NoKeys, trig, Arena);
  }

  lemma ShotSplits(random: BodyId -> Vec)
    ensures CollidePass(ShotStart(), 0, 1, random) == CollidePass(ShotHit(random), 1, 3, random)
  {
    var w, c := ShotStart(), ShotHit(random);
    assert !Colliding(w.bodies[0], w.bodies[1]) && !Colliding(w.bodies[0], w.bodies[2]);
    assert CollidePass(w, 0, 1, random) == CollidePass(w, 1, 2, random);
    assert Colliding(w.bodies[1], w.bodies[2]);
    var mid := ReactAt(w, 1, 2, random);
    assert mid == c.(removeQueue := [1]);
    assert ReactAt(mid, 2, 1, random) == c;
  }

  /** The spent rock and its fragments pass through each other. */
  lemma ShotFragmentsPass(random: BodyId -> Vec)
    ensures CollidePass(ShotHit(random), 1, 3, random) == CollidePass(ShotHit(random), 2, 3, random)
  {
    var c := ShotHit(random);
    AsteroidsPassThrough(c, 1, 3, random);
    AsteroidsPassThrough(c, 1, 4, random);
    AsteroidsPassThrough(c, 1, 5, random);
    assert CollidePass(c, 1, 3, random) == CollidePass(c, 1, 4, random);
    assert CollidePass(c, 1, 4, random) == CollidePass(c, 1, 5, random);
    assert CollidePass(c, 1, 5, random) == CollidePass(c, 1, 6, random);
  }

  /** The bullet, paired in the same pass with the fragments its hit created,
      is queued again for each of them. */
  lemma ShotMeetsFragments(random: BodyId -> Vec)
    ensures CollidePass(ShotHit(random), 2, 3, random) == ShotDone(random)
  {
    var c, d := ShotHit(random), ShotDone(random);
    var c1 := c.(bodies := c.bodies[3 := d.bodies[3]], removeQueue := [1, 2, 2, 3]);
    var c2 := c1.(bodies := c1.bodies[4 := d.bodies[4]], removeQueue := [1, 2, 2, 3, 2, 4]);
    assert d == c2.(bodies := c2.bodies[5 := d.bodies[5]], removeQueue := [1, 2, 2, 3, 2, 4, 2, 5]);
    assert CollidePair(c, 2, 3, random) == c1;
    assert CollidePass(c, 2, 3, random) == CollidePass(c1, 2, 4, random);
    assert CollidePair(c1, 2, 4, random) == c2;
    assert CollidePass(c1, 2, 4, random) == CollidePass(c2, 2, 5, random);
    assert CollidePair(c2, 2, 5, random) == d;
    assert CollidePass(c2, 2, 5, random) == CollidePass(d, 2, 6, random);
    AsteroidFieldPassesThrough(d, 3, 4, random);
  }

  /** One bullet at rest on a power-2 rock, far from the ship: the rock splits,
      the bullet also hits the three fragments at the rock's centre in the same
      pass, and the queue ends with eight entries for six bodies. The drain
      then deletes every body, the ship included. */
  lemma SingleShotScenario(trig: Trig, random: BodyId -> Vec)
    ensures Collided(ShotStart(), NoKeys, trig, random, Arena).removeQueue == [1, 2, 2, 3, 2, 4, 2, 5]
    ensures |Collided(ShotStart(), NoKeys, trig, random, Arena).bodies| == 6
    ensures Frame(ShotStart(), NoKeys, trig, random, Arena).bodies == []
  {
    ShotUpdate(trig);
    ShotSplits(random);
    ShotFragmentsPass(random);
    ShotMeetsFragments(random);
  }

  // ---------------------------------------------------------------------------
  // Two bullets on one rock

  function PairStart(): World
  {
    World([Ship(), NewAsteroid(1, Corner, AtRest, 1), NewBullet(2, Corner, AtRest), NewBullet(3, Corner, AtRest)],
          [], 4)
  }

  function PairDone(): World
  {
    World([Ship(), NewAsteroid(1, Corner, AtRest, 1).(kind := Asteroid(-1)), NewBullet(2, Corner, AtRest), NewBullet(3, Corner, AtRest)],
          [1, 2, 1, 3, 2, 3], 4)
  }

  lemma PairUpdate(trig: Trig)
    ensures UpdatePass(PairStart(), 0, NoKeys, trig, Arena) == PairStart()
  {
    var w := PairStart();
    forall k | 0 <= k < |w.bodies| ensures Moved(w.bodies[k], NoKeys, trig, Arena) == w.bodies[k] {
      AtRestStaysPut(w.bodies[k], trig);
    }
    UpdatePassAtRest(w, NoKeys, trig, Arena);
  }

  /** Both bullets hit the rock: it loses a power to each and is queued twice. */
  lemma PairHitsRock(random: BodyId -> Vec)
    ensures CollidePass(PairStart(), 0, 1, random)
            == CollidePass(PairDone().(removeQueue := [1, 2, 1, 3]), 2, 3, random)
  {
    var w := PairStart();
    assert !Colliding(w.bodies[0], w.bodies[1]) && !Colliding(w.bodies[0], w.bodies[2])
        && !Colliding(w.bodies[0], w.bodies[3]);
    assert CollidePass(w, 0, 1, random) == CollidePass(w, 0, 2, random);
    assert CollidePass(w, 0, 2, random) == CollidePass(w, 0, 3, random);
    assert CollidePass(w, 0, 3, random) == CollidePass(w, 0, 4, random);
    assert CollidePass(w, 0, 4, random) == CollidePass(w, 1, 2, random);
    var c1 := w.(bodies := w.bodies[1 := NewAsteroid(1, Corner, AtRest, 1).(kind := Asteroid(0))], removeQueue := [1, 2]);
    assert CollidePair(w, 1, 2, random) == c1;
    var c2 := PairDone().(removeQueue := [1, 2, 1, 3]);
    assert CollidePass(w, 1, 2, random) == CollidePass(c1, 1, 3, random);
    assert CollidePair(c1, 1, 3, random) == c2;
    assert CollidePass(c1, 1, 3, random) == CollidePass(c2, 1, 4, random);
  }

  /** The two bullets also touch each other, and each is queued once more. */
  lemma PairBulletsMeet(random: BodyId -> Vec)
    ensures CollidePass(PairDone().(removeQueue := [1, 2, 1, 3]), 2, 3, random) == PairDone()
  {
    var c, d := PairDone().(removeQueue := [1, 2, 1, 3]), PairDone();
    assert Colliding(c.bodies[2], c.bodies[3]);
    assert CollidePair(c, 2, 3, random) == d;
    assert CollidePass(c, 2, 3, random) == CollidePass(d, 3, 4, random);
  }

  /** Two bullets at rest on a power-1 asteroid, far from the ship. Both hit
      the asteroid, so it is queued twice; the two bullets also hit each other,
      so each of them is queued twice. Six entries drain a list of four bodies:
      the frame ends with no body at all, the ship included. */
  lemma DoubleHitScenario(trig: Trig, random: BodyId -> Vec)
    ensures Collided(PairStart(), NoKeys, trig, random, Arena).removeQueue == [1, 2, 1, 3, 2, 3]
    ensures Frame(PairStart(), NoKeys, trig, random, Arena).bodies == []
  {
    PairUpdate(trig);
    PairHitsRock(random);
    PairBulletsMeet(random);
  }
}

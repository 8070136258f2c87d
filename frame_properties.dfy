/** What one frame of Game.update guarantees, and what it does not. */
module FrameProperties {
  import opened Geometry
  import opened Entities
  import opened Removal
  import opened Simulation

  /** A ship or an asteroid lies inside the arena; bullets are never wrapped. */
  predicate Settled(b: Body, arena: Vec)
  {
    b.kind.Bullet? || (0.0 <= b.center.x <= arena.x && 0.0 <= b.center.y <= arena.y)
  }

  predicate AllSettled(s: seq<Body>, arena: Vec)
  {
    forall k :: 0 <= k < |s| ==> Settled(s[k], arena)
  }

  predicate AllAsteroids(s: seq<Body>)
  {
    forall k :: 0 <= k < |s| ==> s[k].kind.Asteroid?
  }

  // ---------------------------------------------------------------------------
  // Reactions to one collision

  /** An asteroid hit by anything but an asteroid queues itself for removal and
      loses exactly one power; when power is left it gains three fragments at its
      centre, each with that power and the size the table gives for it. Nothing
      else in the list changes. */
  lemma AsteroidSplit(w: World, i: nat, j: nat, random: BodyId -> Vec)
    requires i < |w.bodies| && j < |w.bodies| && PowersBounded(w.bodies)
    requires w.bodies[i].kind.Asteroid? && !w.bodies[j].kind.Asteroid?
    ensures var r := ReactAt(w, i, j, random);
            var a := w.bodies[i];
            var p := a.kind.power - 1;
            && r.removeQueue == w.removeQueue + [a.id]
            && r.bodies[i] == a.(kind := Asteroid(p))
            && |r.bodies| == |w.bodies| + (if p > 0 then 3 else 0)
            && (forall k :: 0 <= k < |w.bodies| && k != i ==> r.bodies[k] == w.bodies[k])
            && (forall k :: |w.bodies| <= k < |r.bodies| ==>
                  && r.bodies[k].kind == Asteroid(p)
                  && r.bodies[k].center == a.center
                  && r.bodies[k].size == Vec(AsteroidSizes[p], AsteroidSizes[p])
                  && r.bodies[k].velocity == RandomVelocity(random(r.bodies[k].id)))
  {
  }

  /** Asteroids pass through each other: the pair's reactions change nothing. */
  lemma AsteroidsPassThrough(w: World, i: nat, j: nat, random: BodyId -> Vec)
    requires i < j < |w.bodies| && PowersBounded(w.bodies)
    requires w.bodies[i].kind.Asteroid? && w.bodies[j].kind.Asteroid?
    ensures CollidePair(w, i, j, random) == w
  {
  }

  /** A bullet queues itself whatever it hits, and changes nothing else. */
  lemma BulletReaction(w: World, i: nat, j: nat, random: BodyId -> Vec)
    requires i < |w.bodies| && j < |w.bodies| && PowersBounded(w.bodies)
    requires w.bodies[i].kind.Bullet?
    ensures ReactAt(w, i, j, random) == w.(removeQueue := w.removeQueue + [w.bodies[i].id])
  {
  }

  /** A ship's collision changes no state. */
  lemma PlayerReaction(w: World, i: nat, j: nat, random: BodyId -> Vec)
    requires i < |w.bodies| && j < |w.bodies| && PowersBounded(w.bodies)
    requires w.bodies[i].kind.Player?
    ensures ReactAt(w, i, j, random) == w
  {
  }

  // ---------------------------------------------------------------------------
  // The update pass

  /** Each ship appends exactly one bullet per frame while space is held, and
      nothing else adds to the list during the update pass. */
  lemma {:induction false} UpdatePassGrowth(w: World, i: nat, keys: Keys, trig: Trig, arena: Vec)
    requires i <= |w.bodies|
    ensures |UpdatePass(w, i, keys, trig, arena).bodies|
            == |w.bodies| + (if keys.space then PlayerCount(w.bodies[i..]) else 0)
    decreases |w.bodies| - i + PlayerCount(w.bodies[i..])
  {
    if i < |w.bodies| {
      var w' := UpdateAt(w, i, keys, trig, arena);
      UpdateProgress(w, i, keys, trig, arena);
      UpdatePassGrowth(w', i + 1, keys, trig, arena);
    } else {
      assert w.bodies[i..] == [];
    }
  }

  /** One step of the update pass: body i is moved by its own rule and the shot
      it fires, if any, is appended. */
  lemma UpdateStep(w: World, i: nat, keys: Keys, trig: Trig, arena: Vec)
    requires i < |w.bodies|
    ensures var r := UpdateAt(w, i, keys, trig, arena);
            var shots := Shots([w.bodies[i]], w.nextId, keys, trig);
            && r.bodies[..i + 1] == w.bodies[..i] + [Moved(w.bodies[i], keys, trig, arena)]
            && r.bodies[i + 1..] == w.bodies[i + 1..] + shots
            && r.nextId == w.nextId + |shots|
  {
    var b := w.bodies[i];
    assert [b][1..] == [];
    var r := UpdateAt(w, i, keys, trig, arena);
    if b.kind.Player? && keys.space {
      assert r.bodies == w.bodies[i := PlayerMoved(b, keys, trig, arena)] + [ShotFrom(b, w.nextId, trig)];
    } else {
      assert r.bodies == w.bodies[i := Moved(b, keys, trig, arena)];
    }
  }

  /** The shots of a list are the first body's shot followed by the rest's. */
  lemma ShotsCons(b: Body, t: seq<Body>, n: nat, keys: Keys, trig: Trig)
    ensures var first := Shots([b], n, keys, trig);
            Shots([b] + t, n, keys, trig) == first + Shots(t, n + |first|, keys, trig)
  {
    assert ([b] + t)[1..] == t;
    assert [b][1..] == [];
  }

  /** The shots still to come after step i are those of the rest of the
      original list: body i's own shot, appended at the end, never fires. */
  lemma ShotsAfterStep(w: World, i: nat, keys: Keys, trig: Trig, arena: Vec)
    requires i < |w.bodies|
    ensures var w' := UpdateAt(w, i, keys, trig, arena);
            var first := Shots([w.bodies[i]], w.nextId, keys, trig);
            Shots(w'.bodies[i + 1..], w'.nextId, keys, trig) == Shots(w.bodies[i + 1..], w.nextId + |first|, keys, trig)
  {
    var rest, n := w.bodies[i + 1..], w.nextId;
    var first := Shots([w.bodies[i]], n, keys, trig);
    UpdateStep(w, i, keys, trig, arena);
    if first != [] {
      ShotsAppendBullet(rest, first[0], n + 1, keys, trig);
      assert first == [first[0]];
    } else {
      assert rest + first == rest;
    }
  }

  /** One step of the update pass keeps the shape UpdatePassMoves states: what
      the step did to body i, followed by what remains to be done from i + 1. */
  lemma StepRegroup(w: World, i: nat, keys: Keys, trig: Trig, arena: Vec)
    requires i < |w.bodies|
    ensures var w' := UpdateAt(w, i, keys, trig, arena);
            w'.bodies[..i + 1] + MovedAll(w'.bodies[i + 1..], keys, trig, arena)
              + MovedAll(Shots(w'.bodies[i + 1..], w'.nextId, keys, trig), keys, trig, arena)
            == w.bodies[..i] + MovedAll(w.bodies[i..], keys, trig, arena)
               + MovedAll(Shots(w.bodies[i..], w.nextId, keys, trig), keys, trig, arena)
  {
    var b, rest, n := w.bodies[i], w.bodies[i + 1..], w.nextId;
    UpdateStep(w, i, keys, trig, arena);
    ShotsAfterStep(w, i, keys, trig, arena);
    assert w.bodies[i..] == [b] + rest;
    MovesRegroup(w.bodies[..i], b, rest, n, keys, trig, arena);
  }

  /** What the update pass does to any list: from position i on, every body
      present at the start is moved once by its own kind's rule, and the bullets
      the ships fire are appended in ship order and moved once in the same pass. */
  lemma {:induction false} UpdatePassMoves(w: World, i: nat, keys: Keys, trig: Trig, arena: Vec)
    requires i <= |w.bodies|
    ensures UpdatePass(w, i, keys, trig, arena).bodies
            == w.bodies[..i] + MovedAll(w.bodies[i..], keys, trig, arena)
               + MovedAll(Shots(w.bodies[i..], w.nextId, keys, trig), keys, trig, arena)
    decreases |w.bodies| - i + PlayerCount(w.bodies[i..])
  {
    if i == |w.bodies| {
      assert w.bodies[i..] == [];
      assert w.bodies[..i] == w.bodies;
    } else {
      var w' := UpdateAt(w, i, keys, trig, arena);
      UpdateProgress(w, i, keys, trig, arena);
      assert UpdatePass(w, i, keys, trig, arena) == UpdatePass(w', i + 1, keys, trig, arena);
      UpdatePassMoves(w', i + 1, keys, trig, arena);
      StepRegroup(w, i, keys, trig, arena);
    }
  }

  lemma MovedHead(b: Body, rest: seq<Body>, keys: Keys, trig: Trig, arena: Vec)
    ensures MovedAll([b] + rest, keys, trig, arena) == [Moved(b, keys, trig, arena)] + MovedAll(rest, keys, trig, arena)
  {
    assert ([b] + rest)[1..] == rest;
  }

  lemma MovedShots(b: Body, rest: seq<Body>, n: nat, keys: Keys, trig: Trig, arena: Vec)
    ensures var first := Shots([b], n, keys, trig);
            MovedAll(Shots([b] + rest, n, keys, trig), keys, trig, arena)
            == MovedAll(first, keys, trig, arena) + MovedAll(Shots(rest, n + |first|, keys, trig), keys, trig, arena)
  {
    var first := Shots([b], n, keys, trig);
    ShotsCons(b, rest, n, keys, trig);
    MovedAllConcat(first, Shots(rest, n + |first|, keys, trig), keys, trig, arena);
  }

  /** The bookkeeping of one step of UpdatePassMoves: moving body b and then the
      rest with b's shot appended gives the same list as moving [b] + rest and
      then all their shots. */
  lemma MovesRegroup(head: seq<Body>, b: Body, rest: seq<Body>, n: nat, keys: Keys, trig: Trig, arena: Vec)
    ensures var first := Shots([b], n, keys, trig);
            head + MovedAll([b] + rest, keys, trig, arena) + MovedAll(Shots([b] + rest, n, keys, trig), keys, trig, arena)
            == (head + [Moved(b, keys, trig, arena)]) + MovedAll(rest + first, keys, trig, arena)
               + MovedAll(Shots(rest, n + |first|, keys, trig), keys, trig, arena)
  {
    var first := Shots([b], n, keys, trig);
    var m := Moved(b, keys, trig, arena);
    MovedHead(b, rest, keys, trig, arena);
    MovedShots(b, rest, n, keys, trig, arena);
    MovedAllConcat(rest, first, keys, trig, arena);
    var movedRest, movedFirst, movedLater := MovedAll(rest, keys, trig, arena), MovedAll(first, keys, trig, arena),
                                             MovedAll(Shots(rest, n + |first|, keys, trig), keys, trig, arena);
    assert (head + [m]) + (movedRest + movedFirst) + movedLater
           == head + ([m] + movedRest) + (movedFirst + movedLater);
  }

  /** The whole update pass: the list moved once, then the moved shots. */
  lemma UpdatePassMovesAll(w: World, keys: Keys, trig: Trig, arena: Vec)
    ensures UpdatePass(w, 0, keys, trig, arena).bodies
            == MovedAll(w.bodies, keys, trig, arena) + MovedAll(Shots(w.bodies, w.nextId, keys, trig), keys, trig, arena)
  {
    UpdatePassMoves(w, 0, keys, trig, arena);
    assert w.bodies[0..] == w.bodies;
    assert w.bodies[..0] == [];
  }

  /** Where a ship and its shot end up in a moved list followed by its moved shots. */
  lemma ShotPlace(s: seq<Body>, p: nat, n: nat, keys: Keys, trig: Trig, arena: Vec)
    requires p < |s| && s[p].kind.Player? && keys.space
    ensures var r := MovedAll(s, keys, trig, arena) + MovedAll(Shots(s, n, keys, trig), keys, trig, arena);
            var c := PlayerCount(s[..p]);
            && |s| + c < |r|
            && r[p] == PlayerMoved(s[p], keys, trig, arena)
            && r[|s| + c] == BulletMoved(ShotFrom(s[p], n + c, trig))
  {
    var c := PlayerCount(s[..p]);
    var shots := Shots(s, n, keys, trig);
    MovedAllAt(s, p, keys, trig, arena);
    ShotsAt(s, p, n, keys, trig);
    MovedAllAt(shots, c, keys, trig, arena);
  }

  /** A bullet fired during the update pass is appended before the loop ends,
      so it is moved in the very frame it is fired: the ship at position p fires
      the shot numbered by the ships before it, and both are moved once. */
  lemma ShotMovesInSameFrame(w: World, p: nat, keys: Keys, trig: Trig, arena: Vec)
    requires p < |w.bodies| && w.bodies[p].kind.Player? && keys.space
    ensures var r := UpdatePass(w, 0, keys, trig, arena).bodies;
            var c := PlayerCount(w.bodies[..p]);
            && |w.bodies| + c < |r|
            && r[p] == PlayerMoved(w.bodies[p], keys, trig, arena)
            && r[|w.bodies| + c] == BulletMoved(ShotFrom(w.bodies[p], w.nextId + c, trig))
  {
    var c := PlayerCount(w.bodies[..p]);
    var fired := BulletMoved(ShotFrom(w.bodies[p], w.nextId + c, trig));
    var moved := MovedAll(w.bodies, keys, trig, arena) + MovedAll(Shots(w.bodies, w.nextId, keys, trig), keys, trig, arena);
    ShotPlace(w.bodies, p, w.nextId, keys, trig, arena);
    assert moved[|w.bodies| + c] == fired;
    UpdatePassMovesAll(w, keys, trig, arena);
  }

  /** When space is up and no body's own rule moves it, the update pass changes nothing. */
  lemma UpdatePassAtRest(w: World, keys: Keys, trig: Trig, arena: Vec)
    requires !keys.space
    requires forall k :: 0 <= k < |w.bodies| ==> Moved(w.bodies[k], keys, trig, arena) == w.bodies[k]
    ensures UpdatePass(w, 0, keys, trig, arena) == w
  {
    UpdatePassMovesAll(w, keys, trig, arena);
    var moved := MovedAll(w.bodies, keys, trig, arena);
    forall k | 0 <= k < |w.bodies| ensures moved[k] == w.bodies[k] {
      MovedAllAt(w.bodies, k, keys, trig, arena);
    }
    assert MovedAll(Shots(w.bodies, w.nextId, keys, trig), keys, trig, arena) == [];
    assert moved + [] == w.bodies;
  }

  /** After the update pass every ship and asteroid lies inside the arena. */
  lemma {:induction false} UpdatePassSettles(w: World, i: nat, keys: Keys, trig: Trig, arena: Vec)
    requires 0.0 <= arena.x && 0.0 <= arena.y
    requires i <= |w.bodies|
    requires forall k :: 0 <= k < i ==> Settled(w.bodies[k], arena)
    ensures AllSettled(UpdatePass(w, i, keys, trig, arena).bodies, arena)
    decreases |w.bodies| - i + PlayerCount(w.bodies[i..])
  {
    if i < |w.bodies| {
      var w' := UpdateAt(w, i, keys, trig, arena);
      UpdateProgress(w, i, keys, trig, arena);
      assert Settled(w'.bodies[i], arena);
      UpdatePassSettles(w', i + 1, keys, trig, arena);
    }
  }

  /** A field of asteroids only drifts and wraps in the update pass. */
  lemma {:induction false} AsteroidFieldDrifts(w: World, i: nat, keys: Keys, trig: Trig, arena: Vec)
    requires i <= |w.bodies| && AllAsteroids(w.bodies)
    ensures var r := UpdatePass(w, i, keys, trig, arena);
            && r.removeQueue == w.removeQueue && r.nextId == w.nextId && |r.bodies| == |w.bodies|
            && (forall k :: 0 <= k < i ==> r.bodies[k] == w.bodies[k])
            && (forall k :: i <= k < |w.bodies| ==> r.bodies[k] == AsteroidMoved(w.bodies[k], arena))
    decreases |w.bodies| - i
  {
    if i < |w.bodies| {
      var w' := UpdateAt(w, i, keys, trig, arena);
      assert w'.bodies == w.bodies[i := AsteroidMoved(w.bodies[i], arena)];
      UpdateProgress(w, i, keys, trig, arena);
      AsteroidFieldDrifts(w', i + 1, keys, trig, arena);
    }
  }

  // ---------------------------------------------------------------------------
  // The collision pass

  /** The collision pass leaves every ship and asteroid where it found it, and
      puts fragments at the centre of the asteroid they come from. */
  lemma {:induction false} CollidePassKeepsSettled(w: World, i: nat, j: nat, random: BodyId -> Vec, arena: Vec)
    requires i < j && PowersBounded(w.bodies) && AllSettled(w.bodies, arena)
    ensures AllSettled(CollidePass(w, i, j, random).bodies, arena)
    decreases Bound(w) - i, Bound(w) + 1 - j
  {
    if i < |w.bodies| {
      if j >= |w.bodies| {
        CollidePassKeepsSettled(w, i + 1, i + 2, random, arena);
      } else if Colliding(w.bodies[i], w.bodies[j]) {
        var w1 := ReactAt(w, i, j, random);
        assert AllSettled(w1.bodies, arena);
        var w2 := ReactAt(w1, j, i, random);
        assert AllSettled(w2.bodies, arena);
        CollidePassKeepsSettled(CollidePair(w, i, j, random), i, j + 1, random, arena);
      } else {
        CollidePassKeepsSettled(w, i, j + 1, random, arena);
      }
    }
  }

  /** Asteroids never react to asteroids: once the outer loop reaches a stretch
      of the list holding only asteroids, the rest of the collision pass changes
      nothing, however they overlap. */
  lemma {:induction false} AsteroidFieldPassesThrough(w: World, i: nat, j: nat, random: BodyId -> Vec)
    requires i < j && PowersBounded(w.bodies)
    requires forall k :: i <= k < |w.bodies| ==> w.bodies[k].kind.Asteroid?
    ensures CollidePass(w, i, j, random) == w
    decreases Bound(w) - i, Bound(w) + 1 - j
  {
    if i < |w.bodies| {
      if j >= |w.bodies| {
        AsteroidFieldPassesThrough(w, i + 1, i + 2, random);
      } else {
        if Colliding(w.bodies[i], w.bodies[j]) {
          AsteroidsPassThrough(w, i, j, random);
        }
        AsteroidFieldPassesThrough(w, i, j + 1, random);
      }
    }
  }

  // ---------------------------------------------------------------------------
  // The whole frame

  lemma AppendOnlyKeepsLive(w: World, r: World)
    requires QueuedLive(w) && AppendOnly(w, r) && r.removeQueue == w.removeQueue
    ensures QueuedLive(r)
  {
    forall i | 0 <= i < |r.removeQueue| ensures HasId(r.bodies, r.removeQueue[i]) {
      var k :| 0 <= k < |w.bodies| && w.bodies[k].id == w.removeQueue[i];
      assert r.bodies[k].id == w.bodies[k].id;
    }
  }

  /** Queued bodies are all still in the list when the drain starts. */
  lemma CollidedKeepsLive(w: World, keys: Keys, trig: Trig, random: BodyId -> Vec, arena: Vec)
    requires Inv(w)
    ensures Inv(Collided(w, keys, trig, random, arena))
  {
    var u := UpdatePass(w, 0, keys, trig, arena);
    AppendOnlyKeepsLive(w, u);
    var c := CollidePass(u, 0, 1, random);
    AppendOnlyTrans(w, u, c);
    AppendOnlyKeepsIds(w, c);
  }

  /** A frame keeps identities unique and fresh, every asteroid's power within the
      size table, and ends with an empty removal queue. */
  lemma FrameKeepsInv(w: World, keys: Keys, trig: Trig, random: BodyId -> Vec, arena: Vec)
    requires Inv(w)
    ensures Inv(Frame(w, keys, trig, random, arena))
    ensures Frame(w, keys, trig, random, arena).removeQueue == []
  {
    var c := Collided(w, keys, trig, random, arena);
    CollidedKeepsLive(w, keys, trig, random, arena);
    var d := Drain(c.bodies, c.removeQueue);
    DrainKeepsUnique(c.bodies, c.removeQueue);
    forall k | 0 <= k < |d| ensures d[k].id < c.nextId && (d[k].kind.Asteroid? ==> d[k].kind.power < |AsteroidSizes|) {
      assert d[k] in c.bodies;
    }
  }

  /** After a frame every ship and asteroid lies inside the arena. */
  lemma FrameSettles(w: World, keys: Keys, trig: Trig, random: BodyId -> Vec, arena: Vec)
    requires 0.0 <= arena.x && 0.0 <= arena.y && PowersBounded(w.bodies)
    ensures AllSettled(Frame(w, keys, trig, random, arena).bodies, arena)
  {
    var u := UpdatePass(w, 0, keys, trig, arena);
    UpdatePassSettles(w, 0, keys, trig, arena);
    CollidePassKeepsSettled(u, 0, 1, random, arena);
    var c := Collided(w, keys, trig, random, arena);
    var d := Drain(c.bodies, c.removeQueue);
    forall k | 0 <= k < |d| ensures Settled(d[k], arena) {
      assert d[k] in c.bodies;
    }
  }

  /** The drain at the end of a frame: every queued body is gone from the list,
      and when nothing was queued twice exactly the queued bodies are gone and
      the rest keep their order. */
  lemma FrameRemovals(w: World, keys: Keys, trig: Trig, random: BodyId -> Vec, arena: Vec)
    requires Inv(w)
    ensures var c := Collided(w, keys, trig, random, arena);
            var f := Frame(w, keys, trig, random, arena);
            && (forall q :: q in c.removeQueue ==> !HasId(f.bodies, q))
            && (NoRepeats(c.removeQueue) ==> f.bodies == Without(c.bodies, Queued(c.removeQueue)))
  {
    var c := Collided(w, keys, trig, random, arena);
    CollidedKeepsLive(w, keys, trig, random, arena);
    DrainRemovesQueued(c.bodies, c.removeQueue);
    if NoRepeats(c.removeQueue) {
      DrainIsWithout(c.bodies, c.removeQueue);
    }
  }

  /** A frame over asteroids alone removes nothing and adds nothing: each
      asteroid drifts by its velocity and wraps, however the asteroids overlap. */
  lemma AsteroidFieldFrame(w: World, keys: Keys, trig: Trig, random: BodyId -> Vec, arena: Vec)
    requires PowersBounded(w.bodies) && AllAsteroids(w.bodies) && w.removeQueue == []
    ensures var f := Frame(w, keys, trig, random, arena);
            && |f.bodies| == |w.bodies| && f.removeQueue == [] && f.nextId == w.nextId
            && forall k :: 0 <= k < |w.bodies| ==> f.bodies[k] == AsteroidMoved(w.bodies[k], arena)
  {
    var u := UpdatePass(w, 0, keys, trig, arena);
    AsteroidFieldDrifts(w, 0, keys, trig, arena);
    AsteroidFieldPassesThrough(u, 0, 1, random);
  }
}

/** The per-frame simulation of Game.update, stated on values: the update
    pass, the pairwise collision pass and the end-of-frame drain. Both passes
    re-read the length of the body list, so bodies appended during a pass take
    part in that same pass. */
module Simulation {
  import opened Geometry
  import opened Entities
  import opened Removal

  /** The state Game.update works on: the live bodies in order, the removal
      queue, and the next fresh identity. */
  datatype World = World(bodies: seq<Body>, removeQueue: seq<BodyId>, nextId: nat)

  predicate IdsBelow(s: seq<Body>, n: nat)
  {
    forall k :: 0 <= k < |s| ==> s[k].id < n
  }

  /** Every asteroid's power indexes the size table (the source creates
      asteroids with power 2 to 4 and fragments with a smaller power). */
  predicate PowersBounded(s: seq<Body>)
  {
    forall k :: 0 <= k < |s| && s[k].kind.Asteroid? ==> s[k].kind.power < |AsteroidSizes|
  }

  /** Every queued body is in the list. */
  predicate QueuedLive(w: World)
  {
    forall i :: 0 <= i < |w.removeQueue| ==> HasId(w.bodies, w.removeQueue[i])
  }

  predicate Inv(w: World)
  {
    UniqueIds(w.bodies) && IdsBelow(w.bodies, w.nextId) && PowersBounded(w.bodies) && QueuedLive(w)
  }

  /** `r` comes from `w` by changing bodies in place and appending freshly
      allocated ones: no body is removed or reordered, and the queue only grows. */
  predicate AppendOnly(w: World, r: World)
  {
    |w.bodies| <= |r.bodies| && w.removeQueue <= r.removeQueue
    && r.nextId == w.nextId + (|r.bodies| - |w.bodies|)
    && (forall k :: 0 <= k < |w.bodies| ==> r.bodies[k].id == w.bodies[k].id)
    && (forall k :: |w.bodies| <= k < |r.bodies| ==> r.bodies[k].id == w.nextId + (k - |w.bodies|))
  }

  lemma AppendOnlyTrans(a: World, b: World, c: World)
    requires AppendOnly(a, b) && AppendOnly(b, c)
    ensures AppendOnly(a, c)
  {
    forall k | |a.bodies| <= k < |c.bodies| ensures c.bodies[k].id == a.nextId + (k - |a.bodies|) {
      if k < |b.bodies| {
        assert c.bodies[k].id == b.bodies[k].id;
      }
    }
  }

  /** Appending fresh bodies keeps identities unique and below the allocation counter. */
  lemma AppendOnlyKeepsIds(w: World, r: World)
    requires UniqueIds(w.bodies) && IdsBelow(w.bodies, w.nextId) && AppendOnly(w, r)
    ensures UniqueIds(r.bodies) && IdsBelow(r.bodies, r.nextId)
  {
    forall a, b | 0 <= a < b < |r.bodies| ensures r.bodies[a].id != r.bodies[b].id {
      if b < |w.bodies| {
        assert r.bodies[a].id == w.bodies[a].id && r.bodies[b].id == w.bodies[b].id;
      } else if a < |w.bodies| {
        assert r.bodies[a].id == w.bodies[a].id < w.nextId;
      }
    }
  }

  /** Game.addBodies: push one body at the end of the list. */
  function AddBody(w: World, b: Body): World
  {
    w.(bodies := w.bodies + [b])
  }

  /** Game.removeBody: push onto the removal queue; the list is untouched. */
  function RemoveBody(w: World, id: BodyId): World
  {
    w.(removeQueue := w.removeQueue + [id])
  }

  /** Player.shoot for the ship at position i: allocate a bullet and append it. */
  function Shoot(w: World, i: nat, trig: Trig): (r: World)
    requires i < |w.bodies| && w.bodies[i].kind.Player?
    ensures AppendOnly(w, r) && r.removeQueue == w.removeQueue
    ensures r.bodies == w.bodies + [ShotFrom(w.bodies[i], w.nextId, trig)]
  {
    AddBody(w.(nextId := w.nextId + 1), ShotFrom(w.bodies[i], w.nextId, trig))
  }

  /** `bodies[i].update()`: the body's own update, which for the ship first fires
      (when space is held) and then turns, accelerates, moves and wraps. */
  function UpdateAt(w: World, i: nat, keys: Keys, trig: Trig, arena: Vec): (r: World)
    requires i < |w.bodies|
    ensures AppendOnly(w, r) && r.removeQueue == w.removeQueue
    ensures |r.bodies| == |w.bodies| + (if w.bodies[i].kind.Player? && keys.space then 1 else 0)
    ensures forall k :: 0 <= k < |w.bodies| && k != i ==> r.bodies[k] == w.bodies[k]
    ensures w.bodies[i].kind.Player? ==> r.bodies[i].kind.Player?
    ensures !w.bodies[i].kind.Player? ==> r.bodies[i].kind == w.bodies[i].kind
    ensures forall k :: |w.bodies| <= k < |r.bodies| ==> r.bodies[k].kind.Bullet?
    ensures PowersBounded(w.bodies) ==> PowersBounded(r.bodies)
  {
    var b := w.bodies[i];
    match b.kind
    case Bullet => w.(bodies := w.bodies[i := BulletMoved(b)])
    case Asteroid(_) => w.(bodies := w.bodies[i := AsteroidMoved(b, arena)])
    case Player(_) =>
      var fired := if keys.space then Shoot(w, i, trig) else w;
      fired.(bodies := fired.bodies[i := PlayerMoved(b, keys, trig, arena)])
  }

  /** The number of ships in a list. */
  function PlayerCount(s: seq<Body>): nat
  {
    if s == [] then 0 else (if s[0].kind.Player? then 1 else 0) + PlayerCount(s[1..])
  }

  lemma {:induction false} PlayerCountAppend(s: seq<Body>, b: Body)
    ensures PlayerCount(s + [b]) == PlayerCount(s) + (if b.kind.Player? then 1 else 0)
  {
    if s != [] {
      assert (s + [b])[1..] == s[1..] + [b];
      PlayerCountAppend(s[1..], b);
    }
  }

  /** The bullets the ships of `s` fire while space is held, in list order, with
      identities allocated from n on. */
  function Shots(s: seq<Body>, n: nat, keys: Keys, trig: Trig): (r: seq<Body>)
    ensures |r| == if keys.space then PlayerCount(s) else 0
  {
    if s == [] || !keys.space then []
    else if s[0].kind.Player? then [ShotFrom(s[0], n, trig)] + Shots(s[1..], n + 1, keys, trig)
    else Shots(s[1..], n, keys, trig)
  }

  /** The shots are bullets whose identities are allocated consecutively from n. */
  lemma {:induction false} ShotsAreFresh(s: seq<Body>, n: nat, keys: Keys, trig: Trig)
    ensures forall k :: 0 <= k < |Shots(s, n, keys, trig)| ==>
              Shots(s, n, keys, trig)[k].kind == Bullet && Shots(s, n, keys, trig)[k].id == n + k
  {
    if s != [] && keys.space {
      var m := if s[0].kind.Player? then n + 1 else n;
      ShotsAreFresh(s[1..], m, keys, trig);
    }
  }

  /** Bullets never fire. */
  lemma {:induction false} ShotsAppendBullet(s: seq<Body>, b: Body, n: nat, keys: Keys, trig: Trig)
    requires !b.kind.Player?
    ensures Shots(s + [b], n, keys, trig) == Shots(s, n, keys, trig)
    decreases |s|
  {
    if s == [] {
      assert [b][1..] == [];
    } else {
      assert (s + [b])[1..] == s[1..] + [b];
      ShotsAppendBullet(s[1..], b, if s[0].kind.Player? then n + 1 else n, keys, trig);
    }
  }

  /** The ship at position p fires the shot numbered by the ships before it. */
  lemma {:induction false} ShotsAt(s: seq<Body>, p: nat, n: nat, keys: Keys, trig: Trig)
    requires p < |s| && s[p].kind.Player? && keys.space
    ensures PlayerCount(s[..p]) < |Shots(s, n, keys, trig)|
    ensures Shots(s, n, keys, trig)[PlayerCount(s[..p])] == ShotFrom(s[p], n + PlayerCount(s[..p]), trig)
  {
    if p == 0 {
      assert s[..p] == [];
    } else {
      assert s[..p][1..] == s[1..][..p - 1];
      var m := if s[0].kind.Player? then n + 1 else n;
      ShotsAt(s[1..], p - 1, m, keys, trig);
    }
  }

  /** The update pass makes progress: a ship may append a bullet, but bullets never fire. */
  lemma UpdateProgress(w: World, i: nat, keys: Keys, trig: Trig, arena: Vec)
    requires i < |w.bodies|
    ensures PlayerCount(w.bodies[i..]) == (if w.bodies[i].kind.Player? then 1 else 0) + PlayerCount(w.bodies[i + 1..])
    ensures PlayerCount(UpdateAt(w, i, keys, trig, arena).bodies[i + 1..]) == PlayerCount(w.bodies[i + 1..])
    ensures var r := UpdateAt(w, i, keys, trig, arena);
            |r.bodies| - (i + 1) + PlayerCount(r.bodies[i + 1..])
              < |w.bodies| - i + PlayerCount(w.bodies[i..])
  {
    var r := UpdateAt(w, i, keys, trig, arena);
    assert w.bodies[i..][1..] == w.bodies[i + 1..];
    if |r.bodies| == |w.bodies| {
      assert r.bodies[i + 1..] == w.bodies[i + 1..];
    } else {
      assert r.bodies[i + 1..] == w.bodies[i + 1..] + [r.bodies[|w.bodies|]];
      PlayerCountAppend(w.bodies[i + 1..], r.bodies[|w.bodies|]);
    }
  }

  /** The update loop of Game.update from position i on, re-reading the length of
      the list at every step, so that a bullet fired during the pass is moved too. */
  function UpdatePass(w: World, i: nat, keys: Keys, trig: Trig, arena: Vec): (r: World)
    requires i <= |w.bodies|
    ensures AppendOnly(w, r) && r.removeQueue == w.removeQueue
    ensures PowersBounded(w.bodies) ==> PowersBounded(r.bodies)
    decreases |w.bodies| - i + PlayerCount(w.bodies[i..])
  {
    if i == |w.bodies| then w
    else
      var w' := UpdateAt(w, i, keys, trig, arena);
      UpdateProgress(w, i, keys, trig, arena);
      var r := UpdatePass(w', i + 1, keys, trig, arena);
      AppendOnlyTrans(w, w', r);
      r
  }

  /** A fragment of a split asteroid; its velocity comes from the random samples
      drawn for its identity. */
  function Fragment(id: BodyId, center: Vec, power: int, random: BodyId -> Vec): Body
    requires 0 <= power < |AsteroidSizes|
  {
    NewAsteroid(id, center, RandomVelocity(random(id)), power)
  }

  /** Three new asteroids of the given power at the given centre, appended in turn. */
  function Split(w: World, center: Vec, power: int, random: BodyId -> Vec): World
    requires 0 <= power < |AsteroidSizes|
  {
    var n := w.nextId;
    w.(bodies := w.bodies + [Fragment(n, center, power, random), Fragment(n + 1, center, power, random),
                             Fragment(n + 2, center, power, random)],
       nextId := n + 3)
  }

  /** `bodies[i].collision(bodies[j])`: a bullet queues itself; a ship does nothing;
      an asteroid hit by anything but an asteroid queues itself, loses one power
      and, while power is left, splits into three. */
  function ReactAt(w: World, i: nat, j: nat, random: BodyId -> Vec): (r: World)
    requires i < |w.bodies| && j < |w.bodies| && PowersBounded(w.bodies)
    ensures AppendOnly(w, r) && PowersBounded(r.bodies)
    ensures QueuedLive(w) ==> QueuedLive(r)
    ensures forall k :: 0 <= k < |w.bodies| && k != i ==> r.bodies[k] == w.bodies[k]
    ensures r.bodies[i].center == w.bodies[i].center && r.bodies[i].size == w.bodies[i].size
    ensures r.bodies[i].kind.Asteroid? == w.bodies[i].kind.Asteroid?
    ensures r.bodies[i].kind.Player? == w.bodies[i].kind.Player?
    ensures forall k :: |w.bodies| <= k < |r.bodies| ==>
              r.bodies[k].kind.Asteroid? && r.bodies[k].center == w.bodies[i].center
  {
    var self := w.bodies[i];
    match self.kind
    case Bullet => RemoveBody(w, self.id)
    case Player(_) => w
    case Asteroid(power) =>
      if w.bodies[j].kind.Asteroid? then w
      else
        var hit := RemoveBody(w, self.id);
        var weakened := hit.(bodies := hit.bodies[i := self.(kind := Asteroid(power - 1))]);
        if power - 1 > 0 then Split(weakened, self.center, power - 1, random) else weakened
  }

  /** The two reactions of a colliding pair, i's first. */
  function CollidePair(w: World, i: nat, j: nat, random: BodyId -> Vec): (r: World)
    requires i < j < |w.bodies| && PowersBounded(w.bodies)
    ensures AppendOnly(w, r) && PowersBounded(r.bodies)
    ensures QueuedLive(w) ==> QueuedLive(r)
    ensures Bound(r) == Bound(w)
  {
    var w1 := ReactAt(w, i, j, random);
    ReactBound(w, i, j, random);
    var w2 := ReactAt(w1, j, i, random);
    ReactBound(w1, j, i, random);
    AppendOnlyTrans(w, w1, w2);
    w2
  }

  /** How many bodies an asteroid of the given power can still bring into the
      list by splitting: a hit turns power p into p - 1 and adds three of power p - 1. */
  function Spawnable(power: int): nat
  {
    if power <= 1 then 0 else 3 + 4 * Spawnable(power - 1)
  }

  function Pending(b: Body): nat
  {
    if b.kind.Asteroid? then Spawnable(b.kind.power) else 0
  }

  function Potential(s: seq<Body>): nat
  {
    if s == [] then 0 else Potential(s[..|s| - 1]) + Pending(s[|s| - 1])
  }

  /** An upper bound on the length the list can reach during the collision pass. */
  function Bound(w: World): nat
  {
    |w.bodies| + Potential(w.bodies)
  }

  lemma PotentialAppend(s: seq<Body>, b: Body)
    ensures Potential(s + [b]) == Potential(s) + Pending(b)
  {
    assert (s + [b])[..|s|] == s;
  }

  lemma {:induction false} PotentialUpdate(s: seq<Body>, i: nat, b: Body)
    requires i < |s|
    ensures Potential(s[i := b]) + Pending(s[i]) == Potential(s) + Pending(b)
    decreases |s|
  {
    var n := |s| - 1;
    if i < n {
      assert s[i := b][..n] == s[..n][i := b];
      PotentialUpdate(s[..n], i, b);
    } else {
      assert s[i := b][..n] == s[..n];
    }
  }

  /** Three fragments of power p add three times what one of them can spawn. */
  lemma PotentialSplit(s: seq<Body>, center: Vec, p: int, n: nat, random: BodyId -> Vec)
    requires 0 <= p < |AsteroidSizes|
    ensures Potential(s + [Fragment(n, center, p, random), Fragment(n + 1, center, p, random),
                           Fragment(n + 2, center, p, random)])
            == Potential(s) + 3 * Spawnable(p)
  {
    var f0, f1, f2 := Fragment(n, center, p, random), Fragment(n + 1, center, p, random),
                      Fragment(n + 2, center, p, random);
    assert s + [f0, f1, f2] == ((s + [f0]) + [f1]) + [f2];
    PotentialAppend(s, f0);
    PotentialAppend(s + [f0], f1);
    PotentialAppend((s + [f0]) + [f1], f2);
  }

  /** Every reaction keeps the bound exactly: a split adds three bodies and takes
      exactly three from the potential, a hit without a split takes nothing from
      it, and the other reactions leave the list alone. */
  lemma ReactBound(w: World, i: nat, j: nat, random: BodyId -> Vec)
    requires i < |w.bodies| && j < |w.bodies| && PowersBounded(w.bodies)
    ensures Bound(ReactAt(w, i, j, random)) == Bound(w)
  {
    var self := w.bodies[i];
    if self.kind.Asteroid? && !w.bodies[j].kind.Asteroid? {
      var p := self.kind.power - 1;
      var s1 := w.bodies[i := self.(kind := Asteroid(p))];
      PotentialUpdate(w.bodies, i, self.(kind := Asteroid(p)));
      if p > 0 {
        PotentialSplit(s1, self.center, p, w.nextId, random);
      }
    }
  }

  /** The nested collision loops of Game.update from pair (i, j) on. Both loops
      re-read the length of the list, so bodies appended by a split are paired
      with everything after them, and with the bodies still to come as i advances. */
  function CollidePass(w: World, i: nat, j: nat, random: BodyId -> Vec): (r: World)
    requires i < j && PowersBounded(w.bodies)
    ensures AppendOnly(w, r) && PowersBounded(r.bodies)
    ensures QueuedLive(w) ==> QueuedLive(r)
    decreases Bound(w) - i, Bound(w) + 1 - j
  {
    if i >= |w.bodies| then w
    else if j >= |w.bodies| then CollidePass(w, i + 1, i + 2, random)
    else if Colliding(w.bodies[i], w.bodies[j]) then
      var w' := CollidePair(w, i, j, random);
      var r := CollidePass(w', i, j + 1, random);
      AppendOnlyTrans(w, w', r);
      r
    else CollidePass(w, i, j + 1, random)
  }

  /** Game.emptyRemoveQueue on a world. */
  function EmptyQueue(w: World): (r: World)
    ensures r.removeQueue == [] && r.nextId == w.nextId
  {
    World(Drain(w.bodies, w.removeQueue), [], w.nextId)
  }

  /** The world after the update pass and the collision pass, before the drain. */
  function Collided(w: World, keys: Keys, trig: Trig, random: BodyId -> Vec, arena: Vec): (r: World)
    requires PowersBounded(w.bodies)
    ensures AppendOnly(w, r) && PowersBounded(r.bodies)
  {
    var u := UpdatePass(w, 0, keys, trig, arena);
    var c := CollidePass(u, 0, 1, random);
    AppendOnlyTrans(w, u, c);
    c
  }

  /** Game.update: one whole frame. */
  function Frame(w: World, keys: Keys, trig: Trig, random: BodyId -> Vec, arena: Vec): World
    requires PowersBounded(w.bodies)
  {
    EmptyQueue(Collided(w, keys, trig, random, arena))
  }
}

# Asteroids: the per-frame simulation, in Dafny

This project models the simulation core of `game.js`, a small browser
asteroids game. The player's ship, its bullets and the asteroids all live in
one body list owned by the game object. Once per animation frame,
`Game.update` does three things:

1. It calls every body's `update`. The ship fires, turns, thrusts or brakes,
   moves and wraps at the screen edges. Bullets drift. Asteroids drift and wrap.
2. It tests every pair `i < j` for bounding-box overlap. For each colliding
   pair, both bodies react, `i` first:
   - a bullet queues itself for removal;
   - the ship does nothing;
   - an asteroid hit by anything but an asteroid queues itself, loses one
     power and, while power is left, appends three smaller asteroids at its
     centre.
3. It drains the removal queue with `splice(indexOf(body), 1)`.

Both loops re-read the length of the list. So a bullet fired during the update
pass is moved in the same pass. Fragments appended during the collision pass
are paired in the same pass as well.

The model has these modules:

- `Geometry`: vectors, the edge policy `forceToRange`, and the wrap of a
  position into the arena.
- `Entities`: the three kinds of body, their constants, their constructors,
  their per-frame motion, and the collision test `colliding`.
- `Removal`: `indexOf`, `splice` and the end-of-frame drain. It also holds a
  reference filter (`Without`) that the drain is compared against.
- `Simulation`: one frame as functions over a `World`, which holds the bodies,
  the removal queue and the allocation counter. There are the update pass,
  the reactions, the collision pass with its re-read bounds, and the drain.
- `FrameProperties`: what one frame guarantees, as lemmas over those functions.
- `GameLoop`: the game object as a class. Its methods update `bodies`,
  `removeQueue` and `nextId` in place, step by step as the source does. Each
  method is proved to produce the state its `Simulation` function gives.
  `Game.Update` is proved to perform exactly one `Frame` and to keep the class
  invariant.
- `Scenarios`: three frames worked out on concrete bodies.

JavaScript object identity (`===` and `indexOf`) is modelled by a unique
`id` on each body. Allocating a new object takes the next value of `nextId`.
An asteroid's box is looked up once, from the power it is created with. A hit
lowers its power but leaves its box as it was.

**Removal.** The drain deletes each queued body with
`splice(indexOf(body), 1)`. When a queued body is no longer in the list,
`indexOf` gives -1, and `splice(-1, 1)` deletes the last body of the list.
The model keeps this behaviour. A body is queued once per collision it
reacts to by queueing itself. Bullets and asteroids hit by a non-asteroid
queue themselves. The ship is never queued. Two asteroids that touch queue
nothing. So a frame queues a body twice in these cases:

- A bullet splits a rock. The three fragments appear at the rock's centre,
  on top of the bullet, and the same collision pass pairs them with the
  bullet. The bullet is queued again for each fragment it touches.
- Two bullets hit the same rock, which is then queued once per bullet.
- A bullet touches another bullet as well as a rock.

The lemmas below show the consequences:

- `Removal.AbsentDropsLast` and `Removal.DoubleQueueDropsLast`: an absent
  entry deletes the last body.
- `Scenarios.SingleShotScenario` and `Scenarios.DoubleHitScenario`: frames in
  which the ship itself is deleted.
- `Removal.Without` is a filter that removes every listed identity and is
  idempotent. `Removal.DrainIsWithout` and `FrameProperties.FrameRemovals`
  show that the drain equals this filter when every queued body is present
  and nothing is queued twice.

## Model

| member | source | states |
|---|---|---|
| Geometry.ForceToRange | game.js:32-37 | A value above max becomes min and one below min becomes max. Otherwise it is unchanged. With min <= max the result is always in range, and it equals the input exactly when the input was already in range. |
| Geometry.ForceToRangeIdempotent | game.js:33-37 | Wrapping an already wrapped coordinate changes nothing. |
| Geometry.Wrapped | game.js:234-236 | In a non-negative arena the wrapped position lies inside the arena on both axes. A position already inside is unchanged. |
| Entities.NewPlayer | game.js:178-190 | The ship starts with the given id, at rest, heading 0, with a 15x15 box. It is centred horizontally, and its centre is 30 above the vertical centre of the arena. |
| Entities.NewBullet | game.js:150-158 | A bullet has the given id, centre and velocity, and a 3x3 box. |
| Entities.NewAsteroid | game.js:286-297 | A new asteroid has the given id, centre, velocity and power. Its square box side is the size-table entry for that power. |
| Entities.Colliding | game.js:90-101 | Two bodies collide exactly when they are distinct objects and their centres are no further apart, on each axis, than half the sum of their box sides. Touching edges count as a collision. |
| Entities.CollidingSymmetric | game.js:90-101 | The collision test gives the same answer for (a, b) and (b, a). |
| Entities.CollidingIsBoxOverlap | game.js:90-101 | Distinct bodies collide exactly when their closed boxes meet on both axes. |
| Entities.BulletMoved | game.js:164-167 | A bullet moves by exactly its velocity and is never wrapped. Its identity, kind, size and velocity are kept. |
| Entities.AsteroidMoved | game.js:300-307 | An asteroid moves by its velocity and is then wrapped into the arena. Nothing else about it changes. |
| Entities.Turned | game.js:215-219 | Right adds 5 degrees. Otherwise left subtracts 5. With neither key, the heading is kept. Right wins when both are held. |
| Entities.PlayerMoved | game.js:209-236 | The ship's heading turns first. Its velocity then gains thrust along the new heading, or is multiplied by the friction 0.98 when up is not held. Its centre moves by the new velocity and is wrapped. |
| Entities.ShotFrom | game.js:200-207 | A shot is a 3x3 bullet. It sits at the ship's centre minus the gun offset (0, 20) turned by the ship's heading, and it flies at speed 10 along that heading. |
| Entities.RandomVelocity | game.js:67-69 | Unit random samples give an asteroid velocity in [0, 3) on each axis. Initial asteroids and fragments draw it alike. |
| Entities.MovedAllAt | game.js:111 | Moving a list body by body puts the k-th body, moved by its own kind's rule, in slot k. |
| Entities.MovedAllConcat | game.js:110-112 | Moving two lists in turn is moving their concatenation. |
| Removal.IndexOf | game.js:144 | The result is the first position holding the body, or -1 exactly when the body is absent. |
| Removal.SpliceStart | game.js:144 | A start within the list is used as is. A negative start counts back from the end. |
| Removal.SpliceOne | game.js:144 | Deleting at an index in range removes exactly that element. A start of -1 on a non-empty list removes the last element. No element is added. |
| Removal.Drain | game.js:141-147 | Each queue entry deletes one body while any are left, whether or not the queued body is still present. Only bodies that were in the list survive. |
| Removal.DrainKeepsUnique | game.js:141-147 | Draining never duplicates an object. |
| Removal.WithoutMembers | game.js:141-147 | The filter keeps exactly the bodies of the list whose identities are not removed. |
| Removal.WithoutTwice | game.js:141-147 | Filtering out one set of identities and then another is filtering out their union. |
| Removal.WithoutIdempotent | game.js:141-147 | Filtering the same identities out twice is filtering them out once. |
| Removal.DrainIsWithout | game.js:141-147 | Suppose every queued body is present and nothing is queued twice. Then the drain removes exactly the queued bodies and keeps the others in order. |
| Removal.SpliceRemoves | game.js:144 | Splicing a body out at its indexOf leaves no body with its identity, whether or not it was there. |
| Removal.AbsentStaysAbsent | game.js:141-147 | A body not in the list is still absent after the drain. |
| Removal.DrainRemovesQueued | game.js:141-147 | No queued body survives the drain. |
| Removal.AbsentDropsLast | game.js:144 | A queued body that is no longer in the list makes the drain delete the last body. |
| Removal.DoubleQueueDropsLast | game.js:141-147 | A body queued twice is deleted once. The second entry deletes the last of the remaining bodies. |
| Simulation.Shoot | game.js:200-207 | Firing appends exactly one fresh bullet, shot from the ship, and changes nothing else. |
| Simulation.UpdateAt | game.js:111 | One body's update changes only its own slot and keeps its kind. Only a ship holding space appends, and it appends exactly one bullet. The queue is untouched and powers stay within the size table. |
| Simulation.Shots | game.js:200-207 | While space is held every ship fires once, so there are as many shots as ships. With space up there are none. |
| Simulation.ShotsAreFresh | game.js:200-207 | The shots are bullets with identities allocated one after another from the next free identity. |
| Simulation.ShotsAppendBullet | game.js:164-167 | A non-ship body at the end of the list fires nothing. |
| Simulation.ShotsAt | game.js:200-207 | The ship at position p fires the shot whose number is the count of ships before it. |
| Simulation.UpdatePass | game.js:110-112 | The update pass only changes bodies in place and appends fresh ones. The removal queue is untouched. |
| Simulation.ReactAt | game.js:313-339 | A reaction only changes the reacting slot and appends fragments. The slot keeps its centre, size and kind of body. Every appended body is an asteroid at the reacting body's centre. Queued bodies stay in the list. |
| Simulation.CollidePair | game.js:116-119 | The two reactions of a colliding pair keep identities fresh and queued bodies live, and keep the bound on the list's growth exactly. |
| Simulation.PotentialSplit | game.js:319-333 | Three fragments of power p add three times the growth that power p can still cause. |
| Simulation.ReactBound | game.js:313-339 | Every reaction keeps the bound exactly. A split adds three bodies and takes exactly three from the potential growth, so growth during the collision pass is bounded and the re-read loops end. |
| Simulation.CollidePass | game.js:114-121 | The nested collision loops, with bounds re-read, end. They only change bodies in place and append fresh ones, and queued bodies stay in the list. |
| Simulation.EmptyQueue | game.js:141-147 | After the drain the queue is empty and no identity is re-allocated. |
| Simulation.Collided | game.js:105-121 | The update and collision passes together only change bodies in place and append fresh ones. |
| FrameProperties.AsteroidSplit | game.js:313-334 | An asteroid hit by a non-asteroid queues itself and keeps power p-1. When p-1 > 0 it gains exactly three fragments of power p-1 at its centre, with the table's size for that power. Nothing else changes. |
| FrameProperties.AsteroidsPassThrough | game.js:336-338 | When two asteroids collide, neither reaction changes anything. |
| FrameProperties.BulletReaction | game.js:172-175 | A bullet's reaction only queues the bullet. |
| FrameProperties.PlayerReaction | game.js:257-259 | The ship's reaction changes nothing. |
| FrameProperties.UpdatePassGrowth | game.js:110-112 | The update pass grows the list by exactly one bullet per ship while space is held, and by nothing otherwise. |
| FrameProperties.UpdatePassMoves | game.js:110-112 | From position i on, the update pass moves every body present at the start once, by its own kind's rule. The bullets the ships fire are appended in ship order and moved once in the same pass. The bodies before i are untouched. |
| FrameProperties.UpdatePassMovesAll | game.js:110-112 | The whole update pass gives the list moved once, followed by the moved shots. |
| FrameProperties.ShotPlace | game.js:110-112 | In a moved list followed by its moved shots, the ship at p is moved in slot p. Its shot, moved once, sits after the list at the position given by the count of ships before p. |
| FrameProperties.ShotMovesInSameFrame | game.js:110-112 | For any ship at position p while space is held, the update pass leaves the ship moved in slot p. Its bullet, fired with the next identity after those of the earlier ships, is appended and moved once in the same pass. |
| FrameProperties.UpdatePassAtRest | game.js:110-112 | With space up and every body fixed by its own motion rule, the update pass changes nothing. |
| FrameProperties.UpdatePassSettles | game.js:110-112 | After the update pass every ship and asteroid lies inside the arena. |
| FrameProperties.AsteroidFieldDrifts | game.js:300-307 | In a list of asteroids only, the update pass moves each one by its velocity and wraps it. Nothing else changes. |
| FrameProperties.CollidePassKeepsSettled | game.js:114-121 | The collision pass keeps every ship and asteroid inside the arena. |
| FrameProperties.AsteroidFieldPassesThrough | game.js:114-121 | From the point where only asteroids remain, the collision pass changes nothing. |
| FrameProperties.CollidedKeepsLive | game.js:105-121 | Before the drain, identities are unique and fresh, and every queued body is in the list. |
| FrameProperties.FrameKeepsInv | game.js:105-123 | A frame keeps identities unique and fresh and every power within the size table, and it ends with an empty queue. |
| FrameProperties.FrameSettles | game.js:105-123 | After a frame every ship and asteroid lies inside the arena. |
| FrameProperties.FrameRemovals | game.js:122 | After a frame no queued body survives. When nothing was queued twice, exactly the queued bodies are gone and the others keep their order. |
| FrameProperties.AsteroidFieldFrame | game.js:105-123 | A frame over asteroids alone removes and adds nothing. Each asteroid drifts and wraps, however they overlap. |
| GameLoop.InitialPower | game.js:70 | An initial power drawn from a unit sample is 2, 3 or 4. |
| GameLoop.ScaledWithin | game.js:65-66 | A unit sample scaled by a non-negative extent lies in [0, extent]. |
| GameLoop.InitialAsteroid | game.js:64-71 | An initial asteroid has power 2 to 4 and lies inside the arena. |
| GameLoop.Game.constructor | game.js:59-72 | The list holds the ship at its starting place and then one initial asteroid per launch. The queue is empty and the game invariant holds. |
| GameLoop.Game.AddBodies | game.js:133-135 | The body is pushed at the end of the list. |
| GameLoop.Game.RemoveBody | game.js:137-139 | The body is pushed onto the removal queue. The list is untouched. |
| GameLoop.Game.EmptyRemoveQueue | game.js:141-147 | The in-place splice loop leaves the list that `Drain` gives and an empty queue. |
| GameLoop.Game.Shoot | game.js:200-207 | Firing in place gives the state `Simulation.Shoot` describes. |
| GameLoop.Game.UpdatePlayer | game.js:209-236 | The ship's in-place update (fire, turn, thrust or friction, move, wrap) gives the state `UpdateAt` describes. |
| GameLoop.Game.UpdateBody | game.js:111 | Each kind's in-place update gives the state `UpdateAt` describes. |
| GameLoop.Game.Collision | game.js:117-118 | Each kind's in-place reaction, including the three `addBodies` calls of a split, gives the state `ReactAt` describes. |
| GameLoop.Game.UpdateAll | game.js:110-112 | The update loop, with its bound re-read, leaves the state `UpdatePass` describes. |
| GameLoop.Game.CollideWith | game.js:115-120 | The inner loop for body i leaves the state from which the collision pass continues with body i + 1, and never raises the growth bound. |
| GameLoop.Game.CollideAll | game.js:114-121 | The nested loops leave the state `CollidePass` describes from the first pair. |
| GameLoop.Game.Update | game.js:105-123 | The three loops with re-read bounds perform exactly one `Frame`. The game invariant is kept: unique fresh identities, powers within the table, an empty queue. |
| Scenarios.ShipStaysPut | game.js:225-236 | A ship at rest inside the arena, with no key held, stays where it is. |
| Scenarios.AtRestStaysPut | game.js:164-167 | A body at rest inside the arena, or the ship at its start, does not move when no key is held. |
| Scenarios.SplitScenario | game.js:313-334 | A power-2 asteroid at rest 21 units from the ship's centre overlaps the ship's box by half a unit. After one frame the ship is unchanged and the asteroid is replaced by three power-1 fragments at its centre. The fragments reach only 17.5 units towards the ship, so they miss it and survive. |
| Scenarios.SingleShotScenario | game.js:114-147 | One bullet at rest on a power-2 asteroid, away from the ship. The bullet splits the rock and then meets each of the three fragments in the same pass. The queue holds eight entries for six bodies, and the drain deletes every body, the ship included. |
| Scenarios.DoubleHitScenario | game.js:141-147 | Two bullets resting on a power-1 asteroid queue six entries for four bodies. The frame ends with an empty list: the ship is deleted too. |

## Left out

- Rendering, the canvas, `draw` for every body, and `drawRect` (game.js:27-30, 125-131, 168-171, 243-256, 309-312): they produce no simulation state.
- The animation tick, `requestAnimationFrame`, `window.onload`, and reading the canvas size (game.js:50-57, 74-87, 347-349). The arena size is a parameter, and each call of `Game.Update` is one tick.
- The `Keyboarder` and its DOM key events (game.js:262-283). The held keys for a frame are a `Keys` parameter. The down key is never read by the game.
- `getVelocity` and `rotate2d` (game.js:4-25) are not part of this model. The `Trig` parameter stands for them, as two uninterpreted functions. Properties that depend on actual sines and cosines are not stated.
- `Math.random`: each initial asteroid takes its samples from a `Launch` given to the constructor. Each fragment takes its samples from a function of its fresh identity. Only unit samples are assumed where a bound needs them.
- `console.log` calls: they have no effect on state.
- Floating point: coordinates, velocities and headings are exact reals. Friction is exactly 0.98. Rounding, overflow and NaN are not modelled.
- Bodies are values with identities, not shared heap objects. A body's in-place update is a replacement of its slot in the list. The `game` and `gameSize` back-references every body holds are replaced by the game's own arena.
- Entities.NewAsteroid: requires a power that indexes the size table. The source would give an undefined size otherwise. The game only creates powers 1 to 4, as `GameLoop.InitialPower` and `FrameProperties.FrameKeepsInv` show.

# Arena shooter simulation core, modelled in Dafny

The server (StatelessClientTest) runs a two-dimensional arena game. Players move with six analog
control axes (up, down, left, right, sprinting, sneaking). They fire projectiles at targets
through a one-slot action buffer, and score when their projectile strikes another player. The
`GameManager` keeps a connection registry, a player registry (user id to `Player`), the live
entity list `State.Entities` and a staging queue `NewEntityBuffer`.

Each `SimulationStep` does three things in order:
1. It updates every live entity in list order. A player ramps its axes, moves, clamps itself to
   the arena and may fire its buffered shot; a projectile flies straight on.
2. It sweeps out the entities that ask to be destroyed and drains the staging queue onto the end
   of the live list.
3. It scans every pair of collision-enabled entities once and tells both entities of an
   overlapping pair where they touch.

How the model is laid out:
- Players and projectiles are Dafny classes whose methods update their fields in place.
- An entity is the variant `Entity = PlayerEntity(Player) | ProjectileEntity(Projectile)`.
- The manager is a class whose list fields are sequences that its methods reassign.
- The parts that only compute are functions over values, with lemmas about them:
  - movement, clamping and speed blending;
  - the fire decision;
  - the overlap test and the contact point.
- Each state-changing method is tied to a value-level specification:
  - a player's `Update` to `Tick`/`Shots` on a `PlayerState` snapshot;
  - an entity's `Update` to `Next`/`ShotsOf`;
  - the update phase to `Fired`;
  - the sweep to `Survivors`;
  - the collision scan to an ordered log of the pairs it visits.
- What any collision may do to an entity is one predicate, `Advances`. A player's score and
  deaths only count up, and its deaths only with a defeat. Its collisions only switch off, and
  only by a defeat, and a defeat stands. Its keys can only be released. Every axis value, its
  heading, its fire clock and its fire buffer are untouched, so a player that kept its
  invariant still keeps it. A projectile keeps its centre and direction, and an impact stands.

Files:
- `vector.dfy`: vectors over reals, `Clamp`, the arena size and the spawn position.
- `projectile.dfy`: the `Projectile` class.
- `player.dfy`: control axes, speed and heading, the arena clamp, `PlayerState` with `Tick`/`Shots`,
  and the `Player` class.
- `entity.dfy`: the `Entity` variant with its dispatching `Update`/`Collide`, and `EntityState`.
- `lists.dfy`: `List.Remove`, `List.RemoveAll` and the bookkeeping that no entity is listed twice.
- `tick.dfy`: the shots of an update phase, the overlap test, the contact point and the visit log
  of the scan.
- `game_manager.dfy`: the `GameManager` class, the collision scan and the join-and-leave scenarios.

The manager invariant `Valid()` says two things: no entity is held twice across the live list and
the staging queue, and every registered player is held under its own id. `Registered()` is the
converse: every held player entity is the one registered under its id. `RemovePlayer` as written
breaks `Registered()` (see Findings).

Three behaviours of the code are easy to miss, and the model keeps each as written:
- `Player.CheckIfShouldFire` stops when the buffered target equals the player's position. That
  action stays buffered and blocks the slot until the player moves.
- `Player.Defeat` only releases the keys. The axis values then decay over the following updates
  instead of dropping to zero.
- A projectile exactly on the arena boundary is kept. Its destroy test uses strict comparisons.

## Model

| member | source | states |
|---|---|---|
| Clamp | StatelessClientTest/Game/Player.cs:95-98 | Math.Clamp: the result lies in [lo, hi], equals v inside the interval and the nearer bound outside |
| ControlNamesAgree | StatelessClientTest/Game/Player.cs:17 | the control map keys are the six axis names, and CONTROL_NAMES lists none twice |
| SpawnPosition | StatelessClientTest/Game/GameManager.cs:109-112 | a spawn point keeps at least one unit from every wall of the 10 x 10 arena |
| PlayerControl.Update | StatelessClientTest/Game/Player.cs:211-218 | an axis keeps its key state and stays in [0, 1]; it rises while pressed and falls while released, by at most ACCELERATION per second, and saturates at 1 or 0 after a long enough step |
| PlayerControl.Reset | StatelessClientTest/Game/Player.cs:220-224 | a reset axis is released and at rest, value 0, which is in range |
| UpdatedControls | StatelessClientTest/Game/Player.cs:63-66 | ramping every axis keeps every axis's key state and keeps the control map well formed |
| Speed | StatelessClientTest/Game/Player.cs:74-78 | full sneak gives SNEAK_SPEED whatever the sprint; no input gives BASE_SPEED; full sprint gives SPRINT_SPEED; in-range axes give a speed between SNEAK_SPEED and SPRINT_SPEED |
| BlendFacts | StatelessClientTest/Game/Player.cs:76-78 | the blend a*(1-t)+b*t is a at t=0 and b at t=1, and lies between a and b for t in [0, 1] |
| Heading | StatelessClientTest/Game/Player.cs:80-90 | the weighted sum of the four unit directions is kept when at most unit length; otherwise it is normalised, so the heading never exceeds unit length |
| ClampToArena | StatelessClientTest/Game/Player.cs:95-98 | the clamped centre lies within Radius of no wall, and a coordinate already in range is unchanged |
| Moved | StatelessClientTest/Game/Player.cs:72-99 | wherever the movement takes a player, it ends inside the player bounds |
| TickKeepsConsistent | StatelessClientTest/Game/Player.cs:61-70 | one update keeps the player invariant: at most one buffered action, and a defeated player neither collides nor holds a key |
| ShotsComeFromBuffer | StatelessClientTest/Game/Player.cs:101-124 | an update fires at most one shot; the fired and still-buffered targets make up the old buffer in order; a shot needs FIRE_RATE seconds since the last one and restarts that clock, and no shot leaves the clock alone |
| Player.constructor | StatelessClientTest/Game/Player.cs:38-57 | a new player stands at its position, has zero score, deaths and clock, is in play with collisions on, has an empty buffer and one released zero-valued axis per control name |
| Player.Update | StatelessClientTest/Game/Player.cs:61-70 | the new state is Tick of the old one, the shots handed to SendProjectile are Shots of the old one, and the invariant is kept |
| Player.UpdateControls | StatelessClientTest/Game/Player.cs:63-66 | after the loop every axis has been ramped exactly once, and nothing else in the player changes |
| Player.UpdateMovement | StatelessClientTest/Game/Player.cs:72-99 | the direction is the heading of the axes and the position the clamped move, which is inside the player bounds; nothing else in the player changes |
| Player.CheckIfShouldFire | StatelessClientTest/Game/Player.cs:101-124 | the head of the buffer is fired exactly when it does not aim at the player's position and FIRE_RATE has elapsed; the fired action leaves the buffer and the clock restarts at now; only the buffer and the clock change |
| Player.TryFireProjectile | StatelessClientTest/Game/Player.cs:126-136 | a target is appended only when the player is in play and the buffer has room; otherwise nothing changes |
| Player.SetInputs | StatelessClientTest/Game/Player.cs:138-150 | unless defeated, every axis named in the input map takes the given key state; other axes and all axis values are unchanged |
| Player.Defeat | StatelessClientTest/Game/Player.cs:152-161 | the player is defeated with collisions off, one more death, and every key released with its value kept |
| Player.ReleaseKeys | StatelessClientTest/Game/Player.cs:157-160 | every axis has its key released and keeps its value |
| Player.Revive | StatelessClientTest/Game/Player.cs:163-172 | the player is back in play at the given position with collisions on and every axis reset |
| Player.ResetControls | StatelessClientTest/Game/Player.cs:168-171 | every axis is released at value 0 |
| Player.Collide | StatelessClientTest/Game/Player.cs:176-196 | a projectile of another player defeats this player and raises its firer's score by one; the player's own projectile changes nothing; an overlapping player not at the contact point pushes this one to Radius beyond the contact point, and nothing else changes; score and deaths never drop |
| Projectile.constructor | StatelessClientTest/Game/Projectile.cs:17-23 | a new projectile has its firer and position, the normalised direction, and is not impacted |
| Projectile.Update | StatelessClientTest/Game/Projectile.cs:25-28 | the projectile moves SPEED units per second along its fixed direction |
| Projectile.ShouldDestroy | StatelessClientTest/Game/Projectile.cs:30-37 | a projectile is destroyed exactly when it is impacted or outside the closed arena |
| Projectile.Collide | StatelessClientTest/Game/Projectile.cs:39-43 | a projectile becomes impacted exactly when it touches a player other than its firer, and stays impacted |
| ExitThroughRightWall | StatelessClientTest/Game/Projectile.cs:25-37 | a shot fired along +X from the left wall leaves the arena exactly when it has flown more than the arena width |
| Entity.Update | StatelessClientTest/Game/Entity.cs:16 | an entity's update takes it to Next of its old state and fires ShotsOf it; a player keeps its invariant |
| Entity.Collide | StatelessClientTest/Game/Entity.cs:18 | a collision only advances an entity (`Advances`), and a player keeps its invariant. A player struck by another player's projectile is defeated and the firer scores one, and a player is newly defeated in no other way: not by its own projectile, which leaves it unchanged, nor by another player, which only pushes it; no projectile moves a player. A projectile is impacted exactly when it was already or it touches a player other than its firer. No entity's collisions switch back on, a player's switch off only with its defeat, and no score drops |
| Entity.CollisionsEnabled | StatelessClientTest/Game/Entity.cs:14 | a projectile takes the interface default and always collides; a player collides exactly when its own flag is set |
| Entity.ShouldDestroy | StatelessClientTest/Game/Entity.cs:17 | a player never asks to be destroyed (Player.ShouldDestroy is false); a projectile asks exactly when it is impacted or outside the closed arena |
| AdvancesTransitive | StatelessClientTest/Game/GameManager.cs:188-189 | advancing through successive collisions is still advancing, frame and player invariant included |
| LaunchesOf | StatelessClientTest/Game/Player.cs:118-121 | an entity's update fires at most one shot, only a player fires, and a ready player fires its buffered target from its new position |
| FiredByListedPlayers | StatelessClientTest/Game/GameManager.cs:158-161 | the update phase fires at most one shot per entity, and every firer is a player of the live list |
| FiredSnoc | StatelessClientTest/Game/GameManager.cs:158-161 | the shots of the first k + 1 updates are those of the first k, followed by those of entity k |
| FiredFromNewPositions | StatelessClientTest/Game/GameManager.cs:231-238 | every shot of the update phase leaves from where its firer's own update left it |
| ContactPoint | StatelessClientTest/Game/GameManager.cs:178-187 | coincident centres touch at that centre; for equal radii the contact point is the midpoint of the centres |
| OrderedVisitsOnce | StatelessClientTest/Game/GameManager.cs:170-172 | a scan log in pair order never visits an unordered pair twice |
| Steps | StatelessClientTest/Game/GameManager.cs:158-161 | the update phase on states keeps the list's length and each entity's kind; a player keeps its score, deaths, defeat and collision flag, its buffer only shrinks and it ends inside the player bounds; a projectile keeps its direction and impact; an entity collides afterwards exactly when it did before |
| Stepped | StatelessClientTest/Game/GameManager.cs:158-161 | once every listed entity has taken its Next step, the list is in the Steps of the old states, and every shot Fired leaves from its firer's new position, fired by a listed player |
| Swept | StatelessClientTest/Game/GameManager.cs:162 | the sweep on values keeps no entity that was not listed, and keeps every listed entity whose state is not destroyed |
| SurvivorsAreSwept | StatelessClientTest/Game/GameManager.cs:162 | RemoveAll over the live objects is the value-level sweep over their states |
| Kept | StatelessClientTest/Game/GameManager.cs:162 | the states the sweep keeps are exactly the listed states that are not destroyed |
| SweptStates | StatelessClientTest/Game/GameManager.cs:162 | the entities the sweep keeps are in exactly the states it keeps, in order |
| LaunchStates | StatelessClientTest/Game/GameManager.cs:231-238 | each newly sent projectile starts at its launch origin, not impacted and colliding, and asks to be destroyed exactly when that origin is outside the arena |
| StagedStates | StatelessClientTest/Game/GameManager.cs:231-238 | projectiles staged for a list of launches are, in order, in the states LaunchStates gives |
| ProgressedTransitive | StatelessClientTest/Game/GameManager.cs:170-192 | collision effects chain: advancing entity by entity, twice over, is advancing |
| LandedPersists | StatelessClientTest/Game/GameManager.cs:170-192 | later collisions undo no defeat and no impact, so what earlier hits left behind stays |
| RowStep | StatelessClientTest/Game/GameManager.cs:172-191 | one turn of the inner loop visits the pair exactly when entity2 is enabled as it is reached, in the states it is reached in, and keeps the row sound, ordered, complete and the only cause of defeats and impacts |
| RowVisits | StatelessClientTest/Game/GameManager.cs:172-191 | the visits of a row stay sound and landed after a further collision, and each is seen in states between the start and the new states |
| RowCovers | StatelessClientTest/Game/GameManager.cs:172-191 | after the turn, every entity2 up to the current one that is still enabled has been visited |
| ScanStep | StatelessClientTest/Game/GameManager.cs:170-192 | one turn of the outer loop scans entity1's row exactly when entity1 is enabled as it is reached; what was covered stays covered, since collisions only switch off, and every defeat or impact since the start still comes from a hit of the log |
| CausedAppend | StatelessClientTest/Game/GameManager.cs:170-192 | if every defeat, impact or move of one stretch of collisions comes from a hit of one log, and likewise for a later stretch, then every one over both stretches comes from a hit of the joined log |
| SeenGrows | StatelessClientTest/Game/GameManager.cs:170-192 | a visit that saw its entities at their start centres, or where a hit of the log moved them, still does once the log grows |
| SeenThrough | StatelessClientTest/Game/GameManager.cs:170-192 | a visit that saw its entities where they were at an intermediate point, or where a later hit moved them, saw them at their start centres or where a hit of the whole log moved them |
| RowSeen | StatelessClientTest/Game/GameManager.cs:172-176 | the visit of an inner-loop turn sees both entities where the row's hits left them, so every visit of the row saw its entities at their start centres unless the row moved them |
| ShotOnPlayerLands | StatelessClientTest/Game/GameManager.cs:170-192 | a player that overlaps another player's projectile when the scan starts, is colliding then, and is in no hit of the scan with another player ends the scan defeated |
| PairVisit | StatelessClientTest/Game/GameManager.cs:170-192 | a player still colliding at the end of the scan and a projectile were visited as a pair, entity1 first, and that visit is sound, seen from the start centres and landed |
| UnmovedPairHits | StatelessClientTest/Game/GameManager.cs:174-176 | that visit of a player and another player's projectile, overlapping at the start and with the player never moved, is a hit and leaves the player defeated |
| OverlapsSymmetric | StatelessClientTest/Game/GameManager.cs:174-176 | the overlap test gives the same answer with the two entities swapped |
| SawBetweenPersists | StatelessClientTest/Game/GameManager.cs:170-192 | a visit seen in states between the start and the current states stays so when later collisions advance the current states |
| SawBetweenFrom | StatelessClientTest/Game/GameManager.cs:170-192 | a visit seen between intermediate and current states is also seen between any earlier states they advanced from and the current ones |
| HitCaused | StatelessClientTest/Game/GameManager.cs:188-189 | a hit whose only new defeats and impacts are those a striking projectile causes to its pair, and which moves only its two entities when both are players, accounts for every defeat, impact and move between the two states |
| RemoveFirst | StatelessClientTest/Game/GameManager.cs:103 | List.Remove takes away one occurrence of the entity, if present, and nothing else |
| FirstIndex | StatelessClientTest/Game/GameManager.cs:103 | the index List.Remove finds holds the entity, and no earlier index does |
| RemoveFirstCutsFirst | StatelessClientTest/Game/GameManager.cs:103 | List.Remove cuts out exactly the first occurrence and keeps the order of the rest |
| Survivors | StatelessClientTest/Game/GameManager.cs:162 | RemoveAll adds nothing: the survivors are a sub-multiset of the list |
| SurvivorsFilter | StatelessClientTest/Game/GameManager.cs:162 | an entity survives RemoveAll exactly when it was in the list and does not ask to be destroyed |
| PlayersSurvive | StatelessClientTest/Game/GameManager.cs:162 | a player in the list is never swept out, since a player never asks to be destroyed |
| SurvivorsAppend | StatelessClientTest/Game/GameManager.cs:162 | the sweep keeps relative order: it distributes over concatenation |
| SweepKeepsIndex | StatelessClientTest/Game/GameManager.cs:162 | the sweep keeps every registered player held, nothing held twice and no orphan |
| IndexedAfterCut | StatelessClientTest/Game/GameManager.cs:96-104 | cutting an unregistered player out of the held entities keeps every other registered player held |
| GameManager.constructor | StatelessClientTest/Game/GameManager.cs:36-50 | a new manager has empty registries, no live entities and an empty staging queue |
| GameManager.RegisterUserConnection | StatelessClientTest/Game/GameManager.cs:52-58 | a new connection id maps to the user; a known connection id keeps its user |
| GameManager.UnregisterUserConnection | StatelessClientTest/Game/GameManager.cs:60-66 | the connection id is gone and every other connection is kept |
| GameManager.TryRevivePlayer | StatelessClientTest/Game/GameManager.cs:68-77 | a registered defeated player is revived at the spawn point with collisions on and axes reset; any other player is unchanged |
| GameManager.TryAddNewPlayer | StatelessClientTest/Game/GameManager.cs:79-90 | a new user id gets a fresh player at the spawn point, in the state every new player starts in (no score, deaths or clock, in play with collisions on, no buffered action, every axis released at rest, the player invariant holding), registered under that id and appended to the staging queue; a known id changes nothing; the invariants are kept |
| GameManager.RemovePlayer | StatelessClientTest/Game/GameManager.cs:92-107 | as written: the id leaves the registry and its player leaves the live list, but the staging queue is kept, so a still-staged player is left orphaned |
| GameManager.RemovePlayerEverywhere | StatelessClientTest/Game/GameManager.cs:92-107 | as intended: the player also leaves the staging queue, is held nowhere afterwards, and no orphan arises |
| GameManager.Unstage | StatelessClientTest/Game/GameManager.cs:92-107 | the first staged occurrence of an unregistered player is dropped from the queue, and the invariant is kept |
| GameManager.PlayerControlUpdate | StatelessClientTest/Game/GameManager.cs:196-208 | a registered player takes the key states as SetInputs says; unknown ids are ignored |
| GameManager.TryFireProjectile | StatelessClientTest/Game/GameManager.cs:209-221 | a registered player buffers the shot as Player.TryFireProjectile says; unknown ids are ignored |
| GameManager.QueueNewEntity | StatelessClientTest/Game/GameManager.cs:223-229 | the entity joins the back of the staging queue |
| GameManager.SendProjectile | StatelessClientTest/Game/GameManager.cs:231-238 | a fresh, unimpacted projectile of the sender is staged at the sender's position, heading for the target |
| GameManager.UpdateEntities | StatelessClientTest/Game/GameManager.cs:158-161 | every live entity ends in Next of its old state, and the shots are Fired over the old states, in firing order |
| UpdateEach | StatelessClientTest/Game/GameManager.cs:158-161 | the loop over the live list leaves every entity in Next of its old state, and collects exactly the shots Fired over the old states, in firing order |
| GameManager.UpdateStates | StatelessClientTest/Game/GameManager.cs:158-161 | the live states go from before to Steps(before); the shots are Fired over the old states, each from its firer's new position by a live player; the lists, the registries and the staged entities do not change |
| UpdateAt | StatelessClientTest/Game/GameManager.cs:160 | one entity updates to Next of its old state and every other entity of the list is untouched; a player's shot leaves from its new position |
| GameManager.SendAll | StatelessClientTest/Game/Player.cs:120 | the shots of a phase are staged in order, one fresh projectile per shot, each at its firer's position heading for its target; no live or previously staged entity changes state; the invariant is kept |
| GameManager.StageShots | StatelessClientTest/Game/Player.cs:120 | the shots are staged in order, each by a fresh projectile that carries it out, appended to the queue; the invariant is kept |
| GameManager.StageShot | StatelessClientTest/Game/Player.cs:120 | one shot of the phase, fired from its firer's position, stages a fresh projectile that carries it out, and no entity becomes held twice |
| GameManager.UpdatePhase | StatelessClientTest/Game/GameManager.cs:158-161 | each live entity takes one Next step (Steps of the old states); the shots are Fired over the old states, each leaving from its firer's new position; the staging queue gains one fresh projectile per shot, in order, each fired by a live player; the live list and the registries are unchanged; the invariant is kept |
| GameManager.RemoveDestroyed | StatelessClientTest/Game/GameManager.cs:162 | the live list becomes its survivors, in order, and its states become exactly the old states that are not destroyed (Kept); the staged entities do not change; the invariants are kept |
| GameManager.DrainNewEntities | StatelessClientTest/Game/GameManager.cs:163-164 | the staged entities, oldest first, move to the end of the live list, and the queue is empty; nothing held is lost or added, and the new list is in the old live states followed by the old staged states |
| GameManager.SweepAndDrain | StatelessClientTest/Game/GameManager.cs:162-164 | the live list becomes the old entities whose state is not destroyed (Swept), in order, then the staged entities, oldest first, and the queue is empty; the states of the new list are the kept states then the staged ones; no entity changes state; the invariants are kept |
| GameManager.StateUpdates | StatelessClientTest/Game/GameManager.cs:156-165 | after the first lock: every old entity took one Next step; the shots are Fired over the old states; the live list is the old entities whose updated state is not destroyed, in order (every player among them), then what was staged before, then one fresh projectile per shot, fired by a live player; its states are the kept updated states, the old staged states, then the new projectiles' start states; the invariants are kept and the registries unchanged |
| ProgressedKeepsPlayersSound | StatelessClientTest/Game/GameManager.cs:168-193 | a collision scan keeps every player's invariant: at most one buffered action, and a defeated player neither collides nor holds a key |
| StepKeepsPlayersSound | StatelessClientTest/Game/GameManager.cs:153-194 | over the lists SimulationStep states (the kept updated states, the staged entities, the new shots, then a scan), a step keeps every live player's invariant when the live and the staged players kept it |
| GameManager.CheckCollisions | StatelessClientTest/Game/GameManager.cs:168-193 | Scanned over the whole live list: visits in scan order, entity1 first, so each pair at most once; only pairs enabled at the start are visited, and every pair still enabled at the end was; a visit collides exactly on overlap of the centres the entities had when visited, and names the contact point; each such centre is the entity's centre at the start unless a hit of the log between two players involved it; each hit left its struck player defeated and the projectile impacted, and every defeat, impact or move comes from a hit of the log; every entity only advanced; the registries are unchanged |
| GameManager.SimulationStep | StatelessClientTest/Game/GameManager.cs:153-194 | one step keeps the invariants and leaves the player and connection registries alone; the update phase takes each old entity one Next step and fires exactly Fired; the live list becomes the swept old entities, then the old staged ones, then one projectile per shot; the scan then runs over that list as CheckCollisions states, starting from those entities' states |
| Scan | StatelessClientTest/Game/GameManager.cs:170-192 | over a list without repeats, as CheckCollisions states: an ordered log, each pair at most once, only pairs enabled at the start, complete for the pairs enabled at the end; each visit collides exactly on overlap of the centres seen at the visit, which are the start centres unless a hit of the log between two players moved them; hits landed, and no defeat, impact or move without a hit that causes it; states only advanced |
| ScanFrom | StatelessClientTest/Game/GameManager.cs:172-191 | the row of entity1 pairs it with later entities in list order; each visited entity2 was enabled at the start, every later entity enabled at the end was visited, each visit collides exactly on overlap of the centres seen at it, which are the row's start centres unless a hit of the row between two players moved them; hits landed, every defeat, impact or move comes from a hit of the row, and states only advanced |
| ScanPair | StatelessClientTest/Game/GameManager.cs:172-176 | entity2 is paired with entity1 exactly when it is enabled as it is reached; the visit sees both entities in their states at that moment, is sound and its hit has landed; every defeat or impact comes from that hit; a skipped pair changes nothing; states only advance |
| CollidePair | StatelessClientTest/Game/GameManager.cs:174-190 | the visit records both entities' states as reached; the pair collides exactly when those centres are closer than the sum of the radii, and both are told the same contact point; a miss changes nothing; a hit by another player's projectile defeats the player, impacts the projectile and raises its firer's score by one, and no entity is defeated or impacted otherwise; two players are pushed apart, entity1 first; every entity only advances |
| CollideBoth | StatelessClientTest/Game/GameManager.cs:188-189 | Collide on entity1 and then on entity2 at one point: a struck player is defeated, the projectile impacted and its firer gains exactly one point, and no entity is newly defeated or impacted otherwise; entity2 is pushed away from where entity1 was pushed to, and no centre moves unless both are players; a projectile meeting its own firer or another projectile changes nothing; every entity only advances |
| CollideAt | StatelessClientTest/Game/GameManager.cs:188 | one Collide call seen on the whole list: every entity advances; a defeat or an impact appears only at the told entity and only when a projectile strikes a player other than its firer, and then the firer scores one; a player is pushed from the other player, and only the told entity moves, only when both are players; a projectile meeting its own firer or another projectile changes nothing |
| ShotsByListedFirers | StatelessClientTest/Game/GameManager.cs:231-238 | staged shots are projectiles of live players |
| NoOrphansWithShots | StatelessClientTest/Game/GameManager.cs:231-238 | staging projectiles cannot orphan a player |
| NoOrphansAfterRemove | StatelessClientTest/Game/GameManager.cs:92-107 | removing a player from the registry and from every list leaves no orphan |
| StepFrame | StatelessClientTest/Game/GameManager.cs:153-194 | the scan touches only entities held before the step, the new shots, and the firers of those |
| JoinThenLeave | StatelessClientTest/Game/GameManager.cs:79-107 | joining then leaving before the next step leaves an unregistered player entity in the staging queue |
| JoinThenLeaveEverywhere | StatelessClientTest/Game/GameManager.cs:79-107 | the same sequence with the corrected removal leaves nothing held and no orphan |

## Left out

- Locks and threads are left out. The entity, player and connection locks and the interleaving of
  hub calls with the simulation are not modelled; every operation is atomic.
- The background loops are left out: `SimulationThread` (tick pacing) and `ReportingThread` (the
  SignalR broadcast of the game state).
- The hub, the controllers, startup, and the older `GameStateManager`/`GamePlayer`/`GameEntity`
  files are not part of this model.
- The clock is a parameter. `Player.LastProjectile` holds a raw `Stopwatch.ElapsedTicks` reading,
  and only the difference of two readings is divided by `Stopwatch.Frequency` to compare it with
  `FIRE_RATE`. The model keeps both the clock and `lastProjectile` in seconds and passes one
  reading `now` into the whole step, so the tick-to-second division is not modelled, and every
  player of a step sees the same reading where the source reads `Manager.Timer` afresh inside
  each `CheckIfShouldFire`.
- Randomness is a parameter. The two `Random.NextDouble` draws of `GetSpawnPosition` are passed
  in as reals in [0, 1).
- Floats are modelled as reals, so rounding is not captured. `Vector2.Normalize` needs a square
  root, so it is a parameter `norm`; `Normalizes(norm)` states when it returns unit vectors.
- The distance test of `Player.Collide` (`Distance < r1 + r2`) is modelled on squared distances.
  The two agree because both sides are non-negative.
- `Player.Deaths` is not initialised in the constructor. The model starts it at 0, its default.
- GameManager.UpdateEntities: the `SendProjectile` calls are made after the update loop rather than
  from inside each `Player.Update`. This is equivalent because `SendProjectile` only appends to
  the staging queue, the update loop never reads that queue, and the sender's position is
  changed only by its own update. `FiredFromNewPositions` shows each shot uses that position.
- GameManager.SimulationStep: the collision effects are stated per hit (`Landed`) and as
  monotone progress of every entity (`Advances`). The exact score total a firer gains over
  a whole scan is not stated; the one point per hit is stated on `CollidePair` and `CollideBoth`.
- CollideAt, CollideBoth, CollidePair, ScanPair, ScanFrom, Scan, GameManager.CheckCollisions: a
  struck player's deaths are stated to rise only with its defeat (`Advances`), not to rise by
  exactly one per hit; the one death per hit is stated on `Player.Collide`.
- Player.Collide: `Score` and `Deaths` are C# `int`s that wrap around past 2^31 - 1. The model
  uses unbounded integers, so that overflow is not captured.
- Scan: the visit log is ghost, as the source keeps no such log.
- Scan, ScanFrom, GameManager.CheckCollisions, GameManager.SimulationStep: a visit records the
  states its two entities were in when the pair was reached, and the overlap test is stated on
  those centres. A centre is tied to the start centre whenever no hit of the log between two
  players involved that entity (`SeenFrom`, `ShotOnPlayerLands`). For a player that was in such
  a hit, the recorded centre is tied to the start and end states only by `Advances`, which does
  not fix a player's position; the chain of pushes it took is stated per hit (`CollidePair`) and
  not over the whole scan.
- The serialised report (`GameState`, JSON attributes, `EntityType` strings) is not modelled.
  Only its entity list is.

## Findings

| source | as written | input that shows it | evidently intended | confidence | as-written member | corrected member |
|---|---|---|---|---|---|---|
| StatelessClientTest/Game/GameManager.cs:92-107 | RemovePlayer removes the player from `Players` and `State.Entities` but not from `NewEntityBuffer` | `TryAddNewPlayer("u", ...)` then `RemovePlayer("u")` before the next SimulationStep: the staged player has no registration and is drained into the live list at the next step, where no id reaches it | a removed player is held nowhere, so no player entity is left without a registration | not executed | JoinThenLeave | GameManager.RemovePlayerEverywhere |

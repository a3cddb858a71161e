// Player.cs: a player entity, its analog control axes and its single-slot fire buffer.

const MAX_BUFFERED_ACTIONS: nat := 1
const BASE_SPEED: real := 1.5
const SNEAK_SPEED: real := 0.6
const SPRINT_SPEED: real := 3.0
const ACCELERATION: real := 3.0
const FIRE_RATE: real := 0.25
const PLAYER_RADIUS: real := 0.08
const CONTROL_NAMES: seq<string> := ["up", "down", "left", "right", "sprinting", "sneaking"]

/**
 * The keys of every player's control map, written out so that lookups by name stay
 * cheap; ControlNamesAgree proves it is the set of CONTROL_NAMES.
 */
function ControlNameSet(): set<string>
{
  {"up", "down", "left", "right", "sprinting", "sneaking"}
}

/** The key set is exactly the names of CONTROL_NAMES, and no name is listed twice. */
lemma ControlNamesAgree()
  ensures ControlNameSet() == set c | c in CONTROL_NAMES
  ensures forall i, j :: 0 <= i < j < |CONTROL_NAMES| ==> CONTROL_NAMES[i] != CONTROL_NAMES[j]
{
}

/**
 * PlayerControl: one analog axis driven by a key. Each player owns one per control name
 * and never shares it, so the axis is a value that the player writes back into its map.
 */
datatype PlayerControl = PlayerControl(pressed: bool, value: real)
{
  predicate InRange() { 0.0 <= value <= 1.0 }

  /**
   * PlayerControl.Update: ramp towards 1 while pressed and towards 0 while released, at
   * ACCELERATION per second, then clamp to [0, 1].
   */
  function Update(timeDelta: real): (c: PlayerControl)
    ensures c.pressed == pressed && c.InRange()
    ensures InRange() && 0.0 <= timeDelta ==>
      (pressed ==> value <= c.value) && (!pressed ==> c.value <= value)
    ensures InRange() && 0.0 <= timeDelta ==>
      c.value - value <= ACCELERATION * timeDelta && value - c.value <= ACCELERATION * timeDelta
    ensures InRange() && 1.0 <= ACCELERATION * timeDelta ==>
      c.value == if pressed then 1.0 else 0.0
  {
    var v := if pressed then value + ACCELERATION * timeDelta else value - ACCELERATION * timeDelta;
    PlayerControl(pressed, Clamp(v, 0.0, 1.0))
  }

  /** PlayerControl.Reset, also the state of a freshly built axis: released and at rest. */
  function Reset(): (c: PlayerControl)
    ensures !c.pressed && c.value == 0.0 && c.InRange()
  {
    PlayerControl(false, 0.0)
  }
}

predicate HasControls(m: map<string, PlayerControl>)
{
  m.Keys == ControlNameSet()
}

predicate ControlsInRange(m: map<string, PlayerControl>)
{
  forall c :: c in m ==> m[c].InRange()
}

/**
 * A player's control map: one axis per control name, each value in [0, 1]. The
 * constructor builds it and every later write keeps both facts, so it is a type.
 */
type Controls = m: map<string, PlayerControl> | HasControls(m) && ControlsInRange(m)
  witness map c | c in ControlNameSet() :: PlayerControl(false, 0.0)

/** The control map after every axis has run PlayerControl.Update once; keys stay as set. */
function UpdatedControls(m: Controls, timeDelta: real): (r: Controls)
  ensures forall c :: c in m ==> r[c].pressed == m[c].pressed
{
  map c | c in m :: m[c].Update(timeDelta)
}

/**
 * Movement speed: BASE_SPEED blended towards SPRINT_SPEED by the sprint axis, and that
 * blended towards SNEAK_SPEED by the sneak axis, so sneaking wins over sprinting.
 */
function Speed(sprinting: real, sneaking: real): (speed: real)
  ensures sneaking == 1.0 ==> speed == SNEAK_SPEED
  ensures sprinting == 0.0 && sneaking == 0.0 ==> speed == BASE_SPEED
  ensures sprinting == 1.0 && sneaking == 0.0 ==> speed == SPRINT_SPEED
  ensures 0.0 <= sprinting <= 1.0 && 0.0 <= sneaking <= 1.0 ==> SNEAK_SPEED <= speed <= SPRINT_SPEED
{
  var sprintBlend := Blend(BASE_SPEED, SPRINT_SPEED, sprinting);
  BlendFacts(BASE_SPEED, SPRINT_SPEED, sprinting);
  BlendFacts(sprintBlend, SNEAK_SPEED, sneaking);
  Blend(sprintBlend, SNEAK_SPEED, sneaking)
}

/** Linear interpolation `a * (1 - t) + b * t`, as written in Player.UpdateMovement. */
function Blend(a: real, b: real, t: real): real
{
  a * (1.0 - t) + b * t
}

/** A blend is `a` shifted by the fraction t of the way to `b`. */
lemma BlendShift(a: real, b: real, t: real)
  ensures Blend(a, b, t) == a + t * (b - a)
{
  calc {
    Blend(a, b, t);
    a * (1.0 - t) + b * t;
    a - a * t + b * t;
    a + t * (b - a);
  }
}

/** A blend is `a` at t = 0, `b` at t = 1, and lies between the two for t in [0, 1]. */
lemma BlendFacts(a: real, b: real, t: real)
  ensures t == 0.0 ==> Blend(a, b, t) == a
  ensures t == 1.0 ==> Blend(a, b, t) == b
  ensures 0.0 <= t <= 1.0 && b <= a ==> b <= Blend(a, b, t) <= a
  ensures 0.0 <= t <= 1.0 && a <= b ==> a <= Blend(a, b, t) <= b
{
  BlendShift(a, b, t);
  if 0.0 <= t <= 1.0 {
    if b <= a {
      ProductBounds(t, a - b);
      NegatedProduct(t, a, b);
    } else {
      ProductBounds(t, b - a);
      assert 0.0 <= t * (b - a) <= b - a;
    }
  }
}

/** Swapping the ends of a difference negates its product with t. */
lemma NegatedProduct(t: real, a: real, b: real)
  ensures t * (b - a) == -(t * (a - b))
{
}

/** For 0 <= a <= 1 and b >= 0: 0 <= a * b <= b. */
lemma ProductBounds(a: real, b: real)
  requires 0.0 <= a <= 1.0 && 0.0 <= b
  ensures 0.0 <= a * b <= b
{
  assert b - a * b == (1.0 - a) * b;
}

/** A normaliser that sends every non-zero vector to a vector of length 1. */
ghost predicate Normalizes(norm: Vec -> Vec)
{
  forall v: Vec :: v.LengthSq() > 0.0 ==> norm(v).LengthSq() == 1.0
}

/**
 * The direction of travel: +Y for up, -Y for down, -X for left, +X for right, each
 * weighted by its axis value; a sum longer than 1 is rescaled to length 1.
 */
function Heading(up: real, down: real, left: real, right: real, norm: Vec -> Vec): (d: Vec)
  ensures Vec(right - left, up - down).LengthSq() <= 1.0 ==> d == Vec(right - left, up - down)
  ensures Normalizes(norm) ==> d.LengthSq() <= 1.0
{
  var sum := Vec(0.0, 1.0).Scale(up)
    .Plus(Vec(0.0, -1.0).Scale(down))
    .Plus(Vec(-1.0, 0.0).Scale(left))
    .Plus(Vec(1.0, 0.0).Scale(right));
  assert sum == Vec(right - left, up - down);
  if sum.LengthSq() > 1.0 then norm(sum) else sum
}

function MovementDirection(m: Controls, norm: Vec -> Vec): Vec
{
  Heading(m["up"].value, m["down"].value, m["left"].value, m["right"].value, norm)
}

function SpeedOf(m: Controls): real
{
  Speed(m["sprinting"].value, m["sneaking"].value)
}

/** The box a player's centre is kept in: [Radius, PLAY_AREA_SIZE - Radius] on each axis. */
predicate InPlayerBounds(p: Vec)
{
  PLAYER_RADIUS <= p.x <= PLAY_AREA_SIZE.x - PLAYER_RADIUS
  && PLAYER_RADIUS <= p.y <= PLAY_AREA_SIZE.y - PLAYER_RADIUS
}

/** The per-axis clamp at the end of Player.UpdateMovement. */
function ClampToArena(p: Vec): (q: Vec)
  ensures InPlayerBounds(q)
  ensures InPlayerBounds(p) ==> q == p
  ensures PLAYER_RADIUS <= p.x <= PLAY_AREA_SIZE.x - PLAYER_RADIUS ==> q.x == p.x
  ensures PLAYER_RADIUS <= p.y <= PLAY_AREA_SIZE.y - PLAYER_RADIUS ==> q.y == p.y
{
  Vec(Clamp(p.x, PLAYER_RADIUS, PLAY_AREA_SIZE.x - PLAYER_RADIUS),
      Clamp(p.y, PLAYER_RADIUS, PLAY_AREA_SIZE.y - PLAYER_RADIUS))
}

/** Where Player.UpdateMovement puts a player at `position` with controls `m`. */
function Moved(position: Vec, m: Controls, timeDelta: real, norm: Vec -> Vec): (p: Vec)
  ensures InPlayerBounds(p)
{
  ClampToArena(position.Plus(MovementDirection(m, norm).Scale(timeDelta * SpeedOf(m))))
}

/**
 * Whether CheckIfShouldFire sends the head of the buffer: there is one, it does not aim
 * at the player's own position, and FIRE_RATE seconds have passed since the last shot.
 */
predicate FireReady(buffer: seq<Vec>, position: Vec, lastProjectile: real, now: real)
{
  |buffer| > 0 && buffer[0] != position && now - lastProjectile >= FIRE_RATE
}

/** The mutable fields of a Player. */
datatype PlayerState = PlayerState(
  position: Vec,
  direction: Vec,
  score: int,
  deaths: int,
  lastProjectile: real,
  defeated: bool,
  collisionsEnabled: bool,
  controlState: Controls,
  projectileBuffer: seq<Vec>)
{
  /**
   * What Player keeps true between calls: at most MAX_BUFFERED_ACTIONS pending shots,
   * and a defeated player neither collides nor holds any key down.
   */
  predicate Consistent()
  {
    && |projectileBuffer| <= MAX_BUFFERED_ACTIONS
    && (defeated ==> !collisionsEnabled)
    && (defeated ==> forall c :: c in controlState ==> !controlState[c].pressed)
  }
}

/**
 * The state after one Player.Update: every axis ramps, the player moves along the new
 * heading, then the head of the fire buffer goes out if FireReady holds at `now`.
 */
function Tick(s: PlayerState, timeDelta: real, now: real, norm: Vec -> Vec): PlayerState
{
  var controls := UpdatedControls(s.controlState, timeDelta);
  var position := Moved(s.position, controls, timeDelta, norm);
  var fire := FireReady(s.projectileBuffer, position, s.lastProjectile, now);
  s.(controlState := controls,
     direction := MovementDirection(controls, norm),
     position := position,
     projectileBuffer := if fire then s.projectileBuffer[1..] else s.projectileBuffer,
     lastProjectile := if fire then now else s.lastProjectile)
}

/** The targets one Player.Update hands to GameManager.SendProjectile. */
function Shots(s: PlayerState, timeDelta: real, now: real, norm: Vec -> Vec): seq<Vec>
{
  var position := Tick(s, timeDelta, now, norm).position;
  if FireReady(s.projectileBuffer, position, s.lastProjectile, now) then [s.projectileBuffer[0]] else []
}

/**
 * Player.Update keeps the class invariant: the buffer only shrinks, and ramping the axes
 * leaves every key as it was, so a defeated player still holds none down.
 */
lemma TickKeepsConsistent(s: PlayerState, timeDelta: real, now: real, norm: Vec -> Vec)
  ensures s.Consistent() ==> Tick(s, timeDelta, now, norm).Consistent()
{
}

/**
 * One update fires the head of the buffer or nothing: what is fired and what stays
 * buffered make up the old buffer, in order; a shot needs FIRE_RATE seconds since the
 * last one and restarts that clock at `now`; no shot leaves the clock alone.
 */
lemma {:induction false} ShotsComeFromBuffer(s: PlayerState, timeDelta: real, now: real, norm: Vec -> Vec)
  ensures Shots(s, timeDelta, now, norm) + Tick(s, timeDelta, now, norm).projectileBuffer == s.projectileBuffer
  ensures |Shots(s, timeDelta, now, norm)| <= 1
  ensures Shots(s, timeDelta, now, norm) != [] ==>
    now - s.lastProjectile >= FIRE_RATE && Tick(s, timeDelta, now, norm).lastProjectile == now
  ensures Shots(s, timeDelta, now, norm) == [] ==> Tick(s, timeDelta, now, norm).lastProjectile == s.lastProjectile
{
}

class Player {
  const id: string
  const name: string
  var position: Vec
  var direction: Vec
  var score: int
  var deaths: int
  /** Clock reading, in seconds, of the last projectile fired. */
  var lastProjectile: real
  var defeated: bool
  var collisionsEnabled: bool
  var controlState: Controls
  /** The targets of the pending FireProjectileActions, oldest first. */
  var projectileBuffer: seq<Vec>

  ghost predicate Valid()
    reads this
  {
    State().Consistent()
  }

  /**
   * The state a new player starts in: standing still with nothing scored, no deaths and
   * a zero clock, in play with collisions on, no action buffered and every axis released
   * at rest.
   */
  predicate JustJoined()
    reads this
  {
    && direction == Vec(0.0, 0.0) && score == 0 && deaths == 0 && lastProjectile == 0.0
    && !defeated && collisionsEnabled && projectileBuffer == []
    && forall c :: c in controlState ==> controlState[c] == PlayerControl(false, 0.0)
  }

  constructor (id: string, name: string, position: Vec)
    ensures Valid() && JustJoined()
    ensures this.id == id && this.name == name && this.position == position
  {
    var controls: map<string, PlayerControl> := map[];
    var i := 0;
    while i < |CONTROL_NAMES|
      invariant 0 <= i <= |CONTROL_NAMES|
      invariant controls.Keys == set c | c in CONTROL_NAMES[..i]
      invariant forall c :: c in controls ==> controls[c] == PlayerControl(false, 0.0)
    {
      controls := controls[CONTROL_NAMES[i] := PlayerControl(false, 0.0).Reset()];
      i := i + 1;
    }
    assert CONTROL_NAMES[..i] == CONTROL_NAMES;
    assert controls.Keys == ControlNameSet();
    this.id := id;
    this.name := name;
    this.position := position;
    direction := Vec(0.0, 0.0);
    score := 0;
    deaths := 0;
    lastProjectile := 0.0;
    defeated := false;
    collisionsEnabled := true;
    controlState := controls;
    projectileBuffer := [];
  }

  /** Every mutable field, as a value. */
  function State(): PlayerState
    reads this
  {
    PlayerState(position, direction, score, deaths, lastProjectile, defeated, collisionsEnabled,
                controlState, projectileBuffer)
  }

  /** Player.Update. `fired` lists the targets handed to GameManager.SendProjectile. */
  method Update(timeDelta: real, now: real, norm: Vec -> Vec) returns (fired: seq<Vec>)
    modifies this
    ensures old(Valid()) ==> Valid()
    ensures State() == Tick(old(State()), timeDelta, now, norm)
    ensures fired == Shots(old(State()), timeDelta, now, norm)
  {
    ghost var s := State();
    ghost var t := Tick(s, timeDelta, now, norm);
    UpdateControls(timeDelta);
    UpdateMovement(timeDelta, norm);
    fired := CheckIfShouldFire(now);
    TickKeepsConsistent(s, timeDelta, now, norm);
  }

  /** The first loop of Player.Update: PlayerControl.Update on every axis. */
  method UpdateControls(timeDelta: real)
    modifies this`controlState
    ensures controlState == UpdatedControls(old(controlState), timeDelta)
    ensures State() == old(State()).(controlState := controlState)
  {
    var m: map<string, PlayerControl> := controlState;
    var keys := m.Keys;
    while keys != {}
      invariant keys <= m.Keys == controlState.Keys
      invariant forall c :: c in m ==>
        m[c] == if c in keys then controlState[c] else controlState[c].Update(timeDelta)
      decreases keys
    {
      var c :| c in keys;
      m := m[c := m[c].Update(timeDelta)];
      keys := keys - {c};
    }
    controlState := m;
  }

  /** Player.UpdateMovement: blend the speed, move along the heading, clamp to the arena. */
  method UpdateMovement(timeDelta: real, norm: Vec -> Vec)
    modifies this`position, this`direction
    ensures direction == MovementDirection(controlState, norm)
    ensures position == Moved(old(position), controlState, timeDelta, norm)
    ensures InPlayerBounds(position)
    ensures State() == old(State()).(direction := direction, position := position)
  {
    direction := MovementDirection(controlState, norm);
    position := Moved(position, controlState, timeDelta, norm);
  }

  /**
   * Player.CheckIfShouldFire with the clock reading `now`: fire the buffered action when
   * FireReady holds; a head aimed at the player's own position or a shot too soon after
   * the last one stays in the buffer.
   */
  method CheckIfShouldFire(now: real) returns (fired: seq<Vec>)
    modifies this`projectileBuffer, this`lastProjectile
    ensures fired == if FireReady(old(projectileBuffer), position, old(lastProjectile), now)
                     then [old(projectileBuffer)[0]] else []
    ensures projectileBuffer == old(projectileBuffer)[|fired|..]
    ensures lastProjectile == if fired == [] then old(lastProjectile) else now
    ensures State() == old(State()).(projectileBuffer := projectileBuffer, lastProjectile := lastProjectile)
  {
    fired := [];
    while |projectileBuffer| > 0
      invariant |fired| <= 1 && |fired| <= |old(projectileBuffer)|
      invariant fired == old(projectileBuffer)[..|fired|]
      invariant projectileBuffer == old(projectileBuffer)[|fired|..]
      invariant fired == [] ==> lastProjectile == old(lastProjectile)
      invariant fired != [] ==>
        (lastProjectile == now && FireReady(old(projectileBuffer), position, old(lastProjectile), now))
      decreases |projectileBuffer|
    {
      var target := projectileBuffer[0];
      if target == position {
        break;
      }
      if now - lastProjectile < FIRE_RATE {
        break;
      }
      projectileBuffer := projectileBuffer[1..];
      fired := fired + [target];
      lastProjectile := now;
    }
  }

  /** Player.TryFireProjectile: queue a shot unless defeated or the buffer is full. */
  method TryFireProjectile(target: Vec)
    modifies this`projectileBuffer
    ensures projectileBuffer ==
      if !defeated && |old(projectileBuffer)| < MAX_BUFFERED_ACTIONS
      then old(projectileBuffer) + [target] else old(projectileBuffer)
    ensures old(Valid()) ==> Valid()
  {
    if defeated {
      return;
    }
    if |projectileBuffer| < MAX_BUFFERED_ACTIONS {
      projectileBuffer := projectileBuffer + [target];
    }
  }

  /**
   * Player.SetInputs: unless defeated, set `pressed` of every axis named in `inputMap`;
   * other axes and every axis value stay as they were.
   */
  method SetInputs(inputMap: map<string, bool>)
    modifies this`controlState
    ensures old(Valid()) ==> Valid()
    ensures forall c :: c in controlState ==>
      controlState[c].value == old(controlState)[c].value
      && controlState[c].pressed == if !defeated && c in inputMap then inputMap[c] else old(controlState)[c].pressed
  {
    if defeated {
      return;
    }
    var m: map<string, PlayerControl> := controlState;
    var keys := m.Keys;
    while keys != {}
      invariant keys <= m.Keys == controlState.Keys
      invariant forall c :: c in m ==>
        m[c].value == controlState[c].value
        && m[c].pressed == if c !in keys && c in inputMap then inputMap[c] else controlState[c].pressed
      decreases keys
    {
      var c :| c in keys;
      if c in inputMap {
        m := m[c := m[c].(pressed := inputMap[c])];
      }
      keys := keys - {c};
    }
    controlState := m;
  }

  /** Player.Defeat: knocked out; every key is released but the axis values are kept. */
  method Defeat()
    modifies this`defeated, this`collisionsEnabled, this`deaths, this`controlState
    ensures old(Valid()) ==> Valid()
    ensures defeated && !collisionsEnabled && deaths == old(deaths) + 1
    ensures forall c :: c in controlState ==> controlState[c] == old(controlState)[c].(pressed := false)
  {
    defeated := true;
    collisionsEnabled := false;
    deaths := deaths + 1;
    ReleaseKeys();
  }

  /** The loop of Player.Defeat: clear `pressed` on every axis, in CONTROL_NAMES order. */
  method ReleaseKeys()
    modifies this`controlState
    ensures forall c :: c in controlState ==> controlState[c] == old(controlState)[c].(pressed := false)
  {
    var i := 0;
    while i < |CONTROL_NAMES|
      invariant 0 <= i <= |CONTROL_NAMES|
      invariant forall c :: c in controlState ==>
        controlState[c] == if c in CONTROL_NAMES[..i] then old(controlState)[c].(pressed := false) else old(controlState)[c]
    {
      var c := CONTROL_NAMES[i];
      assert CONTROL_NAMES[..i + 1] == CONTROL_NAMES[..i] + [c];
      controlState := controlState[c := controlState[c].(pressed := false)];
      i := i + 1;
    }
    assert CONTROL_NAMES[..i] == CONTROL_NAMES;
  }

  /** Player.Revive: back in play at `at`, with every axis reset. */
  method Revive(at: Vec)
    modifies this`defeated, this`collisionsEnabled, this`position, this`controlState
    ensures old(Valid()) ==> Valid()
    ensures !defeated && collisionsEnabled && position == at
    ensures forall c :: c in controlState ==> controlState[c] == PlayerControl(false, 0.0)
  {
    defeated := false;
    collisionsEnabled := true;
    position := at;
    ResetControls();
  }

  /** The loop of Player.Revive: PlayerControl.Reset on every axis, in CONTROL_NAMES order. */
  method ResetControls()
    modifies this`controlState
    ensures forall c :: c in controlState ==> controlState[c] == PlayerControl(false, 0.0)
  {
    var i := 0;
    while i < |CONTROL_NAMES|
      invariant 0 <= i <= |CONTROL_NAMES|
      invariant forall c :: c in controlState ==>
        controlState[c] == if c in CONTROL_NAMES[..i] then PlayerControl(false, 0.0) else old(controlState)[c]
    {
      var c := CONTROL_NAMES[i];
      assert CONTROL_NAMES[..i + 1] == CONTROL_NAMES[..i] + [c];
      controlState := controlState[c := controlState[c].Reset()];
      i := i + 1;
    }
    assert CONTROL_NAMES[..i] == CONTROL_NAMES;
  }

  /**
   * Player.Collide. Struck by a projectile another player fired: defeated, and the firer
   * scores. Touching another player: pushed out to Radius beyond the contact point.
   */
  method Collide(other: Entity, point: Vec, norm: Vec -> Vec)
    modifies this, other.Firers()`score
    ensures old(Valid()) ==> Valid()
    ensures other.ProjectileEntity? && other.projectile.firer != this ==>
      && defeated && !collisionsEnabled && deaths == old(deaths) + 1
      && other.projectile.firer.score == old(other.projectile.firer.score) + 1
      && position == old(position) && score == old(score)
      && (forall c :: c in controlState ==> controlState[c] == old(controlState)[c].(pressed := false))
    ensures other.ProjectileEntity? && other.projectile.firer == this ==> unchanged(this)
    ensures other.PlayerEntity? ==>
      && position == PushedTo(old(position), old(other.player.position), point, norm)
      && controlState == old(controlState) && score == old(score) && deaths == old(deaths)
      && defeated == old(defeated) && collisionsEnabled == old(collisionsEnabled)
    ensures collisionsEnabled ==> old(collisionsEnabled)
    ensures old(score) <= score && old(deaths) <= deaths
    ensures projectileBuffer == old(projectileBuffer) && lastProjectile == old(lastProjectile)
    ensures direction == old(direction)
  {
    match other
    case ProjectileEntity(projectile) =>
      if projectile.firer != this {
        Defeat();
        projectile.firer.score := projectile.firer.score + 1;
      }
    case PlayerEntity(player) =>
      if Pushes(position, player.position, point) {
        position := point.Plus(norm(point.Minus(player.position)).Scale(PLAYER_RADIUS));
      }
  }
}

/**
 * Where Player.Collide leaves a player at `self` that touches a player at `other` at
 * `point`: PLAYER_RADIUS beyond the contact point, away from the other player, when the
 * push condition holds, and where it was otherwise.
 */
function PushedTo(self: Vec, other: Vec, point: Vec, norm: Vec -> Vec): Vec
{
  if Pushes(self, other, point) then point.Plus(norm(point.Minus(other)).Scale(PLAYER_RADIUS)) else self
}

/**
 * The player-to-player push condition in Player.Collide: the centres are closer than
 * the two radii (Distance < r1 + r2, i.e. DistanceSquared < (r1 + r2)^2) and the other
 * player's centre is not the contact point.
 */
predicate Pushes(self: Vec, other: Vec, point: Vec)
{
  DistSq(self, other) < (PLAYER_RADIUS + PLAYER_RADIUS) * (PLAYER_RADIUS + PLAYER_RADIUS) && other != point
}

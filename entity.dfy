// Entity.cs: the two kinds of simulated object, as a closed variant over the two classes.

datatype Entity = PlayerEntity(player: Player) | ProjectileEntity(projectile: Projectile)
{
  /** The object behind the entity; List<Entity> compares entities by this reference. */
  function Obj(): object
  {
    match this
    case PlayerEntity(p) => p
    case ProjectileEntity(q) => q
  }

  function Radius(): real
  {
    match this
    case PlayerEntity(_) => PLAYER_RADIUS
    case ProjectileEntity(_) => PROJECTILE_RADIUS
  }

  function EntityType(): string
  {
    match this
    case PlayerEntity(_) => "Player"
    case ProjectileEntity(_) => "Projectile"
  }

  function Position(): Vec
    reads Obj()
  {
    match this
    case PlayerEntity(p) => p.position
    case ProjectileEntity(q) => q.position
  }

  /** Entity.CollisionsEnabled: a player's flag; a projectile keeps the interface default, true. */
  predicate CollisionsEnabled()
    reads (if PlayerEntity? then {player} else {})`collisionsEnabled
    ensures ProjectileEntity? ==> CollisionsEnabled()
    ensures PlayerEntity? ==> (CollisionsEnabled() <==> player.collisionsEnabled)
  {
    match this
    case PlayerEntity(p) => p.collisionsEnabled
    case ProjectileEntity(_) => true
  }

  /** Entity.ShouldDestroy: never for a player (Player.ShouldDestroy is false). */
  predicate ShouldDestroy()
    reads Obj()
    ensures PlayerEntity? ==> !ShouldDestroy()
    ensures ProjectileEntity? ==> (ShouldDestroy() <==> projectile.impacted || !InArena(projectile.position))
  {
    match this
    case PlayerEntity(_) => false
    case ProjectileEntity(q) => q.ShouldDestroy()
  }

  /** The players whose score a collision with this entity can raise. */
  function Firers(): set<Player>
  {
    match this
    case PlayerEntity(_) => {}
    case ProjectileEntity(q) => {q.firer}
  }

  /** A player entity keeps its class invariant; a projectile has none. */
  ghost predicate Sound()
    reads Obj()
  {
    PlayerEntity? ==> player.Valid()
  }

  /** The entity's mutable state, as a value. */
  function State(): EntityState
    reads Obj()
  {
    match this
    case PlayerEntity(p) => PlayerView(p.State())
    case ProjectileEntity(q) => ProjectileView(q.position, q.direction, q.impacted)
  }

  /** Entity.Update, dispatched on the variant. */
  method Update(timeDelta: real, now: real, norm: Vec -> Vec) returns (fired: seq<Vec>)
    modifies Obj()
    ensures old(Sound()) ==> Sound()
    ensures State() == Next(old(State()), timeDelta, now, norm)
    ensures fired == ShotsOf(old(State()), timeDelta, now, norm)
  {
    match this
    case PlayerEntity(p) =>
      fired := p.Update(timeDelta, now, norm);
    case ProjectileEntity(q) =>
      q.Update(timeDelta);
      fired := [];
  }

  /**
   * Entity.Collide, dispatched on the variant of the receiver. A player struck by a
   * projectile of another player ends up defeated; a projectile that touches a player
   * other than its firer ends up impacted. Nothing else defeats or impacts: a player's own
   * projectile leaves it as it was, another player only pushes it, and a projectile
   * touching its firer or another projectile keeps its impact as it was.
   */
  method Collide(other: Entity, point: Vec, norm: Vec -> Vec)
    modifies Obj(), (if PlayerEntity? then other.Firers() else {})`score
    ensures old(Sound()) ==> Sound()
    ensures Advances(old(State()), State())
    ensures forall e: Entity | old(allocated(e)) :: e.CollisionsEnabled() ==> old(e.CollisionsEnabled())
    ensures PlayerEntity? && other.ProjectileEntity? && other.projectile.firer != player ==>
      player.defeated && other.projectile.firer.score == old(other.projectile.firer.score) + 1
    ensures ProjectileEntity? && other.PlayerEntity? && other.player != projectile.firer ==> projectile.impacted
    ensures PlayerEntity? && other.PlayerEntity? ==>
      player.position == PushedTo(old(player.position), old(other.player.position), point, norm)
    ensures forall e: Entity | old(allocated(e)) :: Advances(old(e.State()), e.State())
    ensures forall p :: p in (if PlayerEntity? then other.Firers() else {}) ==> old(p.score) <= p.score
    ensures ProjectileEntity? ==>
      (projectile.impacted <==> old(projectile.impacted) || (other.PlayerEntity? && other.player != projectile.firer))
    ensures PlayerEntity? && other.ProjectileEntity? && other.projectile.firer == player ==> unchanged(player)
    ensures PlayerEntity? && other.PlayerEntity? ==> player.defeated == old(player.defeated)
    ensures PlayerEntity? && player.defeated && !old(player.defeated) ==> Strikes(other, this)
    ensures PlayerEntity? && other.ProjectileEntity? ==> player.position == old(player.position)
  {
    match this
    case PlayerEntity(p) =>
      p.Collide(other, point, norm);
      forall e: Entity | old(allocated(e))
        ensures Advances(old(e.State()), e.State())
      {
        if e.Obj() != p && e.PlayerEntity? {
          assert e.player.State() == old(e.player.State()).(score := e.player.score);
        }
      }
    case ProjectileEntity(q) =>
      q.Collide(other, point);
  }
}

/** The mutable state of an entity: a player's fields, or a projectile's. */
datatype EntityState =
  | PlayerView(state: PlayerState)
  | ProjectileView(position: Vec, direction: Vec, impacted: bool)
{
  predicate Enabled()
  {
    match this
    case PlayerView(s) => s.collisionsEnabled
    case ProjectileView(_, _, _) => true
  }

  /** The entity's centre. */
  function Pos(): Vec
  {
    match this
    case PlayerView(s) => s.position
    case ProjectileView(position, _, _) => position
  }

  /** A defeated player. */
  predicate Defeated()
  {
    PlayerView? && state.defeated
  }

  /** An impacted projectile. */
  predicate Impacted()
  {
    ProjectileView? && impacted
  }

  /** Entity.ShouldDestroy on the state: never a player; an impacted or escaped projectile. */
  predicate Destroyed()
  {
    match this
    case PlayerView(_) => false
    case ProjectileView(position, _, impacted) => impacted || !InArena(position)
  }
}

/** The state after one Entity.Update. */
function Next(s: EntityState, timeDelta: real, now: real, norm: Vec -> Vec): EntityState
{
  match s
  case PlayerView(p) => PlayerView(Tick(p, timeDelta, now, norm))
  case ProjectileView(position, direction, impacted) =>
    ProjectileView(Advanced(position, direction, timeDelta), direction, impacted)
}

/** The targets one Entity.Update fires: a projectile fires nothing. */
function ShotsOf(s: EntityState, timeDelta: real, now: real, norm: Vec -> Vec): seq<Vec>
{
  match s
  case PlayerView(p) => Shots(p, timeDelta, now, norm)
  case ProjectileView(_, _, _) => []
}

/**
 * What any collision may do to an entity. A player's score and deaths only count up,
 * and deaths only with a defeat; collisions can only be switched off, and only by a
 * defeat; a defeat stands; keys can only be released, every axis keeps its value, and
 * the heading, the fire clock and the fire buffer are untouched, so a player that kept
 * its invariant still keeps it. A projectile stays where it is and stays impacted once
 * impacted.
 */
predicate Advances(a: EntityState, b: EntityState)
{
  match a
  case PlayerView(s) =>
    && b.PlayerView?
    && s.score <= b.state.score && s.deaths <= b.state.deaths
    && (b.state.deaths != s.deaths ==> b.state.defeated)
    && (b.state.collisionsEnabled ==> s.collisionsEnabled)
    && (s.collisionsEnabled && !b.state.collisionsEnabled ==> b.state.defeated)
    && (s.defeated ==> b.state.defeated)
    && b.state.direction == s.direction
    && b.state.lastProjectile == s.lastProjectile
    && b.state.projectileBuffer == s.projectileBuffer
    && (forall c :: c in s.controlState ==>
          && c in b.state.controlState
          && b.state.controlState[c].value == s.controlState[c].value
          && (b.state.controlState[c].pressed ==> s.controlState[c].pressed))
    && (s.Consistent() ==> b.state.Consistent())
  case ProjectileView(position, direction, impacted) =>
    && b.ProjectileView?
    && b.position == position && b.direction == direction
    && (impacted ==> b.impacted)
}

/** Advances is a preorder, so any number of collisions advance an entity. */
lemma AdvancesTransitive(a: EntityState, b: EntityState, c: EntityState)
  requires Advances(a, b) && Advances(b, c)
  ensures Advances(a, c)
{
}

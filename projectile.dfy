// Projectile.cs: a shot travelling in a straight line until it leaves the arena or hits.

const PROJECTILE_SPEED: real := 12.0
const PROJECTILE_RADIUS: real := 0.01

/** The closed arena [0, PLAY_AREA_SIZE.x] x [0, PLAY_AREA_SIZE.y]. */
predicate InArena(p: Vec)
{
  0.0 <= p.x <= PLAY_AREA_SIZE.x && 0.0 <= p.y <= PLAY_AREA_SIZE.y
}

/** Where Projectile.Update moves a projectile at `position` heading along `direction`. */
function Advanced(position: Vec, direction: Vec, timeDelta: real): Vec
{
  position.Plus(direction.Scale(timeDelta).Scale(PROJECTILE_SPEED))
}

class Projectile {
  /** The player that fired this projectile; fixed at construction. */
  const firer: Player
  var position: Vec
  const direction: Vec
  var impacted: bool

  /** new Projectile(firer, position, direction): `direction` is normalised with `norm`. */
  constructor (firer: Player, position: Vec, direction: Vec, norm: Vec -> Vec)
    ensures this.firer == firer && this.position == position
    ensures this.direction == norm(direction) && !impacted
  {
    this.firer := firer;
    this.position := position;
    this.direction := norm(direction);
    impacted := false;
  }

  /** Projectile.Update: move SPEED units per second along the fixed direction. */
  method Update(timeDelta: real)
    modifies this`position
    ensures position == Advanced(old(position), direction, timeDelta)
  {
    position := position.Plus(direction.Scale(timeDelta).Scale(PROJECTILE_SPEED));
  }

  /**
   * Projectile.ShouldDestroy: impacted, or outside the closed arena, so a projectile
   * exactly on the boundary survives.
   */
  predicate ShouldDestroy()
    reads this`impacted, this`position
    ensures ShouldDestroy() <==> impacted || !InArena(position)
  {
    impacted
    || position.x < 0.0
    || position.y < 0.0
    || position.x > PLAY_AREA_SIZE.x
    || position.y > PLAY_AREA_SIZE.y
  }

  /** Projectile.Collide: only a player other than the firer marks the projectile impacted. */
  method Collide(other: Entity, point: Vec)
    modifies this`impacted
    ensures impacted == (old(impacted) || (other.PlayerEntity? && other.player != firer))
  {
    if other.PlayerEntity? && other.player != firer {
      impacted := true;
    }
  }
}

/**
 * A projectile fired from the left wall at height 5 heading along +X leaves the arena,
 * and is removed by the next sweep, exactly when it has flown more than 10 units.
 */
lemma ExitThroughRightWall(timeDelta: real)
  requires 0.0 <= timeDelta
  ensures !InArena(Advanced(Vec(0.0, 5.0), Vec(1.0, 0.0), timeDelta))
          <==> timeDelta * PROJECTILE_SPEED > PLAY_AREA_SIZE.x
{
}

// Plane geometry over reals: the part of System.Numerics.Vector2 that the game uses,
// plus the arena constant and Math.Clamp. Normalisation needs a square root, so every
// operation that normalises takes the normaliser as a parameter `norm: Vec -> Vec`.

datatype Vec = Vec(x: real, y: real)
{
  function Plus(o: Vec): Vec { Vec(x + o.x, y + o.y) }
  function Minus(o: Vec): Vec { Vec(x - o.x, y - o.y) }
  function Scale(k: real): Vec { Vec(x * k, y * k) }
  function LengthSq(): real { x * x + y * y }
}

/** Vector2.DistanceSquared */
function DistSq(a: Vec, b: Vec): real
{
  a.Minus(b).LengthSq()
}

/** GameManager.PLAY_AREA_SIZE: the arena is the square [0, 10] x [0, 10]. */
const PLAY_AREA_SIZE: Vec := Vec(10.0, 10.0)

/** Math.Clamp(v, lo, hi) for lo <= hi: the point of [lo, hi] nearest to v. */
function Clamp(v: real, lo: real, hi: real): (r: real)
  requires lo <= hi
  ensures lo <= r <= hi
  ensures lo <= v <= hi ==> r == v
  ensures v < lo ==> r == lo
  ensures hi < v ==> r == hi
{
  if v < lo then lo else if v > hi then hi else v
}

/**
 * GameManager.GetSpawnPosition, with the two draws of Random.NextDouble passed in:
 * each coordinate is r * (size - 2) + 1, so a spawn point keeps one unit from every wall.
 */
function SpawnPosition(rx: real, ry: real): (p: Vec)
  requires 0.0 <= rx < 1.0 && 0.0 <= ry < 1.0
  ensures 1.0 <= p.x < PLAY_AREA_SIZE.x - 1.0
  ensures 1.0 <= p.y < PLAY_AREA_SIZE.y - 1.0
{
  Vec(rx * (PLAY_AREA_SIZE.x - 2.0) + 1.0, ry * (PLAY_AREA_SIZE.y - 2.0) + 1.0)
}

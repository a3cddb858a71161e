// The value-level account of one GameManager.SimulationStep: what the update phase fires,
// and the log of the pairs the collision scan visits.

/** The states of a list of entities, in list order. */
function States(es: seq<Entity>): (r: seq<EntityState>)
  reads ObjectsOf(es)
  ensures |r| == |es| && forall k {:trigger r[k]} :: 0 <= k < |es| ==> r[k] == es[k].State()
{
  if es == [] then []
  else
    assert ObjectsOf(es[..|es| - 1]) <= ObjectsOf(es);
    States(es[..|es| - 1]) + [es[|es| - 1].State()]
}

/** The state of an entity records whether its collisions are enabled. */
lemma StatesEnabled(es: seq<Entity>)
  ensures forall k :: 0 <= k < |es| ==> (States(es)[k].Enabled() <==> es[k].CollisionsEnabled())
{
}

/**
 * The shots one Entity.Update hands to GameManager.SendProjectile: a player fires from
 * where its movement left it, at the target at the head of its buffer.
 */
function LaunchesOf(e: Entity, s: EntityState, timeDelta: real, now: real, norm: Vec -> Vec): (r: seq<Launch>)
  ensures |r| <= 1
  ensures forall l :: l in r ==> e.PlayerEntity? && l.firer == e.player
  ensures s.PlayerView? && e.PlayerEntity? && FireReady(s.state.projectileBuffer, Tick(s.state, timeDelta, now, norm).position, s.state.lastProjectile, now)
          ==> r == [Launch(e.player, Tick(s.state, timeDelta, now, norm).position, s.state.projectileBuffer[0])]
{
  var targets := ShotsOf(s, timeDelta, now, norm);
  if e.PlayerEntity? && s.PlayerView? && targets != [] then
    [Launch(e.player, Tick(s.state, timeDelta, now, norm).position, targets[0])]
  else []
}

/** The shots of the update phase over `es`, whose states before the phase are `states`. */
function Fired(es: seq<Entity>, states: seq<EntityState>, timeDelta: real, now: real, norm: Vec -> Vec): seq<Launch>
  requires |es| == |states|
{
  if es == [] then []
  else
    Fired(es[..|es| - 1], states[..|es| - 1], timeDelta, now, norm)
    + LaunchesOf(es[|es| - 1], states[|es| - 1], timeDelta, now, norm)
}

/** The shots of the first k + 1 entities: those of the first k, then those of entity k. */
lemma FiredSnoc(es: seq<Entity>, states: seq<EntityState>, k: nat, timeDelta: real, now: real, norm: Vec -> Vec)
  requires |es| == |states| && k < |es|
  ensures Fired(es[..k + 1], states[..k + 1], timeDelta, now, norm)
       == Fired(es[..k], states[..k], timeDelta, now, norm) + LaunchesOf(es[k], states[k], timeDelta, now, norm)
{
  assert es[..k + 1][..k] == es[..k] && states[..k + 1][..k] == states[..k];
}

/**
 * Only players fire, each at most once per update phase: every shot's firer is a player
 * of the list, and there are no more shots than entities.
 */
lemma {:induction false} FiredByListedPlayers(es: seq<Entity>, states: seq<EntityState>, timeDelta: real, now: real, norm: Vec -> Vec)
  requires |es| == |states|
  ensures |Fired(es, states, timeDelta, now, norm)| <= |es|
  ensures forall l :: l in Fired(es, states, timeDelta, now, norm) ==> PlayerEntity(l.firer) in es
{
  if es != [] {
    var n := |es| - 1;
    FiredByListedPlayers(es[..n], states[..n], timeDelta, now, norm);
    assert es == es[..n] + [es[n]];
  }
}

/**
 * Every shot of the update phase leaves from where its firer's update left it: once each
 * entity is in the state Next gives it, every shot's origin is its firer's position.
 */
lemma {:induction false} FiredFromNewPositions(es: seq<Entity>, states: seq<EntityState>, timeDelta: real, now: real, norm: Vec -> Vec)
  requires |es| == |states|
  requires forall k :: 0 <= k < |es| ==> es[k].State() == Next(states[k], timeDelta, now, norm)
  ensures forall l :: l in Fired(es, states, timeDelta, now, norm) ==> l.firer.position == l.origin
{
  if es != [] {
    var n := |es| - 1;
    FiredFromNewPositions(es[..n], states[..n], timeDelta, now, norm);
    forall l | l in LaunchesOf(es[n], states[n], timeDelta, now, norm)
      ensures l.firer.position == l.origin
    {
      assert es[n].State() == Next(states[n], timeDelta, now, norm);
    }
  }
}

/**
 * What one Entity.Update leaves alone: the kind of entity; a player's score, deaths,
 * defeat and collisions flag, with its buffer only shrinking and its centre inside the
 * player bounds; a projectile's direction and impacted flag.
 */
predicate UpdateKeeps(a: EntityState, b: EntityState)
{
  match a
  case PlayerView(s) =>
    && b.PlayerView?
    && b.state.score == s.score && b.state.deaths == s.deaths
    && b.state.defeated == s.defeated && b.state.collisionsEnabled == s.collisionsEnabled
    && |b.state.projectileBuffer| <= |s.projectileBuffer|
    && InPlayerBounds(b.state.position)
  case ProjectileView(_, direction, impacted) =>
    b.ProjectileView? && b.direction == direction && b.impacted == impacted
}

/** The states after one Entity.Update of each entity, in list order. */
function Steps(states: seq<EntityState>, timeDelta: real, now: real, norm: Vec -> Vec): (r: seq<EntityState>)
  ensures |r| == |states|
  ensures forall k :: 0 <= k < |states| ==> r[k] == Next(states[k], timeDelta, now, norm)
  ensures forall k :: 0 <= k < |states| ==> UpdateKeeps(states[k], r[k])
  ensures forall k :: 0 <= k < |states| ==> (r[k].Enabled() <==> states[k].Enabled())
{
  seq(|states|, k requires 0 <= k < |states| => Next(states[k], timeDelta, now, norm))
}

/**
 * Once every entity of a list has taken its Next step, the list's states are the Steps
 * of the old ones, and every shot Fired over the old states leaves from its firer's new
 * position, fired by a player of the list.
 */
lemma Stepped(es: seq<Entity>, states: seq<EntityState>, timeDelta: real, now: real, norm: Vec -> Vec)
  requires |es| == |states|
  requires forall k :: 0 <= k < |es| ==> es[k].State() == Next(states[k], timeDelta, now, norm)
  ensures States(es) == Steps(states, timeDelta, now, norm)
  ensures forall l :: l in Fired(es, states, timeDelta, now, norm) ==> l.firer.position == l.origin && PlayerEntity(l.firer) in es
{
  assert States(es) == Steps(states, timeDelta, now, norm);
  FiredFromNewPositions(es, states, timeDelta, now, norm);
  FiredByListedPlayers(es, states, timeDelta, now, norm);
}

/**
 * The destroy sweep on values: the entities of `es` whose state in `states` does not ask
 * to be destroyed, in their order.
 */
function Swept(es: seq<Entity>, states: seq<EntityState>): (r: seq<Entity>)
  requires |es| == |states|
  ensures multiset(r) <= multiset(es)
  ensures forall k :: 0 <= k < |es| && !states[k].Destroyed() ==> es[k] in r
{
  if es == [] then []
  else
    assert es == [es[0]] + es[1..];
    var rest := Swept(es[1..], states[1..]);
    assert forall k :: 1 <= k < |es| ==> es[k] == es[1..][k - 1];
    (if states[0].Destroyed() then [] else [es[0]]) + rest
}

/** List.RemoveAll over the live heap is the value-level sweep over the entities' states. */
lemma {:induction false} SurvivorsAreSwept(es: seq<Entity>, states: seq<EntityState>)
  requires |es| == |states|
  requires forall k :: 0 <= k < |es| ==> states[k] == es[k].State()
  ensures Survivors(es) == Swept(es, states)
{
  if es != [] {
    SurvivorsAreSwept(es[1..], states[1..]);
    assert es[0].ShouldDestroy() <==> states[0].Destroyed();
  }
}

/** `shots` carry out `launches`, one fresh projectile per launch, in order. */
ghost predicate Staged(shots: seq<Entity>, launches: seq<Launch>, norm: Vec -> Vec)
  reads ObjectsOf(shots)
{
  |shots| == |launches| && forall i :: 0 <= i < |shots| ==> Launched(shots[i], launches[i], norm)
}

/** One more SendProjectile call extends the staged shots by the launch it carries out. */
lemma StagedSnoc(shots: seq<Entity>, launches: seq<Launch>, shot: Entity, launch: Launch, norm: Vec -> Vec)
  requires Staged(shots, launches, norm) && Launched(shot, launch, norm)
  ensures Staged(shots + [shot], launches + [launch], norm)
{
}

/** The squared overlap bound of the collision scan: (r1 + r2)^2. */
function ReachSq(r1: real, r2: real): real
{
  (r1 + r2) * (r1 + r2)
}

/** The strict overlap test of the collision scan, on squared distances. */
predicate Overlaps(p1: Vec, p2: Vec, r1: real, r2: real)
{
  DistSq(p1, p2) < ReachSq(r1, r2)
}

/**
 * The contact point of two overlapping entities: the first centre when the centres
 * coincide, otherwise the midpoint of the two surface points facing each other along
 * the normalised centre-to-centre direction.
 */
function ContactPoint(p1: Vec, p2: Vec, r1: real, r2: real, norm: Vec -> Vec): (c: Vec)
  ensures p1 == p2 ==> c == p1
  ensures r1 == r2 ==> c == p1.Plus(p2).Scale(0.5)
{
  if p1 == p2 then p1
  else
    var delta := norm(p2.Minus(p1));
    var a := p1.Plus(delta.Scale(r1));
    var b := p2.Minus(delta.Scale(r2));
    a.Plus(b).Scale(0.5)
}

/**
 * One pair examined by the collision scan: the list positions of entity1 and entity2,
 * their states when examined, whether they overlapped, and the point both were told.
 */
datatype Visit = Visit(first: nat, second: nat, s1: EntityState, s2: EntityState, hit: bool, point: Vec)

/**
 * `shot` is a projectile that can strike `target`: `target` is a player other than the
 * one that fired `shot`.
 */
predicate Strikes(shot: Entity, target: Entity)
{
  shot.ProjectileEntity? && target.PlayerEntity? && shot.projectile.firer != target.player
}

/**
 * What a hit of the scan leaves behind in `states`, the states of the scanned entities
 * `es`: a player struck by another player's projectile is defeated, and that projectile
 * is impacted.
 */
predicate Landed(v: Visit, es: seq<Entity>, states: seq<EntityState>)
{
  v.hit && v.first < |es| && v.second < |es| && |states| == |es| ==>
    && (Strikes(es[v.second], es[v.first]) ==> states[v.first].Defeated() && states[v.second].Impacted())
    && (Strikes(es[v.first], es[v.second]) ==> states[v.second].Defeated() && states[v.first].Impacted())
}

/**
 * A hit of `v` is what left entity `m` defeated: `m` is one of the pair, and the other
 * is a projectile of another player.
 */
predicate DefeatedBy(v: Visit, es: seq<Entity>, m: nat)
{
  && v.hit && v.first < |es| && v.second < |es| && m < |es|
  && ((es[v.first] == es[m] && Strikes(es[v.second], es[m])) || (es[v.second] == es[m] && Strikes(es[v.first], es[m])))
}

/**
 * A hit of `v` is what left entity `m` impacted: `m` is one of the pair, a projectile,
 * and the other is a player other than its firer.
 */
predicate ImpactedBy(v: Visit, es: seq<Entity>, m: nat)
{
  && v.hit && v.first < |es| && v.second < |es| && m < |es|
  && ((es[v.first] == es[m] && Strikes(es[m], es[v.second])) || (es[v.second] == es[m] && Strikes(es[m], es[v.first])))
}

/**
 * A hit of `v` is what may have moved entity `m`: `m` is one of the pair and both are
 * players, which Player.Collide pushes apart.
 */
predicate MovedBy(v: Visit, es: seq<Entity>, m: nat)
{
  && v.hit && v.first < |es| && v.second < |es| && m < |es|
  && es[v.first].PlayerEntity? && es[v.second].PlayerEntity?
  && (es[v.first] == es[m] || es[v.second] == es[m])
}

/**
 * Every defeat and every impact that appears on the way from `a` to `b` comes from a
 * hit of the log `vs` in which a projectile struck a player other than its firer, and
 * every centre that moves was moved by a hit of the log between two players.
 */
ghost predicate Caused(vs: seq<Visit>, es: seq<Entity>, a: seq<EntityState>, b: seq<EntityState>)
{
  forall m :: 0 <= m < |es| && m < |a| && m < |b| ==>
    && (b[m].Defeated() && !a[m].Defeated() ==> exists v :: v in vs && DefeatedBy(v, es, m))
    && (b[m].Impacted() && !a[m].Impacted() ==> exists v :: v in vs && ImpactedBy(v, es, m))
    && (b[m].Pos() != a[m].Pos() ==> exists v :: v in vs && MovedBy(v, es, m))
}

/** The defeats and impacts of two stretches of collisions are explained by their two logs. */
lemma CausedAppend(vs: seq<Visit>, ws: seq<Visit>, es: seq<Entity>, a: seq<EntityState>, b: seq<EntityState>, c: seq<EntityState>)
  requires |a| == |b| == |c| == |es|
  requires Caused(vs, es, a, b) && Caused(ws, es, b, c)
  ensures Caused(vs + ws, es, a, c)
{
  forall m | 0 <= m < |es| && c[m].Defeated() && !a[m].Defeated()
    ensures exists v :: v in vs + ws && DefeatedBy(v, es, m)
  {
    if b[m].Defeated() {
      var v :| v in vs && DefeatedBy(v, es, m);
      assert v in vs + ws;
    } else {
      var v :| v in ws && DefeatedBy(v, es, m);
      assert v in vs + ws;
    }
  }
  forall m | 0 <= m < |es| && c[m].Impacted() && !a[m].Impacted()
    ensures exists v :: v in vs + ws && ImpactedBy(v, es, m)
  {
    if b[m].Impacted() {
      var v :| v in vs && ImpactedBy(v, es, m);
      assert v in vs + ws;
    } else {
      var v :| v in ws && ImpactedBy(v, es, m);
      assert v in vs + ws;
    }
  }
  forall m | 0 <= m < |es| && c[m].Pos() != a[m].Pos()
    ensures exists v :: v in vs + ws && MovedBy(v, es, m)
  {
    if b[m].Pos() != a[m].Pos() {
      var v :| v in vs && MovedBy(v, es, m);
      assert v in vs + ws;
    } else {
      var v :| v in ws && MovedBy(v, es, m);
      assert v in vs + ws;
    }
  }
}

/**
 * Visit `v` saw each of its entities at its centre in `a`, unless a hit of the log `vs`
 * between two players moved that entity.
 */
ghost predicate SeenFrom(v: Visit, vs: seq<Visit>, es: seq<Entity>, a: seq<EntityState>)
{
  && v.first < |a| && v.second < |a|
  && (v.s1.Pos() != a[v.first].Pos() ==> exists w :: w in vs && MovedBy(w, es, v.first))
  && (v.s2.Pos() != a[v.second].Pos() ==> exists w :: w in vs && MovedBy(w, es, v.second))
}

/** A longer log still accounts for every centre a visit saw. */
lemma SeenGrows(row: seq<Visit>, vs: seq<Visit>, ws: seq<Visit>, es: seq<Entity>, a: seq<EntityState>)
  requires forall v :: v in row ==> SeenFrom(v, vs, es, a)
  ensures forall v :: v in row ==> SeenFrom(v, vs + ws, es, a)
{
  forall v | v in row
    ensures SeenFrom(v, vs + ws, es, a)
  {
    if v.s1.Pos() != a[v.first].Pos() {
      var w :| w in vs && MovedBy(w, es, v.first);
      assert w in vs + ws;
    }
    if v.s2.Pos() != a[v.second].Pos() {
      var w :| w in vs && MovedBy(w, es, v.second);
      assert w in vs + ws;
    }
  }
}

/**
 * Visits that saw their entities where they were in `b`, or where a hit of `ws` moved
 * them, saw them where they were in `a`, or where a hit of `vs + ws` moved them, when the
 * collisions from `a` to `b` are those of the log `vs`.
 */
lemma SeenThrough(vs: seq<Visit>, ws: seq<Visit>, row: seq<Visit>, es: seq<Entity>, a: seq<EntityState>, b: seq<EntityState>)
  requires |a| == |b| == |es|
  requires Caused(vs, es, a, b)
  requires forall v :: v in row ==> SeenFrom(v, ws, es, b)
  ensures forall v :: v in row ==> SeenFrom(v, vs + ws, es, a)
{
  forall v | v in row
    ensures SeenFrom(v, vs + ws, es, a)
  {
    if v.s1.Pos() != a[v.first].Pos() {
      if v.s1.Pos() != b[v.first].Pos() {
        var w :| w in ws && MovedBy(w, es, v.first);
        assert w in vs + ws;
      } else {
        var w :| w in vs && MovedBy(w, es, v.first);
        assert w in vs + ws;
      }
    }
    if v.s2.Pos() != a[v.second].Pos() {
      if v.s2.Pos() != b[v.second].Pos() {
        var w :| w in ws && MovedBy(w, es, v.second);
        assert w in vs + ws;
      } else {
        var w :| w in vs && MovedBy(w, es, v.second);
        assert w in vs + ws;
      }
    }
  }
}

/**
 * Visit `v` saw each of its entities in a state between its state in `a` and its state
 * in `b`: the pair was examined where the collisions from `a` to `b` had taken them.
 */
predicate SawBetween(v: Visit, a: seq<EntityState>, b: seq<EntityState>)
{
  && v.first < |a| && v.second < |a| && |a| == |b|
  && Advances(a[v.first], v.s1) && Advances(v.s1, b[v.first])
  && Advances(a[v.second], v.s2) && Advances(v.s2, b[v.second])
}

/** Further collisions keep every earlier visit between the start and the new states. */
lemma SawBetweenPersists(vs: seq<Visit>, a: seq<EntityState>, b: seq<EntityState>, c: seq<EntityState>)
  requires Progressed(b, c)
  requires forall v :: v in vs ==> SawBetween(v, a, b)
  ensures forall v :: v in vs ==> SawBetween(v, a, c)
{
  forall v | v in vs
    ensures SawBetween(v, a, c)
  {
    AdvancesTransitive(v.s1, b[v.first], c[v.first]);
    AdvancesTransitive(v.s2, b[v.second], c[v.second]);
  }
}

/** Earlier collisions keep every later visit between the earlier start and the end. */
lemma SawBetweenFrom(vs: seq<Visit>, a: seq<EntityState>, b: seq<EntityState>, c: seq<EntityState>)
  requires Progressed(a, b)
  requires forall v :: v in vs ==> SawBetween(v, b, c)
  ensures forall v :: v in vs ==> SawBetween(v, a, c)
{
  forall v | v in vs
    ensures SawBetween(v, a, c)
  {
    AdvancesTransitive(a[v.first], b[v.first], v.s1);
    AdvancesTransitive(a[v.second], b[v.second], v.s2);
  }
}

/** Entity by entity, `b` is where collisions can take the states `a`. */
predicate Progressed(a: seq<EntityState>, b: seq<EntityState>)
{
  |a| == |b| && forall m :: 0 <= m < |a| ==> Advances(a[m], b[m])
}

/** Collisions one after another: Progressed chains. */
lemma ProgressedTransitive(a: seq<EntityState>, b: seq<EntityState>, c: seq<EntityState>)
  requires Progressed(a, b) && Progressed(b, c)
  ensures Progressed(a, c)
{
  forall m | 0 <= m < |a|
    ensures Advances(a[m], c[m])
  {
    AdvancesTransitive(a[m], b[m], c[m]);
  }
}

/** Later collisions undo no defeat and no impact: what hits left behind stays. */
lemma LandedPersists(vs: seq<Visit>, es: seq<Entity>, a: seq<EntityState>, b: seq<EntityState>)
  requires Progressed(a, b)
  requires forall v :: v in vs ==> Landed(v, es, a)
  ensures forall v :: v in vs ==> Landed(v, es, b)
{
}

/** Visit `a` comes strictly before visit `b` in the scan's lexicographic pair order. */
predicate Before(a: Visit, b: Visit)
{
  a.first < b.first || (a.first == b.first && a.second < b.second)
}

/** Each visit pairs an earlier entity with a later one, and the log is in scan order. */
predicate Ordered(vs: seq<Visit>)
{
  && (forall a :: 0 <= a < |vs| ==> vs[a].first < vs[a].second)
  && (forall a :: 0 <= a < |vs| - 1 ==> Before(vs[a], vs[a + 1]))
}

/** Appending the row of first entity `i` to the log of the earlier rows keeps it in scan order. */
lemma OrderedAppend(vs: seq<Visit>, row: seq<Visit>, i: nat)
  requires Ordered(vs) && forall a :: 0 <= a < |vs| ==> vs[a].first < i
  requires forall a :: 0 <= a < |row| ==> row[a].first == i < row[a].second
  requires forall a :: 0 <= a < |row| - 1 ==> row[a].second < row[a + 1].second
  ensures Ordered(vs + row)
{
}

/** An ordered log names no pair twice: each unordered pair is examined at most once. */
lemma {:induction false} OrderedVisitsOnce(vs: seq<Visit>, a: nat, b: nat)
  requires Ordered(vs) && a < b < |vs|
  ensures Before(vs[a], vs[b])
  ensures {vs[a].first, vs[a].second} != {vs[b].first, vs[b].second}
  decreases b - a
{
  if a + 1 < b {
    OrderedVisitsOnce(vs, a + 1, b);
  }
  var (x, y) := (vs[a], vs[b]);
  assert x.first < x.second && y.first < y.second;
  assert x.first in {x.first, x.second} && y.first in {y.first, y.second};
}

/** The log holds a visit of the pair (a, b). */
ghost predicate Visited(vs: seq<Visit>, a: nat, b: nat)
{
  exists v :: v in vs && v.first == a && v.second == b
}

/**
 * The inner loop of the scan for entity1 at `i`, with entity2 about to reach `j`: `row`
 * visits earlier entity2s in list order, each sound, enabled at the start (`start`) and
 * seen in states between `start` and `cur`, at the centres of `start` unless a hit of the
 * row moved them; every entity2 before `j` still enabled in `cur` was visited; the states
 * went from `start` to `cur` by collisions, every hit so far has landed in `cur`, and
 * every defeat, impact or move since `start` comes from a hit.
 */
ghost predicate Row(row: seq<Visit>, es: seq<Entity>, start: seq<EntityState>, cur: seq<EntityState>, i: nat, j: nat, norm: Vec -> Vec)
{
  && |start| == |es| && i < j <= |es| && Progressed(start, cur)
  && (forall v :: v in row ==>
       && v.first == i && i < v.second < j
       && VisitSound(v, es[i].Radius(), es[v.second].Radius(), norm) && SawBetween(v, start, cur)
       && start[v.second].Enabled() && Landed(v, es, cur))
  && Caused(row, es, start, cur)
  && (forall v :: v in row ==> SeenFrom(v, row, es, start))
  && (forall a :: 0 <= a < |row| - 1 ==> row[a].second < row[a + 1].second)
  && (forall b :: i < b < j && cur[b].Enabled() ==> Visited(row, i, b))
}

/**
 * One turn of the inner loop: the pair (i, j) is visited exactly when entity2 was
 * enabled as it was reached, in the states it was reached in, and the collisions it
 * caused only advance the states.
 */
lemma RowStep(row: seq<Visit>, visit: seq<Visit>, es: seq<Entity>, start: seq<EntityState>,
              pre: seq<EntityState>, post: seq<EntityState>, i: nat, j: nat, norm: Vec -> Vec)
  requires Row(row, es, start, pre, i, j, norm) && j < |es|
  requires Progressed(pre, post)
  requires |visit| <= 1 && (visit != [] <==> pre[j].Enabled())
  requires forall v :: v in visit ==>
    && v.first == i && v.second == j && v.s1 == pre[i] && v.s2 == pre[j]
    && VisitSound(v, es[i].Radius(), es[j].Radius(), norm) && Landed(v, es, post)
  requires Caused(visit, es, pre, post)
  ensures Row(row + visit, es, start, post, i, j + 1, norm)
{
  ProgressedTransitive(start, pre, post);
  RowVisits(row, visit, es, start, pre, post, i, j, norm);
  RowCovers(row, visit, pre, post, i, j);
  RowSeen(row, visit, es, start, pre, i, j);
  CausedAppend(row, visit, es, start, pre, post);
  if visit != [] && row != [] {
    assert row[|row| - 1] in row;
  }
}

/** The visits of a row stay sound and landed, and seen between the start and the new states. */
lemma RowVisits(row: seq<Visit>, visit: seq<Visit>, es: seq<Entity>, start: seq<EntityState>,
                pre: seq<EntityState>, post: seq<EntityState>, i: nat, j: nat, norm: Vec -> Vec)
  requires |start| == |es| && i < j < |es|
  requires Progressed(start, pre) && Progressed(pre, post)
  requires forall v :: v in row ==>
    && v.first == i && i < v.second < j
    && VisitSound(v, es[i].Radius(), es[v.second].Radius(), norm) && SawBetween(v, start, pre)
    && start[v.second].Enabled() && Landed(v, es, pre)
  requires forall v :: v in visit ==>
    && v.first == i && v.second == j && v.s1 == pre[i] && v.s2 == pre[j] && pre[j].Enabled()
    && VisitSound(v, es[i].Radius(), es[j].Radius(), norm) && Landed(v, es, post)
  ensures forall v :: v in row + visit ==>
    && v.first == i && i < v.second < j + 1
    && VisitSound(v, es[i].Radius(), es[v.second].Radius(), norm) && SawBetween(v, start, post)
    && start[v.second].Enabled() && Landed(v, es, post)
{
  LandedPersists(row, es, pre, post);
  SawBetweenPersists(row, start, pre, post);
  forall v | v in visit
    ensures SawBetween(v, start, post) && start[j].Enabled()
  {
    assert Advances(start[i], pre[i]) && Advances(pre[i], post[i]);
    assert Advances(start[j], pre[j]) && Advances(pre[j], post[j]);
  }
}

/**
 * The visit of a turn sees both entities where the row's collisions left them, so every
 * visit of the row saw its entities at their start centres unless the row moved them.
 */
lemma RowSeen(row: seq<Visit>, visit: seq<Visit>, es: seq<Entity>, start: seq<EntityState>,
              pre: seq<EntityState>, i: nat, j: nat)
  requires |start| == |pre| == |es| && i < |es| && j < |es|
  requires Caused(row, es, start, pre)
  requires forall v :: v in row ==> SeenFrom(v, row, es, start)
  requires forall v :: v in visit ==> v.first == i && v.second == j && v.s1 == pre[i] && v.s2 == pre[j]
  ensures forall v :: v in row + visit ==> SeenFrom(v, row + visit, es, start)
{
  SeenGrows(row, row, visit, es, start);
  assert forall v :: v in visit ==> SeenFrom(v, [], es, pre);
  SeenThrough(row, [], visit, es, start, pre);
  assert row + [] == row;
  SeenGrows(visit, row, visit, es, start);
}

/** Every entity2 up to `j` still enabled after the turn has been visited. */
lemma RowCovers(row: seq<Visit>, visit: seq<Visit>, pre: seq<EntityState>, post: seq<EntityState>, i: nat, j: nat)
  requires j < |pre| && Progressed(pre, post)
  requires forall b :: i < b < j && pre[b].Enabled() ==> Visited(row, i, b)
  requires |visit| <= 1 && (visit != [] <==> pre[j].Enabled())
  requires forall v :: v in visit ==> v.first == i && v.second == j
  ensures forall b :: i < b < j + 1 && post[b].Enabled() ==> Visited(row + visit, i, b)
{
  forall b | i < b < j + 1 && post[b].Enabled()
    ensures Visited(row + visit, i, b)
  {
    assert Advances(pre[b], post[b]);
    if b < j {
      var w :| w in row && w.first == i && w.second == b;
      assert w in row + visit;
    } else {
      assert visit[0] in row + visit;
    }
  }
}

/**
 * The outer loop of the scan, with entity1 about to reach `i`: `visits` is in scan order,
 * each visit sound, between entities enabled at the start (`start`) and seen in states
 * between `start` and `cur`, at the centres of `start` unless a hit of the log moved
 * them, with entity1 before `i`; every pair whose entity1 is before `i` and whose
 * entities are both still enabled in `cur` was visited; the states went from `start` to
 * `cur` by collisions, every hit so far has landed in `cur`, and every defeat, impact or
 * move since `start` comes from a hit.
 */
ghost predicate Scanned(visits: seq<Visit>, es: seq<Entity>, start: seq<EntityState>, cur: seq<EntityState>, i: nat, norm: Vec -> Vec)
{
  && |start| == |es| && i <= |es| && Progressed(start, cur)
  && Ordered(visits)
  && (forall v :: v in visits ==>
       && v.first < i && v.second < |es|
       && VisitSound(v, es[v.first].Radius(), es[v.second].Radius(), norm) && SawBetween(v, start, cur)
       && start[v.first].Enabled() && start[v.second].Enabled() && Landed(v, es, cur))
  && Caused(visits, es, start, cur)
  && (forall v :: v in visits ==> SeenFrom(v, visits, es, start))
  && (forall a, b :: 0 <= a < i && a < b < |es| && cur[a].Enabled() && cur[b].Enabled() ==> Visited(visits, a, b))
}

/**
 * One turn of the outer loop: entity1 at `i` scans its row when it is enabled as it is
 * reached, and is skipped, with nothing changed, otherwise. What was covered stays
 * covered, since collisions only switch off, and the row covers entity1 `i`.
 */
lemma ScanStep(visits: seq<Visit>, row: seq<Visit>, es: seq<Entity>, start: seq<EntityState>,
               pre: seq<EntityState>, post: seq<EntityState>, i: nat, norm: Vec -> Vec)
  requires Scanned(visits, es, start, pre, i, norm) && i < |es|
  requires pre[i].Enabled() ==> Row(row, es, pre, post, i, |es|, norm)
  requires !pre[i].Enabled() ==> row == [] && post == pre
  ensures Scanned(visits + row, es, start, post, i + 1, norm)
{
  ProgressedTransitive(start, pre, post);
  LandedPersists(visits, es, pre, post);
  OrderedAppend(visits, row, i);
  SawBetweenPersists(visits, start, pre, post);
  SawBetweenFrom(row, start, pre, post);
  if !pre[i].Enabled() {
    assert Caused(row, es, pre, post);
  }
  CausedAppend(visits, row, es, start, pre, post);
  SeenGrows(visits, visits, row, es, start);
  SeenThrough(visits, row, row, es, start, pre);
  RowEnabledAtStart(row, es, start, pre, i);
  CoveredThrough(visits, row, es, pre, post, i);
}

/** The pairs of a row were enabled when reached, hence already at the scan's start. */
lemma RowEnabledAtStart(row: seq<Visit>, es: seq<Entity>, start: seq<EntityState>, pre: seq<EntityState>, i: nat)
  requires Progressed(start, pre) && i < |pre| == |es|
  requires row != [] ==> pre[i].Enabled()
  requires forall v :: v in row ==> v.first == i && v.second < |es| && pre[v.second].Enabled()
  ensures forall v :: v in row ==> start[v.first].Enabled() && start[v.second].Enabled()
{
  forall v | v in row
    ensures start[v.first].Enabled() && start[v.second].Enabled()
  {
    assert Advances(start[i], pre[i]) && Advances(start[v.second], pre[v.second]);
  }
}

/**
 * The pairs covered before entity1 `i` stay covered, since collisions only switch
 * entities off, and the row of `i` covers the pairs whose entity1 is `i`.
 */
lemma CoveredThrough(visits: seq<Visit>, row: seq<Visit>, es: seq<Entity>, pre: seq<EntityState>, post: seq<EntityState>, i: nat)
  requires Progressed(pre, post) && i < |pre| == |es|
  requires forall a, b :: 0 <= a < i && a < b < |es| && pre[a].Enabled() && pre[b].Enabled() ==> Visited(visits, a, b)
  requires pre[i].Enabled() ==> forall b :: i < b < |es| && post[b].Enabled() ==> Visited(row, i, b)
  requires !pre[i].Enabled() ==> post == pre
  ensures forall a, b :: 0 <= a < i + 1 && a < b < |es| && post[a].Enabled() && post[b].Enabled() ==> Visited(visits + row, a, b)
{
  forall a, b | 0 <= a < i + 1 && a < b < |es| && post[a].Enabled() && post[b].Enabled()
    ensures Visited(visits + row, a, b)
  {
    assert Advances(pre[a], post[a]) && Advances(pre[b], post[b]);
    if a < i {
      assert Visited(visits, a, b);
      var v :| v in visits && v.first == a && v.second == b;
      assert v in visits + row;
    } else {
      assert Visited(row, i, b);
      var v :| v in row && v.first == a && v.second == b;
      assert v in visits + row;
    }
  }
}

/**
 * What the scan promises a player sitting on another player's shot: if the two overlap
 * when the scan starts, the player collides then, and no hit of the scan pairs the player
 * with another player (the only thing that moves a player during the scan), the player
 * ends the scan defeated.
 */
lemma ShotOnPlayerLands(visits: seq<Visit>, es: seq<Entity>, start: seq<EntityState>, cur: seq<EntityState>,
                        a: nat, b: nat, norm: Vec -> Vec)
  requires Scanned(visits, es, start, cur, |es|, norm)
  requires a < |es| && b < |es| && Strikes(es[b], es[a])
  requires start[a].PlayerView? && start[a].Enabled() && start[b].ProjectileView?
  requires Overlaps(start[a].Pos(), start[b].Pos(), es[a].Radius(), es[b].Radius())
  requires !exists w :: w in visits && MovedBy(w, es, a)
  ensures cur[a].Defeated()
{
  if !cur[a].Defeated() {
    var v := PairVisit(visits, es, start, cur, a, b, norm);
    assert !MovedBy(v, es, a);
    UnmovedPairHits(v, visits, es, start, cur, a, b, norm);
  }
}

/**
 * A player and a projectile still colliding at the end of the scan were visited as a
 * pair, entity1 first.
 */
lemma PairVisit(visits: seq<Visit>, es: seq<Entity>, start: seq<EntityState>, cur: seq<EntityState>,
                a: nat, b: nat, norm: Vec -> Vec) returns (v: Visit)
  requires Scanned(visits, es, start, cur, |es|, norm)
  requires a < |es| && b < |es| && a != b
  requires start[a].PlayerView? && start[a].Enabled() && !cur[a].Defeated() && start[b].ProjectileView?
  ensures v in visits && v.first == (if a < b then a else b) && v.second == (if a < b then b else a)
  ensures VisitSound(v, es[v.first].Radius(), es[v.second].Radius(), norm)
  ensures SeenFrom(v, visits, es, start) && SawBetween(v, start, cur) && Landed(v, es, cur)
{
  assert Advances(start[a], cur[a]) && Advances(start[b], cur[b]);
  var lo, hi := if a < b then a else b, if a < b then b else a;
  assert cur[lo].Enabled() && cur[hi].Enabled();
  assert Visited(visits, lo, hi);
  v :| v in visits && v.first == lo && v.second == hi;
}

/**
 * The visit of a player and a projectile of another player that overlapped at the start
 * is a hit, when no hit of the log moved the player, so it left the player defeated.
 */
lemma UnmovedPairHits(v: Visit, visits: seq<Visit>, es: seq<Entity>, start: seq<EntityState>, cur: seq<EntityState>,
                      a: nat, b: nat, norm: Vec -> Vec)
  requires a < |es| && b < |es| && |start| == |es| && Strikes(es[b], es[a])
  requires v.first == (if a < b then a else b) && v.second == (if a < b then b else a)
  requires start[b].ProjectileView?
  requires Overlaps(start[a].Pos(), start[b].Pos(), es[a].Radius(), es[b].Radius())
  requires VisitSound(v, es[v.first].Radius(), es[v.second].Radius(), norm)
  requires SeenFrom(v, visits, es, start) && SawBetween(v, start, cur) && Landed(v, es, cur)
  requires !exists w :: w in visits && MovedBy(w, es, a)
  ensures cur[a].Defeated()
{
  if a < b {
    assert v.s1.Pos() == start[a].Pos() && v.s2.Pos() == start[b].Pos();
  } else {
    assert v.s2.Pos() == start[a].Pos() && v.s1.Pos() == start[b].Pos();
    OverlapsSymmetric(start[a].Pos(), start[b].Pos(), es[a].Radius(), es[b].Radius());
  }
}

/** The overlap test does not depend on which entity comes first. */
lemma OverlapsSymmetric(p1: Vec, p2: Vec, r1: real, r2: real)
  ensures Overlaps(p1, p2, r1, r2) <==> Overlaps(p2, p1, r2, r1)
{
  assert DistSq(p1, p2) == DistSq(p2, p1);
}

/**
 * A visit as the scan makes it: the pair collides exactly when the centres are closer
 * than the sum of the radii, and a colliding pair is told the contact point.
 */
predicate VisitSound(v: Visit, r1: real, r2: real, norm: Vec -> Vec)
{
  && (v.hit <==> Overlaps(v.s1.Pos(), v.s2.Pos(), r1, r2))
  && (v.hit ==> v.point == ContactPoint(v.s1.Pos(), v.s2.Pos(), r1, r2, norm))
}

/** The states the destroy sweep keeps: those not destroyed, in order. */
function Kept(states: seq<EntityState>): (r: seq<EntityState>)
  ensures forall s :: s in r ==> s in states && !s.Destroyed()
  ensures forall s :: s in states && !s.Destroyed() ==> s in r
{
  if states == [] then []
  else
    assert states == [states[0]] + states[1..];
    (if states[0].Destroyed() then [] else [states[0]]) + Kept(states[1..])
}

/** The states of a concatenation are the states of its parts. */
lemma StatesAppend(a: seq<Entity>, b: seq<Entity>)
  ensures States(a + b) == States(a) + States(b)
{
  var whole, parts := States(a + b), States(a) + States(b);
  forall k | 0 <= k < |whole|
    ensures whole[k] == parts[k]
  {
    if k < |a| {
      assert (a + b)[k] == a[k];
    } else {
      assert (a + b)[k] == b[k - |a|];
    }
  }
}

/** The entities the sweep keeps are in exactly the states it keeps. */
lemma {:induction false} SweptStates(es: seq<Entity>, states: seq<EntityState>)
  requires |es| == |states|
  requires forall k :: 0 <= k < |es| ==> states[k] == es[k].State()
  ensures States(Swept(es, states)) == Kept(states)
{
  if es != [] {
    var (tail, rest) := (es[1..], states[1..]);
    assert forall k :: 0 <= k < |tail| ==> rest[k] == tail[k].State();
    SweptStates(tail, rest);
    var head: seq<Entity> := if states[0].Destroyed() then [] else [es[0]];
    assert Swept(es, states) == head + Swept(tail, rest);
    StatesAppend(head, Swept(tail, rest));
    assert States(head) == if states[0].Destroyed() then [] else [states[0]];
  }
}

/** Entities whose objects no step has touched are in the states they were in. */
twostate lemma StatesFramed(es: seq<Entity>)
  requires unchanged(ObjectsOf(es))
  ensures States(es) == old(States(es))
{
}

/** The states of the fresh projectiles that carry out `launches`: at the origin, not impacted. */
function LaunchStates(launches: seq<Launch>, norm: Vec -> Vec): (r: seq<EntityState>)
  ensures |r| == |launches|
  ensures forall i :: 0 <= i < |r| ==>
    && r[i].ProjectileView? && r[i].Pos() == launches[i].origin && !r[i].Impacted() && r[i].Enabled()
    && (r[i].Destroyed() <==> !InArena(launches[i].origin))
{
  seq(|launches|, i requires 0 <= i < |launches| =>
    ProjectileView(launches[i].origin, norm(launches[i].target.Minus(launches[i].origin)), false))
}

/** Every player of the list keeps its invariant: the list of a sound manager. */
ghost predicate PlayersSound(states: seq<EntityState>)
{
  forall k :: 0 <= k < |states| && states[k].PlayerView? ==> states[k].state.Consistent()
}

/**
 * A whole simulation step keeps every player's invariant. The live list after the
 * updates is the kept updated states, then the staged entities, then the new shots;
 * the scan then only advances each of them. So if the live and the staged players
 * kept their invariant before the step, every player of the live list keeps it after.
 */
lemma StepKeepsPlayersSound(before: seq<EntityState>, staged: seq<EntityState>, launches: seq<Launch>,
                            scanned: seq<EntityState>, final: seq<EntityState>,
                            timeDelta: real, now: real, norm: Vec -> Vec)
  requires PlayersSound(before) && PlayersSound(staged)
  requires scanned == Kept(Steps(before, timeDelta, now, norm)) + staged + LaunchStates(launches, norm)
  requires Progressed(scanned, final)
  ensures PlayersSound(final)
{
  var after := Steps(before, timeDelta, now, norm);
  var kept := Kept(after);
  forall k | 0 <= k < |after| && after[k].PlayerView?
    ensures after[k].state.Consistent()
  {
    TickKeepsConsistent(before[k].state, timeDelta, now, norm);
  }
  forall k | 0 <= k < |kept| && kept[k].PlayerView?
    ensures kept[k].state.Consistent()
  {
    assert kept[k] in after;
  }
  forall k | 0 <= k < |scanned| && scanned[k].PlayerView?
    ensures scanned[k].state.Consistent()
  {
    if k < |kept| {
      assert scanned[k] == kept[k];
    } else if k < |kept| + |staged| {
      assert scanned[k] == staged[k - |kept|];
    } else {
      assert false;
    }
  }
  ProgressedKeepsPlayersSound(scanned, final);
}

/** Collisions keep every player's invariant. */
lemma ProgressedKeepsPlayersSound(a: seq<EntityState>, b: seq<EntityState>)
  requires PlayersSound(a) && Progressed(a, b)
  ensures PlayersSound(b)
{
  forall k | 0 <= k < |b| && b[k].PlayerView?
    ensures b[k].state.Consistent()
  {
    assert Advances(a[k], b[k]);
  }
}

/** Newly staged shots are in the states LaunchStates gives. */
lemma StagedStates(shots: seq<Entity>, launches: seq<Launch>, norm: Vec -> Vec)
  requires Staged(shots, launches, norm)
  ensures States(shots) == LaunchStates(launches, norm)
{
}

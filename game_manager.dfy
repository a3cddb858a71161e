// GameManager.cs: the connection and player registries, the staging queue for new
// entities, and one SimulationStep (update, destroy sweep, staging drain, collision scan).
// Locks are left out: every operation is modelled as atomic.

class GameManager {
  /** Connection id to user id. */
  var activeConnections: map<string, string>
  /** NewEntityBuffer: entities created since the last drain, oldest first. */
  var newEntityBuffer: seq<Entity>
  /** User id to player. */
  var players: map<string, Player>
  /** State.Entities: the live entities, in list order. */
  var entities: seq<Entity>

  /** Every entity the manager holds, live ones first, then the staged ones. */
  function Listed(): seq<Entity>
    reads this
  {
    entities + newEntityBuffer
  }

  /** No entity is held twice, and every registered player is held under its own id. */
  ghost predicate Valid()
    reads this
  {
    Indexed(Listed(), players)
  }

  /** Every held player is the one registered under its id: no orphaned player entity. */
  ghost predicate Registered()
    reads this
  {
    NoOrphans(Listed(), players)
  }

  constructor ()
    ensures Valid() && Registered()
    ensures activeConnections == map[] && players == map[]
    ensures newEntityBuffer == [] && entities == []
  {
    activeConnections := map[];
    newEntityBuffer := [];
    players := map[];
    entities := [];
  }

  /** RegisterUserConnection: Dictionary.TryAdd, so a known connection id keeps its user. */
  method RegisterUserConnection(userid: string, connectionid: string)
    modifies this`activeConnections
    ensures connectionid in old(activeConnections) ==> activeConnections == old(activeConnections)
    ensures connectionid !in old(activeConnections) ==>
      activeConnections == old(activeConnections)[connectionid := userid]
  {
    if connectionid !in activeConnections {
      activeConnections := activeConnections[connectionid := userid];
    }
  }

  /** UnregisterUserConnection: forget that connection id and no other. */
  method UnregisterUserConnection(connectionid: string)
    modifies this`activeConnections
    ensures activeConnections == old(activeConnections) - {connectionid}
  {
    activeConnections := activeConnections - {connectionid};
  }

  /**
   * TryRevivePlayer, with the two random draws of GetSpawnPosition passed in: only a
   * registered player that is defeated comes back, at the spawn point.
   */
  method TryRevivePlayer(userid: string, rx: real, ry: real)
    requires Valid()
    requires 0.0 <= rx < 1.0 && 0.0 <= ry < 1.0
    modifies (if userid in players then {players[userid]} else {})`defeated,
             (if userid in players then {players[userid]} else {})`collisionsEnabled,
             (if userid in players then {players[userid]} else {})`position,
             (if userid in players then {players[userid]} else {})`controlState
    ensures Valid()
    ensures userid in players && old(players[userid].defeated) ==>
      var p := players[userid];
      && !p.defeated && p.collisionsEnabled && p.position == SpawnPosition(rx, ry)
      && (forall c :: c in p.controlState ==> p.controlState[c] == PlayerControl(false, 0.0))
    ensures userid in players && !old(players[userid].defeated) ==> unchanged(players[userid])
    ensures userid in players && old(players[userid].Valid()) ==> players[userid].Valid()
  {
    if userid in players && players[userid].defeated {
      var p := players[userid];
      p.Revive(SpawnPosition(rx, ry));
    }
  }

  /**
   * TryAddNewPlayer, with the random draws passed in: a new user id gets a fresh player at
   * the spawn point, in the state every new player starts in, registered and staged but
   * not yet live; a known id changes nothing.
   */
  method TryAddNewPlayer(userid: string, name: string, rx: real, ry: real)
    requires Valid()
    requires 0.0 <= rx < 1.0 && 0.0 <= ry < 1.0
    modifies this`players, this`newEntityBuffer
    ensures Valid()
    ensures old(Registered()) ==> Registered()
    ensures entities == old(entities)
    ensures userid in old(players) ==> players == old(players) && newEntityBuffer == old(newEntityBuffer)
    ensures userid !in old(players) ==>
      && userid in players && players == old(players)[userid := players[userid]]
      && fresh(players[userid])
      && players[userid].name == name && players[userid].position == SpawnPosition(rx, ry)
      && players[userid].Valid() && players[userid].JustJoined()
      && newEntityBuffer == old(newEntityBuffer) + [PlayerEntity(players[userid])]
  {
    if userid !in players {
      var p := new Player(userid, name, SpawnPosition(rx, ry));
      assert PlayerEntity(p) !in Listed();
      DistinctAppendFresh(Listed(), PlayerEntity(p));
      players := players[userid := p];
      QueueNewEntity(PlayerEntity(p));
      assert Listed() == old(Listed()) + [PlayerEntity(p)];
    }
  }

  /**
   * RemovePlayer as written: the id leaves Players and the player leaves State.Entities,
   * but a player still waiting in NewEntityBuffer is left there.
   */
  method RemovePlayer(userid: string)
    requires Valid()
    modifies this`players, this`entities
    ensures Valid()
    ensures players == old(players) - {userid}
    ensures newEntityBuffer == old(newEntityBuffer)
    ensures userid in old(players) ==> entities == RemoveFirst(old(entities), PlayerEntity(old(players)[userid]))
    ensures userid !in old(players) ==> entities == old(entities)
    ensures userid in old(players) && PlayerEntity(old(players)[userid]) in newEntityBuffer ==> !Registered()
  {
    if userid in players {
      var x := PlayerEntity(players[userid]);
      ghost var listed := RemoveFirst(entities, x) + newEntityBuffer;
      assert Indexed(listed, players - {userid}) by {
        CutFirst(entities, newEntityBuffer, x);
        Shrunk(Listed(), listed, x);
        IndexedAfterCut(Listed(), listed, players - {userid}, x);
      }
      players := players - {userid};
      entities := RemoveFirst(entities, x);
      assert Listed() == listed;
    }
  }

  /**
   * RemovePlayer as evidently intended: the player also leaves the staging queue, so no
   * orphaned player entity is ever drained into the live list.
   */
  method RemovePlayerEverywhere(userid: string)
    requires Valid()
    modifies this`players, this`entities, this`newEntityBuffer
    ensures Valid()
    ensures old(Registered()) ==> Registered()
    ensures players == old(players) - {userid}
    ensures userid in old(players) ==>
      && entities == RemoveFirst(old(entities), PlayerEntity(old(players)[userid]))
      && newEntityBuffer == RemoveFirst(old(newEntityBuffer), PlayerEntity(old(players)[userid]))
      && PlayerEntity(old(players)[userid]) !in Listed()
    ensures userid !in old(players) ==> entities == old(entities) && newEntityBuffer == old(newEntityBuffer)
  {
    if userid in players {
      var x := PlayerEntity(players[userid]);
      RemovePlayer(userid);
      Unstage(x);
      assert x !in Listed() && (old(Registered()) ==> Registered()) by {
        CutBoth(old(entities), old(newEntityBuffer), x);
        assert Listed() == RemoveFirst(old(entities), x) + RemoveFirst(old(newEntityBuffer), x);
        NoOrphansAfterRemove(old(players), userid, old(Listed()), Listed());
      }
    }
  }

  /** Drop the first occurrence of an unregistered player's entity from the staging queue. */
  method Unstage(x: Entity)
    requires Valid()
    requires x.PlayerEntity? && x.player.id !in players
    modifies this`newEntityBuffer
    ensures Valid()
    ensures newEntityBuffer == RemoveFirst(old(newEntityBuffer), x)
  {
    ghost var listed := entities + RemoveFirst(newEntityBuffer, x);
    assert Indexed(listed, players) by {
      CutSecond(entities, newEntityBuffer, x);
      Shrunk(Listed(), listed, x);
      IndexedAfterCut(Listed(), listed, players, x);
    }
    newEntityBuffer := RemoveFirst(newEntityBuffer, x);
    assert Listed() == listed;
  }

  /** PlayerControlUpdate: pass the key states to a registered player; unknown ids are ignored. */
  method PlayerControlUpdate(userid: string, controls: map<string, bool>)
    requires Valid()
    modifies (if userid in players then {players[userid]} else {})`controlState
    ensures Valid()
    ensures userid in players ==>
      var p := players[userid];
      forall c :: c in p.controlState ==>
        p.controlState[c].value == old(p.controlState[c].value)
        && p.controlState[c].pressed == if !p.defeated && c in controls then controls[c] else old(p.controlState[c].pressed)
    ensures userid in players && old(players[userid].Valid()) ==> players[userid].Valid()
  {
    if userid in players {
      var p := players[userid];
      p.SetInputs(controls);
    }
  }

  /** TryFireProjectile: buffer a shot for a registered player; unknown ids are ignored. */
  method TryFireProjectile(userid: string, target: Vec)
    requires Valid()
    modifies (if userid in players then {players[userid]} else {})`projectileBuffer
    ensures Valid()
    ensures userid in players ==>
      var p := players[userid];
      p.projectileBuffer ==
        if !p.defeated && |old(p.projectileBuffer)| < MAX_BUFFERED_ACTIONS
        then old(p.projectileBuffer) + [target] else old(p.projectileBuffer)
    ensures userid in players && old(players[userid].Valid()) ==> players[userid].Valid()
  {
    if userid in players {
      var p := players[userid];
      p.TryFireProjectile(target);
    }
  }

  /**
   * The first phase of SimulationStep: Entity.Update on every live entity in list order.
   * Each entity ends in the state Next gives it; `launches` are the shots the players
   * fired, in firing order, for SendAll to stage.
   */
  method UpdateEntities(timeDelta: real, now: real, norm: Vec -> Vec) returns (launches: seq<Launch>)
    requires Valid()
    modifies ObjectsOf(entities)
    ensures forall k :: 0 <= k < |entities| ==> entities[k].State() == Next(old(entities[k].State()), timeDelta, now, norm)
    ensures launches == Fired(entities, old(States(entities)), timeDelta, now, norm)
  {
    ManagerApart(this, entities);
    DistinctSub(entities, Listed());
    launches := UpdateEach(entities, timeDelta, now, norm);
  }

  /**
   * UpdateEntities as seen from the states: the live entities go from `before` to
   * `after`, one Next step each, and every shot fired leaves from its firer's new
   * position, fired by a live player.
   */
  method UpdateStates(timeDelta: real, now: real, norm: Vec -> Vec)
    returns (launches: seq<Launch>, ghost before: seq<EntityState>, ghost after: seq<EntityState>)
    requires Valid()
    modifies ObjectsOf(entities)
    ensures players == old(players) && activeConnections == old(activeConnections)
    ensures entities == old(entities) && newEntityBuffer == old(newEntityBuffer)
    ensures before == old(States(entities)) && after == States(entities)
    ensures after == Steps(before, timeDelta, now, norm)
    ensures launches == Fired(entities, before, timeDelta, now, norm)
    ensures forall l :: l in launches ==> l.firer.position == l.origin && PlayerEntity(l.firer) in entities
    ensures States(newEntityBuffer) == old(States(newEntityBuffer))
  {
    PartsApart(entities, newEntityBuffer);
    ManagerApart(this, entities);
    before := States(entities);
    launches := UpdateEntities(timeDelta, now, norm);
    after := States(entities);
    Stepped(entities, before, timeDelta, now, norm);
  }

  /**
   * The GameManager.SendProjectile calls of the update phase, in firing order: one fresh
   * projectile staged per launch, and no entity already held changes state.
   */
  method SendAll(launches: seq<Launch>, norm: Vec -> Vec) returns (ghost staged: seq<Entity>)
    requires Valid()
    requires forall l :: l in launches ==> l.firer.position == l.origin
    modifies this`newEntityBuffer
    ensures Valid()
    ensures newEntityBuffer == old(newEntityBuffer) + staged
    ensures Staged(staged, launches, norm) && forall s :: s in staged ==> fresh(s.Obj())
    ensures forall i :: 0 <= i < |staged| ==> Carries(staged[i], launches[i], norm)
    ensures States(entities) == old(States(entities))
    ensures forall l :: l in launches ==> l.firer.position == l.origin
    ensures States(old(newEntityBuffer)) == old(States(newEntityBuffer))
  {
    ManagerApart(this, entities);
    ManagerApart(this, newEntityBuffer);
    staged := StageShots(launches, norm);
    assert unchanged(ObjectsOf(entities)) && unchanged(ObjectsOf(old(newEntityBuffer)));
    StatesFramed(entities);
    StatesFramed(old(newEntityBuffer));
  }

  /** The loop of SendAll: StageShot on every launch, in order. */
  method StageShots(launches: seq<Launch>, norm: Vec -> Vec) returns (ghost staged: seq<Entity>)
    requires Valid()
    requires forall l :: l in launches ==> l.firer.position == l.origin
    modifies this`newEntityBuffer
    ensures Valid()
    ensures newEntityBuffer == old(newEntityBuffer) + staged
    ensures Staged(staged, launches, norm) && forall s :: s in staged ==> fresh(s.Obj())
  {
    staged := [];
    var i := 0;
    while i < |launches|
      invariant i <= |launches|
      invariant Valid()
      invariant newEntityBuffer == old(newEntityBuffer) + staged
      invariant Staged(staged, launches[..i], norm) && forall s :: s in staged ==> fresh(s.Obj())
    {
      assert launches[i] in launches;
      ghost var prefix := staged;
      var shot := StageShot(launches[i], norm);
      assert Staged(prefix, launches[..i], norm);
      StagedSnoc(prefix, launches[..i], shot, launches[i], norm);
      assert launches[..i + 1] == launches[..i] + [launches[i]];
      staged := staged + [shot];
      i := i + 1;
    }
    assert launches[..i] == launches;
  }

  /** One SendProjectile call of the update phase, keeping the manager invariant. */
  method StageShot(launch: Launch, norm: Vec -> Vec) returns (ghost shot: Entity)
    requires Valid()
    requires launch.firer.position == launch.origin
    modifies this`newEntityBuffer
    ensures Valid()
    ensures newEntityBuffer == old(newEntityBuffer) + [shot]
    ensures shot.ProjectileEntity? && fresh(shot.projectile)
    ensures Launched(shot, launch, norm)
  {
    ghost var listed := Listed();
    shot := SendProjectile(launch.firer, launch.target, norm);
    assert shot !in listed;
    DistinctAppendFresh(listed, shot);
    assert Listed() == listed + [shot];
  }

  /**
   * State.Entities.RemoveAll(e => e.ShouldDestroy()): the destroy sweep keeps the live
   * entities that do not ask to be destroyed, in their order; players always stay.
   */
  method RemoveDestroyed()
    requires Valid()
    modifies this`entities
    ensures Valid()
    ensures old(Registered()) ==> Registered()
    ensures entities == old(Survivors(entities))
    ensures States(entities) == Kept(old(States(entities)))
    ensures States(newEntityBuffer) == old(States(newEntityBuffer))
  {
    var kept := Survivors(entities);
    assert Indexed(kept + newEntityBuffer, players)
      && (Registered() ==> NoOrphans(kept + newEntityBuffer, players)) by {
      SweepKeepsIndex(entities, newEntityBuffer, players);
    }
    assert States(kept) == Kept(States(entities)) by {
      SurvivorsAreSwept(entities, States(entities));
      SweptStates(entities, States(entities));
    }
    ManagerApart(this, kept + newEntityBuffer);
    entities := kept;
    StatesFramed(kept);
    StatesFramed(newEntityBuffer);
  }

  /** The staging drain: move every staged entity, oldest first, to the end of the live list. */
  method DrainNewEntities()
    modifies this`entities, this`newEntityBuffer
    ensures entities == old(entities) + old(newEntityBuffer) && newEntityBuffer == []
    ensures Listed() == old(Listed())
    ensures Valid() == old(Valid()) && Registered() == old(Registered())
    ensures States(entities) == old(States(entities)) + old(States(newEntityBuffer))
  {
    ghost var listed := Listed();
    StatesAppend(entities, newEntityBuffer);
    ManagerApart(this, listed);
    while |newEntityBuffer| > 0
      invariant Listed() == listed
      decreases |newEntityBuffer|
    {
      entities := entities + [newEntityBuffer[0]];
      newEntityBuffer := newEntityBuffer[1..];
    }
    assert unchanged(ObjectsOf(listed));
    StatesFramed(listed);
  }

  /**
   * The collision scan over the live list, whose states at the start are `scanned`.
   * Every pair is examined at most once, entity1 first; every pair still enabled at the
   * end was examined, and only pairs enabled at the start are; every hit has left its
   * player defeated and its projectile impacted, and collisions only advance the states.
   */
  method CheckCollisions(norm: Vec -> Vec) returns (ghost visits: seq<Visit>, ghost scanned: seq<EntityState>)
    requires Valid()
    modifies ObjectsOf(entities), FirersOf(entities)`score
    ensures players == old(players) && activeConnections == old(activeConnections)
    ensures scanned == old(States(entities))
    ensures Scanned(visits, entities, scanned, States(entities), |entities|, norm)
  {
    ManagerApart(this, entities);
    DistinctSub(entities, Listed());
    scanned := States(entities);
    visits := Scan(entities, norm);
  }

  /**
   * SimulationStep: the state updates under the first lock, then the collision scan under
   * the second. The live list the scan runs over is the one the updates leave.
   */
  method SimulationStep(timeDelta: real, now: real, norm: Vec -> Vec)
    returns (ghost launches: seq<Launch>, ghost kept: seq<Entity>, ghost shots: seq<Entity>, ghost visits: seq<Visit>,
             ghost before: seq<EntityState>, ghost after: seq<EntityState>, ghost scanned: seq<EntityState>)
    requires Valid()
    modifies this, ObjectsOf(Listed()), FirersOf(Listed())`score
    ensures Valid()
    ensures old(Registered()) ==> Registered()
    ensures players == old(players) && activeConnections == old(activeConnections)
    ensures before == old(States(entities)) && after == Steps(before, timeDelta, now, norm)
    ensures launches == Fired(old(entities), before, timeDelta, now, norm)
    ensures kept == Swept(old(entities), after)
    ensures entities == kept + old(newEntityBuffer) + shots && newEntityBuffer == []
    ensures |shots| == |launches| && forall i :: 0 <= i < |shots| ==> Carries(shots[i], launches[i], norm)
    ensures scanned == Kept(after) + old(States(newEntityBuffer)) + LaunchStates(launches, norm)
    ensures Scanned(visits, entities, scanned, States(entities), |entities|, norm)
  {
    ghost var live, queued := entities, newEntityBuffer;
    ManagerApart(this, live);
    launches, kept, shots, before, after := StateUpdates(timeDelta, now, norm);
    StepFrame(live, queued, kept, shots);
    ManagerApart(this, entities);
    visits, scanned := CheckCollisions(norm);
  }

  /**
   * The first lock of SimulationStep: every live entity updates in list order, the shots
   * fired are staged, the destroyed entities are swept out, and the staging queue is
   * drained onto the live list. `before` and `after` are the live entities' states around
   * the updates. Afterwards the live list is the old entities whose updated state is not
   * destroyed (`kept`, in order, every player among them), then what was staged before,
   * then one fresh projectile per shot (`shots`, carrying out `launches`, the shots Fired
   * over the old states).
   */
  method StateUpdates(timeDelta: real, now: real, norm: Vec -> Vec)
    returns (ghost launches: seq<Launch>, ghost kept: seq<Entity>, ghost shots: seq<Entity>,
             ghost before: seq<EntityState>, ghost after: seq<EntityState>)
    requires Valid()
    modifies ObjectsOf(entities), this`entities, this`newEntityBuffer
    ensures Valid()
    ensures old(Registered()) ==> Registered()
    ensures players == old(players) && activeConnections == old(activeConnections)
    ensures before == old(States(entities)) && after == Steps(before, timeDelta, now, norm)
    ensures launches == Fired(old(entities), before, timeDelta, now, norm)
    ensures kept == Swept(old(entities), after)
    ensures entities == kept + old(newEntityBuffer) + shots && newEntityBuffer == []
    ensures multiset(kept) <= multiset(old(entities))
    ensures forall e :: e in old(entities) && e.PlayerEntity? ==> e in kept
    ensures |shots| == |launches| && forall i :: 0 <= i < |shots| ==> Carries(shots[i], launches[i], norm)
    ensures forall s :: s in shots ==> s.ProjectileEntity? && fresh(s.projectile) && PlayerEntity(s.projectile.firer) in old(entities)
    ensures States(entities) == Kept(after) + old(States(newEntityBuffer)) + LaunchStates(launches, norm)
  {
    ghost var live := entities;
    ghost var queued := newEntityBuffer;
    ghost var queuedStates := States(queued);
    ManagerApart(this, live);
    launches, shots, before, after := UpdatePhase(timeDelta, now, norm);
    Regroup(live, queued, shots);
    NoOrphansWithShots(live + queued, shots, players);
    ghost var stagedStates := States(newEntityBuffer);
    assert stagedStates == queuedStates + LaunchStates(launches, norm) by {
      StagedStates(shots, launches, norm);
      StatesAppend(queued, shots);
    }
    ghost var swept;
    kept, swept := SweepAndDrain();
    assert States(entities) == Kept(after) + stagedStates;
    Regroup(Kept(after), queuedStates, LaunchStates(launches, norm));
    Regroup(kept, queued, shots);
  }

  /**
   * The update phase of SimulationStep: Entity.Update on every live entity, then the
   * SendProjectile calls those updates make, in firing order. `before` and `after` are
   * the live entities' states around the phase: each entity takes one Next step, the
   * shots are Fired over the old states, and each leaves from its firer's new position.
   */
  method UpdatePhase(timeDelta: real, now: real, norm: Vec -> Vec)
    returns (fired: seq<Launch>, ghost shots: seq<Entity>, ghost before: seq<EntityState>, ghost after: seq<EntityState>)
    requires Valid()
    modifies ObjectsOf(entities), this`newEntityBuffer
    ensures Valid()
    ensures players == old(players) && activeConnections == old(activeConnections) && entities == old(entities)
    ensures before == old(States(entities)) && after == States(entities)
    ensures after == Steps(before, timeDelta, now, norm)
    ensures fired == Fired(entities, before, timeDelta, now, norm)
    ensures forall l :: l in fired ==> l.origin == l.firer.position
    ensures newEntityBuffer == old(newEntityBuffer) + shots
    ensures Staged(shots, fired, norm)
    ensures |shots| == |fired| && forall i :: 0 <= i < |shots| ==> Carries(shots[i], fired[i], norm)
    ensures forall s :: s in shots ==> s.ProjectileEntity? && fresh(s.projectile) && PlayerEntity(s.projectile.firer) in entities
    ensures States(old(newEntityBuffer)) == old(States(newEntityBuffer))
  {
    ManagerApart(this, entities);
    fired, before, after := UpdateStates(timeDelta, now, norm);
    ghost var queued := States(newEntityBuffer);
    shots := SendAll(fired, norm);
    ShotsByListedFirers(shots, fired, entities, norm);
  }

  /**
   * The rest of the first lock of SimulationStep: the destroy sweep, then the staging
   * drain. `kept` are the live entities the sweep keeps: those whose state in `states`
   * is not destroyed.
   */
  method SweepAndDrain() returns (ghost kept: seq<Entity>, ghost states: seq<EntityState>)
    requires Valid()
    modifies this`entities, this`newEntityBuffer
    ensures Valid()
    ensures old(Registered()) ==> Registered()
    ensures states == old(States(entities)) && kept == Swept(old(entities), states)
    ensures entities == kept + old(newEntityBuffer) && newEntityBuffer == []
    ensures States(entities) == Kept(states) + old(States(newEntityBuffer))
  {
    kept := Survivors(entities);
    states := States(entities);
    assert kept == Swept(entities, states) by {
      SurvivorsAreSwept(entities, states);
    }
    ghost var queued := States(newEntityBuffer);
    RemoveDestroyed();
    ghost var live := States(entities);
    assert live == Kept(states) && States(newEntityBuffer) == queued;
    DrainNewEntities();
    assert States(entities) == live + queued;
  }

  /** QueueNewEntity: append to the staging queue. */
  method QueueNewEntity(entity: Entity)
    modifies this`newEntityBuffer
    ensures newEntityBuffer == old(newEntityBuffer) + [entity]
  {
    newEntityBuffer := newEntityBuffer + [entity];
  }

  /**
   * SendProjectile: stage a fresh projectile fired by `sender` from where it stands,
   * heading for `target` (the direction normalised with `norm`).
   */
  method SendProjectile(sender: Player, target: Vec, norm: Vec -> Vec) returns (ghost shot: Entity)
    modifies this`newEntityBuffer
    ensures newEntityBuffer == old(newEntityBuffer) + [shot]
    ensures shot.ProjectileEntity? && fresh(shot.projectile)
    ensures Launched(shot, Launch(sender, sender.position, target), norm)
  {
    var projectile := new Projectile(sender, sender.position, target.Minus(sender.position), norm);
    QueueNewEntity(ProjectileEntity(projectile));
    shot := ProjectileEntity(projectile);
  }
}

/** A shot to be fired: by whom, from where, and at what. */
datatype Launch = Launch(firer: Player, origin: Vec, target: Vec)

/** `shot` is a projectile of `launch`'s firer, heading for its target; both never change. */
predicate Carries(shot: Entity, launch: Launch, norm: Vec -> Vec)
{
  && shot.ProjectileEntity?
  && shot.projectile.firer == launch.firer
  && shot.projectile.direction == norm(launch.target.Minus(launch.origin))
}

/** `shot` is a new projectile carrying out `launch`. */
ghost predicate Launched(shot: Entity, launch: Launch, norm: Vec -> Vec)
  reads shot.Obj()
{
  && Carries(shot, launch, norm)
  && shot.projectile.position == launch.origin
  && !shot.projectile.impacted
}

/**
 * The registry-level part of GameManager's invariant: no entity is held twice and every
 * registered player is held under its own id.
 */
ghost predicate Indexed(listed: seq<Entity>, players: map<string, Player>)
{
  && Distinct(listed)
  && forall id :: id in players ==> players[id].id == id && PlayerEntity(players[id]) in listed
}

/** Every player entity in `listed` is the one `players` registers under its id. */
ghost predicate NoOrphans(listed: seq<Entity>, players: map<string, Player>)
{
  forall e :: e in listed && e.PlayerEntity? ==> e.player.id in players && players[e.player.id] == e.player
}

/** Dropping a registered player from the registry and the lists leaves no orphan behind. */
lemma NoOrphansAfterRemove(players: map<string, Player>, userid: string, before: seq<Entity>, after: seq<Entity>)
  requires userid in players
  requires forall e :: e in after ==> e in before && e != PlayerEntity(players[userid])
  ensures NoOrphans(before, players) ==> NoOrphans(after, players - {userid})
{
}

/**
 * Cutting a player that is no longer registered out of the held entities keeps the
 * registry indexed: every other registered player is still held, and nothing repeats.
 */
lemma IndexedAfterCut(before: seq<Entity>, after: seq<Entity>, players: map<string, Player>, x: Entity)
  requires Distinct(after)
  requires forall id :: id in players ==> players[id].id == id && PlayerEntity(players[id]) in before
  requires forall e :: e in before && e != x ==> e in after
  requires x.PlayerEntity? && x.player.id !in players
  ensures Indexed(after, players)
{
  forall id | id in players
    ensures PlayerEntity(players[id]) in after
  {
    assert PlayerEntity(players[id]) != x;
  }
}

/**
 * The destroy sweep keeps the registry indexed and orphan-free: it only drops entities,
 * and never a player.
 */
lemma SweepKeepsIndex(live: seq<Entity>, staged: seq<Entity>, players: map<string, Player>)
  requires Indexed(live + staged, players)
  ensures Indexed(Survivors(live) + staged, players)
  ensures NoOrphans(live + staged, players) ==> NoOrphans(Survivors(live) + staged, players)
{
  var listed := Survivors(live) + staged;
  assert multiset(listed) == multiset(Survivors(live)) + multiset(staged);
  assert multiset(live + staged) == multiset(live) + multiset(staged);
  DistinctSub(listed, live + staged);
  forall id | id in players
    ensures PlayerEntity(players[id]) in listed
  {
    if PlayerEntity(players[id]) in live {
      PlayersSurvive(live, PlayerEntity(players[id]));
    }
  }
}

/**
 * The loop of GameManager.UpdateEntities over the live list `es`: Entity.Update on each
 * entity in list order. Each entity ends in the state Next gives it; `launches` are the
 * shots the players fired, in firing order.
 */
method UpdateEach(es: seq<Entity>, timeDelta: real, now: real, norm: Vec -> Vec) returns (launches: seq<Launch>)
  requires Distinct(es)
  modifies ObjectsOf(es)
  ensures forall k :: 0 <= k < |es| ==> es[k].State() == Next(old(es[k].State()), timeDelta, now, norm)
  ensures launches == Fired(es, old(States(es)), timeDelta, now, norm)
{
  ghost var before := States(es);
  launches := [];
  var k := 0;
  while k < |es|
    invariant k <= |es|
    invariant forall m :: 0 <= m < k ==> es[m].State() == Next(before[m], timeDelta, now, norm)
    invariant forall m :: k <= m < |es| ==> es[m].State() == before[m]
    invariant launches == Fired(es[..k], before[..k], timeDelta, now, norm)
  {
    var fired := UpdateAt(es, k, timeDelta, now, norm);
    assert es[k].State() == Next(before[k], timeDelta, now, norm);
    FiredSnoc(es, before, k, timeDelta, now, norm);
    launches := launches + fired;
    k := k + 1;
  }
  assert es[..k] == es && before[..k] == before;
}

/**
 * One step of the update phase: Entity.Update on the entity at `k` of `es`. A player's
 * shot leaves from where its movement left it, and no other entity changes.
 */
method UpdateAt(es: seq<Entity>, k: nat, timeDelta: real, now: real, norm: Vec -> Vec) returns (fired: seq<Launch>)
  requires Distinct(es) && k < |es|
  modifies es[k].Obj()
  ensures es[k].State() == Next(old(es[k].State()), timeDelta, now, norm)
  ensures forall m :: 0 <= m < |es| && m != k ==> es[m].State() == old(es[m].State())
  ensures fired == LaunchesOf(es[k], old(es[k].State()), timeDelta, now, norm)
{
  ObjectsApart(es, k);
  var e := es[k];
  var targets := e.Update(timeDelta, now, norm);
  if targets == [] {
    fired := [];
  } else {
    fired := [Launch(e.player, e.player.position, targets[0])];
  }
}

/**
 * The collision scan of SimulationStep over `es`. Entity1 runs over the list, re-reading
 * CollisionsEnabled when reached (the Where filter is lazy); entity2 runs over the
 * entities after it, each re-read when reached. The source finds "after it" by searching
 * for entity1 by reference, which is the next position only in a list without repeats.
 */
method Scan(es: seq<Entity>, norm: Vec -> Vec) returns (ghost visits: seq<Visit>)
  requires Distinct(es)
  modifies ObjectsOf(es), FirersOf(es)`score
  ensures Scanned(visits, es, old(States(es)), States(es), |es|, norm)
{
  ghost var states := States(es);
  StatesEnabled(es);
  ghost var cur := states;
  visits := [];
  var i := 0;
  while i < |es|
    invariant cur == States(es)
    invariant Scanned(visits, es, states, cur, i, norm)
  {
    ghost var row: seq<Visit> := [];
    StatesEnabled(es);
    if es[i].CollisionsEnabled() {
      row := ScanFrom(es, i, norm);
    }
    ScanStep(visits, row, es, states, cur, States(es), i, norm);
    visits := visits + row;
    cur := States(es);
    i := i + 1;
  }
}

/**
 * The inner loop of the scan for entity1 at `i`: every later entity enabled when
 * reached is paired with it, in list order.
 */
method ScanFrom(es: seq<Entity>, i: nat, norm: Vec -> Vec) returns (ghost row: seq<Visit>)
  requires i < |es|
  modifies ObjectsOf(es), FirersOf(es)`score
  ensures Row(row, es, old(States(es)), States(es), i, |es|, norm)
{
  ghost var states := States(es);
  ghost var cur := states;
  row := [];
  var j := i + 1;
  while j < |es|
    invariant cur == States(es)
    invariant Row(row, es, states, cur, i, j, norm)
  {
    ghost var visit := ScanPair(es, i, j, norm);
    RowStep(row, visit, es, states, cur, States(es), i, j, norm);
    row := row + visit;
    cur := States(es);
    j := j + 1;
  }
}

/**
 * One turn of the inner loop: entity2 at `j` is paired with entity1 at `i` when its
 * collisions are enabled as it is reached; `visit` holds the visit made, if any.
 */
method ScanPair(es: seq<Entity>, i: nat, j: nat, norm: Vec -> Vec) returns (ghost visit: seq<Visit>)
  requires i < j < |es|
  modifies ObjectsOf(es), FirersOf(es)`score
  ensures |visit| <= 1 && (visit != [] <==> old(States(es))[j].Enabled())
  ensures forall v :: v in visit ==>
    && v.first == i && v.second == j && v.s1 == old(States(es))[i] && v.s2 == old(States(es))[j]
    && VisitSound(v, es[i].Radius(), es[j].Radius(), norm) && Landed(v, es, States(es))
  ensures Progressed(old(States(es)), States(es))
  ensures Caused(visit, es, old(States(es)), States(es))
  ensures visit == [] ==> States(es) == old(States(es))
{
  StatesEnabled(es);
  visit := [];
  if es[j].CollisionsEnabled() {
    var v := CollidePair(es, i, j, norm);
    visit := [v];
  }
}

/**
 * One pair of the scan: the strict overlap test on squared distances and, on a hit,
 * Collide on entity1 and then on entity2 with the same contact point.
 */
method CollidePair(es: seq<Entity>, i: nat, j: nat, norm: Vec -> Vec) returns (ghost v: Visit)
  requires i < j < |es|
  modifies ObjectsOf(es), FirersOf(es)`score
  ensures v.first == i && v.second == j
  ensures v.s1 == old(es[i].State()) && v.s2 == old(es[j].State())
  ensures VisitSound(v, es[i].Radius(), es[j].Radius(), norm)
  ensures Progressed(old(States(es)), States(es))
  ensures Landed(v, es, States(es))
  ensures Caused([v], es, old(States(es)), States(es))
  ensures !v.hit ==> unchanged(ObjectsOf(es)) && unchanged(FirersOf(es))
  ensures v.hit && Strikes(es[j], es[i]) ==> es[j].projectile.firer.score == old(es[j].projectile.firer.score) + 1
  ensures v.hit && Strikes(es[i], es[j]) ==> es[i].projectile.firer.score == old(es[i].projectile.firer.score) + 1
  ensures v.hit && es[i].PlayerEntity? && es[j].PlayerEntity? && es[i].player != es[j].player ==>
    && es[i].player.position == PushedTo(v.s1.Pos(), v.s2.Pos(), v.point, norm)
    && es[j].player.position == PushedTo(v.s2.Pos(), PushedTo(v.s1.Pos(), v.s2.Pos(), v.point, norm), v.point, norm)
{
  var e1, e2 := es[i], es[j];
  var p1, p2 := e1.Position(), e2.Position();
  var hit := DistSq(p1, p2) < ReachSq(e1.Radius(), e2.Radius());
  var point := ContactPoint(p1, p2, e1.Radius(), e2.Radius(), norm);
  v := Visit(i, j, e1.State(), e2.State(), hit, point);
  assert v.s1.Pos() == p1 && v.s2.Pos() == p2;
  assert VisitSound(v, e1.Radius(), e2.Radius(), norm);
  ghost var before := States(es);
  if hit {
    CollideBoth(es, i, j, point, norm);
    HitCaused(es, v, before, States(es));
  }
}

/**
 * A hit that defeated or impacted only what a projectile striking a player other than
 * its firer can defeat or impact explains every defeat and impact it left in the list.
 */
lemma HitCaused(es: seq<Entity>, v: Visit, a: seq<EntityState>, b: seq<EntityState>)
  requires v.hit && v.first < v.second < |es| && |a| == |b| == |es|
  requires forall m :: 0 <= m < |es| && b[m].Defeated() && !a[m].Defeated() ==>
    (es[m] == es[v.first] && Strikes(es[v.second], es[v.first])) || (es[m] == es[v.second] && Strikes(es[v.first], es[v.second]))
  requires forall m :: 0 <= m < |es| && b[m].Impacted() && !a[m].Impacted() ==>
    (es[m] == es[v.first] && Strikes(es[v.first], es[v.second])) || (es[m] == es[v.second] && Strikes(es[v.second], es[v.first]))
  requires forall m :: 0 <= m < |es| && b[m].Pos() != a[m].Pos() ==>
    es[v.first].PlayerEntity? && es[v.second].PlayerEntity? && (es[m] == es[v.first] || es[m] == es[v.second])
  ensures Caused([v], es, a, b)
{
  assert v in [v];
}

/**
 * The hit branch of the scan for entity1 at `i` and entity2 at `j` of `es`: Collide on
 * entity1, then on entity2, at the same contact point. Every entity advances; a player
 * struck by another player's projectile is defeated, the projectile impacted and its
 * firer scores one, and no entity is defeated or impacted otherwise; two players are
 * pushed apart, entity2 away from where entity1 was pushed to; a projectile touching its
 * own firer or another projectile changes neither.
 */
method CollideBoth(es: seq<Entity>, i: nat, j: nat, point: Vec, norm: Vec -> Vec)
  requires i < j < |es|
  modifies es[i].Obj(), es[j].Obj(), es[i].Firers()`score, es[j].Firers()`score
  ensures Progressed(old(States(es)), States(es))
  ensures Strikes(es[j], es[i]) ==>
    States(es)[i].Defeated() && States(es)[j].Impacted() && es[j].projectile.firer.score == old(es[j].projectile.firer.score) + 1
  ensures Strikes(es[i], es[j]) ==>
    States(es)[j].Defeated() && States(es)[i].Impacted() && es[i].projectile.firer.score == old(es[i].projectile.firer.score) + 1
  ensures forall m :: 0 <= m < |es| && States(es)[m].Defeated() && !old(States(es))[m].Defeated() ==>
    (es[m] == es[i] && Strikes(es[j], es[i])) || (es[m] == es[j] && Strikes(es[i], es[j]))
  ensures forall m :: 0 <= m < |es| && States(es)[m].Impacted() && !old(States(es))[m].Impacted() ==>
    (es[m] == es[i] && Strikes(es[i], es[j])) || (es[m] == es[j] && Strikes(es[j], es[i]))
  ensures forall m :: 0 <= m < |es| && States(es)[m].Pos() != old(States(es))[m].Pos() ==>
    es[i].PlayerEntity? && es[j].PlayerEntity? && (es[m] == es[i] || es[m] == es[j])
  ensures es[i].PlayerEntity? && es[j].PlayerEntity? && es[i].player != es[j].player ==>
    && es[i].player.position == PushedTo(old(es[i].player.position), old(es[j].player.position), point, norm)
    && es[j].player.position == PushedTo(old(es[j].player.position), es[i].player.position, point, norm)
  ensures OwnShotOrShots(es[i], es[j]) ==> States(es) == old(States(es))
{
  ghost var before := States(es);
  CollideAt(es, i, j, point, norm);
  ghost var mid := States(es);
  CollideAt(es, j, i, point, norm);
  ProgressedTransitive(before, mid, States(es));
}

/**
 * Entity.Collide on the entity at `r` of `es`, told it touched the entity at `o`, as
 * seen on the whole list: every entity advances, collisions are only switched off, and
 * a defeat or an impact appears only at `r`, when a projectile strikes a player other
 * than its firer; a projectile meeting its own firer or another projectile changes
 * nothing.
 */
method CollideAt(es: seq<Entity>, r: nat, o: nat, point: Vec, norm: Vec -> Vec)
  requires r < |es| && o < |es|
  modifies es[r].Obj(), (if es[r].PlayerEntity? then es[o].Firers() else {})`score
  ensures Progressed(old(States(es)), States(es))
  ensures Strikes(es[o], es[r]) ==>
    States(es)[r].Defeated() && es[o].projectile.firer.score == old(es[o].projectile.firer.score) + 1
  ensures Strikes(es[r], es[o]) ==> States(es)[r].Impacted()
  ensures forall m :: 0 <= m < |es| && States(es)[m].Defeated() && !old(States(es))[m].Defeated() ==>
    es[m] == es[r] && Strikes(es[o], es[r])
  ensures forall m :: 0 <= m < |es| && States(es)[m].Impacted() && !old(States(es))[m].Impacted() ==>
    es[m] == es[r] && Strikes(es[r], es[o])
  ensures forall m :: 0 <= m < |es| && States(es)[m].Pos() != old(States(es))[m].Pos() ==>
    es[m] == es[r] && es[r].PlayerEntity? && es[o].PlayerEntity?
  ensures es[r].PlayerEntity? && es[o].PlayerEntity? ==>
    es[r].player.position == PushedTo(old(es[r].player.position), old(es[o].player.position), point, norm)
  ensures OwnShotOrShots(es[r], es[o]) ==> States(es) == old(States(es))
{
  ghost var before := States(es);
  es[r].Collide(es[o], point, norm);
  forall m | 0 <= m < |es|
    ensures Advances(before[m], States(es)[m])
    ensures States(es)[m].Defeated() && !before[m].Defeated() ==> es[m] == es[r] && Strikes(es[o], es[r])
    ensures States(es)[m].Impacted() && !before[m].Impacted() ==> es[m] == es[r] && Strikes(es[r], es[o])
    ensures States(es)[m].Pos() != before[m].Pos() ==> es[m] == es[r] && es[r].PlayerEntity? && es[o].PlayerEntity?
    ensures OwnShotOrShots(es[r], es[o]) ==> States(es)[m] == before[m]
  {
    assert old(allocated(es[m])) && before[m] == old(es[m].State());
    ObjInjective(es[m], es[r]);
  }
}

/**
 * A projectile meets its own firer, or two projectiles meet: neither side of such a
 * pair can change the other.
 */
predicate OwnShotOrShots(e1: Entity, e2: Entity)
{
  || (e1.ProjectileEntity? && e2.ProjectileEntity?)
  || (e1.ProjectileEntity? && e2.PlayerEntity? && e2.player == e1.projectile.firer)
  || (e2.ProjectileEntity? && e1.PlayerEntity? && e1.player == e2.projectile.firer)
}

/** The manager is not the object of any entity, so the scan leaves its fields alone. */
lemma ManagerApart(m: GameManager, es: seq<Entity>)
  ensures m !in ObjectsOf(es)
{
  forall e | e in es
    ensures e.Obj() != m
  {
  }
}

/** Shots that carry out launches by listed players are projectiles of listed players. */
lemma ShotsByListedFirers(shots: seq<Entity>, launches: seq<Launch>, listed: seq<Entity>, norm: Vec -> Vec)
  requires |shots| == |launches| && forall i :: 0 <= i < |shots| ==> Carries(shots[i], launches[i], norm)
  requires forall l :: l in launches ==> PlayerEntity(l.firer) in listed
  ensures forall s :: s in shots ==> s.ProjectileEntity? && PlayerEntity(s.projectile.firer) in listed
{
  forall s | s in shots
    ensures s.ProjectileEntity? && PlayerEntity(s.projectile.firer) in listed
  {
    var i :| 0 <= i < |shots| && shots[i] == s;
    assert launches[i] in launches;
  }
}

/** Concatenation regrouped: the staged shots join the end of the whole list. */
lemma Regroup<T>(a: seq<T>, b: seq<T>, c: seq<T>)
  ensures a + (b + c) == a + b + c
{
}

/** Staging projectiles cannot orphan a player. */
lemma NoOrphansWithShots(listed: seq<Entity>, shots: seq<Entity>, players: map<string, Player>)
  requires forall s :: s in shots ==> s.ProjectileEntity?
  ensures NoOrphans(listed, players) ==> NoOrphans(listed + shots, players)
{
}

/**
 * What the collision scan of a step may touch: the entities it scans were held before
 * the step or are the step's new shots, whose firers were held players.
 */
lemma StepFrame(live: seq<Entity>, queued: seq<Entity>, kept: seq<Entity>, shots: seq<Entity>)
  requires multiset(kept) <= multiset(live)
  requires forall s :: s in shots ==> s.ProjectileEntity? && PlayerEntity(s.projectile.firer) in live
  ensures forall o :: o in ObjectsOf(kept + queued + shots) ==> o in ObjectsOf(live + queued) || o in ObjectsOf(shots)
  ensures forall p :: p in FirersOf(kept + queued + shots) ==> p in FirersOf(live + queued) || p in ObjectsOf(live + queued)
{
  forall e | e in kept
    ensures e in live
  {
    assert multiset(kept)[e] <= multiset(live)[e];
  }
  forall p | p in FirersOf(kept + queued + shots)
    ensures p in FirersOf(live + queued) || p in ObjectsOf(live + queued)
  {
    var e :| e in kept + queued + shots && e.ProjectileEntity? && e.projectile.firer == p;
    if e in shots {
      assert PlayerEntity(p) in live + queued && PlayerEntity(p).Obj() == p;
    }
  }
}

/**
 * A user who joins and leaves before the next step: RemovePlayer as written leaves the
 * new player in the staging queue with no registration behind it.
 */
method JoinThenLeave() returns (m: GameManager)
  ensures m.Valid() && !m.Registered()
  ensures m.players == map[] && |m.newEntityBuffer| == 1 && m.newEntityBuffer[0].PlayerEntity?
{
  m := new GameManager();
  m.TryAddNewPlayer("u", "u", 0.5, 0.5);
  m.RemovePlayer("u");
}

/** The same sequence with RemovePlayerEverywhere leaves nothing behind. */
method JoinThenLeaveEverywhere() returns (m: GameManager)
  ensures m.Valid() && m.Registered()
  ensures m.players == map[] && m.newEntityBuffer == [] && m.entities == []
{
  m := new GameManager();
  m.TryAddNewPlayer("u", "u", 0.5, 0.5);
  m.RemovePlayerEverywhere("u");
}

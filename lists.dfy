// The List<Entity> operations GameManager relies on: Remove (first occurrence),
// RemoveAll(ShouldDestroy), and the bookkeeping that no entity is listed twice.

/** No element occurs twice. */
ghost predicate Distinct<T>(s: seq<T>)
{
  forall x :: x in s ==> multiset(s)[x] <= 1
}

lemma DistinctAt<T>(s: seq<T>, i: int, j: int)
  requires Distinct(s) && 0 <= i < j < |s|
  ensures s[i] != s[j]
{
  assert s == s[..j] + [s[j]] + s[j + 1..];
  assert s[i] in s[..j];
  assert multiset(s)[s[i]] == multiset(s[..j])[s[i]] + multiset([s[j]])[s[i]] + multiset(s[j + 1..])[s[i]];
}

/** Two entities that differ stand for different objects. */
lemma ObjInjective(a: Entity, b: Entity)
  ensures a != b ==> a.Obj() != b.Obj()
{
}

/** In a list without repeats, the entity at `k` shares its object with no other entry. */
lemma ObjectsApart(es: seq<Entity>, k: int)
  requires Distinct(es) && 0 <= k < |es|
  ensures forall m :: 0 <= m < |es| && m != k ==> es[m].Obj() != es[k].Obj()
{
  forall m | 0 <= m < |es| && m != k
    ensures es[m].Obj() != es[k].Obj()
  {
    if m < k { DistinctAt(es, m, k); } else { DistinctAt(es, k, m); }
    ObjInjective(es[m], es[k]);
  }
}

/** List.Remove: drop the first occurrence of `x`, if any. */
function RemoveFirst<T(==)>(s: seq<T>, x: T): (r: seq<T>)
  ensures multiset(r) == multiset(s) - multiset{x}
  ensures x !in s ==> r == s
{
  if s == [] then []
  else
    assert s == [s[0]] + s[1..];
    if s[0] == x then s[1..] else [s[0]] + RemoveFirst(s[1..], x)
}

/** The index of the first occurrence of `x`. */
function FirstIndex<T(==)>(s: seq<T>, x: T): (k: nat)
  requires x in s
  ensures k < |s| && s[k] == x && forall i :: 0 <= i < k ==> s[i] != x
{
  if s[0] == x then 0
  else
    assert x in s[1..];
    FirstIndex(s[1..], x) + 1
}

/** The first occurrence of `x` is cut out and everything else keeps its order. */
lemma {:induction false} RemoveFirstCutsFirst<T>(s: seq<T>, x: T)
  requires x in s
  ensures RemoveFirst(s, x) == s[..FirstIndex(s, x)] + s[FirstIndex(s, x) + 1..]
{
  if s[0] != x {
    var t := s[1..];
    assert x in t;
    RemoveFirstCutsFirst(t, x);
    ConsCut(s, FirstIndex(t, x));
  }
}

/** Cutting index k + 1 out of a non-empty sequence is cutting index k out of its tail. */
lemma ConsCut<T>(s: seq<T>, k: nat)
  requires k + 1 < |s|
  ensures [s[0]] + (s[1..][..k] + s[1..][k + 1..]) == s[..k + 1] + s[k + 2..]
{
  assert s[..k + 1] == [s[0]] + s[1..][..k];
}

/** List.RemoveAll(e => e.ShouldDestroy()): the entities to keep, in their original order. */
function Survivors(es: seq<Entity>): (r: seq<Entity>)
  reads set e | e in es :: e.Obj()
  ensures multiset(r) <= multiset(es)
{
  if es == [] then []
  else
    assert es == [es[0]] + es[1..];
    (if es[0].ShouldDestroy() then [] else [es[0]]) + Survivors(es[1..])
}

/** Survivors keeps relative order: it distributes over concatenation. */
lemma {:induction false} SurvivorsAppend(a: seq<Entity>, b: seq<Entity>)
  ensures Survivors(a + b) == Survivors(a) + Survivors(b)
{
  if a == [] {
    assert a + b == b;
  } else {
    assert (a + b)[0] == a[0] && (a + b)[1..] == a[1..] + b;
    var head := if a[0].ShouldDestroy() then [] else [a[0]];
    assert Survivors(a + b) == head + Survivors(a[1..] + b);
    SurvivorsAppend(a[1..], b);
    Regroup(head, Survivors(a[1..]), Survivors(b));
  }
}

/** An entity survives the sweep exactly when it was listed and does not ask to be destroyed. */
lemma {:induction false} SurvivorsFilter(es: seq<Entity>, e: Entity)
  ensures e in Survivors(es) <==> e in es && !e.ShouldDestroy()
{
  if es != [] {
    SurvivorsFilter(es[1..], e);
    assert es == [es[0]] + es[1..];
  }
}

/** Players are never destroyed, so every player entity survives the sweep. */
lemma PlayersSurvive(es: seq<Entity>, e: Entity)
  requires e in es && e.PlayerEntity?
  ensures e in Survivors(es)
{
  SurvivorsFilter(es, e);
}

lemma DistinctSub<T>(a: seq<T>, b: seq<T>)
  requires Distinct(b) && multiset(a) <= multiset(b)
  ensures Distinct(a)
{
  forall x | x in a ensures multiset(a)[x] <= 1 {
    assert multiset(a)[x] <= multiset(b)[x];
  }
}

lemma DistinctAppendFresh<T>(s: seq<T>, x: T)
  requires Distinct(s) && x !in s
  ensures Distinct(s + [x])
{
  forall y | y in s + [x] ensures multiset(s + [x])[y] <= 1 {
    assert multiset(s + [x]) == multiset(s) + multiset{x};
  }
}

/** The entity objects of a list. */
function ObjectsOf(es: seq<Entity>): set<object>
{
  set e | e in es :: e.Obj()
}

/** The firers of the projectiles in a list. */
function FirersOf(es: seq<Entity>): set<Player>
{
  set e | e in es && e.ProjectileEntity? :: e.projectile.firer
}

/** In a list without repeats, an entity of one part is not an object of the other part. */
lemma DistinctParts(a: seq<Entity>, b: seq<Entity>, e: Entity)
  requires Distinct(a + b) && e in b
  ensures e.Obj() !in ObjectsOf(a)
{
  if e.Obj() in ObjectsOf(a) {
    var d :| d in a && d.Obj() == e.Obj();
    ObjInjective(d, e);
    var i :| 0 <= i < |a| && a[i] == d;
    var j :| 0 <= j < |b| && b[j] == e;
    DistinctAt(a + b, i, |a| + j);
  }
}

/**
 * A list whose element counts are those of a list without repeats, less at most the one
 * element `x`, has no repeats, holds nothing new, and keeps everything other than `x`.
 */
lemma Shrunk<T>(before: seq<T>, after: seq<T>, x: T)
  requires Distinct(before)
  requires multiset(after) <= multiset(before)
  requires forall y :: y != x ==> multiset(after)[y] == multiset(before)[y]
  ensures Distinct(after)
  ensures forall y :: y in after ==> y in before
  ensures forall y :: y in before && y != x ==> y in after
{
  DistinctSub(after, before);
  forall y | y in after
    ensures y in before
  {
    assert multiset(after)[y] <= multiset(before)[y];
  }
}

/** Counts after List.Remove on the first of two lists. */
lemma CutFirst<T>(a: seq<T>, b: seq<T>, x: T)
  ensures multiset(RemoveFirst(a, x) + b) <= multiset(a + b)
  ensures forall y :: y != x ==> multiset(RemoveFirst(a, x) + b)[y] == multiset(a + b)[y]
{
  assert multiset(RemoveFirst(a, x) + b) == multiset(RemoveFirst(a, x)) + multiset(b);
  assert multiset(a + b) == multiset(a) + multiset(b);
}

/** Counts after List.Remove on the second of two lists. */
lemma CutSecond<T>(a: seq<T>, b: seq<T>, x: T)
  ensures multiset(a + RemoveFirst(b, x)) <= multiset(a + b)
  ensures forall y :: y != x ==> multiset(a + RemoveFirst(b, x))[y] == multiset(a + b)[y]
{
  assert multiset(a + RemoveFirst(b, x)) == multiset(a) + multiset(RemoveFirst(b, x));
  assert multiset(a + b) == multiset(a) + multiset(b);
}

/** Removing `x` from both halves of a list without repeats leaves no `x` at all. */
lemma CutBoth<T>(a: seq<T>, b: seq<T>, x: T)
  requires Distinct(a + b)
  ensures x !in RemoveFirst(a, x) + RemoveFirst(b, x)
  ensures forall y :: y in RemoveFirst(a, x) + RemoveFirst(b, x) ==> y in a + b
{
  var before := multiset(a + b);
  assert before == multiset(a) + multiset(b);
  assert multiset(RemoveFirst(a, x) + RemoveFirst(b, x)) == multiset(RemoveFirst(a, x)) + multiset(RemoveFirst(b, x));
  if x in a + b {
    assert before[x] <= 1;
  }
  forall y | y in RemoveFirst(a, x) + RemoveFirst(b, x)
    ensures y in a + b
  {
    assert multiset(RemoveFirst(a, x) + RemoveFirst(b, x))[y] <= before[y];
  }
}

/** In a list without repeats, no entity of the second part shares an object with the first part. */
lemma PartsApart(a: seq<Entity>, b: seq<Entity>)
  requires Distinct(a + b)
  ensures forall e :: e in b ==> e.Obj() !in ObjectsOf(a)
{
  forall e | e in b
    ensures e.Obj() !in ObjectsOf(a)
  {
    DistinctParts(a, b, e);
  }
}

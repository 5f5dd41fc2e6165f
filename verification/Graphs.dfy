/** Finite dependency relations over identifiers: paths, reachability, cycles,
    and the depth-first check that accepts exactly the closed acyclic ones. */
module Graphs {
  import opened Keys

  /** (a, b) says that a depends on b. */
  type Edges = set<(Key, Key)>

  ghost predicate Path(e: Edges, p: seq<Key>) {
    |p| > 0 && forall k :: 0 <= k < |p| - 1 ==> (p[k], p[k + 1]) in e
  }

  ghost predicate PathFrom(e: Edges, p: seq<Key>, a: Key, b: Key) {
    Path(e, p) && p[0] == a && p[|p| - 1] == b
  }

  /** a depends on b through zero or more edges. */
  ghost predicate Reaches(e: Edges, a: Key, b: Key) {
    exists p :: PathFrom(e, p, a, b)
  }

  ghost predicate Closed(e: Edges, ids: set<Key>) {
    forall a, b :: (a, b) in e ==> a in ids && b in ids
  }

  ghost predicate Acyclic(e: Edges) {
    forall p :: Path(e, p) && |p| >= 2 ==> p[0] != p[|p| - 1]
  }

  lemma ReachesSelf(e: Edges, a: Key)
    ensures Reaches(e, a, a)
  {
    assert PathFrom(e, [a], a, a);
  }

  lemma ReachesThrough(e: Edges, a: Key, b: Key, c: Key)
    requires Reaches(e, a, b) && Reaches(e, b, c)
    ensures Reaches(e, a, c)
  {
    var p :| PathFrom(e, p, a, b);
    var q :| PathFrom(e, q, b, c);
    var r := p + q[1..];
    forall k | 0 <= k < |r| - 1 ensures (r[k], r[k + 1]) in e {
      if k < |p| - 1 {
      } else {
        assert r[k] == q[k - |p| + 1] && r[k + 1] == q[k - |p| + 2];
      }
    }
    assert PathFrom(e, r, a, c);
  }

  lemma ReachesEdge(e: Edges, a: Key, b: Key)
    requires (a, b) in e
    ensures Reaches(e, a, b)
  {
    assert PathFrom(e, [a, b], a, b);
  }

  lemma ReachesAfterEdge(e: Edges, a: Key, b: Key, c: Key)
    requires (a, b) in e && Reaches(e, b, c)
    ensures Reaches(e, a, c)
  {
    ReachesEdge(e, a, b);
    ReachesThrough(e, a, b, c);
  }

  /** A set closed under taking dependents holds everything that reaches one of its members. */
  lemma {:induction false} DependentsStay(e: Edges, s: iset<Key>, a: Key, b: Key)
    requires forall x, y :: (x, y) in e && y in s ==> x in s
    requires b in s && Reaches(e, a, b)
    ensures a in s
  {
    var p :| PathFrom(e, p, a, b);
    BackAlong(e, s, p);
  }

  lemma {:induction false} BackAlong(e: Edges, s: iset<Key>, p: seq<Key>)
    requires forall x, y :: (x, y) in e && y in s ==> x in s
    requires Path(e, p) && p[|p| - 1] in s
    ensures p[0] in s
    decreases |p|
  {
    if |p| > 1 {
      BackAlong(e, s, p[1..]);
      assert (p[0], p[1]) in e;
    }
  }

  /** A set closed under taking dependencies holds everything its members reach. */
  lemma {:induction false} DependenciesStay(e: Edges, s: iset<Key>, a: Key, b: Key)
    requires forall x, y :: (x, y) in e && x in s ==> y in s
    requires a in s && Reaches(e, a, b)
    ensures b in s
  {
    var p :| PathFrom(e, p, a, b);
    ForwardAlong(e, s, p);
  }

  lemma {:induction false} ForwardAlong(e: Edges, s: iset<Key>, p: seq<Key>)
    requires forall x, y :: (x, y) in e && x in s ==> y in s
    requires Path(e, p) && p[0] in s
    ensures p[|p| - 1] in s
    decreases |p|
  {
    if |p| > 1 {
      assert (p[0], p[1]) in e;
      ForwardAlong(e, s, p[1..]);
    }
  }

  /** Unfolding at the first edge. */
  lemma FirstEdge(e: Edges, a: Key, b: Key)
    requires Reaches(e, a, b) && a != b
    ensures exists c :: (a, c) in e && Reaches(e, c, b)
  {
    var p :| PathFrom(e, p, a, b);
    assert (a, p[1]) in e;
    assert PathFrom(e, p[1..], p[1], b);
  }

  /** Adding nodes nobody depends on creates no cycle. */
  lemma AddedAcyclic(e: Edges, f: Edges, added: set<Key>)
    requires Acyclic(e)
    requires forall a, b :: (a, b) in f ==> (a, b) in e || (a in added && b !in added)
    requires forall a, b :: (a, b) in e ==> a !in added && b !in added
    ensures Acyclic(f)
  {
    forall p | Path(f, p) && |p| >= 2 ensures p[0] != p[|p| - 1] {
      var n := |p| - 1;
      assert (p[n - 1], p[n]) in f;
      assert p[n] !in added;
      if p[0] !in added {
        OutsideStays(e, f, added, p);
      }
    }
  }

  lemma {:induction false} OutsideStays(e: Edges, f: Edges, added: set<Key>, p: seq<Key>)
    requires forall a, b :: (a, b) in f ==> (a, b) in e || (a in added && b !in added)
    requires forall a, b :: (a, b) in e ==> a !in added && b !in added
    requires Path(f, p) && p[0] !in added
    ensures Path(e, p)
    decreases |p|
  {
    if |p| > 1 {
      assert (p[0], p[1]) in f;
      OutsideStays(e, f, added, p[1..]);
      forall k | 0 <= k < |p| - 1 ensures (p[k], p[k + 1]) in e {
        if k > 0 {
          assert p[k] == p[1..][k - 1] && p[k + 1] == p[1..][k];
        }
      }
    }
  }

  /** Every element's dependencies stand earlier in the list. */
  ghost predicate Layered(e: Edges, order: seq<Key>) {
    forall i, b :: 0 <= i < |order| && (order[i], b) in e ==> b in order[..i]
  }

  ghost function Position(order: seq<Key>, a: Key): (i: nat)
    requires a in order
    ensures i < |order| && order[i] == a && a !in order[..i]
  {
    if order[0] == a then 0 else
      assert order == [order[0]] + order[1..];
      var i := 1 + Position(order[1..], a);
      assert order[..i] == [order[0]] + order[1..][..i - 1];
      i
  }

  lemma EarlierPosition(e: Edges, order: seq<Key>, a: Key, b: Key)
    requires Layered(e, order) && a in order && (a, b) in e
    ensures b in order && Position(order, b) < Position(order, a)
  {
    var i := Position(order, a);
    assert b in order[..i];
    var j :| 0 <= j < i && order[j] == b;
    var n := Position(order, b);
    assert forall k :: 0 <= k < n ==> order[..n][k] == order[k] != b;
  }

  lemma {:induction false} PositionsFall(e: Edges, order: seq<Key>, p: seq<Key>)
    requires Layered(e, order) && Path(e, p) && |p| >= 2 && p[0] in order
    ensures p[|p| - 1] in order && Position(order, p[|p| - 1]) < Position(order, p[0])
    decreases |p|
  {
    assert (p[0], p[1]) in e;
    EarlierPosition(e, order, p[0], p[1]);
    if |p| > 2 {
      PositionsFall(e, order, p[1..]);
    }
  }

  lemma LayeredAcyclic(e: Edges, order: seq<Key>)
    requires Layered(e, order)
    requires forall a, b :: (a, b) in e ==> a in order
    ensures Acyclic(e)
  {
    forall p | Path(e, p) && |p| >= 2 ensures p[0] != p[|p| - 1] {
      assert (p[0], p[1]) in e;
      PositionsFall(e, order, p);
    }
  }

  function EdgesOf(deps: map<Key, seq<Key>>): Edges {
    set a, b | a in deps && b in deps[a] :: (a, b)
  }

  /** internal/graph/memory.go:90-118: the recursive visit and its two marker maps. */
  class DependencyWalk {
    const deps: map<Key, seq<Key>>
    var visiting: set<Key>
    var done: set<Key>
    ghost var order: seq<Key>

    ghost predicate Valid()
      reads this
    {
      && done <= deps.Keys
      && visiting <= deps.Keys
      && (forall x :: x in done <==> x in order)
      && Layered(EdgesOf(deps), order)
    }

    constructor (deps: map<Key, seq<Key>>)
      ensures Valid() && this.deps == deps && visiting == {} && done == {}
    {
      this.deps := deps;
      visiting := {};
      done := {};
      order := [];
    }

    ghost predicate Trail(stack: seq<Key>, id: Key)
      reads this
    {
      && (forall x :: x in visiting <==> x in stack)
      && Path(EdgesOf(deps), stack + [id])
    }

    /** Fails only on a dependency that does not exist or on a cycle. */
    method Visit(id: Key, ghost stack: seq<Key>) returns (ok: bool)
      requires Valid() && Trail(stack, id)
      requires stack == [] ==> id in deps
      modifies this
      ensures Valid()
      ensures ok ==> id in done && old(done) <= done && visiting == old(visiting)
      ensures !ok ==> !Closed(EdgesOf(deps), deps.Keys) || !Acyclic(EdgesOf(deps))
      decreases |deps.Keys - visiting|
    {
      ghost var e := EdgesOf(deps);
      if id in done {
        return true;
      }
      if id !in deps {
        assert ((stack + [id])[|stack| - 1], (stack + [id])[|stack|]) in e;
        return false;
      }
      if id in visiting {
        assert id in stack;
        CycleOnTrail(e, stack, id);
        return false;
      }
      visiting := visiting + {id};
      var list := deps[id];
      var i := 0;
      while i < |list|
        invariant 0 <= i <= |list|
        invariant Valid()
        invariant visiting == old(visiting) + {id} && old(done) <= done
        invariant forall k :: 0 <= k < i ==> list[k] in done
      {
        TrailGrows(e, stack, id, list[i]);
        assert deps.Keys - visiting < deps.Keys - old(visiting);
        StrictlyFewer(deps.Keys - visiting, deps.Keys - old(visiting));
        var fine := Visit(list[i], stack + [id]);
        if !fine {
          return false;
        }
        i := i + 1;
      }
      visiting := visiting - {id};
      done := done + {id};
      forall b | (id, b) in e ensures b in order {
      }
      LayeredAppend(e, order, id);
      order := order + [id];
      return true;
    }
  }

  lemma StrictlyFewer<T>(a: set<T>, b: set<T>)
    requires a < b
    ensures |a| < |b|
  {
    var rest := b - a;
    assert b == a + rest;
    var x :| x in b && x !in a;
    assert x in rest;
  }

  lemma CycleOnTrail(e: Edges, stack: seq<Key>, id: Key)
    requires Path(e, stack + [id]) && id in stack
    ensures !Acyclic(e)
  {
    var k :| 0 <= k < |stack| && stack[k] == id;
    var t := stack + [id];
    var p := t[k..];
    forall n | 0 <= n < |p| - 1 ensures (p[n], p[n + 1]) in e {
      assert p[n] == t[k + n] && p[n + 1] == t[k + n + 1];
    }
    assert Path(e, p) && |p| >= 2 && p[0] == p[|p| - 1];
  }

  lemma TrailGrows(e: Edges, stack: seq<Key>, id: Key, next: Key)
    requires Path(e, stack + [id]) && (id, next) in e
    ensures Path(e, stack + [id] + [next])
  {
    var t := stack + [id] + [next];
    forall n | 0 <= n < |t| - 1 ensures (t[n], t[n + 1]) in e {
      if n < |stack| {
        assert t[n] == (stack + [id])[n] && t[n + 1] == (stack + [id])[n + 1];
      }
    }
  }

  lemma LayeredAppend(e: Edges, order: seq<Key>, id: Key)
    requires Layered(e, order)
    requires forall b :: (id, b) in e ==> b in order
    ensures Layered(e, order + [id])
  {
    var more := order + [id];
    forall i, b | 0 <= i < |more| && (more[i], b) in e ensures b in more[..i] {
      if i < |order| {
        assert b in order[..i];
        assert more[..i] == order[..i];
      } else {
        assert more[..i] == order;
      }
    }
  }

  /** internal/graph/memory.go:90-119: visiting every identifier, in whatever order the map
      yields them, accepts exactly the closed acyclic relations. */
  method CheckDependencies(deps: map<Key, seq<Key>>) returns (ok: bool)
    ensures ok <==> Closed(EdgesOf(deps), deps.Keys) && Acyclic(EdgesOf(deps))
  {
    ghost var e := EdgesOf(deps);
    var walk := new DependencyWalk(deps);
    var todo := deps.Keys;
    while todo != {}
      invariant walk.Valid() && walk.deps == deps && walk.visiting == {}
      invariant todo <= deps.Keys && deps.Keys - todo <= walk.done
      decreases |todo|
    {
      var id :| id in todo;
      assert [] + [id] == [id];
      var fine := walk.Visit(id, []);
      if !fine {
        return false;
      }
      todo := todo - {id};
    }
    forall a, b | (a, b) in e ensures a in deps && b in deps && a in walk.order {
      var i := Position(walk.order, a);
      assert b in walk.order[..i];
    }
    LayeredAcyclic(e, walk.order);
    return true;
  }
}

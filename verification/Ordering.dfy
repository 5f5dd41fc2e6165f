/** internal/graph/spec.go:526-544: Kahn's traversal, always taking the least ready node. */
module Ordering {
  import opened Keys
  import opened Graphs
  import opened Outcomes

  /** (a, b): the first node comes before the second. */
  type Arrows = seq<(Key, Key)>

  /** The dependency relation of the arrows: the target depends on the origin. */
  ghost function Needs(arrows: Arrows): Edges {
    set i | 0 <= i < |arrows| :: (arrows[i].1, arrows[i].0)
  }

  ghost predicate Free(e: Edges, left: set<Key>, n: Key) {
    forall b :: (n, b) in e ==> b !in left
  }

  /** The nodes whose origins have all been taken. */
  ghost function Ready(e: Edges, left: set<Key>): set<Key> {
    set n | n in left && Free(e, left, n)
  }

  ghost function Kahn(e: Edges, left: set<Key>): Outcome<seq<Key>> {
    if left == {} then Accepted([])
    else if Ready(e, left) == {} then Refused
    else
      var k := Least(Ready(e, left));
      match Kahn(e, left - {k})
      case Refused => Refused
      case Accepted(rest) => Accepted([k] + rest)
  }

  // ---------- the loop ----------

  function Children(next: map<Key, seq<Key>>, n: Key): seq<Key> {
    if n in next then next[n] else []
  }

  /** next lists the targets of each node. */
  ghost predicate Follows(next: map<Key, seq<Key>>, arrows: Arrows) {
    forall n :: Children(next, n) == Outgoing(arrows, n)
  }

  ghost function Outgoing(arrows: Arrows, n: Key): seq<Key> {
    if arrows == [] then []
    else
      var k := |arrows| - 1;
      Outgoing(arrows[..k], n) + (if arrows[k].0 == n then [arrows[k].1] else [])
  }

  ghost function Incoming(arrows: Arrows, left: set<Key>, n: Key): nat {
    if arrows == [] then 0
    else
      var k := |arrows| - 1;
      Incoming(arrows[..k], left, n) + (if arrows[k].1 == n && arrows[k].0 in left then 1 else 0)
  }

  lemma {:induction false} IncomingDrops(arrows: Arrows, left: set<Key>, id: Key, c: Key)
    requires id in left
    ensures Incoming(arrows, left, c) == Incoming(arrows, left - {id}, c) + multiset(Outgoing(arrows, id))[c]
  {
    if arrows != [] {
      IncomingDrops(arrows[..|arrows| - 1], left, id, c);
    }
  }

  lemma {:induction false} IncomingZero(arrows: Arrows, left: set<Key>, n: Key)
    ensures Incoming(arrows, left, n) == 0 <==> forall i :: 0 <= i < |arrows| && arrows[i].1 == n ==> arrows[i].0 !in left
  {
    if arrows != [] {
      var k := |arrows| - 1;
      IncomingZero(arrows[..k], left, n);
      assert forall i :: 0 <= i < k ==> arrows[..k][i] == arrows[i];
    }
  }

  lemma FreeMeans(arrows: Arrows, left: set<Key>, n: Key)
    ensures Free(Needs(arrows), left, n) <==> Incoming(arrows, left, n) == 0
  {
    IncomingZero(arrows, left, n);
    if Free(Needs(arrows), left, n) {
      forall i | 0 <= i < |arrows| && arrows[i].1 == n ensures arrows[i].0 !in left {
        assert (n, arrows[i].0) in Needs(arrows);
      }
    }
  }

  lemma {:induction false} OutgoingIs(arrows: Arrows, n: Key)
    ensures forall c :: c in Outgoing(arrows, n) <==> (c, n) in Needs(arrows)
  {
    if arrows != [] {
      var k := |arrows| - 1;
      OutgoingIs(arrows[..k], n);
      assert forall i :: 0 <= i < k ==> arrows[..k][i] == arrows[i];
      forall c ensures (c, n) in Needs(arrows) <==> (c, n) in Needs(arrows[..k]) || (c, n) == (arrows[k].1, arrows[k].0) {
        if (c, n) in Needs(arrows) {
          var i :| 0 <= i < |arrows| && (c, n) == (arrows[i].1, arrows[i].0);
          if i < k {
            assert arrows[..k][i] == arrows[i];
          }
        }
        if (c, n) in Needs(arrows[..k]) {
          var i :| 0 <= i < k && (c, n) == (arrows[..k][i].1, arrows[..k][i].0);
          assert arrows[i] == arrows[..k][i];
        }
      }
    }
  }

  ghost predicate Counts(arrows: Arrows, left: set<Key>, indegree: map<Key, int>) {
    indegree.Keys == left && forall n :: n in left ==> indegree[n] == Incoming(arrows, left, n)
  }

  /** spec.go:541-543 */
  method TakeOut(indegree: map<Key, int>, children: seq<Key>) returns (out: map<Key, int>)
    requires forall c :: c in children ==> c in indegree
    ensures out.Keys == indegree.Keys
    ensures forall n :: n in out ==> out[n] == indegree[n] - multiset(children)[n]
  {
    out := indegree;
    var i := 0;
    while i < |children|
      invariant 0 <= i <= |children| && out.Keys == indegree.Keys
      invariant forall n :: n in out ==> out[n] == indegree[n] - multiset(children[..i])[n]
    {
      assert children[..i + 1] == children[..i] + [children[i]];
      assert children[i] in children;
      out := out[children[i] := out[children[i]] - 1];
      i := i + 1;
    }
    assert children[..i] == children;
  }

  /** Nothing left points back at what was taken. */
  ghost predicate TakenClosed(e: Edges, left: set<Key>, taken: seq<Key>) {
    forall a, b :: a in taken && (a, b) in e ==> b !in left
  }

  lemma NextState(arrows: Arrows, left: set<Key>, indegree: map<Key, int>, id: Key, out: map<Key, int>)
    requires Counts(arrows, left, indegree) && id in left
    requires out.Keys == left - {id}
    requires forall n :: n in out ==> out[n] == indegree[n] - multiset(Outgoing(arrows, id))[n]
    ensures Counts(arrows, left - {id}, out)
  {
    forall n | n in out ensures out[n] == Incoming(arrows, left - {id}, n) {
      IncomingDrops(arrows, left, id, n);
    }
  }

  lemma ChildrenLeft(arrows: Arrows, nodes: set<Key>, left: set<Key>, taken: seq<Key>, id: Key)
    requires forall n :: n in nodes <==> n in left || n in taken
    requires Closed(Needs(arrows), nodes) && TakenClosed(Needs(arrows), left, taken)
    requires id in left && Free(Needs(arrows), left, id)
    ensures forall c :: c in Outgoing(arrows, id) ==> c in left - {id}
    ensures TakenClosed(Needs(arrows), left - {id}, taken + [id])
  {
    OutgoingIs(arrows, id);
  }

  function ReadyIn(indegree: map<Key, int>): set<Key> {
    set n | n in indegree && indegree[n] == 0
  }

  lemma ReadyMeans(arrows: Arrows, left: set<Key>, indegree: map<Key, int>)
    requires Counts(arrows, left, indegree)
    ensures ReadyIn(indegree) == Ready(Needs(arrows), left)
  {
    forall n | n in left ensures indegree[n] == 0 <==> Free(Needs(arrows), left, n) {
      FreeMeans(arrows, left, n);
    }
  }

  /** The answer so far, completed by the traversal of what is left. */
  ghost function Resume(e: Edges, left: set<Key>, taken: seq<Key>): Outcome<seq<Key>> {
    match Kahn(e, left)
    case Refused => Refused
    case Accepted(rest) => Accepted(taken + rest)
  }

  /** left is what remains of nodes after taking order, with its indegrees counted. */
  ghost predicate Underway(nodes: set<Key>, arrows: Arrows, left: set<Key>, order: seq<Key>, indegree: map<Key, int>) {
    && (forall n :: n in nodes <==> n in left || n in order)
    && |order| + |left| == |nodes|
    && Counts(arrows, left, indegree)
    && TakenClosed(Needs(arrows), left, order)
  }

  /** spec.go:537-543: take the least ready node and count its arrows out. */
  method Emit(nodes: set<Key>, ghost arrows: Arrows, next: map<Key, seq<Key>>, ghost left: set<Key>, order: seq<Key>, indegree: map<Key, int>, id: Key)
    returns (out: map<Key, int>)
    requires Follows(next, arrows)
    requires Closed(Needs(arrows), nodes) && Underway(nodes, arrows, left, order, indegree)
    requires id in Ready(Needs(arrows), left)
    ensures Underway(nodes, arrows, left - {id}, order + [id], out)
  {
    ChildrenLeft(arrows, nodes, left, order, id);
    out := TakeOut(indegree - {id}, Children(next, id));
    NextState(arrows, left, indegree, id, out);
  }

  /** spec.go:526-544, from the indegrees the edge loop counted. */
  method Traverse(nodes: set<Key>, ghost arrows: Arrows, next: map<Key, seq<Key>>, start: map<Key, int>) returns (out: Outcome<seq<Key>>)
    requires Follows(next, arrows)
    requires Closed(Needs(arrows), nodes) && Counts(arrows, nodes, start)
    ensures out == Kahn(Needs(arrows), nodes)
  {
    var indegree := start;
    var order: seq<Key> := [];
    ghost var left := nodes;
    ghost var e := Needs(arrows);
    ResumeStart(e, nodes);
    while |order| < |nodes|
      invariant Underway(nodes, arrows, left, order, indegree)
      invariant Resume(e, left, order) == Kahn(e, nodes)
      decreases |left|
    {
      ReadyMeans(arrows, left, indegree);
      var ready := ReadyIn(indegree);
      if ready == {} {
        return Refused;
      }
      var id := Least(ready);
      indegree := Emit(nodes, arrows, next, left, order, indegree, id);
      ResumeStep(e, left, order, id);
      order := order + [id];
      left := left - {id};
    }
    ResumeEnd(e, left, order);
    out := Accepted(order);
  }

  lemma ResumeEnd(e: Edges, left: set<Key>, taken: seq<Key>)
    requires |left| == 0
    ensures Resume(e, left, taken) == Accepted(taken)
  {
    assert left == {};
    assert taken + [] == taken;
  }

  lemma ResumeStart(e: Edges, nodes: set<Key>)
    ensures Resume(e, nodes, []) == Kahn(e, nodes)
  {
    if Kahn(e, nodes).Accepted? {
      assert [] + Kahn(e, nodes).value == Kahn(e, nodes).value;
    }
  }

  lemma ResumeStep(e: Edges, left: set<Key>, taken: seq<Key>, id: Key)
    requires Ready(e, left) != {} && id == Least(Ready(e, left))
    ensures Resume(e, left, taken) == Resume(e, left - {id}, taken + [id])
  {
    if Kahn(e, left - {id}).Accepted? {
      var rest := Kahn(e, left - {id}).value;
      assert taken + ([id] + rest) == taken + [id] + rest;
    }
  }

  // ---------- what the traversal computes ----------

  /** Each node once, after everything it depends on. */
  ghost predicate Topological(e: Edges, nodes: set<Key>, order: seq<Key>) {
    && (forall n :: n in order <==> n in nodes)
    && DistinctKeys(order, Itself)
    && (forall i, b :: 0 <= i < |order| && (order[i], b) in e && b in nodes ==> b in order[..i])
  }

  /** Lexicographic order of lists of keys. */
  ghost predicate NotAfter(a: seq<Key>, b: seq<Key>) {
    a == [] || (b != [] && (Before(a[0], b[0]) || (a[0] == b[0] && NotAfter(a[1..], b[1..]))))
  }

  lemma FirstIsReady(e: Edges, nodes: set<Key>, order: seq<Key>)
    requires Topological(e, nodes, order) && nodes != {}
    ensures order != [] && order[0] in Ready(e, nodes)
  {
    var n :| n in nodes;
    assert n in order;
    assert order[0] in order;
    var none := order[..0];
    assert forall b :: (order[0], b) in e && b in nodes ==> b in none;
  }

  /** A graph with any topological order is traversed, and nothing comes out smaller. */
  lemma {:induction false} KahnLeast(e: Edges, nodes: set<Key>, order: seq<Key>)
    requires Topological(e, nodes, order)
    ensures Kahn(e, nodes).Accepted? && NotAfter(Kahn(e, nodes).value, order)
    decreases |nodes|
  {
    if nodes != {} {
      FirstIsReady(e, nodes, order);
      var k := Least(Ready(e, nodes));
      assert k in order;
      var i := Position(order, k);
      MovedFirst(e, nodes, order, i);
      KahnLeast(e, nodes - {k}, Without(order, i));
      if order[0] == k {
        assert i == 0 && Without(order, i) == order[1..];
      }
    }
  }

  ghost function Without(order: seq<Key>, i: nat): (rest: seq<Key>)
    requires i < |order|
    ensures |rest| == |order| - 1
    ensures forall j :: 0 <= j < |rest| ==> rest[j] == order[Shifted(i, j)]
  {
    order[..i] + order[i + 1..]
  }

  ghost function Shifted(i: nat, j: nat): nat {
    if j < i then j else j + 1
  }

  lemma WithoutHolds(order: seq<Key>, i: nat, n: Key)
    requires i < |order| && DistinctKeys(order, Itself)
    ensures n in Without(order, i) <==> n in order && n != order[i]
  {
    var rest := Without(order, i);
    if n in rest {
      var j :| 0 <= j < |rest| && rest[j] == n;
      var m := Shifted(i, j);
      assert order[m] == n && Itself(order[m]) != Itself(order[i]);
    }
    if n in order && n != order[i] {
      var m :| 0 <= m < |order| && order[m] == n;
      assert rest[if m < i then m else m - 1] == n;
    }
  }

  lemma WithoutDistinct(order: seq<Key>, i: nat)
    requires i < |order| && DistinctKeys(order, Itself)
    ensures DistinctKeys(Without(order, i), Itself)
  {
    var rest := Without(order, i);
    forall a, b | 0 <= a < b < |rest| ensures Itself(rest[a]) != Itself(rest[b]) {
      assert Itself(order[Shifted(i, a)]) != Itself(order[Shifted(i, b)]);
    }
  }

  lemma WithoutBefore(order: seq<Key>, i: nat, j: nat, b: Key)
    requires i < |order| && j < |order| - 1 && b in order[..Shifted(i, j)] && b != order[i]
    ensures b in Without(order, i)[..j]
  {
    var x :| 0 <= x < Shifted(i, j) && order[x] == b;
    var y := if x < i then x else x - 1;
    assert y < j && Without(order, i)[y] == b;
    assert Without(order, i)[..j][y] == b;
  }

  /** Taking a ready node out of a topological order leaves one of the rest. */
  lemma MovedFirst(e: Edges, nodes: set<Key>, order: seq<Key>, i: nat)
    requires Topological(e, nodes, order) && i < |order|
    ensures Topological(e, nodes - {order[i]}, Without(order, i))
  {
    var rest := Without(order, i);
    WithoutDistinct(order, i);
    forall n ensures n in rest <==> n in nodes - {order[i]} {
      WithoutHolds(order, i, n);
    }
    forall j, b | 0 <= j < |rest| && (rest[j], b) in e && b in nodes - {order[i]} ensures b in rest[..j] {
      var m := Shifted(i, j);
      assert order[m] == rest[j];
      WithoutBefore(order, i, j, b);
    }
  }

  /** What comes out is a topological order. */
  lemma {:induction false} KahnTopological(e: Edges, nodes: set<Key>)
    requires Kahn(e, nodes).Accepted?
    ensures Topological(e, nodes, Kahn(e, nodes).value)
    decreases |nodes|
  {
    if nodes != {} {
      var k := Least(Ready(e, nodes));
      KahnTopological(e, nodes - {k});
      ReadyFirst(e, nodes, k, Kahn(e, nodes - {k}).value);
    }
  }

  lemma ReadyFirst(e: Edges, nodes: set<Key>, k: Key, rest: seq<Key>)
    requires k in Ready(e, nodes) && Topological(e, nodes - {k}, rest)
    ensures Topological(e, nodes, [k] + rest)
  {
    var order := [k] + rest;
    forall i, j | 0 <= i < j < |order| ensures Itself(order[i]) != Itself(order[j]) {
      assert order[j] == rest[j - 1] && rest[j - 1] in rest;
      assert i > 0 ==> order[i] == rest[i - 1] && Itself(rest[i - 1]) != Itself(rest[j - 1]);
    }
    forall i, b | 0 <= i < |order| && (order[i], b) in e && b in nodes ensures b in order[..i] {
      if i > 0 {
        assert order[i] == rest[i - 1];
        assert order[..i] == [k] + rest[..i - 1];
        assert (rest[i - 1], b) in e;
        assert b in nodes - {k} ==> b in rest[..i - 1];
      }
    }
  }

  lemma {:induction false} NoSourceCycles(e: Edges, left: set<Key>, seen: set<Key>, stack: seq<Key>, id: Key)
    requires Ready(e, left) == {} && id in left
    requires forall x :: x in stack <==> x in seen
    requires Path(e, stack + [id])
    ensures !Acyclic(e)
    decreases |left - seen|
  {
    if id in stack {
      CycleOnTrail(e, stack, id);
    } else {
      var b := Backward(e, left, id);
      TrailGrows(e, stack, id, b);
      StrictlyFewer(left - (seen + {id}), left - seen);
      NoSourceCycles(e, left, seen + {id}, stack + [id], b);
    }
  }

  lemma Backward(e: Edges, left: set<Key>, id: Key) returns (b: Key)
    requires Ready(e, left) == {} && id in left
    ensures (id, b) in e && b in left
  {
    assert id !in Ready(e, left);
    assert !Free(e, left, id);
    b :| (id, b) in e && b in left;
  }

  /** A refusal means a cycle. */
  lemma {:induction false} RefusedCyclic(e: Edges, nodes: set<Key>)
    requires Kahn(e, nodes).Refused?
    ensures !Acyclic(e)
    decreases |nodes|
  {
    if Ready(e, nodes) == {} {
      var id :| id in nodes;
      assert [] + [id] == [id];
      NoSourceCycles(e, nodes, {}, [], id);
    } else {
      RefusedCyclic(e, nodes - {Least(Ready(e, nodes))});
    }
  }

  /** The traversal goes through exactly when the graph has no cycle. */
  lemma KahnExact(e: Edges, nodes: set<Key>)
    requires Closed(e, nodes)
    ensures Kahn(e, nodes).Accepted? <==> Acyclic(e)
  {
    if Kahn(e, nodes).Accepted? {
      KahnTopological(e, nodes);
      var order := Kahn(e, nodes).value;
      assert Layered(e, order);
      LayeredAcyclic(e, order);
    } else {
      RefusedCyclic(e, nodes);
    }
  }
}

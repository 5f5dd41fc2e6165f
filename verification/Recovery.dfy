/** internal/graph/recovery.go:25-69: a recovery may only add instructions and evidence. */
module Recovery {
  import opened Keys
  import opened Outcomes
  import opened Spans
  import opened Coverage
  import opened Planner

  ghost predicate CoversAll(old_: seq<Span>, new_: seq<Span>) {
    forall s :: s in old_ ==> Covered(s, new_)
  }

  /** recovery.go:40-42, 46-51 */
  ghost predicate Extends(base: Node, v: Node) {
    && Utf8(v.instructions) && base.instructions <= v.instructions && |v.instructions| - |base.instructions| <= 8192
    && CoversAll(base.spans, v.spans) && CoversAll(base.rules, v.rules)
  }

  /** recovery.go:43-45, 52-56 */
  ghost predicate Adds(base: Node, v: Node) {
    v.instructions != base.instructions || !CoversAll(v.spans, base.spans) || !CoversAll(v.rules, base.rules)
  }

  /** recovery.go:58-60 */
  function Undone(base: Node, v: Node): Node {
    v.(instructions := base.instructions, spans := base.spans, rules := base.rules)
  }

  ghost predicate Based(prior: seq<Node>, v: Node) {
    NodeNamed(prior, v.id).Some? && Extends(NodeNamed(prior, v.id).value, v)
  }

  /** v adds to the node it extends, and is otherwise that node at place i of the prior list. */
  ghost predicate AddsTo(prior: seq<Node>, v: Node) {
    NodeNamed(prior, v.id).Some? && Adds(NodeNamed(prior, v.id).value, v)
  }

  ghost predicate OtherwiseSame(prior: seq<Node>, v: Node, was: Node) {
    NodeNamed(prior, v.id).Some? && was == Undone(NodeNamed(prior, v.id).value, v)
  }

  ghost predicate NodesRecover(prior: seq<Node>, next: seq<Node>) {
    && |prior| == |next|
    && (forall i :: 0 <= i < |next| ==> Based(prior, next[i]))
    && (exists i :: 0 <= i < |next| && AddsTo(prior, next[i]))
    && (forall i :: 0 <= i < |next| ==> OtherwiseSame(prior, next[i], prior[i]))
  }

  ghost predicate Recovers(prior: GraphSpec, next: GraphSpec, c: Codec) {
    && prior.header.version == V5 && next.header.version == V5
    && NodesRecover(prior.nodes, next.nodes)
    && prior == next.(nodes := prior.nodes)
    && Compiled(next, c).Accepted?
  }

  method CheckCovers(old_: seq<Span>, new_: seq<Span>) returns (ok: bool)
    ensures ok <==> CoversAll(old_, new_)
  {
    var k := 0;
    while k < |old_|
      invariant 0 <= k <= |old_| && forall i :: 0 <= i < k ==> Covered(old_[i], new_)
    {
      var covered := RequiredEvidenceCovered(old_[k], new_);
      if !covered {
        assert old_[k] in old_;
        return false;
      }
      k := k + 1;
    }
    return true;
  }

  method CheckNode(base: Node, v: Node) returns (ok: bool, adds: bool)
    ensures ok <==> Extends(base, v)
    ensures ok ==> (adds <==> Adds(base, v))
  {
    adds := false;
    if !Utf8(v.instructions) || !(base.instructions <= v.instructions) || |v.instructions| - |base.instructions| > 8192 {
      return false, adds;
    }
    adds := v.instructions != base.instructions;
    var spans := CheckCovers(base.spans, v.spans);
    var rules := CheckCovers(base.rules, v.rules);
    var oldSpans := CheckCovers(v.spans, base.spans);
    var oldRules := CheckCovers(v.rules, base.rules);
    ok := spans && rules;
    adds := adds || !oldSpans || !oldRules;
  }

  /** recovery.go:33-61 */
  method CheckNodes(prior: seq<Node>, next: seq<Node>) returns (ok: bool, changed: bool, restored: seq<Node>)
    ensures ok <==> forall i :: 0 <= i < |next| ==> Based(prior, next[i])
    ensures ok ==> (changed <==> exists i :: 0 <= i < |next| && AddsTo(prior, next[i]))
    ensures ok ==> |restored| == |next| && forall i :: 0 <= i < |next| ==> OtherwiseSame(prior, next[i], restored[i])
  {
    var old_ := NodeMap(prior);
    changed, restored := false, [];
    var i := 0;
    while i < |next|
      invariant 0 <= i <= |next| && |restored| == i
      invariant forall k :: 0 <= k < i ==> Based(prior, next[k])
      invariant forall k :: 0 <= k < i ==> OtherwiseSame(prior, next[k], restored[k])
      invariant changed <==> exists k :: 0 <= k < i && AddsTo(prior, next[k])
    {
      var v := next[i];
      if v.id !in old_ {
        assert !Based(prior, next[i]);
        return false, changed, restored;
      }
      var fine, adds := CheckNode(old_[v.id], v);
      if !fine {
        assert !Based(prior, next[i]);
        return false, changed, restored;
      }
      changed := changed || adds;
      restored := restored + [Undone(old_[v.id], v)];
      i := i + 1;
    }
    return true, changed, restored;
  }

  /** recovery.go:25-69 */
  method ValidateRecovery(prior: GraphSpec, next: GraphSpec, c: Codec) returns (ok: bool)
    ensures ok <==> Recovers(prior, next, c)
  {
    if prior.header.version != V5 || next.header.version != V5 || |prior.nodes| != |next.nodes| {
      return false;
    }
    var based, changed, restored := CheckNodes(prior.nodes, next.nodes);
    if !based || !changed {
      return false;
    }
    RestoredIs(prior.nodes, next.nodes, restored);
    if prior != next.(nodes := restored) {
      return false;
    }
    var plan := Compile(next, c);
    ok := plan.Accepted?;
  }

  lemma RestoredIs(prior: seq<Node>, next: seq<Node>, restored: seq<Node>)
    requires |prior| == |next| == |restored|
    requires forall i :: 0 <= i < |next| ==> OtherwiseSame(prior, next[i], restored[i])
    ensures prior == restored <==> forall i :: 0 <= i < |next| ==> OtherwiseSame(prior, next[i], prior[i])
  {
    if forall i :: 0 <= i < |next| ==> OtherwiseSame(prior, next[i], prior[i]) {
      forall i | 0 <= i < |next| ensures prior[i] == restored[i] {
        assert OtherwiseSame(prior, next[i], prior[i]) && OtherwiseSame(prior, next[i], restored[i]);
      }
    }
  }

  // ---------- every chain of recoveries ends ----------

  type Spot = (Key, string, int)

  /** The bytes some span shows. */
  ghost function Bytes(spans: seq<Span>): set<Spot> {
    set i, b | 0 <= i < |spans| && spans[i].start <= b < spans[i].end :: (spans[i].source, spans[i].sha, b)
  }

  lemma HeldIsByte(r: Span, spans: seq<Span>, b: int)
    ensures Holds(r, spans, b) <==> (r.source, r.sha, b) in Bytes(spans)
  {
  }

  lemma BytesKept(old_: seq<Span>, new_: seq<Span>)
    requires CoversAll(old_, new_)
    ensures Bytes(old_) <= Bytes(new_)
  {
    forall x | x in Bytes(old_) ensures x in Bytes(new_) {
      var i, b :| 0 <= i < |old_| && old_[i].start <= b < old_[i].end && x == (old_[i].source, old_[i].sha, b);
      assert old_[i] in old_ && Covered(old_[i], new_);
      assert Holds(old_[i], new_, b);
      HeldIsByte(old_[i], new_, b);
    }
  }

  lemma BytesGained(old_: seq<Span>, new_: seq<Span>)
    requires !CoversAll(new_, old_) && forall s :: s in new_ ==> s.start < s.end
    ensures !(Bytes(new_) <= Bytes(old_))
  {
    var s :| s in new_ && !Covered(s, old_);
    var b :| s.start <= b < s.end && !Holds(s, old_, b);
    HeldIsByte(s, old_, b);
    var i :| 0 <= i < |new_| && new_[i] == s;
    assert (s.source, s.sha, b) in Bytes(new_);
  }

  ghost function Weight(n: Node): nat {
    |n.instructions| + |Bytes(n.spans)| + |Bytes(n.rules)|
  }

  ghost function TotalWeight(nodes: seq<Node>): nat {
    if nodes == [] then 0 else TotalWeight(nodes[..|nodes| - 1]) + Weight(nodes[|nodes| - 1])
  }

  lemma SubsetSize<T>(a: set<T>, b: set<T>)
    requires a <= b
    ensures |a| <= |b| && (!(b <= a) ==> |a| < |b|)
  {
    var rest := b - a;
    assert b == a + rest;
    if !(b <= a) {
      var x :| x in b && x !in a;
      assert x in rest;
    }
  }

  ghost predicate NonEmptySpans(n: Node) {
    (forall s :: s in n.spans ==> s.start < s.end) && (forall s :: s in n.rules ==> s.start < s.end)
  }

  lemma WeightGrows(base: Node, v: Node)
    requires Extends(base, v) && NonEmptySpans(v)
    ensures Weight(base) <= Weight(v) && (Adds(base, v) ==> Weight(base) < Weight(v))
  {
    BytesKept(base.spans, v.spans);
    BytesKept(base.rules, v.rules);
    SubsetSize(Bytes(base.spans), Bytes(v.spans));
    SubsetSize(Bytes(base.rules), Bytes(v.rules));
    if !CoversAll(v.spans, base.spans) {
      BytesGained(base.spans, v.spans);
    }
    if !CoversAll(v.rules, base.rules) {
      BytesGained(base.rules, v.rules);
    }
    assert v.instructions != base.instructions ==> |base.instructions| < |v.instructions|;
  }

  lemma {:induction false} TotalGrows(a: seq<Node>, b: seq<Node>)
    requires |a| == |b| && forall i :: 0 <= i < |a| ==> Weight(a[i]) <= Weight(b[i])
    ensures TotalWeight(a) <= TotalWeight(b)
    ensures (exists i :: 0 <= i < |a| && Weight(a[i]) < Weight(b[i])) ==> TotalWeight(a) < TotalWeight(b)
  {
    if a != [] {
      var k := |a| - 1;
      assert forall i :: 0 <= i < k ==> a[..k][i] == a[i] && b[..k][i] == b[i];
      TotalGrows(a[..k], b[..k]);
      if i :| 0 <= i < |a| && Weight(a[i]) < Weight(b[i]) {
        if i < k {
          assert Weight(a[..k][i]) < Weight(b[..k][i]);
        }
      }
    }
  }

  /** Compiled nodes show only bytes of the declared sources. */
  ghost function AllBytes(table: Sources): set<Spot> {
    set id, b | id in table && 0 <= b < |table[id].text| :: (id, table[id].sha, b)
  }

  lemma BytesBounded(table: Sources, spans: seq<Span>)
    requires forall s :: s in spans ==> Readable(table, s)
    ensures Bytes(spans) <= AllBytes(table)
  {
    forall x | x in Bytes(spans) ensures x in AllBytes(table) {
      var i, b :| 0 <= i < |spans| && spans[i].start <= b < spans[i].end && x == (spans[i].source, spans[i].sha, b);
      assert spans[i] in spans;
    }
  }

  ghost function Ceiling(table: Sources): nat {
    65536 + 2 * |AllBytes(table)|
  }

  ghost predicate ReadableNode(table: Sources, n: Node) {
    && |n.instructions| <= 65536
    && (forall s :: s in n.spans ==> Readable(table, s)) && (forall s :: s in n.rules ==> Readable(table, s))
  }

  lemma WeightBounded(table: Sources, n: Node)
    requires ReadableNode(table, n)
    ensures Weight(n) <= Ceiling(table) && NonEmptySpans(n)
  {
    BytesBounded(table, n.spans);
    BytesBounded(table, n.rules);
    SubsetSize(Bytes(n.spans), AllBytes(table));
    SubsetSize(Bytes(n.rules), AllBytes(table));
  }

  lemma {:induction false} TotalBounded(table: Sources, nodes: seq<Node>)
    requires forall i :: 0 <= i < |nodes| ==> ReadableNode(table, nodes[i])
    ensures TotalWeight(nodes) <= |nodes| * Ceiling(table)
  {
    if nodes != [] {
      var k := |nodes| - 1;
      TotalBounded(table, nodes[..k]);
      WeightBounded(table, nodes[k]);
      OneTimesMore(k, Ceiling(table));
    }
  }

  lemma OneTimesMore(k: nat, x: nat)
    ensures (k + 1) * x == k * x + x
  {
  }

  ghost function TableOfSpec(s: GraphSpec, c: Codec): Sources {
    TableOf(FactsOf(s, c).sources)
  }

  lemma CompiledNodes(s: GraphSpec, c: Codec)
    requires Compiled(s, c).Accepted?
    ensures 1 <= |s.nodes| <= 32 && DistinctKeys(s.nodes, NodeId)
    ensures forall i :: 0 <= i < |s.nodes| ==> ReadableNode(TableOfSpec(s, c), s.nodes[i])
  {
    forall i | 0 <= i < |s.nodes| ensures ReadableNode(TableOfSpec(s, c), s.nodes[i]) {
      assert s.nodes[i] in FactsOf(s, c).nodes;
      assert NodeOk(s.nodes[i], s.header, FactsOf(s, c).operators, TableOfSpec(s, c));
    }
  }

  /** The node a recovered node extends is the one in its own place. */
  lemma BaseInPlace(prior: seq<Node>, next: seq<Node>, i: nat)
    requires NodesRecover(prior, next) && DistinctKeys(next, NodeId) && i < |next|
    ensures NodeNamed(prior, next[i].id) == Some(prior[i])
  {
    forall k | 0 <= k < |next| ensures NodeId(prior[k]) == NodeId(next[k]) {
      assert OtherwiseSame(prior, next[k], prior[k]);
    }
    assert prior[i] in prior;
    NamedHere(prior, prior[i]);
  }

  lemma NodesGrow(prior: seq<Node>, next: seq<Node>)
    requires NodesRecover(prior, next) && DistinctKeys(next, NodeId)
    requires forall i :: 0 <= i < |next| ==> NonEmptySpans(next[i])
    ensures forall i :: 0 <= i < |next| ==> StepAt(prior[i], next[i])
    ensures TotalWeight(prior) < TotalWeight(next)
  {
    forall i | 0 <= i < |next| ensures StepAt(prior[i], next[i]) {
      assert Based(prior, next[i]);
      BaseInPlace(prior, next, i);
      StepHolds(prior[i], next[i]);
    }
    var k :| 0 <= k < |next| && AddsTo(prior, next[k]);
    BaseInPlace(prior, next, k);
    assert StepAt(prior[k], next[k]);
    TotalGrows(prior, next);
  }

  /** Each accepted recovery keeps every byte each node could see, keeps its instructions as a prefix,
      and strictly adds weight somewhere. */
  lemma RecoveryGrows(prior: GraphSpec, next: GraphSpec, c: Codec)
    requires Recovers(prior, next, c)
    ensures forall i :: 0 <= i < |next.nodes| ==>
      && prior.nodes[i].instructions <= next.nodes[i].instructions
      && Bytes(prior.nodes[i].spans) <= Bytes(next.nodes[i].spans)
      && Bytes(prior.nodes[i].rules) <= Bytes(next.nodes[i].rules)
    ensures TotalWeight(prior.nodes) < TotalWeight(next.nodes)
  {
    CompiledNodes(next, c);
    forall i | 0 <= i < |next.nodes| ensures NonEmptySpans(next.nodes[i]) {
      WeightBounded(TableOfSpec(next, c), next.nodes[i]);
    }
    NodesGrow(prior.nodes, next.nodes);
    forall i | 0 <= i < |next.nodes|
      ensures prior.nodes[i].instructions <= next.nodes[i].instructions
        && Bytes(prior.nodes[i].spans) <= Bytes(next.nodes[i].spans)
        && Bytes(prior.nodes[i].rules) <= Bytes(next.nodes[i].rules)
    {
      assert StepAt(prior.nodes[i], next.nodes[i]);
    }
  }

  ghost predicate StepAt(base: Node, v: Node) {
    && base.instructions <= v.instructions
    && Bytes(base.spans) <= Bytes(v.spans) && Bytes(base.rules) <= Bytes(v.rules)
    && Weight(base) <= Weight(v) && (Adds(base, v) ==> Weight(base) < Weight(v))
  }

  lemma StepHolds(base: Node, v: Node)
    requires Extends(base, v) && NonEmptySpans(v)
    ensures StepAt(base, v)
  {
    BytesKept(base.spans, v.spans);
    BytesKept(base.rules, v.rules);
    WeightGrows(base, v);
  }

  ghost predicate Chain(specs: seq<GraphSpec>, c: Codec) {
    forall k :: 0 <= k < |specs| - 1 ==> Recovers(specs[k], specs[k + 1], c)
  }

  lemma {:induction false} ChainWeight(specs: seq<GraphSpec>, c: Codec)
    requires Chain(specs, c) && specs != []
    ensures TotalWeight(specs[|specs| - 1].nodes) >= |specs| - 1
    ensures specs[|specs| - 1] == specs[0].(nodes := specs[|specs| - 1].nodes)
    ensures |specs[|specs| - 1].nodes| == |specs[0].nodes|
    decreases |specs|
  {
    var n := |specs| - 1;
    if n > 0 {
      var front := specs[..n];
      assert forall k :: 0 <= k < n ==> front[k] == specs[k];
      ChainWeight(front, c);
      assert Recovers(specs[n - 1], specs[n], c);
      RecoveryGrows(specs[n - 1], specs[n], c);
    }
  }

  /** Every chain of accepted recoveries is finite: it is no longer than the instructions and the
      bytes of the sources that the nodes of the first spec could ever show. */
  lemma ChainsEnd(specs: seq<GraphSpec>, c: Codec)
    requires Chain(specs, c) && |specs| >= 2
    ensures |specs| - 1 <= |specs[0].nodes| * Ceiling(TableOfSpec(specs[0], c))
    ensures |specs[0].nodes| <= 32
  {
    var n := |specs| - 1;
    ChainWeight(specs, c);
    assert Recovers(specs[n - 1], specs[n], c);
    SameTable(specs[0], specs[n], c);
    SpecBounded(specs[n], c);
  }

  lemma SpecBounded(s: GraphSpec, c: Codec)
    requires Compiled(s, c).Accepted?
    ensures TotalWeight(s.nodes) <= |s.nodes| * Ceiling(TableOfSpec(s, c)) && |s.nodes| <= 32
  {
    CompiledNodes(s, c);
    TotalBounded(TableOfSpec(s, c), s.nodes);
  }

  lemma SameTable(s: GraphSpec, t: GraphSpec, c: Codec)
    requires t == s.(nodes := t.nodes)
    ensures TableOfSpec(t, c) == TableOfSpec(s, c)
  {
    assert t.sources == s.sources;
  }

  // ---------- what a recovery is ----------

  /** The node in the same place, with more instructions or evidence and nothing else different. */
  ghost predicate Grown(was: Node, v: Node) {
    && v.id == was.id && v.operator == was.operator && v.policy == was.policy && v.replay == was.replay
    && v.join == was.join && v.scopes == was.scopes && v.parameters == was.parameters
    && was.instructions <= v.instructions && |v.instructions| <= |was.instructions| + 0x2000 && Utf8(v.instructions)
    && (forall s :: s in was.spans ==> Covered(s, v.spans)) && (forall s :: s in was.rules ==> Covered(s, v.rules))
  }

  ghost predicate Gained(was: Node, v: Node) {
    || |v.instructions| > |was.instructions|
    || (exists s :: s in v.spans && !Covered(s, was.spans)) || (exists s :: s in v.rules && !Covered(s, was.rules))
  }

  /** A recovery is accepted exactly when both specs are of version 5, every node is the prior one in its place
      grown, some node gained, nothing else differs, and the new spec compiles. */
  lemma RecoveryExact(prior: GraphSpec, next: GraphSpec, c: Codec)
    ensures Recovers(prior, next, c) <==>
      && prior.header.version == V5 && next == prior.(nodes := next.nodes) && |prior.nodes| == |next.nodes|
      && (forall i :: 0 <= i < |next.nodes| ==> Grown(prior.nodes[i], next.nodes[i]))
      && (exists i :: 0 <= i < |next.nodes| && Gained(prior.nodes[i], next.nodes[i]))
      && Compiled(next, c).Accepted?
  {
    if Compiled(next, c).Accepted? && |prior.nodes| == |next.nodes| {
      CompiledNodes(next, c);
      InPlaceExactly(prior.nodes, next.nodes);
    }
  }

  lemma InPlaceExactly(prior: seq<Node>, next: seq<Node>)
    requires DistinctKeys(next, NodeId) && |prior| == |next|
    ensures NodesRecover(prior, next) <==>
      && (forall i :: 0 <= i < |next| ==> Grown(prior[i], next[i])) && (exists i :: 0 <= i < |next| && Gained(prior[i], next[i]))
  {
    if NodesRecover(prior, next) {
      forall i | 0 <= i < |next| ensures Grown(prior[i], next[i]) {
        BaseInPlace(prior, next, i);
        assert Based(prior, next[i]) && OtherwiseSame(prior, next[i], prior[i]);
      }
      var k :| 0 <= k < |next| && AddsTo(prior, next[k]);
      BaseInPlace(prior, next, k);
      GainedMeans(prior[k], next[k]);
    }
    if (forall i :: 0 <= i < |next| ==> Grown(prior[i], next[i])) && (exists i :: 0 <= i < |next| && Gained(prior[i], next[i])) {
      GrownRecovers(prior, next);
    }
  }

  lemma GainedMeans(was: Node, v: Node)
    requires was.instructions <= v.instructions
    ensures Gained(was, v) <==> Adds(was, v)
  {
  }

  lemma GrownRecovers(prior: seq<Node>, next: seq<Node>)
    requires DistinctKeys(next, NodeId) && |prior| == |next|
    requires forall i :: 0 <= i < |next| ==> Grown(prior[i], next[i])
    requires exists i :: 0 <= i < |next| && Gained(prior[i], next[i])
    ensures NodesRecover(prior, next)
  {
    forall i | 0 <= i < |next| ensures NodeNamed(prior, next[i].id) == Some(prior[i]) {
      forall k | 0 <= k < |next| ensures NodeId(prior[k]) == NodeId(next[k]) {
        assert Grown(prior[k], next[k]);
      }
      assert prior[i] in prior;
      NamedHere(prior, prior[i]);
    }
    forall i | 0 <= i < |next| ensures Based(prior, next[i]) && OtherwiseSame(prior, next[i], prior[i]) {
      assert Grown(prior[i], next[i]);
    }
    var k :| 0 <= k < |next| && Gained(prior[k], next[k]);
    assert Grown(prior[k], next[k]);
    GainedMeans(prior[k], next[k]);
    assert AddsTo(prior, next[k]);
  }
}

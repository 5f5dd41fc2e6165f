/** How the nodes of a compiled plan are connected, port by port: internal/graph/spec.go:457-562. */
module PortLaws {
  import opened Keys
  import opened Graphs
  import opened Outcomes
  import opened Spans
  import opened Coverage
  import CoverageLaws
  import opened Ordering
  import opened Planner

  // ---------- looking things up ----------

  /** Node n is declared with operator a. */
  ghost predicate Runs(s: GraphSpec, n: Node, a: Operator) {
    n in s.nodes && a in s.operators && a.id == n.operator
  }

  lemma SameId<T>(s: seq<T>, key: T -> Key, x: T, y: T)
    requires AllDistinct(s, key) && x in s && y in s && key(x) == key(y)
    ensures x == y
  {
    var i :| 0 <= i < |s| && s[i] == x;
    var j :| 0 <= j < |s| && s[j] == y;
  }

  lemma SameNode(s: GraphSpec, c: Codec, n: Node, m: Node)
    requires NoDuplicates(s, c) && n in s.nodes && m in s.nodes && n.id == m.id
    ensures n == m
  {
    SameId(s.nodes, NodeId, n, m);
  }

  lemma SameOperator(s: GraphSpec, c: Codec, a: Operator, b: Operator)
    requires NoDuplicates(s, c) && a in s.operators && b in s.operators && a.id == b.id
    ensures a == b
  {
    SameId(s.operators, OperatorId, a, b);
  }

  lemma SamePort(ports: seq<Port>, schemas: map<string, Schema>, p: Port, q: Port)
    requires PortsOk(ports, schemas) && p in ports && q in ports && p.name == q.name
    ensures p == q
  {
    SameId(ports, PortName, p, q);
  }

  // ---------- what an edge has to be ----------

  ghost predicate Carries(e: Edge) {
    e.kind == "artifact" || e.kind == "memory"
  }

  /** Output and input carry one schema. */
  ghost predicate Matches(a: Operator, out: Key, b: Operator, into: Key) {
    exists schema :: Port(out, schema) in a.outputs && Port(into, schema) in b.inputs
  }

  /** A condition is a verdict on what a command puts out as one. */
  ghost predicate Conditioned(e: Edge, a: Operator) {
    e.when == "" || ((e.when == "PASS" || e.when == "FAIL" || e.when == "UNKNOWN") && a.kind == "command" && Port(e.fromPort, "verdict-v1") in a.outputs)
  }

  ghost predicate EdgeFits(s: GraphSpec, e: Edge) {
    exists n, a, m, b :: Between(s, e, n, a, m, b)
  }

  ghost predicate Between(s: GraphSpec, e: Edge, n: Node, a: Operator, m: Node, b: Operator) {
    && Runs(s, n, a) && Runs(s, m, b) && n.id == e.fromNode && m.id == e.toNode && n.id != m.id
    && Conditioned(e, a)
    && if Carries(e) then Matches(a, e.fromPort, b, e.toPort)
       else e.kind == "control" && e.toPort == "" && (e.when == "" ==> e.fromPort == "")
  }

  lemma MatchesMeans(a: Operator, out: Key, b: Operator, into: Key)
    ensures Matches(a, out, b, into) <==> Feeds(a, out, b, into)
  {
    if Feeds(a, out, b, into) {
      var p :| p in a.outputs && p.name == out && Port(into, p.schema) in b.inputs;
      assert p == Port(out, p.schema);
    }
  }

  lemma OperatorOf(s: GraphSpec, c: Codec, n: Node) returns (a: Operator)
    requires Fields(s, c) && n in s.nodes
    ensures Runs(s, n, a)
  {
    assert NodeOk(n, s.header, FactsOf(s, c).operators, TableOf(FactsOf(s, c).sources));
    a :| a in Elements(s.operators) && a.id == n.operator;
  }

  lemma EdgeFound(s: GraphSpec, c: Codec, e: Edge) returns (n: Node, a: Operator, m: Node, b: Operator)
    requires Fields(s, c) && EdgeOk(e, Elements(s.nodes), Elements(s.operators))
    ensures Between(s, e, n, a, m, b)
  {
    n :| n in Elements(s.nodes) && n.id == e.fromNode;
    m :| m in Elements(s.nodes) && m.id == e.toNode;
    a := OperatorOf(s, c, n);
    b := OperatorOf(s, c, m);
    FoundConditioned(s, c, e, n, a);
    if Carries(e) {
      FoundMatches(s, c, e, n, a, m, b);
    }
  }

  lemma FoundConditioned(s: GraphSpec, c: Codec, e: Edge, n: Node, a: Operator)
    requires NoDuplicates(s, c) && EdgeOk(e, Elements(s.nodes), Elements(s.operators)) && Runs(s, n, a) && n.id == e.fromNode
    ensures Conditioned(e, a)
  {
    if e.when != "" {
      var x, op :| x in Elements(s.nodes) && op in Elements(s.operators) && x.id == e.fromNode && op.id == x.operator && op.kind == "command" && Port(e.fromPort, "verdict-v1") in op.outputs;
      SameNode(s, c, x, n);
      SameOperator(s, c, op, a);
    }
  }

  lemma FoundMatches(s: GraphSpec, c: Codec, e: Edge, n: Node, a: Operator, m: Node, b: Operator)
    requires NoDuplicates(s, c) && Wired(e, Elements(s.nodes), Elements(s.operators))
    requires Runs(s, n, a) && Runs(s, m, b) && n.id == e.fromNode && m.id == e.toNode
    ensures Matches(a, e.fromPort, b, e.toPort)
  {
    var x, y :| x in Elements(s.nodes) && y in Elements(s.nodes) && x.id == e.fromNode && y.id == e.toNode
      && exists f, g :: f in Elements(s.operators) && g in Elements(s.operators) && f.id == x.operator && g.id == y.operator && Feeds(f, e.fromPort, g, e.toPort);
    var f, g :| f in Elements(s.operators) && g in Elements(s.operators) && f.id == x.operator && g.id == y.operator && Feeds(f, e.fromPort, g, e.toPort);
    SameNode(s, c, x, n);
    SameNode(s, c, y, m);
    SameOperator(s, c, f, a);
    SameOperator(s, c, g, b);
    MatchesMeans(a, e.fromPort, b, e.toPort);
  }

  lemma EdgeAccepted(s: GraphSpec, e: Edge, n: Node, a: Operator, m: Node, b: Operator)
    requires Between(s, e, n, a, m, b)
    ensures EdgeOk(e, Elements(s.nodes), Elements(s.operators))
  {
    assert n in Elements(s.nodes) && m in Elements(s.nodes) && a in Elements(s.operators) && b in Elements(s.operators);
    if Carries(e) {
      MatchesMeans(a, e.fromPort, b, e.toPort);
      assert Wired(e, Elements(s.nodes), Elements(s.operators));
    }
    if e.when != "" {
      assert GivesVerdict(Elements(s.nodes), Elements(s.operators), e.fromNode, e.fromPort);
    }
  }

  lemma EdgeFitsMeans(s: GraphSpec, c: Codec, e: Edge)
    requires Fields(s, c)
    ensures EdgeFits(s, e) <==> EdgeOk(e, Elements(s.nodes), Elements(s.operators))
  {
    if EdgeOk(e, Elements(s.nodes), Elements(s.operators)) {
      var n, a, m, b := EdgeFound(s, c, e);
    }
    if EdgeFits(s, e) {
      var n, a, m, b :| Between(s, e, n, a, m, b);
      EdgeAccepted(s, e, n, a, m, b);
    }
  }

  // ---------- what a graph has to be ----------

  ghost predicate Enters(e: Edge, n: Node, port: Key) {
    Carries(e) && e.toNode == n.id && e.toPort == port
  }

  ghost predicate Branches(s: GraphSpec, e: Edge, w: string) {
    exists f :: f in s.edges && f.fromNode == e.fromNode && f.fromPort == e.fromPort && f.when == w
  }

  ghost predicate AllBranches(s: GraphSpec, e: Edge) {
    Branches(s, e, "PASS") && Branches(s, e, "FAIL") && Branches(s, e, "UNKNOWN")
  }

  ghost predicate Supplied(s: GraphSpec, n: Node, port: Key) {
    exists e :: e in s.edges && Enters(e, n, port)
  }

  /** Every edge fits and is listed once; every input is supplied, and by one edge; a condition has an edge for
      every verdict. */
  ghost predicate Connected(s: GraphSpec, c: Codec) {
    && DistinctKeys(s.edges, c.edge)
    && (forall e :: e in s.edges ==> EdgeFits(s, e))
    && (forall e, f, n: Node, port :: e in s.edges && f in s.edges && Enters(e, n, port) && Enters(f, n, port) ==> e == f)
    && (forall e :: e in s.edges && e.when != "" ==> AllBranches(s, e))
    && (forall n, a, p :: Runs(s, n, a) && p in a.inputs ==> Supplied(s, n, p.name))
  }

  lemma OnceMeans(s: GraphSpec)
    requires forall e :: e in s.edges ==> EdgeFits(s, e)
    ensures InputsOnce(Elements(s.edges)) <==>
      forall e, f, n: Node, port :: e in s.edges && f in s.edges && Enters(e, n, port) && Enters(f, n, port) ==> e == f
  {
    if forall e, f, n: Node, port :: e in s.edges && f in s.edges && Enters(e, n, port) && Enters(f, n, port) ==> e == f {
      forall e, f | e in Elements(s.edges) && f in Elements(s.edges) ensures OneFeed(e, f) {
        if Carries(e) && Carries(f) && e.toNode == f.toNode && e.toPort == f.toPort {
          assert EdgeFits(s, e);
          var n, a, m, b :| Between(s, e, n, a, m, b);
          assert Enters(e, m, e.toPort) && Enters(f, m, e.toPort);
        }
      }
    }
    if InputsOnce(Elements(s.edges)) {
      forall e, f, n: Node, port | e in s.edges && f in s.edges && Enters(e, n, port) && Enters(f, n, port) ensures e == f {
        assert OneFeed(e, f);
      }
    }
  }

  lemma BranchMeans(s: GraphSpec, e: Edge)
    ensures (forall w :: w in VERDICTS ==> Handled(Elements(s.edges), e, w)) <==> AllBranches(s, e)
  {
    HandledMeans(s, e, "PASS");
    HandledMeans(s, e, "FAIL");
    HandledMeans(s, e, "UNKNOWN");
  }

  lemma HandledMeans(s: GraphSpec, e: Edge, w: string)
    ensures Branches(s, e, w) <==> Handled(Elements(s.edges), e, w)
  {
  }

  lemma BranchesMean(s: GraphSpec)
    ensures BranchesHandled(Elements(s.edges)) <==> forall e :: e in s.edges && e.when != "" ==> AllBranches(s, e)
  {
    forall e ensures (forall w :: w in VERDICTS ==> Handled(Elements(s.edges), e, w)) <==> AllBranches(s, e) {
      BranchMeans(s, e);
    }
  }

  lemma SuppliedMean(s: GraphSpec)
    ensures InputsBound(Elements(s.nodes), Elements(s.operators), Elements(s.edges)) <==>
      forall n, a, p :: Runs(s, n, a) && p in a.inputs ==> Supplied(s, n, p.name)
  {
    forall n: Node, port ensures Supplied(s, n, port) <==> Fed(Elements(s.edges), n.id, port) {
      if Fed(Elements(s.edges), n.id, port) {
        var e :| e in Elements(s.edges) && Data(e) && e.toNode == n.id && e.toPort == port;
        assert Enters(e, n, port);
      }
    }
    if InputsBound(Elements(s.nodes), Elements(s.operators), Elements(s.edges)) {
      forall n, a, p | Runs(s, n, a) && p in a.inputs ensures Supplied(s, n, p.name) {
        assert n in Elements(s.nodes) && a in Elements(s.operators);
        assert Fed(Elements(s.edges), n.id, p.name);
      }
    }
    if forall n, a, p :: Runs(s, n, a) && p in a.inputs ==> Supplied(s, n, p.name) {
      forall n, a | n in Elements(s.nodes) && a in Elements(s.operators) && a.id == n.operator
        ensures forall p :: p in a.inputs ==> Fed(Elements(s.edges), n.id, p.name)
      {
        assert Runs(s, n, a);
      }
    }
  }

  lemma ConnectedMeans(s: GraphSpec, c: Codec)
    requires Fields(s, c)
    ensures Connected(s, c) <==> Wiring(s.edges, Elements(s.nodes), Elements(s.operators), c)
  {
    forall e ensures EdgeFits(s, e) <==> EdgeOk(e, Elements(s.nodes), Elements(s.operators)) {
      EdgeFitsMeans(s, c, e);
    }
    if forall e :: e in s.edges ==> EdgeFits(s, e) {
      OnceMeans(s);
    }
    BranchesMean(s);
    SuppliedMean(s);
  }

  /** Given well-formed declarations and coverage, a graph compiles exactly when it fits a request, is
      connected, and no node waits for itself. */
  lemma CompilesExactly(s: GraphSpec, c: Codec)
    requires Fields(s, c) && Complete(ForCoverage(s, c))
    ensures Compiled(s, c).Accepted? <==>
      WithinLimit(s, c) && Connected(s, c) && Acyclic(set e | e in s.edges :: (e.toNode, e.fromNode))
  {
    ConnectedMeans(s, c);
    assert RelationOf(Elements(s.edges)) == set e | e in s.edges :: (e.toNode, e.fromNode);
    if Declared(s, c) {
      CompileExact(s, c);
    }
  }

  /** In particular an edge between ports of different schemas is refused. */
  lemma SchemasDiffer(s: GraphSpec, c: Codec, e: Edge, n: Node, a: Operator, m: Node, b: Operator, p: Port, q: Port)
    requires e in s.edges && Carries(e) && Runs(s, n, a) && Runs(s, m, b) && n.id == e.fromNode && m.id == e.toNode
    requires p in a.outputs && p.name == e.fromPort && q in b.inputs && q.name == e.toPort && p.schema != q.schema
    ensures Compiled(s, c).Refused?
  {
    if Compiled(s, c).Accepted? {
      EdgeFitsMeans(s, c, e);
      var x, f, y, g :| Between(s, e, x, f, y, g);
      SameEnds(s, c, n, a, x, f);
      SameEnds(s, c, m, b, y, g);
      var schema :| Port(e.fromPort, schema) in a.outputs && Port(e.toPort, schema) in b.inputs;
      OneSchema(s, c, a, b, p, q, schema);
    }
  }

  lemma SameEnds(s: GraphSpec, c: Codec, n: Node, a: Operator, x: Node, f: Operator)
    requires NoDuplicates(s, c) && Runs(s, n, a) && Runs(s, x, f) && n.id == x.id
    ensures n == x && a == f
  {
    SameNode(s, c, n, x);
    SameOperator(s, c, a, f);
  }

  lemma PortsDeclared(s: GraphSpec, c: Codec, a: Operator)
    requires Fields(s, c) && a in s.operators
    ensures PortsOk(a.inputs, s.header.schemas) && PortsOk(a.outputs, s.header.schemas)
  {
    assert a in FactsOf(s, c).operators;
    assert OperatorOk(a, s.header);
  }

  lemma OneSchema(s: GraphSpec, c: Codec, a: Operator, b: Operator, p: Port, q: Port, schema: string)
    requires Fields(s, c) && a in s.operators && b in s.operators && p in a.outputs && q in b.inputs
    requires Port(p.name, schema) in a.outputs && Port(q.name, schema) in b.inputs
    ensures p.schema == q.schema == schema
  {
    PortsDeclared(s, c, a);
    PortsDeclared(s, c, b);
    SamePort(a.outputs, s.header.schemas, p, Port(p.name, schema));
    SamePort(b.inputs, s.header.schemas, q, Port(q.name, schema));
  }

  // ---------- what a plan is ----------

  ghost predicate Earlier(order: seq<Key>, a: Key, b: Key) {
    exists i, j :: 0 <= i < j < |order| && order[i] == a && order[j] == b
  }

  /** The edge brings the port what a node earlier in the order puts out, under the same schema. */
  ghost predicate Brings(plan: Plan, e: Edge, n: Node, p: Port) {
    && e in plan.spec.edges && Enters(e, n, p.name)
    && exists m, b :: Runs(plan.spec, m, b) && m.id == e.fromNode && Port(e.fromPort, p.schema) in b.outputs && Earlier(plan.order, m.id, n.id)
  }

  lemma PlanLists(s: GraphSpec, c: Codec)
    ensures var t := Canonical(s, c);
      && (forall n :: n in t.nodes <==> n in s.nodes) && (forall a :: a in t.operators <==> a in s.operators)
      && (forall e :: e in t.edges <==> e in s.edges)
  {
    SortByPermutes(s.nodes, NodeId);
    SortByPermutes(s.operators, OperatorId);
    SortByPermutes(s.edges, c.edge);
    SameElements(SortBy(s.nodes, NodeId), s.nodes);
    SameElements(SortBy(s.operators, OperatorId), s.operators);
    SameElements(SortBy(s.edges, c.edge), s.edges);
  }

  lemma TopologicalEarlier(r: Edges, ids: set<Key>, order: seq<Key>, a: Key, b: Key)
    requires Topological(r, ids, order) && (b, a) in r && a in ids && b in ids
    ensures Earlier(order, a, b)
  {
    var j :| 0 <= j < |order| && order[j] == b;
    assert a in order[..j];
    var i :| 0 <= i < j && order[..j][i] == a;
    assert order[i] == a;
  }

  lemma PlanOrdered(s: GraphSpec, c: Codec, plan: Plan)
    requires Compiled(s, c) == Accepted(plan)
    ensures Topological(RelationOf(Elements(s.edges)), NodeIds(Elements(s.nodes)), plan.order)
  {
    CompileExact(s, c);
  }

  lemma EdgeOrdered(s: GraphSpec, c: Codec, plan: Plan, e: Edge, m: Node, n: Node)
    requires Compiled(s, c) == Accepted(plan) && e in s.edges && m in s.nodes && n in s.nodes && m.id == e.fromNode && n.id == e.toNode
    ensures Earlier(plan.order, m.id, n.id)
  {
    PlanOrdered(s, c, plan);
    assert m.id in NodeIds(Elements(s.nodes)) && n.id in NodeIds(Elements(s.nodes)) && e in Elements(s.edges);
    TopologicalEarlier(RelationOf(Elements(s.edges)), NodeIds(Elements(s.nodes)), plan.order, m.id, n.id);
  }

  lemma Supplier(s: GraphSpec, c: Codec, n: Node, a: Operator, p: Port) returns (e: Edge, m: Node, b: Operator)
    requires Fields(s, c) && Connected(s, c) && Runs(s, n, a) && p in a.inputs
    ensures e in s.edges && Enters(e, n, p.name) && Runs(s, m, b) && m.id == e.fromNode && Port(e.fromPort, p.schema) in b.outputs
  {
    assert Supplied(s, n, p.name);
    e :| e in s.edges && Enters(e, n, p.name);
    assert EdgeFits(s, e);
    var y, g;
    m, b, y, g :| Between(s, e, m, b, y, g);
    SameEnds(s, c, n, a, y, g);
    var schema :| Port(e.fromPort, schema) in b.outputs && Port(e.toPort, schema) in a.inputs;
    OneSchema(s, c, b, a, Port(e.fromPort, schema), p, schema);
  }

  /** In every plan each input a node's operator declares is entered by exactly one edge, from a node earlier in
      the order whose operator declares that output with the same schema. */
  lemma PlanPorts(s: GraphSpec, c: Codec, plan: Plan, n: Node, a: Operator, p: Port) returns (e: Edge)
    requires Compiled(s, c) == Accepted(plan) && Runs(plan.spec, n, a) && p in a.inputs
    ensures Brings(plan, e, n, p) && DistinctKeys(plan.spec.edges, c.edge)
    ensures forall f :: f in plan.spec.edges && Enters(f, n, p.name) ==> f == e
  {
    PlanLists(s, c);
    ConnectedMeans(s, c);
    var m, b;
    e, m, b := Supplier(s, c, n, a, p);
    EdgeOrdered(s, c, plan, e, m, n);
    assert Runs(plan.spec, m, b);
    PlanEdgesDistinct(s, c);
  }

  lemma PlanEdgesDistinct(s: GraphSpec, c: Codec)
    requires DistinctKeys(s.edges, c.edge)
    ensures DistinctKeys(Canonical(s, c).edges, c.edge)
  {
    SortByPermutes(s.edges, c.edge);
    DistinctPermutes(s.edges, SortBy(s.edges, c.edge), c.edge);
  }

  // ---------- what else an accepted spec declares ----------

  /** The span lies in a declared source, under the digest of its text. */
  ghost predicate InSource(s: GraphSpec, c: Codec, sp: Span) {
    exists d :: d in s.sources && d.id == sp.source && sp.sha == c.hash(d.text) && 0 <= sp.start < sp.end <= |d.text|
  }

  lemma ReadInSource(s: GraphSpec, c: Codec, sp: Span)
    requires Readable(TableOf(FactsOf(s, c).sources), sp)
    ensures InSource(s, c, sp)
  {
    var frozen := FreezeAll(s.sources, c.hash);
    var texts := set d | d in Elements(frozen) && d.id == sp.source;
    assert |texts| == 1;
    TheOnly(texts);
    var d :| d in texts;
    var i :| 0 <= i < |frozen| && frozen[i] == d;
    assert s.sources[i] in s.sources;
  }

  /** Agents run validated executions, safe to repeat where they may be and metered where a cost is set;
      commands run once and unmetered; joins run nothing. */
  ghost predicate OperatorRuns(a: Operator, l: Limits) {
    || (a.kind == "agent" && a.execution.Some? && a.execution.value.valid && a.profile == ""
        && (l.attempts > 1 ==> a.execution.value.replaySafe) && (l.maxCost.Some? ==> a.execution.value.claudeHttp))
    || (a.kind == "command" && a.execution.None? && a.profile != "" && l.attempts == 1 && l.maxCost.None?)
    || (a.kind == "join" && a.execution.None? && a.profile == "")
  }

  ghost predicate NodeDeclared(s: GraphSpec, c: Codec, n: Node) {
    && (exists a :: Runs(s, n, a) && (a.kind == "join" <==> n.join == "all_success" || n.join == "selected_success") && (a.kind != "join" ==> n.join == ""))
    && (forall sp :: sp in n.spans || sp in n.rules ==> InSource(s, c, sp))
    && (n.policy.Some? ==> forall sp :: sp in n.policy.value.required ==> InSource(s, c, sp))
  }

  ghost predicate OutputDeclared(s: GraphSpec, o: Output) {
    exists n, a, p :: Runs(s, n, a) && n.id == o.node && p in a.outputs && p.name == o.port
  }

  ghost predicate LimitsKept(l: Limits) {
    1 <= l.parallelism <= 8 && 1 <= l.timeout <= 86400 && 1 <= l.attempts <= 3 && 0 <= l.replans <= 8
  }

  lemma OperatorDeclared(s: GraphSpec, c: Codec, a: Operator)
    requires Fields(s, c) && a in s.operators
    ensures OperatorRuns(a, s.header.limits)
  {
    assert a in FactsOf(s, c).operators;
    assert OperatorOk(a, s.header);
  }

  lemma NodeDeclares(s: GraphSpec, c: Codec, n: Node)
    requires Fields(s, c) && n in s.nodes
    ensures NodeDeclared(s, c, n)
  {
    var f := FactsOf(s, c);
    assert n in f.nodes && NodeOk(n, s.header, f.operators, TableOf(f.sources));
    var a := OperatorOf(s, c, n);
    assert a in f.operators;
    forall sp | Readable(TableOf(f.sources), sp) ensures InSource(s, c, sp) {
      ReadInSource(s, c, sp);
    }
    NodeJoins(s, c, n, a);
  }

  lemma NodeJoins(s: GraphSpec, c: Codec, n: Node, a: Operator)
    requires Fields(s, c) && Runs(s, n, a)
    ensures (a.kind == "join" <==> n.join == "all_success" || n.join == "selected_success") && (a.kind != "join" ==> n.join == "")
  {
    var f := FactsOf(s, c);
    assert a in f.operators && NodeOk(n, s.header, f.operators, TableOf(f.sources));
  }

  lemma OutputDeclares(s: GraphSpec, c: Codec, o: Output)
    requires Fields(s, c) && o in s.outputs
    ensures OutputDeclared(s, o)
  {
    var f := FactsOf(s, c);
    assert o in f.outputs && Offers(f.nodes, f.operators, o.node, o.port);
    var n, a :| n in f.nodes && a in f.operators && n.id == o.node && a.id == n.operator && exists p :: p in a.outputs && p.name == o.port;
    assert Runs(s, n, a);
  }

  /** Results are reused only for nodes that may be replayed. */
  ghost predicate ReuseDeclared(s: GraphSpec, r: Reuse) {
    exists n :: n in s.nodes && n.id == r.node && n.replay != ""
  }

  ghost predicate ImportDeclared(s: GraphSpec, b: ImportBinding) {
    && b.nodes != [] && (forall id :: id in b.nodes ==> exists n :: n in s.nodes && n.id == id)
    && forall i, j :: 0 <= i < j < |b.nodes| ==> b.nodes[i] != b.nodes[j]
  }

  /** No grant serves twice, and no node is reused twice. */
  ghost predicate GrantsOnce(s: GraphSpec) {
    && (forall i, j :: 0 <= i < j < |s.reuse| ==> s.reuse[i].grant != s.reuse[j].grant && s.reuse[i].node != s.reuse[j].node)
    && (forall i, j :: 0 <= i < j < |s.imports| ==> s.imports[i].grant != s.imports[j].grant)
    && (forall r, b :: r in s.reuse && b in s.imports ==> r.grant != b.grant)
  }

  /** What is brought in from other runs is bound to declared nodes, under a grant of its own. */
  lemma PlanGrants(s: GraphSpec, c: Codec)
    requires Compiled(s, c).Accepted?
    ensures forall r :: r in s.reuse ==> ReuseDeclared(s, r)
    ensures forall b :: b in s.imports ==> ImportDeclared(s, b)
    ensures GrantsOnce(s)
  {
    var nodes := Elements(s.nodes);
    var taken := set r | r in s.reuse :: r.grant;
    GrantsMean(s, c);
    assert ReusesOk(s.reuse, nodes) && ImportsOk(s.imports, nodes, taken);
    ReuseDistinct(s.reuse);
    ImportDistinct(s.imports);
    forall r | r in s.reuse ensures ReuseDeclared(s, r) {
      assert ReuseOk(r, nodes);
    }
    forall b | b in s.imports ensures ImportDeclared(s, b) {
      ImportMeans(s, b);
    }
    forall r, b | r in s.reuse && b in s.imports ensures r.grant != b.grant {
      assert r.grant in taken;
    }
  }

  lemma ReuseDistinct(rs: seq<Reuse>)
    requires AllDistinct(rs, ReuseNode) && AllDistinct(rs, ReuseGrant)
    ensures forall i, j :: 0 <= i < j < |rs| ==> rs[i].grant != rs[j].grant && rs[i].node != rs[j].node
  {
    forall i, j | 0 <= i < j < |rs| ensures rs[i].grant != rs[j].grant && rs[i].node != rs[j].node {
      assert ReuseNode(rs[i]) != ReuseNode(rs[j]) && ReuseGrant(rs[i]) != ReuseGrant(rs[j]);
    }
  }

  lemma ImportDistinct(bs: seq<ImportBinding>)
    requires AllDistinct(bs, ImportGrant)
    ensures forall i, j :: 0 <= i < j < |bs| ==> bs[i].grant != bs[j].grant
  {
    forall i, j | 0 <= i < j < |bs| ensures bs[i].grant != bs[j].grant {
      assert ImportGrant(bs[i]) != ImportGrant(bs[j]);
    }
  }

  lemma ImportMeans(s: GraphSpec, b: ImportBinding)
    requires ImportOk(b, Elements(s.nodes))
    ensures ImportDeclared(s, b)
  {
    forall i, j | 0 <= i < j < |b.nodes| ensures b.nodes[i] != b.nodes[j] {
      assert Itself(b.nodes[i]) != Itself(b.nodes[j]);
    }
    forall id | id in b.nodes ensures exists n :: n in s.nodes && n.id == id {
      assert HasNode(Elements(s.nodes), id);
    }
  }

  /** Everything a compiled spec refers to is declared, and runs within its limits. */
  lemma PlanDeclares(s: GraphSpec, c: Codec)
    requires Compiled(s, c).Accepted?
    ensures LimitsKept(s.header.limits)
    ensures forall a :: a in s.operators ==> OperatorRuns(a, s.header.limits)
    ensures forall n :: n in s.nodes ==> NodeDeclared(s, c, n)
    ensures forall o :: o in s.outputs ==> OutputDeclared(s, o)
    ensures forall d :: d in s.sources ==> d.sha == "" || d.sha == c.hash(d.text)
    ensures forall sp :: sp in s.header.rules ==> InSource(s, c, sp)
  {
    forall a | a in s.operators ensures OperatorRuns(a, s.header.limits) {
      OperatorDeclared(s, c, a);
    }
    forall n | n in s.nodes ensures NodeDeclared(s, c, n) {
      NodeDeclares(s, c, n);
    }
    forall o | o in s.outputs ensures OutputDeclared(s, o) {
      OutputDeclares(s, c, o);
    }
    forall sp | sp in s.header.rules ensures InSource(s, c, sp) {
      ReadInSource(s, c, sp);
    }
  }

  /** The node loads the span and runs an agent or a command. */
  ghost predicate Loads(s: GraphSpec, id: Key, sp: Span) {
    exists n, a :: Runs(s, n, a) && n.id == id && (a.kind == "agent" || a.kind == "command") && Covered(sp, s.header.rules + n.rules + n.spans)
  }

  /** In a compiled version 5 spec every span of every obligation is loaded by every node the obligation is bound
      to, and that node runs an agent or a command. */
  lemma PlanCovers(s: GraphSpec, c: Codec, o: Obligation, id: Key, sp: Span)
    requires Compiled(s, c).Accepted? && s.header.version == V5
    ensures s.header.coverage.Some?
    ensures o in s.header.coverage.value.obligations && id in o.nodes && sp in o.sources ==> Loads(s, id, sp) && InSource(s, c, sp)
  {
    var spec := ForCoverage(s, c);
    if o in s.header.coverage.value.obligations && id in o.nodes && sp in o.sources {
      ObligationBinds(spec, o, id, sp);
      var n := NodeNamed(spec.nodes, id).value;
      CoverageLaws.HoldsMeans(spec.nodes, id, n);
      assert n in s.nodes;
      ReadInSource(s, c, sp);
      ExecutableRuns(s, c, n);
    }
  }

  lemma ObligationBinds(spec: Spec, o: Obligation, id: Key, sp: Span)
    requires Complete(spec) && spec.v5 && o in spec.catalog.value.obligations && id in o.nodes && sp in o.sources
    ensures Coverage.Runs(spec, id) && Readable(spec.sources, sp)
    ensures Covered(sp, spec.rules + NodeNamed(spec.nodes, id).value.rules + NodeNamed(spec.nodes, id).value.spans)
  {
    assert ValidObligation(spec, o, CheckIds(spec.catalog.value.checks));
    assert !Missing(spec, o, id, sp);
  }

  lemma ExecutableRuns(s: GraphSpec, c: Codec, n: Node)
    requires Fields(s, c) && n in s.nodes && n.operator in ForCoverage(s, c).executable && ForCoverage(s, c).executable[n.operator]
    ensures exists a :: Runs(s, n, a) && (a.kind == "agent" || a.kind == "command")
  {
    assert Executes(FactsOf(s, c).operators, n.operator);
    var a :| a in FactsOf(s, c).operators && a.id == n.operator && (a.kind == "agent" || a.kind == "command");
    assert Runs(s, n, a);
  }

  /** A plan lists what the spec declared, in order of identity, with every digest filled in; with a cost
      limit it runs one node at a time. */
  lemma PlanShape(s: GraphSpec, c: Codec, plan: Plan)
    requires Compiled(s, c) == Accepted(plan)
    ensures plan.spec.header == s.header
    ensures multiset(plan.spec.nodes) == multiset(s.nodes) && multiset(plan.spec.operators) == multiset(s.operators)
    ensures multiset(plan.spec.edges) == multiset(s.edges) && multiset(plan.spec.outputs) == multiset(s.outputs)
    ensures Ascends(plan.spec.nodes, NodeId) && Ascends(plan.spec.operators, OperatorId) && Ascends(plan.spec.sources, SourceDeclId)
    ensures Ascends(plan.spec.edges, c.edge) && Ascends(plan.spec.outputs, c.output)
    ensures multiset(plan.spec.reuse) == multiset(s.reuse) && Ascends(plan.spec.reuse, ReuseNode)
    ensures forall b :: b in plan.spec.imports <==> exists o :: o in s.imports && SortedBinding(b, o)
    ensures forall d :: d in plan.spec.sources <==> exists o :: o in s.sources && d == o.(sha := c.hash(o.text))
    ensures plan.requested == s.header.limits.parallelism && (plan.metered <==> s.header.limits.maxCost.Some?)
    ensures plan.effective == if plan.metered then 1 else plan.requested
  {
    PlanSorted(s, c);
    PlanSources(s, c);
    PlanImports(s, c);
    SortByPermutes(s.reuse, ReuseNode);
    SortByAscends(s.reuse, ReuseNode);
  }

  /** The same binding with its nodes in order. */
  ghost predicate SortedBinding(b: ImportBinding, o: ImportBinding) {
    b.grant == o.grant && multiset(b.nodes) == multiset(o.nodes) && Ascends(b.nodes, Itself)
  }

  lemma SortedBindingIs(b: ImportBinding, o: ImportBinding)
    ensures SortedBinding(b, o) <==> b == SortedImport(o)
  {
    SortByPermutes(o.nodes, Itself);
    SortByAscends(o.nodes, Itself);
    if SortedBinding(b, o) {
      SortedUnique(b.nodes, SortBy(o.nodes, Itself));
    }
  }

  lemma PlanImports(s: GraphSpec, c: Codec)
    ensures forall b :: b in Canonical(s, c).imports <==> exists o :: o in s.imports && SortedBinding(b, o)
  {
    var sorted := SortedImports(s.imports);
    SortByPermutes(sorted, ImportGrant);
    SameElements(SortBy(sorted, ImportGrant), sorted);
    forall b | b in sorted ensures exists o :: o in s.imports && SortedBinding(b, o) {
      var i :| 0 <= i < |sorted| && sorted[i] == b;
      SortedBindingIs(b, s.imports[i]);
      assert s.imports[i] in s.imports;
    }
    forall b, o | o in s.imports && SortedBinding(b, o) ensures b in sorted {
      SortedBindingIs(b, o);
      var i :| 0 <= i < |s.imports| && s.imports[i] == o;
      assert sorted[i] in sorted;
    }
  }

  lemma PlanSorted(s: GraphSpec, c: Codec)
    ensures var t := Canonical(s, c);
      && multiset(t.nodes) == multiset(s.nodes) && multiset(t.operators) == multiset(s.operators)
      && multiset(t.edges) == multiset(s.edges) && multiset(t.outputs) == multiset(s.outputs)
      && Ascends(t.nodes, NodeId) && Ascends(t.operators, OperatorId) && Ascends(t.sources, SourceDeclId)
      && Ascends(t.edges, c.edge) && Ascends(t.outputs, c.output)
  {
    SortByPermutes(s.nodes, NodeId);
    SortByPermutes(s.operators, OperatorId);
    SortByPermutes(s.edges, c.edge);
    SortByPermutes(s.outputs, c.output);
    SortByAscends(s.nodes, NodeId);
    SortByAscends(s.operators, OperatorId);
    SortByAscends(s.edges, c.edge);
    SortByAscends(s.outputs, c.output);
    SortByAscends(FreezeAll(s.sources, c.hash), SourceDeclId);
  }

  lemma PlanSources(s: GraphSpec, c: Codec)
    ensures forall d :: d in Canonical(s, c).sources <==> exists o :: o in s.sources && d == o.(sha := c.hash(o.text))
  {
    var frozen := FreezeAll(s.sources, c.hash);
    SortByPermutes(frozen, SourceDeclId);
    SameElements(SortBy(frozen, SourceDeclId), frozen);
    forall d | d in frozen ensures exists o :: o in s.sources && d == o.(sha := c.hash(o.text)) {
      var i :| 0 <= i < |frozen| && frozen[i] == d;
      assert s.sources[i] in s.sources;
    }
    forall o | o in s.sources ensures o.(sha := c.hash(o.text)) in frozen {
      var i :| 0 <= i < |s.sources| && s.sources[i] == o;
      assert frozen[i] in frozen;
    }
  }
}

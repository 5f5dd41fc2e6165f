/** internal/graph/spec.go:248-575: compiling a declared graph into a frozen plan. */
module Planner {
  import opened Keys
  import opened Graphs
  import opened Outcomes
  import opened Spans
  import opened Coverage
  import opened Ordering

  datatype Version = V1 | V2 | V3 | V4 | V5 | Unsupported

  datatype SourceDecl = SourceDecl(id: Key, role: string, index: int, text: Text, sha: string)

  datatype Port = Port(name: Key, schema: string)

  /** valid is the verdict of job.Execution.Validate. */
  datatype Execution = Execution(valid: bool, replaySafe: bool, claudeHttp: bool, text: string)

  datatype Operator = Operator(
    id: Key,
    version: string,
    kind: string,
    inputs: seq<Port>,
    outputs: seq<Port>,
    execution: Option<Execution>,
    profile: Key)

  datatype Edge = Edge(fromNode: Key, fromPort: Key, toNode: Key, toPort: Key, kind: string, when: string)

  datatype Reuse = Reuse(grant: Key, node: Key)

  datatype ImportBinding = ImportBinding(grant: Key, nodes: seq<Key>)

  datatype Limits = Limits(parallelism: int, timeout: int, attempts: int, replans: int, maxCost: Option<int>, maxTokens: Option<int>)

  /** A port schema definition: its length and whether it resolves. */
  datatype Schema = Schema(bytes: nat, resolves: bool)

  datatype Header = Header(
    version: Version,
    project: string,
    repository: string,
    commit: string,
    evaluator: (string, string),
    limits: Limits,
    rules: seq<Span>,
    schemas: map<string, Schema>,
    coverage: Option<Catalog>)

  datatype GraphSpec = GraphSpec(
    header: Header,
    sources: seq<SourceDecl>,
    operators: seq<Operator>,
    nodes: seq<Node>,
    edges: seq<Edge>,
    outputs: seq<Output>,
    reuse: seq<Reuse>,
    imports: seq<ImportBinding>)

  /** The lengths of encoded parts. frame is what encloses the lists, given how long they are, and
      binding what encloses the node identities of an import. */
  datatype Lengths = Lengths(
    frame: (Header, seq<nat>) -> nat,
    source: SourceDecl -> nat,
    operator: Operator -> nat,
    node: Node -> nat,
    edge: Edge -> nat,
    output: Output -> nat,
    reuse: Reuse -> nat,
    binding: (Key, nat) -> nat,
    key: Key -> nat)

  /** The digest of a text, the canonical encodings edges and outputs are sorted by, and how long
      encodings are. */
  datatype Codec = Codec(hash: Text -> string, edge: Edge -> Key, output: Output -> Key, lengths: Lengths)

  const MAX_REQUEST := 0x4_0000

  function Together<T>(s: seq<T>, length: T -> nat): nat {
    if s == [] then 0 else length(s[0]) + Together(s[1..], length)
  }

  function BindingLength(b: ImportBinding, n: Lengths): nat {
    n.binding(b.grant, |b.nodes|) + Together(b.nodes, n.key)
  }

  function BindingLengths(n: Lengths): ImportBinding -> nat {
    b => BindingLength(b, n)
  }

  /** The length of an encoded spec. */
  function RequestLength(s: GraphSpec, n: Lengths): nat {
    n.frame(s.header, [|s.sources|, |s.operators|, |s.nodes|, |s.edges|, |s.outputs|, |s.reuse|, |s.imports|])
    + Together(s.sources, n.source) + Together(s.operators, n.operator) + Together(s.nodes, n.node)
    + Together(s.edges, n.edge) + Together(s.outputs, n.output) + Together(s.reuse, n.reuse)
    + Together(s.imports, BindingLengths(n))
  }

  predicate WithinLimit(s: GraphSpec, c: Codec) {
    RequestLength(s, c.lengths) <= MAX_REQUEST
  }

  /** The digest of the plan is idealised as the spec it was computed from. */
  datatype Plan = Plan(spec: GraphSpec, order: seq<Key>, requested: int, effective: int, metered: bool)

  function SourceDeclId(s: SourceDecl): Key { s.id }
  function OperatorId(o: Operator): Key { o.id }
  function ReuseNode(r: Reuse): Key { r.node }
  function ReuseGrant(r: Reuse): Key { r.grant }
  function ImportGrant(b: ImportBinding): Key { b.grant }
  function PortName(p: Port): Key { p.name }

  predicate AllDistinct<T>(s: seq<T>, key: T -> Key)
    ensures AllDistinct(s, key) <==> DistinctKeys(s, key)
  {
    forall i, j :: 0 <= i < j < |s| ==> key(s[i]) != key(s[j])
  }

  // ---------- declarations, as facts about sets of them ----------

  predicate CommitPattern(s: string) {
    (|s| == 40 || |s| == 64) && forall i :: 0 <= i < |s| ==> '0' <= s[i] <= '9' || 'a' <= s[i] <= 'f'
  }

  /** spec.go:264-276 */
  predicate HeaderOk(h: Header) {
    var l := h.limits;
    && h.version != Unsupported && Ref(h.project) && Ref(h.repository) && CommitPattern(h.commit)
    && Ref(h.evaluator.0) && Ref(h.evaluator.1)
    && 1 <= l.parallelism <= 8 && 1 <= l.timeout <= 86400 && 1 <= l.attempts <= 3 && 0 <= l.replans <= 8
    && l.maxTokens.None? && (l.maxCost.Some? ==> l.maxCost.value >= 1)
    && |h.rules| <= 128
    && 1 <= |h.schemas| <= 64
    && forall name :: name in h.schemas ==> Ref(name) && h.schemas[name].bytes <= 65536 && h.schemas[name].resolves
  }

  /** spec.go:277, 424, 427 */
  predicate SizesOk(s: GraphSpec) {
    && 1 <= |s.nodes| <= 32 && |s.edges| <= 128 && 1 <= |s.operators| <= 32 && |s.sources| <= 128 && 1 <= |s.outputs| <= 32
    && |s.imports| <= 8 && (s.header.version == V1 ==> s.imports == [])
    && |s.reuse| <= 32 && (s.header.version in {V1, V2} ==> s.reuse == [])
  }

  const ROLES := {"", "system", "developer", "user", "assistant", "tool"}

  predicate SourceOk(s: SourceDecl) {
    s.index >= 0 && s.role in ROLES && KeyPattern(s.id) && Utf8(s.text)
  }

  /** A declared digest is right; an absent one is filled in. */
  predicate DigestOk(s: SourceDecl, hash: Text -> string) {
    s.sha == "" || s.sha == hash(s.text)
  }

  function Freeze(s: SourceDecl, hash: Text -> string): SourceDecl {
    s.(sha := hash(s.text))
  }

  function FreezeAll(ss: seq<SourceDecl>, hash: Text -> string): (out: seq<SourceDecl>)
    ensures |out| == |ss|
    ensures forall i :: 0 <= i < |ss| ==> out[i] == Freeze(ss[i], hash)
  {
    seq(|ss|, i requires 0 <= i < |ss| => Freeze(ss[i], hash))
  }

  /** The table readSpan looks into, from frozen sources with distinct identities. */
  function TableOf(frozen: set<SourceDecl>): (t: Sources)
  {
    map id | id in (set s | s in frozen :: s.id) :: TextOf(frozen, id)
  }

  function TextOf(frozen: set<SourceDecl>, id: Key): Source {
    var texts := set s | s in frozen && s.id == id;
    if |texts| == 1 then
      TheOnly(texts);
      var s :| s in texts;
      Source(s.text, s.sha)
    else Source([], "")
  }

  lemma TheOnly<T>(s: set<T>)
    requires |s| == 1
    ensures forall a, b :: a in s && b in s ==> a == b
  {
    forall a, b | a in s && b in s ensures a == b {
      var rest := s - {a};
      assert |rest| == 0;
      assert b == a || b in rest;
    }
  }

  predicate PortsOk(ports: seq<Port>, schemas: map<string, Schema>) {
    && AllDistinct(ports, PortName)
    && forall p :: p in ports ==> KeyPattern(p.name) && Ref(p.schema) && p.schema in schemas
  }

  /** spec.go:316-370 */
  predicate OperatorOk(op: Operator, h: Header) {
    && KeyPattern(op.id) && Ref(op.version)
    && |op.inputs| <= 32 && 1 <= |op.outputs| <= 32
    && PortsOk(op.inputs, h.schemas) && PortsOk(op.outputs, h.schemas)
    && match op.kind {
      case "agent" =>
        && op.execution.Some? && op.profile == "" && op.execution.value.valid
        && (h.limits.attempts > 1 ==> op.execution.value.replaySafe)
        && (h.limits.maxCost.Some? ==> op.execution.value.claudeHttp)
      case "command" => KeyPattern(op.profile) && op.execution.None? && h.limits.maxCost.None? && h.limits.attempts <= 1
      case "join" => op.execution.None? && op.profile == ""
      case _ => false
    }
  }

  /** spec.go:374-423 */
  predicate NodeOk(n: Node, h: Header, ops: set<Operator>, table: Sources) {
    && (n.policy.Some? ==>
      && h.version in {V4, V5} && ValidPolicy(n.policy.value)
      && forall sp :: sp in n.policy.value.required ==> Readable(table, sp))
    && KeyPattern(n.id) && Utf8(n.instructions) && |n.instructions| <= 65536
    && |n.spans| <= 128 && |n.rules| <= 128 && |n.scopes| <= 64
    && (n.rules != [] ==> h.version in {V3, V4, V5})
    && (n.replay != "" ==> h.version in {V3, V4, V5} && KeyPattern(n.replay))
    && (exists op :: op in ops && op.id == n.operator)
    && (forall op :: op in ops && op.id == n.operator ==>
      if op.kind == "join" then n.join in {"all_success", "selected_success"} else n.join == "")
    && (forall sp :: sp in n.spans ==> Readable(table, sp))
    && (forall sp :: sp in n.rules ==> Readable(table, sp))
    && (forall sc :: sc in n.scopes ==> sc.valid)
  }

  predicate ReuseOk(r: Reuse, nodes: set<Node>) {
    KeyPattern(r.grant) && exists n :: n in nodes && n.id == r.node && n.replay != ""
  }

  predicate ImportOk(b: ImportBinding, nodes: set<Node>) {
    && KeyPattern(b.grant) && 1 <= |b.nodes| <= 32
    && AllDistinct(b.nodes, Itself)
    && forall id :: id in b.nodes ==> HasNode(nodes, id)
  }

  predicate HasNode(nodes: set<Node>, id: Key) {
    exists n :: n in nodes && n.id == id
  }

  /** The node's operator offers this output. */
  predicate Offers(nodes: set<Node>, ops: set<Operator>, id: Key, port: Key) {
    exists n, op :: n in nodes && op in ops && n.id == id && op.id == n.operator && exists p :: p in op.outputs && p.name == port
  }

  /** spec.go:474-478: a condition reads a verdict that a command produced. */
  predicate GivesVerdict(nodes: set<Node>, ops: set<Operator>, id: Key, port: Key) {
    exists n, op :: n in nodes && op in ops && n.id == id && op.id == n.operator && op.kind == "command" && Port(port, "verdict-v1") in op.outputs
  }

  predicate Feeds(a: Operator, out: Key, b: Operator, into: Key) {
    exists p :: p in a.outputs && p.name == out && Port(into, p.schema) in b.inputs
  }

  /** spec.go:486-491: both ports exist and carry one schema. */
  predicate Wired(e: Edge, nodes: set<Node>, ops: set<Operator>) {
    exists n, m :: n in nodes && m in nodes && n.id == e.fromNode && m.id == e.toNode
      && exists a, b :: a in ops && b in ops && a.id == n.operator && b.id == m.operator && Feeds(a, e.fromPort, b, e.toPort)
  }

  predicate Data(e: Edge) {
    e.kind == "artifact" || e.kind == "memory"
  }

  const VERDICTS := {"PASS", "FAIL", "UNKNOWN"}

  /** spec.go:460-510 */
  predicate EdgeOk(e: Edge, nodes: set<Node>, ops: set<Operator>) {
    && HasNode(nodes, e.fromNode) && HasNode(nodes, e.toNode) && e.fromNode != e.toNode
    && (e.when != "" ==> e.when in VERDICTS && GivesVerdict(nodes, ops, e.fromNode, e.fromPort))
    && if Data(e) then Wired(e, nodes, ops)
       else e.kind == "control" && e.toPort == "" && (e.when == "" ==> e.fromPort == "")
  }

  predicate OneFeed(a: Edge, b: Edge) {
    Data(a) && Data(b) && a.toNode == b.toNode && a.toPort == b.toPort ==> a == b
  }

  /** spec.go:492-496: no input is bound twice. */
  predicate InputsOnce(edges: set<Edge>) {
    forall a, b :: a in edges && b in edges ==> OneFeed(a, b)
  }

  /** spec.go:514-518: a conditional output has a handler for each verdict. */
  predicate BranchesHandled(edges: set<Edge>) {
    forall a :: a in edges && a.when != "" ==> forall w :: w in VERDICTS ==> Handled(edges, a, w)
  }

  predicate Handled(edges: set<Edge>, a: Edge, w: string) {
    exists b :: b in edges && b.fromNode == a.fromNode && b.fromPort == a.fromPort && b.when == w
  }

  predicate Fed(edges: set<Edge>, id: Key, port: Key) {
    exists e :: e in edges && Data(e) && e.toNode == id && e.toPort == port
  }

  /** spec.go:519-525: every input of every node is bound. */
  predicate InputsBound(nodes: set<Node>, ops: set<Operator>, edges: set<Edge>) {
    forall n, op :: n in nodes && op in ops && op.id == n.operator ==> forall p :: p in op.inputs ==> Fed(edges, n.id, p.name)
  }

  /** Everything Compile reads of a list but its order. */
  datatype Facts = Facts(
    sources: set<SourceDecl>,
    operators: set<Operator>,
    nodes: set<Node>,
    edges: set<Edge>,
    outputs: set<Output>,
    reuse: set<Reuse>,
    imports: set<ImportBinding>)

  function SortedImport(b: ImportBinding): ImportBinding {
    b.(nodes := SortBy(b.nodes, Itself))
  }

  function SortedImports(bs: seq<ImportBinding>): (out: seq<ImportBinding>)
    ensures |out| == |bs|
    ensures forall i :: 0 <= i < |bs| ==> out[i] == SortedImport(bs[i])
  {
    seq(|bs|, i requires 0 <= i < |bs| => SortedImport(bs[i]))
  }

  function FactsOf(s: GraphSpec, c: Codec): Facts {
    Facts(Elements(FreezeAll(s.sources, c.hash)), Elements(s.operators), Elements(s.nodes), Elements(s.edges),
          Elements(s.outputs), Elements(s.reuse), Elements(SortedImports(s.imports)))
  }

  predicate AllDeclared(h: Header, f: Facts) {
    var table := TableOf(f.sources);
    && (forall s :: s in f.sources ==> SourceOk(s))
    && (forall sp :: sp in h.rules ==> Readable(table, sp))
    && (forall op :: op in f.operators ==> OperatorOk(op, h))
    && (forall n :: n in f.nodes ==> NodeOk(n, h, f.operators, table))
    && (forall o :: o in f.outputs ==> Offers(f.nodes, f.operators, o.node, o.port))
  }

  /** spec.go:430-455 */
  predicate GrantsDeclared(f: Facts) {
    && (forall r :: r in f.reuse ==> ReuseOk(r, f.nodes))
    && (forall b :: b in f.imports ==> ImportOk(b, f.nodes))
    && (forall b, r :: b in f.imports && r in f.reuse ==> b.grant != r.grant)
  }

  predicate NoDuplicates(s: GraphSpec, c: Codec) {
    && AllDistinct(s.sources, SourceDeclId) && AllDistinct(s.operators, OperatorId) && AllDistinct(s.nodes, NodeId)
    && AllDistinct(s.outputs, c.output)
    && AllDistinct(s.reuse, ReuseNode) && AllDistinct(s.reuse, ReuseGrant) && AllDistinct(s.imports, ImportGrant)
  }

  predicate DigestsOk(ss: seq<SourceDecl>, hash: Text -> string) {
    forall s :: s in ss ==> DigestOk(s, hash)
  }

  function OperatorIds(ops: set<Operator>): set<Key> {
    set op | op in ops :: op.id
  }

  predicate Executes(ops: set<Operator>, id: Key) {
    exists op :: op in ops && op.id == id && (op.kind == "agent" || op.kind == "command")
  }

  function ExecutableOf(ops: set<Operator>): map<Key, bool> {
    map id | id in OperatorIds(ops) :: Executes(ops, id)
  }

  /** The part of a spec the coverage preflight looks at. */
  function ForCoverage(s: GraphSpec, c: Codec): Spec {
    Spec(s.header.version == V5, s.header.coverage, TableOf(FactsOf(s, c).sources), s.header.rules,
         ExecutableOf(FactsOf(s, c).operators), s.nodes, s.outputs)
  }

  // ---------- compiling ----------

  ghost function ArrowsOf(edges: seq<Edge>): (out: Arrows)
    ensures |out| == |edges|
    ensures forall i :: 0 <= i < |edges| ==> out[i] == (edges[i].fromNode, edges[i].toNode)
  {
    seq(|edges|, i requires 0 <= i < |edges| => (edges[i].fromNode, edges[i].toNode))
  }

  function NodeIds(nodes: set<Node>): set<Key> {
    set n | n in nodes :: n.id
  }

  function Canonical(s: GraphSpec, c: Codec): GraphSpec {
    GraphSpec(
      s.header,
      SortBy(FreezeAll(s.sources, c.hash), SourceDeclId),
      SortBy(s.operators, OperatorId),
      SortBy(s.nodes, NodeId),
      SortBy(s.edges, c.edge),
      SortBy(s.outputs, c.output),
      SortBy(s.reuse, ReuseNode),
      SortBy(SortedImports(s.imports), ImportGrant))
  }

  predicate Fields(s: GraphSpec, c: Codec) {
    && HeaderOk(s.header) && SizesOk(s) && NoDuplicates(s, c) && DigestsOk(s.sources, c.hash)
    && AllDeclared(s.header, FactsOf(s, c)) && GrantsDeclared(FactsOf(s, c))
  }

  ghost predicate Wiring(edges: seq<Edge>, nodes: set<Node>, ops: set<Operator>, c: Codec) {
    EdgesOk(edges, nodes, ops, c) && BranchesHandled(Elements(edges)) && InputsBound(nodes, ops, Elements(edges))
  }

  ghost predicate Declared(s: GraphSpec, c: Codec) {
    Fields(s, c) && Wiring(s.edges, Elements(s.nodes), Elements(s.operators), c) && Complete(ForCoverage(s, c))
  }

  ghost function RelationOf(edges: set<Edge>): Edges {
    set e | e in edges :: (e.toNode, e.fromNode)
  }

  function Settle(s: GraphSpec, c: Codec, order: seq<Key>): Plan {
    var l := s.header.limits;
    Plan(Canonical(s, c), order, l.parallelism, if l.maxCost.Some? then 1 else l.parallelism, l.maxCost.Some?)
  }

  /** The plan of a spec of any size. */
  ghost function Planned(s: GraphSpec, c: Codec): Outcome<Plan> {
    if !Declared(s, c) then Refused else
      match Kahn(RelationOf(Elements(s.edges)), NodeIds(Elements(s.nodes)))
      case Refused => Refused
      case Accepted(order) => Accepted(Settle(s, c, order))
  }

  ghost function Compiled(s: GraphSpec, c: Codec): Outcome<Plan> {
    if WithinLimit(s, c) then Planned(s, c) else Refused
  }

  lemma ArrowsRelation(edges: seq<Edge>)
    ensures Needs(ArrowsOf(edges)) == RelationOf(Elements(edges))
  {
    var arrows := ArrowsOf(edges);
    forall x ensures x in Needs(arrows) <==> x in RelationOf(Elements(edges)) {
      if x in Needs(arrows) {
        var i :| 0 <= i < |arrows| && x == (arrows[i].1, arrows[i].0);
        assert edges[i] in Elements(edges);
      }
      if e :| e in Elements(edges) && x == (e.toNode, e.fromNode) {
        var i :| 0 <= i < |edges| && edges[i] == e;
        assert arrows[i] == (e.fromNode, e.toNode);
      }
    }
  }

  /** What the edge loop has built after the edges so far. */
  ghost predicate Tallied(edges: seq<Edge>, ids: set<Key>, bound: set<(Key, Key)>, indegree: map<Key, int>, next: map<Key, seq<Key>>) {
    && (forall id, port :: (id, port) in bound <==> Fed(Elements(edges), id, port))
    && Counts(ArrowsOf(edges), ids, indegree)
    && Follows(next, ArrowsOf(edges))
  }

  /** The edges so far are well bound, one by one and together. */
  ghost predicate EdgesOk(edges: seq<Edge>, nodes: set<Node>, ops: set<Operator>, c: Codec) {
    && DistinctKeys(edges, c.edge)
    && (forall e :: e in edges ==> EdgeOk(e, nodes, ops))
    && InputsOnce(Elements(edges))
  }

  lemma EdgeCounted(edges: seq<Edge>, i: nat, ids: set<Key>, indegree: map<Key, int>, next: map<Key, seq<Key>>)
    requires i < |edges| && edges[i].fromNode in ids && edges[i].toNode in ids
    requires Counts(ArrowsOf(edges[..i]), ids, indegree) && Follows(next, ArrowsOf(edges[..i]))
    ensures Counts(ArrowsOf(edges[..i + 1]), ids, indegree[edges[i].toNode := indegree[edges[i].toNode] + 1])
    ensures Follows(next[edges[i].fromNode := Children(next, edges[i].fromNode) + [edges[i].toNode]], ArrowsOf(edges[..i + 1]))
  {
    var past, now := ArrowsOf(edges[..i]), ArrowsOf(edges[..i + 1]);
    assert now[..i] == past && now[i] == (edges[i].fromNode, edges[i].toNode);
    var more := next[edges[i].fromNode := Children(next, edges[i].fromNode) + [edges[i].toNode]];
    forall n ensures Children(more, n) == Outgoing(now, n) {
      assert Children(next, n) == Outgoing(past, n);
      assert Outgoing(past, n) + [] == Outgoing(past, n);
    }
  }

  lemma EdgeAdded(edges: seq<Edge>, i: nat, nodes: set<Node>, ops: set<Operator>, c: Codec)
    requires i < |edges| && EdgesOk(edges[..i], nodes, ops, c)
    requires EdgeOk(edges[i], nodes, ops)
    requires forall e :: e in edges[..i] ==> c.edge(e) != c.edge(edges[i])
    requires Data(edges[i]) ==> !Fed(Elements(edges[..i]), edges[i].toNode, edges[i].toPort)
    ensures EdgesOk(edges[..i + 1], nodes, ops, c)
  {
    var past, now := edges[..i], edges[..i + 1];
    assert now == past + [edges[i]];
    forall a, b | 0 <= a < b < |now| ensures c.edge(now[a]) != c.edge(now[b]) {
      assert now[a] == past[a] && now[a] in past;
    }
    forall a, b | a in Elements(now) && b in Elements(now) ensures OneFeed(a, b) {
      assert a in past || a == edges[i];
      assert b in past || b == edges[i];
    }
  }

  lemma EdgeRefused(edges: seq<Edge>, i: nat, nodes: set<Node>, ops: set<Operator>, c: Codec)
    requires i < |edges|
    requires || !EdgeOk(edges[i], nodes, ops)
             || (exists e :: e in edges[..i] && c.edge(e) == c.edge(edges[i]))
             || (Data(edges[i]) && Fed(Elements(edges[..i]), edges[i].toNode, edges[i].toPort))
    ensures !EdgesOk(edges, nodes, ops, c)
  {
    assert edges[i] in edges;
    if e :| e in edges[..i] && c.edge(e) == c.edge(edges[i]) {
      var k :| 0 <= k < i && edges[k] == e;
      assert c.edge(edges[k]) == c.edge(edges[i]);
    } else if Data(edges[i]) && Fed(Elements(edges[..i]), edges[i].toNode, edges[i].toPort) {
      var e :| e in edges[..i] && Data(e) && e.toNode == edges[i].toNode && e.toPort == edges[i].toPort;
      assert e in edges && e != edges[i];
      assert !OneFeed(e, edges[i]);
    }
  }

  lemma FedGrows(edges: seq<Edge>, i: nat, id: Key, port: Key)
    requires i < |edges|
    ensures Fed(Elements(edges[..i + 1]), id, port)
      <==> Fed(Elements(edges[..i]), id, port) || (Data(edges[i]) && edges[i].toNode == id && edges[i].toPort == port)
  {
    assert edges[..i + 1] == edges[..i] + [edges[i]];
    if Data(edges[i]) && edges[i].toNode == id && edges[i].toPort == port {
      assert edges[i] in Elements(edges[..i + 1]);
    }
    if Fed(Elements(edges[..i]), id, port) {
      var e :| e in Elements(edges[..i]) && Data(e) && e.toNode == id && e.toPort == port;
      assert e in Elements(edges[..i + 1]);
    }
    if Fed(Elements(edges[..i + 1]), id, port) {
      var e :| e in Elements(edges[..i + 1]) && Data(e) && e.toNode == id && e.toPort == port;
      assert e in edges[..i] || e == edges[i];
    }
  }

  /** spec.go:457-513: check each edge, bind its input and count it. */
  method BindEdges(edges: seq<Edge>, nodes: set<Node>, ops: set<Operator>, c: Codec)
    returns (ok: bool, bound: set<(Key, Key)>, indegree: map<Key, int>, next: map<Key, seq<Key>>)
    ensures ok <==> EdgesOk(edges, nodes, ops, c)
    ensures ok ==> Tallied(edges, NodeIds(nodes), bound, indegree, next)
  {
    bound, next := {}, map[];
    indegree := map id | id in NodeIds(nodes) :: 0;
    var seen: set<Key> := {};
    var i := 0;
    while i < |edges|
      invariant 0 <= i <= |edges|
      invariant EdgesOk(edges[..i], nodes, ops, c)
      invariant forall k :: k in seen <==> exists e :: e in edges[..i] && c.edge(e) == k
      invariant Tallied(edges[..i], NodeIds(nodes), bound, indegree, next)
    {
      var e := edges[i];
      if !EdgeOk(e, nodes, ops) || c.edge(e) in seen || (Data(e) && (e.toNode, e.toPort) in bound) {
        EdgeRefused(edges, i, nodes, ops, c);
        return false, bound, indegree, next;
      }
      EdgeAdded(edges, i, nodes, ops, c);
      seen := seen + {c.edge(e)};
      assert edges[..i + 1] == edges[..i] + [e];
      bound, indegree, next := Count(edges, i, nodes, bound, indegree, next);
      i := i + 1;
    }
    assert edges[..i] == edges;
    return true, bound, indegree, next;
  }

  /** spec.go:496, 511-512 */
  method Count(edges: seq<Edge>, i: nat, nodes: set<Node>, bound: set<(Key, Key)>, indegree: map<Key, int>, next: map<Key, seq<Key>>)
    returns (bound2: set<(Key, Key)>, indegree2: map<Key, int>, next2: map<Key, seq<Key>>)
    requires i < |edges| && HasNode(nodes, edges[i].fromNode) && HasNode(nodes, edges[i].toNode)
    requires Tallied(edges[..i], NodeIds(nodes), bound, indegree, next)
    ensures Tallied(edges[..i + 1], NodeIds(nodes), bound2, indegree2, next2)
  {
    var e := edges[i];
    forall id, port {
      FedGrows(edges, i, id, port);
    }
    bound2 := if Data(e) then bound + {(e.toNode, e.toPort)} else bound;
    assert e.fromNode in NodeIds(nodes) && e.toNode in NodeIds(nodes);
    EdgeCounted(edges, i, NodeIds(nodes), indegree, next);
    indegree2 := indegree[e.toNode := indegree[e.toNode] + 1];
    next2 := next[e.fromNode := Children(next, e.fromNode) + [e.toNode]];
  }

  /** spec.go:519-525, against the inputs the edge loop bound. */
  predicate BoundAll(nodes: set<Node>, ops: set<Operator>, bound: set<(Key, Key)>) {
    forall n, op :: n in nodes && op in ops && op.id == n.operator ==> forall p :: p in op.inputs ==> (n.id, p.name) in bound
  }

  /** spec.go:457-525 */
  method Wire(edges: seq<Edge>, nodes: set<Node>, ops: set<Operator>, c: Codec)
    returns (ok: bool, indegree: map<Key, int>, next: map<Key, seq<Key>>)
    ensures ok <==> Wiring(edges, nodes, ops, c)
    ensures ok ==> Counts(ArrowsOf(edges), NodeIds(nodes), indegree) && Follows(next, ArrowsOf(edges))
  {
    var bound;
    ok, bound, indegree, next := BindEdges(edges, nodes, ops, c);
    ok := ok && BranchesHandled(Elements(edges)) && BoundAll(nodes, ops, bound);
  }

  ghost function Ordered(s: GraphSpec, c: Codec): Outcome<seq<Key>> {
    if Wiring(s.edges, Elements(s.nodes), Elements(s.operators), c) && Complete(ForCoverage(s, c))
    then Kahn(RelationOf(Elements(s.edges)), NodeIds(Elements(s.nodes)))
    else Refused
  }

  /** spec.go:457-544 */
  method OrderEdges(edges: seq<Edge>, nodes: set<Node>, ops: set<Operator>, c: Codec) returns (out: Outcome<seq<Key>>)
    ensures out == if Wiring(edges, nodes, ops, c) then Kahn(RelationOf(Elements(edges)), NodeIds(nodes)) else Refused
  {
    var wired, indegree, next := Wire(edges, nodes, ops, c);
    if !wired {
      return Refused;
    }
    ArrowsRelation(edges);
    RelationClosed(edges, nodes, ops, c);
    out := Traverse(NodeIds(nodes), ArrowsOf(edges), next, indegree);
  }

  /** spec.go:457-562 */
  method OrderNodes(s: GraphSpec, c: Codec) returns (out: Outcome<seq<Key>>)
    ensures out == Ordered(s, c)
  {
    out := OrderEdges(s.edges, Elements(s.nodes), Elements(s.operators), c);
    var covered := ValidateCoverage(ForCoverage(s, c));
    if !covered {
      return Refused;
    }
  }

  lemma PlannedIs(s: GraphSpec, c: Codec)
    ensures Planned(s, c) == if !Fields(s, c) || Ordered(s, c).Refused? then Refused else Accepted(Settle(s, c, Ordered(s, c).value))
  {
  }

  // ---------- duplicates and grants ----------

  /** The seen-map tests of spec.go:289, 320, 391 and 554-558. */
  method Unrepeated<T>(s: seq<T>, key: T -> Key) returns (ok: bool)
    ensures ok <==> AllDistinct(s, key)
  {
    var seen: set<Key> := {};
    for i := 0 to |s|
      invariant forall a, b :: 0 <= a < b < i ==> key(s[a]) != key(s[b])
      invariant forall k :: k in seen <==> exists a :: 0 <= a < i && key(s[a]) == k
    {
      if key(s[i]) in seen {
        return false;
      }
      seen := seen + {key(s[i])};
    }
    return true;
  }

  predicate ReusesOk(reuse: seq<Reuse>, nodes: set<Node>) {
    (forall r :: r in reuse ==> ReuseOk(r, nodes)) && AllDistinct(reuse, ReuseNode) && AllDistinct(reuse, ReuseGrant)
  }

  ghost predicate SeenUpTo<T(!new)>(seen: set<Key>, s: seq<T>, i: nat, key: T -> Key)
    requires i <= |s|
  {
    && (forall a, b :: 0 <= a < b < i ==> key(s[a]) != key(s[b]))
    && (forall a :: 0 <= a < i ==> key(s[a]) in seen)
    && (forall k :: k in seen ==> exists a :: 0 <= a < i && key(s[a]) == k)
  }

  lemma SeenStep<T(!new)>(seen: set<Key>, s: seq<T>, i: nat, key: T -> Key)
    requires i < |s| && SeenUpTo(seen, s, i, key)
    ensures key(s[i]) in seen ==> !AllDistinct(s, key)
    ensures key(s[i]) !in seen ==> SeenUpTo(seen + {key(s[i])}, s, i + 1, key)
  {
    forall k | k in seen + {key(s[i])} ensures exists a :: 0 <= a < i + 1 && key(s[a]) == k {
      if k in seen {
        var a :| 0 <= a < i && key(s[a]) == k;
      } else {
        assert key(s[i]) == k;
      }
    }
  }

  ghost predicate ReusesSeen(reuse: seq<Reuse>, nodes: set<Node>, i: nat, reused: set<Key>, grants: set<Key>)
    requires i <= |reuse|
  {
    && (forall a :: 0 <= a < i ==> ReuseOk(reuse[a], nodes))
    && SeenUpTo(reused, reuse, i, ReuseNode) && SeenUpTo(grants, reuse, i, ReuseGrant)
  }

  lemma ReuseStep(reuse: seq<Reuse>, nodes: set<Node>, i: nat, reused: set<Key>, grants: set<Key>)
    requires i < |reuse| && ReusesSeen(reuse, nodes, i, reused, grants)
    ensures var b := reuse[i];
      if !ReuseOk(b, nodes) || b.grant in grants || b.node in reused then !ReusesOk(reuse, nodes)
      else ReusesSeen(reuse, nodes, i + 1, reused + {b.node}, grants + {b.grant})
  {
    assert reuse[i] in reuse;
    SeenStep(reused, reuse, i, ReuseNode);
    SeenStep(grants, reuse, i, ReuseGrant);
  }

  lemma ReusesDone(reuse: seq<Reuse>, nodes: set<Node>, reused: set<Key>, grants: set<Key>)
    requires ReusesSeen(reuse, nodes, |reuse|, reused, grants)
    ensures ReusesOk(reuse, nodes) && grants == set r | r in reuse :: r.grant
  {
    GrantsCollected(grants, reuse);
  }

  /** spec.go:430-440: the grants seen are handed on to the imports. */
  method CheckReuse(reuse: seq<Reuse>, nodes: set<Node>) returns (ok: bool, grants: set<Key>)
    ensures ok <==> ReusesOk(reuse, nodes)
    ensures ok ==> grants == set r | r in reuse :: r.grant
  {
    var reused: set<Key> := {};
    grants := {};
    for i := 0 to |reuse|
      invariant ReusesSeen(reuse, nodes, i, reused, grants)
    {
      var b := reuse[i];
      ReuseStep(reuse, nodes, i, reused, grants);
      if !ReuseOk(b, nodes) || b.grant in grants || b.node in reused {
        return false, grants;
      }
      grants := grants + {b.grant};
      reused := reused + {b.node};
    }
    ReusesDone(reuse, nodes, reused, grants);
    return true, grants;
  }

  lemma GrantsCollected(grants: set<Key>, reuse: seq<Reuse>)
    requires SeenUpTo(grants, reuse, |reuse|, ReuseGrant)
    ensures forall k :: k in grants <==> exists r :: r in reuse && r.grant == k
  {
    forall k | k in grants ensures exists r :: r in reuse && r.grant == k {
      var a :| 0 <= a < |reuse| && ReuseGrant(reuse[a]) == k;
      assert reuse[a] in reuse;
    }
  }

  /** spec.go:448-453 */
  method CheckTargets(ids: seq<Key>, nodes: set<Node>) returns (ok: bool)
    ensures ok <==> AllDistinct(ids, Itself) && forall id :: id in ids ==> HasNode(nodes, id)
  {
    var seen: set<Key> := {};
    for i := 0 to |ids|
      invariant forall a :: 0 <= a < i ==> HasNode(nodes, ids[a])
      invariant SeenUpTo(seen, ids, i, Itself)
    {
      assert ids[i] in ids;
      SeenStep(seen, ids, i, Itself);
      if !HasNode(nodes, ids[i]) || ids[i] in seen {
        return false;
      }
      seen := seen + {ids[i]};
    }
    return true;
  }

  predicate ImportsOk(imports: seq<ImportBinding>, nodes: set<Node>, taken: set<Key>) {
    (forall b :: b in imports ==> ImportOk(b, nodes) && b.grant !in taken) && AllDistinct(imports, ImportGrant)
  }

  ghost predicate ImportsSeen(imports: seq<ImportBinding>, nodes: set<Node>, taken: set<Key>, i: nat, own: set<Key>)
    requires i <= |imports|
  {
    && (forall a :: 0 <= a < i ==> ImportOk(imports[a], nodes) && imports[a].grant !in taken)
    && SeenUpTo(own, imports, i, ImportGrant)
  }

  lemma ImportStep(imports: seq<ImportBinding>, nodes: set<Node>, taken: set<Key>, i: nat, own: set<Key>)
    requires i < |imports| && ImportsSeen(imports, nodes, taken, i, own)
    ensures var b := imports[i];
      if !ImportOk(b, nodes) || b.grant in taken + own then !ImportsOk(imports, nodes, taken)
      else ImportsSeen(imports, nodes, taken, i + 1, own + {b.grant})
  {
    assert imports[i] in imports;
    SeenStep(own, imports, i, ImportGrant);
  }

  /** spec.go:442-455: one set of seen grants serves reuse and imports. */
  method CheckImports(imports: seq<ImportBinding>, nodes: set<Node>, taken: set<Key>) returns (ok: bool)
    ensures ok <==> ImportsOk(imports, nodes, taken)
  {
    var grants := taken;
    ghost var own: set<Key> := {};
    for i := 0 to |imports|
      invariant ImportsSeen(imports, nodes, taken, i, own) && grants == taken + own
    {
      var b := imports[i];
      ImportStep(imports, nodes, taken, i, own);
      if !KeyPattern(b.grant) || b.grant in grants || |b.nodes| < 1 || |b.nodes| > 32 {
        return false;
      }
      var targets := CheckTargets(b.nodes, nodes);
      if !targets {
        return false;
      }
      grants := grants + {b.grant};
      own := own + {b.grant};
    }
    return true;
  }

  lemma SortedImportOk(b: ImportBinding, nodes: set<Node>)
    ensures ImportOk(SortedImport(b), nodes) <==> ImportOk(b, nodes)
  {
    var sorted := SortBy(b.nodes, Itself);
    SortByPermutes(b.nodes, Itself);
    SameElements(sorted, b.nodes);
    if AllDistinct(b.nodes, Itself) {
      DistinctPermutes(b.nodes, sorted, Itself);
    }
    if AllDistinct(sorted, Itself) {
      DistinctPermutes(sorted, b.nodes, Itself);
    }
  }

  lemma SortedImportsOk(bs: seq<ImportBinding>, nodes: set<Node>)
    ensures (forall b :: b in Elements(SortedImports(bs)) ==> ImportOk(b, nodes)) <==> forall b :: b in bs ==> ImportOk(b, nodes)
  {
    var sorted := SortedImports(bs);
    forall i | 0 <= i < |bs| ensures ImportOk(sorted[i], nodes) <==> ImportOk(bs[i], nodes) {
      SortedImportOk(bs[i], nodes);
    }
    assert forall i :: 0 <= i < |bs| ==> sorted[i] in sorted;
    assert forall i :: 0 <= i < |bs| ==> bs[i] in bs;
  }

  lemma SortedGrants(bs: seq<ImportBinding>)
    ensures (set b | b in Elements(SortedImports(bs)) :: b.grant) == set b | b in bs :: b.grant
  {
    var sorted := SortedImports(bs);
    forall b | b in bs ensures b.grant in set x | x in Elements(sorted) :: x.grant {
      var i :| 0 <= i < |bs| && bs[i] == b;
      assert sorted[i] in sorted;
    }
    forall b | b in sorted ensures b.grant in set x | x in bs :: x.grant {
      var i :| 0 <= i < |sorted| && sorted[i] == b;
      assert bs[i] in bs;
    }
  }

  /** spec.go:430-455 */
  method CheckGrants(reuse: seq<Reuse>, imports: seq<ImportBinding>, nodes: set<Node>) returns (ok: bool)
    ensures ok <==> ReusesOk(reuse, nodes) && ImportsOk(imports, nodes, set r | r in reuse :: r.grant)
  {
    var grants: set<Key>;
    ok, grants := CheckReuse(reuse, nodes);
    if ok {
      ok := CheckImports(imports, nodes, grants);
    }
  }

  lemma GrantsMean(s: GraphSpec, c: Codec)
    ensures var nodes := Elements(s.nodes);
      ReusesOk(s.reuse, nodes) && ImportsOk(s.imports, nodes, set r | r in s.reuse :: r.grant) <==>
      GrantsDeclared(FactsOf(s, c)) && AllDistinct(s.reuse, ReuseNode) && AllDistinct(s.reuse, ReuseGrant) && AllDistinct(s.imports, ImportGrant)
  {
    var f, nodes := FactsOf(s, c), Elements(s.nodes);
    SortedImportsOk(s.imports, nodes);
    var taken := set r | r in s.reuse :: r.grant;
    assert (forall b :: b in s.imports ==> b.grant !in taken) <==> (forall b, r :: b in f.imports && r in f.reuse ==> b.grant != r.grant) by {
      GrantsApart(s, c);
    }
  }

  lemma GrantsApart(s: GraphSpec, c: Codec)
    ensures var f, taken := FactsOf(s, c), set r | r in s.reuse :: r.grant;
      (forall b :: b in s.imports ==> b.grant !in taken) <==> (forall b, r :: b in f.imports && r in f.reuse ==> b.grant != r.grant)
  {
    var f, taken := FactsOf(s, c), set r | r in s.reuse :: r.grant;
    SortedGrants(s.imports);
    if forall b :: b in s.imports ==> b.grant !in taken {
      forall b, r | b in f.imports && r in f.reuse ensures b.grant != r.grant {
        assert b.grant in set b | b in f.imports :: b.grant;
        var own :| own in s.imports && own.grant == b.grant;
        assert r.grant in taken;
      }
    }
    if forall b, r :: b in f.imports && r in f.reuse ==> b.grant != r.grant {
      forall b | b in s.imports ensures b.grant !in taken {
        assert b.grant in set b | b in s.imports :: b.grant;
        var held :| held in f.imports && held.grant == b.grant;
      }
    }
  }

  /** spec.go:259-455, 545-560 */
  method CheckFields(s: GraphSpec, c: Codec) returns (ok: bool)
    ensures ok <==> Fields(s, c)
  {
    GrantsMean(s, c);
    var sources := Unrepeated(s.sources, SourceDeclId);
    var operators := Unrepeated(s.operators, OperatorId);
    var nodes := Unrepeated(s.nodes, NodeId);
    var outputs := Unrepeated(s.outputs, c.output);
    var grants := CheckGrants(s.reuse, s.imports, Elements(s.nodes));
    ok := sources && operators && nodes && outputs && grants
      && HeaderOk(s.header) && SizesOk(s) && DigestsOk(s.sources, c.hash) && AllDeclared(s.header, FactsOf(s, c));
  }

  /** spec.go:250-575 */
  method Compile(s: GraphSpec, c: Codec) returns (out: Outcome<Plan>)
    ensures out == Compiled(s, c)
  {
    if !WithinLimit(s, c) {
      return Refused;
    }
    PlannedIs(s, c);
    var fine := CheckFields(s, c);
    if !fine {
      return Refused;
    }
    var order := OrderNodes(s, c);
    out := if order.Refused? then Refused else Accepted(Settle(s, c, order.value));
  }

  lemma RelationClosed(edges: seq<Edge>, nodes: set<Node>, ops: set<Operator>, c: Codec)
    requires EdgesOk(edges, nodes, ops, c)
    ensures Closed(RelationOf(Elements(edges)), NodeIds(nodes))
  {
    forall e | e in edges ensures e.fromNode in NodeIds(nodes) && e.toNode in NodeIds(nodes) {
      assert HasNode(nodes, e.fromNode) && HasNode(nodes, e.toNode);
    }
  }

  // ---------- what a plan means ----------

  /** A declared graph compiles exactly when it fits a request and its edges have no cycle; the order is topological, and
      lexicographically least among all topological orders. */
  lemma CompileExact(s: GraphSpec, c: Codec)
    requires Declared(s, c)
    ensures var e, ids := RelationOf(Elements(s.edges)), NodeIds(Elements(s.nodes));
      && (Compiled(s, c).Accepted? <==> WithinLimit(s, c) && Acyclic(e))
      && (Compiled(s, c).Accepted? ==>
            && Topological(e, ids, Compiled(s, c).value.order)
            && forall other :: Topological(e, ids, other) ==> NotAfter(Compiled(s, c).value.order, other))
  {
    var e, ids := RelationOf(Elements(s.edges)), NodeIds(Elements(s.nodes));
    RelationClosed(s.edges, Elements(s.nodes), Elements(s.operators), c);
    KahnExact(e, ids);
    if Compiled(s, c).Accepted? {
      KahnTopological(e, ids);
      forall other | Topological(e, ids, other) ensures NotAfter(Kahn(e, ids).value, other) {
        KahnLeast(e, ids, other);
      }
    }
  }
}

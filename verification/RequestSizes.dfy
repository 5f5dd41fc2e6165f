/** internal/graph/spec.go:250-298: the limit on an encoded request against the digests that compiling
    fills in. */
module RequestSizes {
  import opened Keys
  import opened Outcomes
  import opened Graphs
  import opened Coverage
  import opened Ordering
  import opened Planner
  import opened PlannerLaws

  // ---------- what the digests add ----------

  /** A digest where there was none adds m bytes to an encoded source; in canonical JSON 76, its name and
      64 characters. */
  ghost predicate Margin(c: Codec, m: nat) {
    forall d: SourceDecl :: d.sha == "" ==> c.lengths.source(Freeze(d, c.hash)) == c.lengths.source(d) + m
  }

  function Undigested(ss: seq<SourceDecl>): nat {
    if ss == [] then 0 else (if ss[0].sha == "" then 1 else 0) + Undigested(ss[1..])
  }

  lemma DigestAdds(d: SourceDecl, c: Codec, m: nat)
    requires Margin(c, m) && DigestOk(d, c.hash)
    ensures c.lengths.source(Freeze(d, c.hash)) == c.lengths.source(d) + if d.sha == "" then m else 0
  {
  }

  lemma OneMoreTime(m: nat, k: nat)
    ensures m * (1 + k) == m + m * k
  {
  }

  lemma {:induction false} DigestsAdd(ss: seq<SourceDecl>, c: Codec, m: nat)
    requires Margin(c, m) && DigestsOk(ss, c.hash)
    ensures Together(FreezeAll(ss, c.hash), c.lengths.source) == Together(ss, c.lengths.source) + m * Undigested(ss)
  {
    if ss != [] {
      var frozen, rest := FreezeAll(ss, c.hash), ss[1..];
      assert ss[0] in ss && forall d :: d in rest ==> d in ss;
      DigestAdds(ss[0], c, m);
      DigestsAdd(rest, c, m);
      OneMoreTime(m, Undigested(rest));
      assert frozen[0] == Freeze(ss[0], c.hash) && frozen[1..] == FreezeAll(rest, c.hash);
    }
  }

  lemma LengthWithDigests(s: GraphSpec, c: Codec, m: nat)
    requires Margin(c, m) && DigestsOk(s.sources, c.hash)
    ensures RequestLength(WithDigests(s, c), c.lengths) == RequestLength(s, c.lengths) + m * Undigested(s.sources)
  {
    DigestsAdd(s.sources, c, m);
  }

  /** The spec of a plan compiles again exactly when the original leaves room for the digests it lacks,
      which its sender can compute. */
  lemma RecompilesExactly(s: GraphSpec, c: Codec, m: nat)
    requires Compiled(s, c).Accepted? && Margin(c, m)
    ensures Compiled(Compiled(s, c).value.spec, c) ==
      if RequestLength(s, c.lengths) + m * Undigested(s.sources) <= MAX_REQUEST then Compiled(s, c) else Refused
  {
    LengthWithDigests(s, c, m);
    CompileTwice(s, c);
  }

  // ---------- a spec that outgrows the limit ----------

  function Letters(n: nat): Text {
    if n == 0 then [] else [0x61] + Letters(n - 1)
  }

  /** A source of n letters that carries no digest. */
  function Padding(n: nat): SourceDecl {
    SourceDecl("a", "", 0, Letters(n), "")
  }

  function SingleHeader(): Header {
    Header(V1, "p", "r", seq(40, _ => '0'), ("e", "1"), Limits(1, 60, 1, 0, None, None), [], map["s" := Schema(2, true)], None)
  }

  function SingleOperator(): Operator {
    Operator("o", "1", "command", [], [Port("q", "s")], None, "c")
  }

  function SingleNode(): Node {
    Node("n", "o", [], [], [], None, "", "", [], "")
  }

  /** One command with one output, and a source of n letters nothing refers to. */
  function Single(n: nat): GraphSpec {
    GraphSpec(SingleHeader(), [Padding(n)], [SingleOperator()], [SingleNode()], [], [Output("n", "q")], [], [])
  }

  lemma {:induction false} LettersValid(n: nat)
    ensures Utf8(Letters(n))
  {
    if n > 0 {
      LettersValid(n - 1);
      assert Letters(n)[1..] == Letters(n - 1);
    }
  }

  lemma SingleHeaderOk()
    ensures HeaderOk(SingleHeader())
  {
  }

  lemma SingleOperatorOk()
    ensures OperatorOk(SingleOperator(), SingleHeader())
  {
    var ports := [Port("q", "s")];
    assert forall p :: p in ports ==> p == Port("q", "s");
    assert PortsOk(ports, SingleHeader().schemas);
  }

  lemma SingleNodeOk(table: Sources)
    ensures NodeOk(SingleNode(), SingleHeader(), {SingleOperator()}, table)
  {
    assert SingleOperator() in {SingleOperator()};
  }

  lemma SingleFacts(n: nat, c: Codec)
    ensures var f := FactsOf(Single(n), c);
      && f.sources == {Freeze(Padding(n), c.hash)} && f.operators == {SingleOperator()} && f.nodes == {SingleNode()}
      && f.outputs == {Output("n", "q")} && f.edges == {} && f.reuse == {} && f.imports == {}
  {
    var frozen := FreezeAll([Padding(n)], c.hash);
    assert frozen == [Freeze(Padding(n), c.hash)];
  }

  lemma SingleFields(n: nat, c: Codec)
    ensures Fields(Single(n), c)
  {
    var s, f := Single(n), FactsOf(Single(n), c);
    SingleFacts(n, c);
    LettersValid(n);
    SingleHeaderOk();
    SingleOperatorOk();
    SingleNodeOk(TableOf(f.sources));
    SingleOffers();
    SingleLists(n, c);
  }

  lemma SingleOffers()
    ensures Offers({SingleNode()}, {SingleOperator()}, "n", "q")
  {
    assert SingleNode() in {SingleNode()} && SingleOperator() in {SingleOperator()};
    assert Port("q", "s") in SingleOperator().outputs;
  }

  lemma SingleLists(n: nat, c: Codec)
    ensures SizesOk(Single(n)) && NoDuplicates(Single(n), c) && DigestsOk(Single(n).sources, c.hash)
  {
  }

  lemma SingleDeclared(n: nat, c: Codec)
    ensures Declared(Single(n), c)
  {
    SingleFields(n, c);
    assert Elements(Single(n).edges) == {} && SingleOperator().inputs == [];
  }

  lemma SinglePlanned(n: nat, c: Codec)
    ensures Planned(Single(n), c).Accepted?
  {
    var s := Single(n);
    SingleDeclared(n, c);
    var e := RelationOf(Elements(s.edges));
    assert e == {};
    forall p: seq<Key> | |p| >= 2 ensures !Path(e, p) {
      assert (p[0], p[0 + 1]) !in e;
    }
    KahnExact(e, NodeIds(Elements(s.nodes)));
  }

  /** A letter more is a byte more. */
  ghost predicate OneByteLetters(c: Codec) {
    forall n: nat :: c.lengths.source(Padding(n + 1)) == c.lengths.source(Padding(n)) + 1
  }

  lemma {:induction false} PaddingLength(n: nat, c: Codec)
    requires OneByteLetters(c)
    ensures RequestLength(Single(n), c.lengths) == RequestLength(Single(0), c.lengths) + n
  {
    if n > 0 {
      PaddingLength(n - 1, c);
      SingleLength(n, c.lengths);
      SingleLength(n - 1, c.lengths);
    }
  }

  lemma SingleLength(n: nat, l: Lengths)
    ensures RequestLength(Single(n), l) - l.source(Padding(n)) == RequestLength(Single(0), l) - l.source(Padding(0))
  {
    forall k: nat ensures Together([Padding(k)], l.source) == l.source(Padding(k)) {
      assert [Padding(k)][1..] == [];
    }
  }

  /** A spec that just fits and lacks a digest compiles, and the spec of its plan does not. */
  lemma Outgrows(s: GraphSpec, c: Codec, m: nat)
    requires Planned(s, c).Accepted? && Margin(c, m) && m > 0
    requires RequestLength(s, c.lengths) == MAX_REQUEST && Undigested(s.sources) == 1
    ensures Compiled(s, c).Accepted? && Compiled(Compiled(s, c).value.spec, c).Refused?
  {
    RecompilesExactly(s, c, m);
  }

  /** In every encoding with these two features that leaves room for the smallest such spec, one with a
      longer source compiles and the spec of its plan does not. */
  lemma DigestsOutgrow(c: Codec, m: nat) returns (n: nat)
    requires Margin(c, m) && m > 0 && OneByteLetters(c) && WithinLimit(Single(0), c)
    ensures Compiled(Single(n), c).Accepted? && Compiled(Compiled(Single(n), c).value.spec, c).Refused?
  {
    n := MAX_REQUEST - RequestLength(Single(0), c.lengths);
    PaddingLength(n, c);
    SinglePlanned(n, c);
    OneUndigested(n);
    Outgrows(Single(n), c, m);
  }

  lemma OneUndigested(n: nat)
    ensures Undigested(Single(n).sources) == 1
  {
    assert [Padding(n)][1..] == [];
  }

  /** Lengths of the order of those of canonical JSON. */
  function PlainLengths(): Lengths {
    Lengths(
      (h: Header, counts: seq<nat>) => 400 + |h.project| + |h.repository| + |h.commit|,
      (d: SourceDecl) => 24 + |d.id| + |d.text| + (if d.sha == "" then 0 else 12 + |d.sha|),
      (o: Operator) => 90 + |o.id|,
      (d: Node) => 26 + |d.id| + |d.operator|,
      (e: Edge) => 60,
      (o: Output) => 22 + |o.node| + |o.port|,
      (r: Reuse) => 30 + |r.grant| + |r.node|,
      (g: Key, k: nat) => 30 + |g|,
      (k: Key) => 3 + |k|)
  }

  /** There are such encodings. */
  lemma PlainLengthsServe(c: Codec)
    requires c.lengths == PlainLengths() && forall t :: |c.hash(t)| == 64
    ensures Margin(c, 76) && OneByteLetters(c) && WithinLimit(Single(0), c)
  {
    assert [Padding(0)][1..] == [] && [SingleOperator()][1..] == [] && [SingleNode()][1..] == [] && [Output("n", "q")][1..] == [];
  }
}

/** A plan does not remember the order its declarations came in, and compiling it again changes nothing. */
module PlannerLaws {
  import opened Keys
  import opened Outcomes
  import opened Spans
  import opened Coverage
  import opened Planner

  /** Two lists with the same elements, as many of them, and equally free of repeated keys. */
  ghost predicate Alike<T(!new)>(a: seq<T>, b: seq<T>, key: T -> Key) {
    && |a| == |b|
    && (forall x :: x in a <==> x in b)
    && (DistinctKeys(a, key) <==> DistinctKeys(b, key))
  }

  /** The specs say the same things, in any order. */
  ghost predicate Equivalent(s: GraphSpec, t: GraphSpec, c: Codec) {
    && s.header == t.header
    && Alike(FreezeAll(s.sources, c.hash), FreezeAll(t.sources, c.hash), SourceDeclId)
    && (DigestsOk(s.sources, c.hash) <==> DigestsOk(t.sources, c.hash))
    && Alike(s.operators, t.operators, OperatorId)
    && Alike(s.nodes, t.nodes, NodeId)
    && Alike(s.edges, t.edges, c.edge)
    && Alike(s.outputs, t.outputs, c.output)
    && Alike(s.reuse, t.reuse, ReuseNode) && Alike(s.reuse, t.reuse, ReuseGrant)
    && Alike(SortedImports(s.imports), SortedImports(t.imports), ImportGrant)
  }

  lemma AlikeElements<T(!new)>(a: seq<T>, b: seq<T>, key: T -> Key)
    requires Alike(a, b, key)
    ensures Elements(a) == Elements(b)
    ensures a == [] <==> b == []
  {
  }

  lemma AlikeSorted<T(!new)>(a: seq<T>, b: seq<T>, key: T -> Key)
    requires Alike(a, b, key) && DistinctKeys(a, key)
    ensures SortBy(a, key) == SortBy(b, key)
  {
    SortBySameSet(a, b, key);
  }

  lemma FrozenDistinct(ss: seq<SourceDecl>, hash: Text -> string)
    ensures DistinctKeys(FreezeAll(ss, hash), SourceDeclId) <==> DistinctKeys(ss, SourceDeclId)
  {
    var out := FreezeAll(ss, hash);
    assert forall i :: 0 <= i < |ss| ==> SourceDeclId(out[i]) == SourceDeclId(ss[i]);
  }

  lemma ImportsDistinct(bs: seq<ImportBinding>)
    ensures DistinctKeys(SortedImports(bs), ImportGrant) <==> DistinctKeys(bs, ImportGrant)
  {
    var out := SortedImports(bs);
    assert forall i :: 0 <= i < |bs| ==> ImportGrant(out[i]) == ImportGrant(bs[i]);
  }

  // ---------- equivalent specs compile alike ----------

  lemma SameFacts(s: GraphSpec, t: GraphSpec, c: Codec)
    requires Equivalent(s, t, c)
    ensures FactsOf(s, c) == FactsOf(t, c)
  {
    AlikeElements(FreezeAll(s.sources, c.hash), FreezeAll(t.sources, c.hash), SourceDeclId);
    AlikeElements(s.operators, t.operators, OperatorId);
    AlikeElements(s.nodes, t.nodes, NodeId);
    AlikeElements(s.edges, t.edges, c.edge);
    AlikeElements(s.outputs, t.outputs, c.output);
    AlikeElements(s.reuse, t.reuse, ReuseNode);
    AlikeElements(SortedImports(s.imports), SortedImports(t.imports), ImportGrant);
  }

  lemma SameDuplicates(s: GraphSpec, t: GraphSpec, c: Codec)
    requires Equivalent(s, t, c)
    ensures NoDuplicates(s, c) <==> NoDuplicates(t, c)
    ensures SizesOk(s) <==> SizesOk(t)
  {
    FrozenDistinct(s.sources, c.hash);
    FrozenDistinct(t.sources, c.hash);
    ImportsDistinct(s.imports);
    ImportsDistinct(t.imports);
    AlikeElements(s.reuse, t.reuse, ReuseNode);
    assert s.imports == [] <==> |s.imports| == 0;
    assert t.imports == [] <==> |t.imports| == 0;
  }

  lemma SameWiring(a: seq<Edge>, b: seq<Edge>, nodes: set<Node>, ops: set<Operator>, c: Codec)
    requires Alike(a, b, c.edge)
    ensures Wiring(a, nodes, ops, c) ==> Wiring(b, nodes, ops, c)
  {
    AlikeElements(a, b, c.edge);
  }

  /** The preflight finds the same node under each identity. */
  lemma SameNamed(a: seq<Node>, b: seq<Node>, id: Key)
    requires Alike(a, b, NodeId) && DistinctKeys(a, NodeId)
    ensures NodeNamed(a, id) == NodeNamed(b, id)
  {
    if NodeNamed(a, id).Some? {
      NamedFrom(a, id);
      NamedHere(b, NodeNamed(a, id).value);
    } else if NodeNamed(b, id).Some? {
      NamedFrom(b, id);
      NamedHere(a, NodeNamed(b, id).value);
    }
  }

  lemma {:induction false} NamedFrom(nodes: seq<Node>, id: Key)
    requires NodeNamed(nodes, id).Some?
    ensures NodeNamed(nodes, id).value in nodes && NodeNamed(nodes, id).value.id == id
  {
    var k := |nodes| - 1;
    if nodes[k].id != id {
      NamedFrom(nodes[..k], id);
    }
  }

  lemma SameComplete(a: Spec, b: Spec)
    requires b == a.(nodes := b.nodes, outputs := b.outputs)
    requires Alike(a.nodes, b.nodes, NodeId) && DistinctKeys(a.nodes, NodeId)
    requires forall o :: o in a.outputs <==> o in b.outputs
    requires Complete(a)
    ensures Complete(b)
  {
    forall id ensures NodeNamed(a.nodes, id) == NodeNamed(b.nodes, id) {
      SameNamed(a.nodes, b.nodes, id);
    }
    if a.v5 {
      SameCatalog(a, b, a.catalog.value);
      forall o, id, sp | o in b.catalog.value.obligations && id in o.nodes && sp in o.sources ensures !Missing(b, o, id, sp) {
        assert !Missing(a, o, id, sp);
        SameMissing(a, b, o, id, sp);
      }
    }
  }

  lemma SameMissing(a: Spec, b: Spec, o: Obligation, id: Key, sp: Span)
    requires b == a.(nodes := b.nodes, outputs := b.outputs)
    requires NodeNamed(a.nodes, id) == NodeNamed(b.nodes, id)
    ensures Missing(a, o, id, sp) <==> Missing(b, o, id, sp)
  {
  }

  lemma SameCatalog(a: Spec, b: Spec, c: Catalog)
    requires b == a.(nodes := b.nodes, outputs := b.outputs)
    requires forall n :: n in a.nodes <==> n in b.nodes
    requires forall id :: NodeNamed(a.nodes, id) == NodeNamed(b.nodes, id)
    requires forall o :: o in a.outputs <==> o in b.outputs
    requires ValidCatalog(a, c)
    ensures ValidCatalog(b, c)
  {
    forall x | x in c.checks ensures ValidCheck(b, x) {
      assert ValidCheck(a, x);
    }
    forall o | o in c.obligations ensures ValidObligation(b, o, CheckIds(c.checks)) {
      SameObligation(a, b, o, CheckIds(c.checks));
    }
    forall n | n in b.nodes ensures PolicyFor(b, n).Accepted? {
      assert PolicyFor(a, n).Accepted?;
    }
  }

  lemma SameObligation(a: Spec, b: Spec, o: Obligation, checks: set<Key>)
    requires b == a.(nodes := b.nodes, outputs := b.outputs)
    requires forall id :: NodeNamed(a.nodes, id) == NodeNamed(b.nodes, id)
    requires ValidObligation(a, o, checks)
    ensures ValidObligation(b, o, checks)
  {
    forall id | id in o.nodes ensures Runs(b, id) {
      assert Runs(a, id);
    }
  }

  lemma SameCoverage(s: GraphSpec, t: GraphSpec, c: Codec)
    requires Equivalent(s, t, c) && DistinctKeys(s.nodes, NodeId)
    ensures Complete(ForCoverage(s, c)) ==> Complete(ForCoverage(t, c))
  {
    SameFacts(s, t, c);
    if Complete(ForCoverage(s, c)) {
      SameComplete(ForCoverage(s, c), ForCoverage(t, c));
    }
  }

  lemma SameDeclared(s: GraphSpec, t: GraphSpec, c: Codec)
    requires Equivalent(s, t, c) && Declared(s, c)
    ensures Declared(t, c)
  {
    SameFacts(s, t, c);
    SameDuplicates(s, t, c);
    AlikeElements(s.operators, t.operators, OperatorId);
    AlikeElements(s.nodes, t.nodes, NodeId);
    SameWiring(s.edges, t.edges, Elements(s.nodes), Elements(s.operators), c);
    SameCoverage(s, t, c);
  }

  lemma SameCanonical(s: GraphSpec, t: GraphSpec, c: Codec)
    requires Equivalent(s, t, c) && NoDuplicates(s, c) && DistinctKeys(s.edges, c.edge)
    ensures Canonical(s, c) == Canonical(t, c)
  {
    FrozenDistinct(s.sources, c.hash);
    ImportsDistinct(s.imports);
    AlikeSorted(FreezeAll(s.sources, c.hash), FreezeAll(t.sources, c.hash), SourceDeclId);
    AlikeSorted(s.operators, t.operators, OperatorId);
    AlikeSorted(s.nodes, t.nodes, NodeId);
    AlikeSorted(s.edges, t.edges, c.edge);
    AlikeSorted(s.outputs, t.outputs, c.output);
    AlikeSorted(s.reuse, t.reuse, ReuseNode);
    AlikeSorted(SortedImports(s.imports), SortedImports(t.imports), ImportGrant);
  }

  lemma AlikeBack(s: GraphSpec, t: GraphSpec, c: Codec)
    requires Equivalent(s, t, c)
    ensures Equivalent(t, s, c)
  {
  }

  lemma EquivalentCompile(s: GraphSpec, t: GraphSpec, c: Codec)
    requires Equivalent(s, t, c)
    ensures Planned(s, c) == Planned(t, c)
  {
    if Declared(s, c) {
      SameDeclared(s, t, c);
      SameCanonical(s, t, c);
      AlikeElements(s.nodes, t.nodes, NodeId);
      AlikeElements(s.edges, t.edges, c.edge);
    } else if Declared(t, c) {
      AlikeBack(s, t, c);
      SameDeclared(t, s, c);
      assert false;
    }
  }

  // ---------- permuted declarations ----------

  /** The same declarations in another order, the targets of each import binding included. */
  ghost predicate Permuted(s: GraphSpec, t: GraphSpec) {
    && s.header == t.header
    && multiset(s.sources) == multiset(t.sources)
    && multiset(s.operators) == multiset(t.operators)
    && multiset(s.nodes) == multiset(t.nodes)
    && multiset(s.edges) == multiset(t.edges)
    && multiset(s.outputs) == multiset(t.outputs)
    && multiset(s.reuse) == multiset(t.reuse)
    && multiset(SortedImports(s.imports)) == multiset(SortedImports(t.imports))
  }

  lemma PermutedAlike<T(!new)>(a: seq<T>, b: seq<T>, key: T -> Key)
    requires multiset(a) == multiset(b)
    ensures Alike(a, b, key)
  {
    SameElements(a, b);
    if DistinctKeys(a, key) {
      DistinctPermutes(a, b, key);
    }
    if DistinctKeys(b, key) {
      DistinctPermutes(b, a, key);
    }
  }

  lemma FrozenAlike(a: seq<SourceDecl>, b: seq<SourceDecl>, hash: Text -> string)
    requires multiset(a) == multiset(b)
    ensures Alike(FreezeAll(a, hash), FreezeAll(b, hash), SourceDeclId)
    ensures DigestsOk(a, hash) <==> DigestsOk(b, hash)
  {
    SameElements(a, b);
    PermutedAlike(a, b, SourceDeclId);
    FrozenDistinct(a, hash);
    FrozenDistinct(b, hash);
    FrozenInto(a, b, hash);
    FrozenInto(b, a, hash);
  }

  lemma FrozenInto(a: seq<SourceDecl>, b: seq<SourceDecl>, hash: Text -> string)
    requires forall x :: x in a ==> x in b
    ensures forall x :: x in FreezeAll(a, hash) ==> x in FreezeAll(b, hash)
  {
    forall x | x in FreezeAll(a, hash) ensures x in FreezeAll(b, hash) {
      var i :| 0 <= i < |a| && FreezeAll(a, hash)[i] == x;
      assert a[i] in b;
      var j :| 0 <= j < |b| && b[j] == a[i];
      assert FreezeAll(b, hash)[j] == x;
    }
  }

  // ---------- lengths ----------

  lemma {:induction false} TogetherOut<T>(s: seq<T>, i: nat, length: T -> nat)
    requires i < |s|
    ensures Together(s, length) == length(s[i]) + Together(s[..i] + s[i + 1..], length)
  {
    var rest := s[..i] + s[i + 1..];
    if i == 0 {
      assert rest == s[1..];
    } else {
      TogetherOut(s[1..], i - 1, length);
      assert rest[0] == s[0] && rest[1..] == s[1..][..i - 1] + s[1..][i..];
    }
  }

  lemma {:induction false} TogetherPermutes<T>(s: seq<T>, t: seq<T>, length: T -> nat)
    requires multiset(s) == multiset(t)
    ensures |s| == |t| && Together(s, length) == Together(t, length)
  {
    SameElements(s, t);
    if s != [] {
      var i := TakenOut(s, t);
      TogetherOut(t, i, length);
      TogetherPermutes(s[1..], t[..i] + t[i + 1..], length);
    }
  }

  lemma {:induction false} SortedTogether(bs: seq<ImportBinding>, n: Lengths)
    ensures Together(SortedImports(bs), BindingLengths(n)) == Together(bs, BindingLengths(n))
  {
    if bs != [] {
      var b := bs[0];
      SortByPermutes(b.nodes, Itself);
      TogetherPermutes(SortBy(b.nodes, Itself), b.nodes, n.key);
      assert SortedImports(bs)[1..] == SortedImports(bs[1..]);
      SortedTogether(bs[1..], n);
    }
  }

  lemma PermutedLength(s: GraphSpec, t: GraphSpec, n: Lengths)
    requires Permuted(s, t)
    ensures RequestLength(s, n) == RequestLength(t, n)
  {
    TogetherPermutes(s.sources, t.sources, n.source);
    TogetherPermutes(s.operators, t.operators, n.operator);
    TogetherPermutes(s.nodes, t.nodes, n.node);
    TogetherPermutes(s.edges, t.edges, n.edge);
    TogetherPermutes(s.outputs, t.outputs, n.output);
    TogetherPermutes(s.reuse, t.reuse, n.reuse);
    TogetherPermutes(SortedImports(s.imports), SortedImports(t.imports), BindingLengths(n));
    SortedTogether(s.imports, n);
    SortedTogether(t.imports, n);
  }

  /** Compiling does not depend on the order of any declared list: the same plan, or refused both. */
  lemma CompilePermuted(s: GraphSpec, t: GraphSpec, c: Codec)
    requires Permuted(s, t)
    ensures Compiled(s, c) == Compiled(t, c)
  {
    FrozenAlike(s.sources, t.sources, c.hash);
    PermutedAlike(s.operators, t.operators, OperatorId);
    PermutedAlike(s.nodes, t.nodes, NodeId);
    PermutedAlike(s.edges, t.edges, c.edge);
    PermutedAlike(s.outputs, t.outputs, c.output);
    PermutedAlike(s.reuse, t.reuse, ReuseNode);
    PermutedAlike(s.reuse, t.reuse, ReuseGrant);
    PermutedAlike(SortedImports(s.imports), SortedImports(t.imports), ImportGrant);
    EquivalentCompile(s, t, c);
    PermutedLength(s, t, c.lengths);
  }

  // ---------- compiling twice ----------

  lemma SortedAlike<T(!new)>(a: seq<T>, key: T -> Key, order: T -> Key)
    ensures Alike(a, SortBy(a, order), key)
  {
    SortByPermutes(a, order);
    PermutedAlike(a, SortBy(a, order), key);
  }

  lemma FrozenTwice(ss: seq<SourceDecl>, hash: Text -> string)
    ensures FreezeAll(SortBy(FreezeAll(ss, hash), SourceDeclId), hash) == SortBy(FreezeAll(ss, hash), SourceDeclId)
    ensures DigestsOk(SortBy(FreezeAll(ss, hash), SourceDeclId), hash)
  {
    var frozen := FreezeAll(ss, hash);
    var out := SortBy(frozen, SourceDeclId);
    SortByPermutes(frozen, SourceDeclId);
    forall x | x in out ensures x.sha == hash(x.text) {
      assert x in frozen;
      var i :| 0 <= i < |frozen| && frozen[i] == x;
    }
    assert forall i :: 0 <= i < |out| ==> out[i] in out;
    assert FreezeAll(out, hash) == out;
  }

  lemma ImportsTwice(bs: seq<ImportBinding>)
    ensures SortedImports(SortBy(SortedImports(bs), ImportGrant)) == SortBy(SortedImports(bs), ImportGrant)
  {
    var sorted := SortedImports(bs);
    var out := SortBy(sorted, ImportGrant);
    SortByPermutes(sorted, ImportGrant);
    forall x | x in out ensures SortedImport(x) == x {
      assert x in sorted;
      var i :| 0 <= i < |sorted| && sorted[i] == x;
      SortByAscends(bs[i].nodes, Itself);
      SortByFixes(x.nodes, Itself);
    }
    assert forall i :: 0 <= i < |out| ==> out[i] in out;
    assert SortedImports(out) == out;
  }

  lemma CanonicalEquivalent(s: GraphSpec, c: Codec)
    requires DigestsOk(s.sources, c.hash)
    ensures Equivalent(s, Canonical(s, c), c)
  {
    FrozenTwice(s.sources, c.hash);
    SortedAlike(FreezeAll(s.sources, c.hash), SourceDeclId, SourceDeclId);
    SortedAlike(s.operators, OperatorId, OperatorId);
    SortedAlike(s.nodes, NodeId, NodeId);
    SortedAlike(s.edges, c.edge, c.edge);
    SortedAlike(s.outputs, c.output, c.output);
    SortedAlike(s.reuse, ReuseNode, ReuseNode);
    SortedAlike(s.reuse, ReuseGrant, ReuseNode);
    ImportsTwice(s.imports);
    SortedAlike(SortedImports(s.imports), ImportGrant, ImportGrant);
  }

  function WithDigests(s: GraphSpec, c: Codec): GraphSpec {
    s.(sources := FreezeAll(s.sources, c.hash))
  }

  /** Sorting keeps the length of a spec, filling in the digests of its sources may not. */
  lemma CanonicalPermutes(s: GraphSpec, c: Codec)
    ensures Permuted(Canonical(s, c), WithDigests(s, c))
  {
    SortByPermutes(FreezeAll(s.sources, c.hash), SourceDeclId);
    SortByPermutes(s.operators, OperatorId);
    SortByPermutes(s.nodes, NodeId);
    SortByPermutes(s.edges, c.edge);
    SortByPermutes(s.outputs, c.output);
    SortByPermutes(s.reuse, ReuseNode);
    SortByPermutes(SortedImports(s.imports), ImportGrant);
    ImportsTwice(s.imports);
  }

  /** A plan's own spec compiles to that very plan exactly when the request still fits with the digests
      of its sources filled in. */
  lemma CompileTwice(s: GraphSpec, c: Codec)
    requires Compiled(s, c).Accepted?
    ensures Compiled(Compiled(s, c).value.spec, c) == if WithinLimit(WithDigests(s, c), c) then Compiled(s, c) else Refused
  {
    CanonicalEquivalent(s, c);
    EquivalentCompile(s, Canonical(s, c), c);
    CanonicalPermutes(s, c);
    PermutedLength(Canonical(s, c), WithDigests(s, c), c.lengths);
  }

  // ---------- evidence at run time ----------

  /** For every node of a compiled version 5 spec the run-time policy exists and is valid, no obligation
      span is missing, and the evidence check passes exactly when the node covers its own evidence. */
  lemma PlanEvidence(s: GraphSpec, c: Codec, n: Node)
    requires Compiled(s, c).Accepted? && s.header.version == V5 && n in s.nodes
    ensures var spec := ForCoverage(s, c);
      && PolicyFor(spec, n).Accepted? && PolicyFor(spec, n).value.Some? && ValidPolicy(PolicyFor(spec, n).value.value)
      && (EvidencePresent(PolicyFor(spec, n).value.value, spec.sources, s.header.rules + n.rules + n.spans) <==>
          forall r :: r in BasePolicy(n).required ==> Covered(r, s.header.rules + n.rules + n.spans))
  {
    PreflightSuffices(ForCoverage(s, c), n);
    OwnReadable(s, c, n);
  }

  lemma OwnReadable(s: GraphSpec, c: Codec, n: Node)
    requires Fields(s, c) && n in s.nodes
    ensures forall r :: r in BasePolicy(n).required ==> Readable(ForCoverage(s, c).sources, r)
  {
    assert n in FactsOf(s, c).nodes;
    assert NodeOk(n, s.header, FactsOf(s, c).operators, TableOf(FactsOf(s, c).sources));
  }
}

/** What a coverage report and an extended policy say, field by field: internal/graph/coverage.go:50-187. */
module CoverageLaws {
  import opened Keys
  import opened Outcomes
  import opened Spans
  import opened Coverage

  ghost predicate LastAt(nodes: seq<Node>, id: Key, n: Node, i: int) {
    0 <= i < |nodes| && nodes[i] == n && n.id == id && forall j :: i < j < |nodes| ==> nodes[j].id != id
  }

  /** n is the node a table of nodes would hold under id: the last of that identity. */
  ghost predicate Holds(nodes: seq<Node>, id: Key, n: Node) {
    exists i :: LastAt(nodes, id, n, i)
  }

  lemma HoldsLast(nodes: seq<Node>, id: Key, n: Node)
    requires nodes != [] && nodes[|nodes| - 1].id == id
    ensures Holds(nodes, id, n) <==> n == nodes[|nodes| - 1]
  {
    assert LastAt(nodes, id, nodes[|nodes| - 1], |nodes| - 1);
  }

  lemma HoldsBefore(nodes: seq<Node>, id: Key, n: Node)
    requires nodes != [] && nodes[|nodes| - 1].id != id
    ensures Holds(nodes, id, n) <==> Holds(nodes[..|nodes| - 1], id, n)
  {
    var rest := nodes[..|nodes| - 1];
    forall i ensures LastAt(nodes, id, n, i) <==> LastAt(rest, id, n, i) {
      if LastAt(rest, id, n, i) {
        assert forall j :: i < j < |nodes| - 1 ==> nodes[j] == rest[j];
      }
    }
  }

  lemma {:induction false} HoldsMeans(nodes: seq<Node>, id: Key, n: Node)
    ensures Holds(nodes, id, n) <==> NodeNamed(nodes, id) == Some(n)
  {
    if nodes != [] {
      if nodes[|nodes| - 1].id == id {
        HoldsLast(nodes, id, n);
      } else {
        HoldsBefore(nodes, id, n);
        HoldsMeans(nodes[..|nodes| - 1], id, n);
      }
    }
  }

  /** The gap says which span of which obligation which node does not load. */
  ghost predicate Names(s: Spec, g: Gap, o: Obligation, sp: Span, n: Node) {
    && g.constraint == o.id && g.node in o.nodes && sp in o.sources
    && g.source == sp.source && g.start == sp.start && g.end == sp.end
    && Holds(s.nodes, g.node, n) && !Covered(sp, s.rules + n.rules + n.spans)
  }

  ghost predicate IsGap(s: Spec, os: seq<Obligation>, g: Gap) {
    exists o, sp, n :: o in os && Names(s, g, o, sp, n)
  }

  /** Exactly the obligation spans that a bound node does not load are reported. */
  lemma GapsExplained(s: Spec, os: seq<Obligation>, gaps: seq<Gap>)
    requires AllGaps(s, os, gaps)
    ensures forall g :: g in gaps <==> IsGap(s, os, g)
  {
    forall g | g in gaps ensures IsGap(s, os, g) {
      var o, id, sp :| o in os && id in o.nodes && sp in o.sources && Missing(s, o, id, sp) && g == GapOf(o, id, sp);
      var n := NodeNamed(s.nodes, id).value;
      HoldsMeans(s.nodes, id, n);
      assert Names(s, g, o, sp, n);
    }
    forall g | IsGap(s, os, g) ensures g in gaps {
      var o, sp, n :| o in os && Names(s, g, o, sp, n);
      HoldsMeans(s.nodes, g.node, n);
      assert Missing(s, o, g.node, sp) && GapOf(o, g.node, sp) == g;
    }
  }

  ghost predicate Owes(c: Catalog, id: Key, sp: Span) {
    exists o :: o in c.obligations && id in o.nodes && sp in o.sources
  }

  ghost predicate Declares(n: Node, sp: Span) {
    n.policy.Some? && sp in n.policy.value.required
  }

  /** The policy of a node under a catalog asks for what the node declared and what it owes, each once, keeps
      the node's limit on bytes, and is refused only beyond 128 spans or where the node's own policy is invalid. */
  lemma PolicyExplained(s: Spec, n: Node)
    requires s.catalog.Some?
    ensures var c, x := s.catalog.value, PolicyFor(s, n);
      && (x.Accepted? ==> x.value.Some?)
      && (x.Accepted? ==> forall sp :: sp in x.value.value.required <==> Declares(n, sp) || Owes(c, n.id, sp))
      && (x.Accepted? ==> NoRepeats(x.value.value.required) && |x.value.value.required| <= 128)
      && (x.Accepted? ==> x.value.value.version == "iu-context-policy-v1" && !x.value.value.tokenLimit)
      && (x.Accepted? ==> x.value.value.maxBytes == if n.policy.Some? then n.policy.value.maxBytes else 0)
  {
    var c := s.catalog.value;
    forall sp ensures sp in RequiredOf(c.obligations, n.id) <==> Owes(c, n.id, sp) {
      if o :| o in c.obligations && n.id in o.nodes && sp in o.sources {
        var i :| 0 <= i < |c.obligations| && c.obligations[i] == o;
      }
    }
  }

  ghost predicate RunsSomething(s: Spec, id: Key) {
    exists n :: Holds(s.nodes, id, n) && n.operator in s.executable && s.executable[n.operator]
  }

  /** In an accepted catalog every obligation belongs to a check, is bound to nodes that run an agent or a command,
      and cites readable spans; every check has an obligation and looks at outputs of the graph. */
  ghost predicate ObligationStands(s: Spec, c: Catalog, o: Obligation) {
    && (exists b :: b in c.checks && b.id == o.check)
    && (forall id :: id in o.nodes ==> RunsSomething(s, id))
    && (forall sp :: sp in o.sources ==> Readable(s.sources, sp))
  }

  ghost predicate CheckStands(s: Spec, c: Catalog, b: Check) {
    (exists o :: o in c.obligations && o.check == b.id) && b.outputs != [] && forall out :: out in b.outputs ==> out in s.outputs
  }

  lemma NodeStands(s: Spec, id: Key)
    requires Runs(s, id)
    ensures RunsSomething(s, id)
  {
    HoldsMeans(s.nodes, id, NodeNamed(s.nodes, id).value);
  }

  lemma ObligationExplained(s: Spec, c: Catalog, o: Obligation)
    requires ValidObligation(s, o, CheckIds(c.checks))
    ensures ObligationStands(s, c, o)
  {
    forall id | id in o.nodes ensures RunsSomething(s, id) {
      NodeStands(s, id);
    }
  }

  lemma ObligationsExplained(s: Spec, c: Catalog)
    requires ValidObligations(s, c.obligations, CheckIds(c.checks))
    ensures forall o :: o in c.obligations ==> ObligationStands(s, c, o)
  {
    forall o | o in c.obligations ensures ObligationStands(s, c, o) {
      ObligationExplained(s, c, o);
    }
  }

  lemma ChecksExplained(s: Spec, c: Catalog)
    requires ValidChecks(s, c.checks) && forall b :: b in c.checks ==> exists o :: o in c.obligations && o.check == b.id
    ensures forall b :: b in c.checks ==> CheckStands(s, c, b)
  {
    forall b | b in c.checks ensures CheckStands(s, c, b) {
      assert ValidCheck(s, b);
    }
  }

  lemma CatalogExplained(s: Spec, c: Catalog)
    requires ValidCatalog(s, c)
    ensures c.sealed && c.goalSource in s.sources && s.sources[c.goalSource].sha == c.goalHash
    ensures forall o :: o in c.obligations ==> ObligationStands(s, c, o)
    ensures forall b :: b in c.checks ==> CheckStands(s, c, b)
  {
    ObligationsExplained(s, c);
    ChecksExplained(s, c);
  }
}

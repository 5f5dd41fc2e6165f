/** internal/graph/coverage.go and the evidence part of context.go: the declared-evidence preflight, the
    context policy it induces, and the run-time check the preflight has to imply. */
module Coverage {
  import opened Keys
  import opened Outcomes
  import opened Spans

  type Byte = n: nat | n < 256

  type Text = seq<Byte>

  predicate Tail(b: Byte) {
    0x80 <= b <= 0xBF
  }

  /** utf8.ValidString: well-formed byte sequences of the Unicode standard. */
  predicate Utf8(s: Text) {
    if s == [] then true
    else if s[0] < 0x80 then Utf8(s[1..])
    else if 0xC2 <= s[0] <= 0xDF then |s| >= 2 && Tail(s[1]) && Utf8(s[2..])
    else if 0xE0 <= s[0] <= 0xEF then
      && |s| >= 3 && Tail(s[1]) && Tail(s[2])
      && (s[0] == 0xE0 ==> s[1] >= 0xA0) && (s[0] == 0xED ==> s[1] <= 0x9F)
      && Utf8(s[3..])
    else if 0xF0 <= s[0] <= 0xF4 then
      && |s| >= 4 && Tail(s[1]) && Tail(s[2]) && Tail(s[3])
      && (s[0] == 0xF0 ==> s[1] >= 0x90) && (s[0] == 0xF4 ==> s[1] <= 0x8F)
      && Utf8(s[4..])
    else false
  }

  /** sha is the digest of the text once a spec is compiled; before that it may be absent or wrong. */
  datatype Source = Source(text: Text, sha: string)

  type Sources = map<Key, Source>

  /** spec.go:585-595 */
  predicate Readable(sources: Sources, s: Span) {
    && s.source in sources && s.sha == sources[s.source].sha
    && 0 <= s.start < s.end <= |sources[s.source].text|
    && Utf8(sources[s.source].text[s.start..s.end])
  }

  // ---------- ReconstructSource ----------

  function Whole(id: Key, src: Source): Span {
    Span(id, 0, |src.text|, src.sha)
  }

  /** context.go:137-151 */
  method SweepSource(id: Key, src: Source, ordered: seq<Span>) returns (ok: bool)
    requires ByStart(ordered)
    ensures ok <==> (forall s :: s in ordered ==> Readable(map[id := src], s)) && Pointwise(Whole(id, src), ordered)
  {
    var end := 0;
    var k := 0;
    while k < |ordered|
      invariant 0 <= k <= |ordered| && 0 <= end <= |src.text|
      invariant forall i :: 0 <= i < k ==> Readable(map[id := src], ordered[i])
      invariant Swept(Whole(id, src), ordered, k, end)
    {
      var s := ordered[k];
      if !Readable(map[id := src], s) {
        return false;
      }
      if s.start > end {
        GapFound(Whole(id, src), ordered, k, end);
        return false;
      }
      if s.end > end {
        end := s.end;
      }
      k := k + 1;
    }
    ok := end == |src.text|;
    if !ok {
      assert !Holds(Whole(id, src), ordered, end);
    }
  }

  /** context.go:129-153: succeeds exactly when a declared digest is that of the text, every span is readable
      under it and no byte is left out. */
  method ReconstructSource(id: Key, src: Source, spans: seq<Span>, hash: Text -> string) returns (out: Outcome<Text>)
    ensures var frozen := src.(sha := hash(src.text));
      out == if (src.sha == "" || src.sha == hash(src.text))
                && (forall s :: s in spans ==> Readable(map[id := frozen], s)) && Pointwise(Whole(id, frozen), spans)
             then Accepted(src.text) else Refused
  {
    if src.sha != "" && src.sha != hash(src.text) {
      return Refused;
    }
    var frozen := src.(sha := hash(src.text));
    var ordered := SortByStart(spans);
    SortSorted(spans);
    var ok := SweepSource(id, frozen, ordered);
    HeldThere(Whole(id, frozen), ordered, spans);
    HeldThere(Whole(id, frozen), spans, ordered);
    out := if ok then Accepted(src.text) else Refused;
  }

  // ---------- policies ----------

  datatype Policy = Policy(version: string, maxBytes: int, tokenLimit: bool, required: seq<Span>)

  /** token.go:18-26 */
  predicate ValidPolicy(p: Policy) {
    p.version == "iu-context-policy-v1" && 0 <= p.maxBytes <= 65536 && |p.required| <= 128 && !p.tokenLimit
  }

  /** A scope path with the verdict of job.ValidPath on it. */
  datatype Scope = Scope(path: string, valid: bool)

  datatype Node = Node(
    id: Key,
    operator: Key,
    instructions: Text,
    spans: seq<Span>,
    rules: seq<Span>,
    policy: Option<Policy>,
    replay: Key,
    join: string,
    scopes: seq<Scope>,
    parameters: string)

  datatype Output = Output(node: Key, port: Key)

  datatype Obligation = Obligation(id: Key, sources: seq<Span>, nodes: seq<Key>, check: Key)

  datatype Check = Check(id: Key, outputs: seq<Output>)

  /** sealed is the verdict on the catalog's own digest. */
  datatype Catalog = Catalog(
    version: string,
    goalSource: Key,
    goalHash: string,
    profile: Key,
    profileVersion: string,
    scope: Key,
    obligations: seq<Obligation>,
    checks: seq<Check>,
    sealed: bool)

  /** executable says of each operator whether it runs an agent or a command. */
  datatype Spec = Spec(
    v5: bool,
    catalog: Option<Catalog>,
    sources: Sources,
    rules: seq<Span>,
    executable: map<Key, bool>,
    nodes: seq<Node>,
    outputs: seq<Output>)

  function NodeId(n: Node): Key { n.id }

  function CheckId(c: Check): Key { c.id }

  function ObligationId(o: Obligation): Key { o.id }

  ghost predicate NoRepeats<T>(s: seq<T>) {
    forall i, j :: 0 <= i < j < |s| ==> s[i] != s[j]
  }

  /** coverage.go:150-164 */
  function RequiredOf(os: seq<Obligation>, node: Key): (out: seq<Span>)
    ensures forall s :: s in out <==> exists i :: 0 <= i < |os| && node in os[i].nodes && s in os[i].sources
  {
    if os == [] then []
    else
      var last := os[|os| - 1];
      assert os == os[..|os| - 1] + [last];
      RequiredOf(os[..|os| - 1], node) + (if node in last.nodes then last.sources else [])
  }

  method CoverageRequiredSpans(os: seq<Obligation>, node: Key) returns (out: seq<Span>)
    ensures out == RequiredOf(os, node)
  {
    out := [];
    var i := 0;
    while i < |os|
      invariant 0 <= i <= |os| && out == RequiredOf(os[..i], node)
    {
      assert os[..i + 1][..i] == os[..i];
      if node in os[i].nodes {
        out := out + os[i].sources;
      }
      i := i + 1;
    }
    assert os[..i] == os;
  }

  /** First occurrences, in order. */
  function Distinct(s: seq<Span>): (out: seq<Span>)
    ensures forall x :: x in out <==> x in s
    ensures NoRepeats(out)
  {
    if s == [] then []
    else
      var n := |s| - 1;
      assert s == s[..n] + [s[n]];
      if s[n] in s[..n] then Distinct(s[..n]) else Distinct(s[..n]) + [s[n]]
  }

  method Dedupe(all: seq<Span>) returns (out: seq<Span>)
    ensures out == Distinct(all)
  {
    out := [];
    var seen: set<Span> := {};
    var i := 0;
    while i < |all|
      invariant 0 <= i <= |all| && out == Distinct(all[..i])
      invariant forall x :: x in seen <==> x in all[..i]
    {
      assert all[..i + 1][..i] == all[..i];
      if all[i] !in seen {
        out := out + [all[i]];
        seen := seen + {all[i]};
      }
      i := i + 1;
    }
    assert all[..i] == all;
  }

  function BasePolicy(n: Node): Policy {
    if n.policy.Some? then n.policy.value else Policy("iu-context-policy-v1", 0, false, [])
  }

  function Combined(c: Catalog, n: Node): Policy {
    BasePolicy(n).(required := Distinct(BasePolicy(n).required + RequiredOf(c.obligations, n.id)))
  }

  function PolicyFor(s: Spec, n: Node): Outcome<Option<Policy>> {
    if s.catalog.None? then Accepted(n.policy)
    else if ValidPolicy(Combined(s.catalog.value, n)) then Accepted(Some(Combined(s.catalog.value, n)))
    else Refused
  }

  /** coverage.go:166-187 */
  method CoverageContextPolicy(s: Spec, n: Node) returns (out: Outcome<Option<Policy>>)
    ensures out == PolicyFor(s, n)
  {
    if s.catalog.None? {
      return Accepted(n.policy);
    }
    var p := BasePolicy(n);
    var extra := CoverageRequiredSpans(s.catalog.value.obligations, n.id);
    var required := Dedupe(p.required + extra);
    p := p.(required := required);
    out := if ValidPolicy(p) then Accepted(Some(p)) else Refused;
  }

  // ---------- CheckCoverage ----------

  datatype Gap = Gap(constraint: Key, node: Key, source: Key, start: int, end: int)

  datatype Report = Report(complete: bool, gaps: seq<Gap>)

  predicate ValidHeader(s: Spec, c: Catalog) {
    && c.version == "iu-coverage-v1" && c.sealed && KeyPattern(c.profile) && KeyPattern(c.scope)
    && 1 <= |c.profileVersion| <= 256 && 1 <= |c.obligations| <= 64 && 1 <= |c.checks| <= 32
    && c.goalSource in s.sources && s.sources[c.goalSource].sha == c.goalHash
  }

  ghost predicate ValidCheck(s: Spec, b: Check) {
    KeyPattern(b.id) && 1 <= |b.outputs| <= 32 && NoRepeats(b.outputs) && forall o :: o in b.outputs ==> o in s.outputs
  }

  ghost predicate ValidChecks(s: Spec, bs: seq<Check>) {
    DistinctKeys(bs, CheckId) && forall b :: b in bs ==> ValidCheck(s, b)
  }

  ghost function CheckIds(bs: seq<Check>): set<Key> {
    set b | b in bs :: b.id
  }

  /** The node a map from identities to nodes would hold: the last of its identity. */
  ghost function NodeNamed(nodes: seq<Node>, id: Key): Option<Node> {
    if nodes == [] then None
    else if nodes[|nodes| - 1].id == id then Some(nodes[|nodes| - 1])
    else NodeNamed(nodes[..|nodes| - 1], id)
  }

  ghost predicate Runs(s: Spec, id: Key) {
    var n := NodeNamed(s.nodes, id);
    n.Some? && n.value.operator in s.executable && s.executable[n.value.operator]
  }

  ghost predicate ValidObligation(s: Spec, o: Obligation, checks: set<Key>) {
    && KeyPattern(o.id) && o.check in checks && 1 <= |o.sources| <= 32 && 1 <= |o.nodes| <= 32
    && (forall sp :: sp in o.sources ==> Readable(s.sources, sp))
    && NoRepeats(o.nodes)
    && (forall id :: id in o.nodes ==> Runs(s, id))
  }

  ghost predicate ValidObligations(s: Spec, os: seq<Obligation>, checks: set<Key>) {
    DistinctKeys(os, ObligationId) && forall o :: o in os ==> ValidObligation(s, o, checks)
  }

  ghost predicate ValidCatalog(s: Spec, c: Catalog) {
    && ValidHeader(s, c)
    && ValidChecks(s, c.checks)
    && ValidObligations(s, c.obligations, CheckIds(c.checks))
    && (forall n :: n in s.nodes ==> PolicyFor(s, n).Accepted?)
    && (forall b :: b in c.checks ==> exists o :: o in c.obligations && o.check == b.id)
  }

  function Selection(s: Spec, n: Node): seq<Span> {
    s.rules + n.rules + n.spans
  }

  ghost predicate Missing(s: Spec, o: Obligation, id: Key, sp: Span) {
    NodeNamed(s.nodes, id).Some? && !Covered(sp, Selection(s, NodeNamed(s.nodes, id).value))
  }

  function GapOf(o: Obligation, id: Key, sp: Span): Gap {
    Gap(o.id, id, sp.source, sp.start, sp.end)
  }

  /** gaps names exactly the spans of obligation o that some node among ids does not load. */
  ghost predicate GapsExact(s: Spec, o: Obligation, ids: seq<Key>, gaps: seq<Gap>) {
    && (forall id, sp :: id in ids && sp in o.sources && Missing(s, o, id, sp) ==> GapOf(o, id, sp) in gaps)
    && (forall g :: g in gaps ==> exists id, sp :: id in ids && sp in o.sources && Missing(s, o, id, sp) && g == GapOf(o, id, sp))
  }

  ghost predicate AllGaps(s: Spec, os: seq<Obligation>, gaps: seq<Gap>) {
    && (forall o, id, sp :: o in os && id in o.nodes && sp in o.sources && Missing(s, o, id, sp) ==> GapOf(o, id, sp) in gaps)
    && (forall g :: g in gaps ==> exists o, id, sp :: o in os && id in o.nodes && sp in o.sources && Missing(s, o, id, sp) && g == GapOf(o, id, sp))
  }

  /** coverage.go:119-124 */
  method GapsOfNode(s: Spec, o: Obligation, id: Key, n: Node) returns (gaps: seq<Gap>)
    requires NodeNamed(s.nodes, id) == Some(n)
    ensures GapsExact(s, o, [id], gaps)
  {
    gaps := [];
    var selected := s.rules + n.rules + n.spans;
    var k := 0;
    while k < |o.sources|
      invariant 0 <= k <= |o.sources|
      invariant forall i :: 0 <= i < k && Missing(s, o, id, o.sources[i]) ==> GapOf(o, id, o.sources[i]) in gaps
      invariant forall g :: g in gaps ==> exists i :: 0 <= i < k && Missing(s, o, id, o.sources[i]) && g == GapOf(o, id, o.sources[i])
    {
      var covered := RequiredEvidenceCovered(o.sources[k], selected);
      if !covered {
        gaps := gaps + [GapOf(o, id, o.sources[k])];
      }
      k := k + 1;
    }
    assert id in [id];
    forall g | g in gaps ensures exists a, sp :: a in [id] && sp in o.sources && Missing(s, o, a, sp) && g == GapOf(o, a, sp) {
      var i :| 0 <= i < k && Missing(s, o, id, o.sources[i]) && g == GapOf(o, id, o.sources[i]);
      assert o.sources[i] in o.sources;
    }
  }

  method NodeMap(nodes: seq<Node>) returns (m: map<Key, Node>)
    ensures forall id :: NodeNamed(nodes, id) == if id in m then Some(m[id]) else None
  {
    m := map[];
    var i := 0;
    while i < |nodes|
      invariant 0 <= i <= |nodes|
      invariant forall id :: NodeNamed(nodes[..i], id) == if id in m then Some(m[id]) else None
    {
      assert nodes[..i + 1][..i] == nodes[..i];
      m := m[nodes[i].id := nodes[i]];
      i := i + 1;
    }
    assert nodes[..i] == nodes;
  }

  /** coverage.go:111-125: the nodes of one obligation. */
  method GapsOfObligation(s: Spec, o: Obligation, nodes: map<Key, Node>) returns (ok: bool, gaps: seq<Gap>)
    requires forall id :: NodeNamed(s.nodes, id) == if id in nodes then Some(nodes[id]) else None
    ensures ok <==> NoRepeats(o.nodes) && forall id :: id in o.nodes ==> Runs(s, id)
    ensures ok ==> GapsExact(s, o, o.nodes, gaps)
  {
    gaps := [];
    var seen: set<Key> := {};
    var k := 0;
    while k < |o.nodes|
      invariant 0 <= k <= |o.nodes|
      invariant forall x :: x in seen <==> x in o.nodes[..k]
      invariant NoRepeats(o.nodes[..k]) && forall i :: 0 <= i < k ==> Runs(s, o.nodes[i])
      invariant GapsExact(s, o, o.nodes[..k], gaps)
    {
      var id := o.nodes[k];
      if id !in nodes || id in seen || nodes[id].operator !in s.executable || !s.executable[nodes[id].operator] {
        assert id in o.nodes;
        return false, gaps;
      }
      var more := GapsOfNode(s, o, id, nodes[id]);
      GapsJoin(s, o, o.nodes[..k], [id], gaps, more);
      assert o.nodes[..k + 1] == o.nodes[..k] + [id];
      gaps := gaps + more;
      seen := seen + {id};
      k := k + 1;
    }
    assert o.nodes[..k] == o.nodes;
    return true, gaps;
  }

  lemma GapsJoin(s: Spec, o: Obligation, a: seq<Key>, b: seq<Key>, x: seq<Gap>, y: seq<Gap>)
    requires GapsExact(s, o, a, x) && GapsExact(s, o, b, y)
    ensures GapsExact(s, o, a + b, x + y)
  {
    forall g | g in x + y ensures exists id, sp :: id in a + b && sp in o.sources && Missing(s, o, id, sp) && g == GapOf(o, id, sp) {
      if g in x {
        var id, sp :| id in a && sp in o.sources && Missing(s, o, id, sp) && g == GapOf(o, id, sp);
        assert id in a + b;
      } else {
        var id, sp :| id in b && sp in o.sources && Missing(s, o, id, sp) && g == GapOf(o, id, sp);
        assert id in a + b;
      }
    }
  }

  lemma AllGapsJoin(s: Spec, os: seq<Obligation>, o: Obligation, x: seq<Gap>, y: seq<Gap>)
    requires AllGaps(s, os, x) && GapsExact(s, o, o.nodes, y)
    ensures AllGaps(s, os + [o], x + y)
  {
    forall g | g in x + y
      ensures exists p, id, sp :: p in os + [o] && id in p.nodes && sp in p.sources && Missing(s, p, id, sp) && g == GapOf(p, id, sp)
    {
      if g in x {
        var p, id, sp :| p in os && id in p.nodes && sp in p.sources && Missing(s, p, id, sp) && g == GapOf(p, id, sp);
        assert p in os + [o];
      } else {
        var id, sp :| id in o.nodes && sp in o.sources && Missing(s, o, id, sp) && g == GapOf(o, id, sp);
        assert o in os + [o];
      }
    }
  }

  /** coverage.go:84-97 */
  method CheckBindings(s: Spec, bs: seq<Check>) returns (ok: bool, checks: set<Key>)
    ensures ok <==> ValidChecks(s, bs)
    ensures ok ==> checks == CheckIds(bs)
  {
    checks := {};
    var i := 0;
    while i < |bs|
      invariant 0 <= i <= |bs|
      invariant checks == CheckIds(bs[..i]) && ValidChecks(s, bs[..i])
    {
      var b := bs[i];
      var fine := CheckOutputs(s, b);
      if !fine || b.id in checks {
        BadCheck(s, bs, i);
        return false, checks;
      }
      ChecksExtend(s, bs, i);
      assert bs[..i + 1] == bs[..i] + [b];
      checks := checks + {b.id};
      i := i + 1;
    }
    assert bs[..i] == bs;
    return true, checks;
  }

  lemma BadCheck(s: Spec, bs: seq<Check>, i: nat)
    requires i < |bs| && (!ValidCheck(s, bs[i]) || bs[i].id in CheckIds(bs[..i]))
    ensures !ValidChecks(s, bs)
  {
    assert bs[i] in bs;
    if bs[i].id in CheckIds(bs[..i]) {
      var k :| 0 <= k < i && bs[k].id == bs[i].id;
      assert CheckId(bs[k]) == CheckId(bs[i]);
    }
  }

  lemma ChecksExtend(s: Spec, bs: seq<Check>, i: nat)
    requires i < |bs| && ValidChecks(s, bs[..i]) && ValidCheck(s, bs[i]) && bs[i].id !in CheckIds(bs[..i])
    ensures ValidChecks(s, bs[..i + 1])
  {
    assert bs[..i + 1] == bs[..i] + [bs[i]];
    assert forall k :: 0 <= k < i ==> bs[k] in bs[..i];
  }

  method CheckOutputs(s: Spec, b: Check) returns (ok: bool)
    ensures ok <==> ValidCheck(s, b)
  {
    if !KeyPattern(b.id) || |b.outputs| < 1 || |b.outputs| > 32 {
      return false;
    }
    var seen: set<Output> := {};
    var k := 0;
    while k < |b.outputs|
      invariant 0 <= k <= |b.outputs|
      invariant forall o :: o in seen <==> o in b.outputs[..k]
      invariant NoRepeats(b.outputs[..k]) && forall i :: 0 <= i < k ==> b.outputs[i] in s.outputs
    {
      if b.outputs[k] !in s.outputs || b.outputs[k] in seen {
        assert b.outputs[k] in b.outputs;
        return false;
      }
      assert b.outputs[..k + 1] == b.outputs[..k] + [b.outputs[k]];
      seen := seen + {b.outputs[k]};
      k := k + 1;
    }
    assert b.outputs[..k] == b.outputs;
    return true;
  }

  method AllReadable(sources: Sources, spans: seq<Span>) returns (ok: bool)
    ensures ok <==> forall sp :: sp in spans ==> Readable(sources, sp)
  {
    var k := 0;
    while k < |spans|
      invariant 0 <= k <= |spans| && forall i :: 0 <= i < k ==> Readable(sources, spans[i])
    {
      if !Readable(sources, spans[k]) {
        return false;
      }
      k := k + 1;
    }
    return true;
  }

  /** coverage.go:101-125 */
  method CheckObligation(s: Spec, o: Obligation, checks: set<Key>, nodes: map<Key, Node>) returns (ok: bool, gaps: seq<Gap>)
    requires forall id :: NodeNamed(s.nodes, id) == if id in nodes then Some(nodes[id]) else None
    ensures ok <==> ValidObligation(s, o, checks)
    ensures ok ==> GapsExact(s, o, o.nodes, gaps)
  {
    if !KeyPattern(o.id) || o.check !in checks || !(1 <= |o.sources| <= 32) || !(1 <= |o.nodes| <= 32) {
      return false, [];
    }
    var readable := AllReadable(s.sources, o.sources);
    if !readable {
      return false, [];
    }
    ok, gaps := GapsOfObligation(s, o, nodes);
  }

  ghost function ObligationIds(os: seq<Obligation>): set<Key> {
    set o | o in os :: o.id
  }

  ghost function UsedChecks(os: seq<Obligation>): set<Key> {
    set o | o in os :: o.check
  }

  /** coverage.go:98-126 */
  method CheckObligations(s: Spec, os: seq<Obligation>, checks: set<Key>) returns (ok: bool, gaps: seq<Gap>, used: set<Key>)
    ensures ok <==> ValidObligations(s, os, checks)
    ensures ok ==> AllGaps(s, os, gaps) && used == UsedChecks(os)
  {
    var nodes := NodeMap(s.nodes);
    gaps, used := [], {};
    var ids: set<Key> := {};
    var i := 0;
    while i < |os|
      invariant 0 <= i <= |os|
      invariant ids == ObligationIds(os[..i]) && used == UsedChecks(os[..i])
      invariant ValidObligations(s, os[..i], checks)
      invariant AllGaps(s, os[..i], gaps)
    {
      var o := os[i];
      var fine, more := CheckObligation(s, o, checks, nodes);
      if !fine || o.id in ids {
        BadObligation(s, os, checks, i);
        return false, gaps, used;
      }
      ObligationsExtend(s, os, checks, i);
      AllGapsJoin(s, os[..i], o, gaps, more);
      assert os[..i + 1] == os[..i] + [o];
      gaps := gaps + more;
      ids, used := ids + {o.id}, used + {o.check};
      i := i + 1;
    }
    assert os[..i] == os;
    return true, gaps, used;
  }

  lemma BadObligation(s: Spec, os: seq<Obligation>, checks: set<Key>, i: nat)
    requires i < |os| && (!ValidObligation(s, os[i], checks) || os[i].id in ObligationIds(os[..i]))
    ensures !ValidObligations(s, os, checks)
  {
    assert os[i] in os;
    if os[i].id in ObligationIds(os[..i]) {
      var k :| 0 <= k < i && os[k].id == os[i].id;
      assert ObligationId(os[k]) == ObligationId(os[i]);
    }
  }

  lemma ObligationsExtend(s: Spec, os: seq<Obligation>, checks: set<Key>, i: nat)
    requires i < |os| && ValidObligations(s, os[..i], checks) && ValidObligation(s, os[i], checks)
    requires os[i].id !in ObligationIds(os[..i])
    ensures ValidObligations(s, os[..i + 1], checks)
  {
    assert os[..i + 1] == os[..i] + [os[i]];
    assert forall k :: 0 <= k < i ==> os[k] in os[..i];
  }

  method AllPoliciesValid(s: Spec) returns (ok: bool)
    ensures ok <==> forall n :: n in s.nodes ==> PolicyFor(s, n).Accepted?
  {
    var k := 0;
    while k < |s.nodes|
      invariant 0 <= k <= |s.nodes| && forall i :: 0 <= i < k ==> PolicyFor(s, s.nodes[i]).Accepted?
    {
      var p := CoverageContextPolicy(s, s.nodes[k]);
      if p.Refused? {
        return false;
      }
      k := k + 1;
    }
    return true;
  }

  /** coverage.go:50-138: refuses a malformed catalog; otherwise reports exactly the obligation spans
      that a node bound to them does not load. */
  method CheckCoverage(s: Spec) returns (out: Outcome<Report>)
    ensures !s.v5 ==> out == if s.catalog.Some? then Refused else Accepted(Report(true, []))
    ensures s.v5 ==> (out.Accepted? <==> s.catalog.Some? && ValidCatalog(s, s.catalog.value))
    ensures s.v5 && out.Accepted? ==> AllGaps(s, s.catalog.value.obligations, out.value.gaps) && (out.value.complete <==> out.value.gaps == [])
  {
    if !s.v5 {
      return if s.catalog.Some? then Refused else Accepted(Report(true, []));
    }
    if s.catalog.None? || !ValidHeader(s, s.catalog.value) {
      return Refused;
    }
    var c := s.catalog.value;
    var okChecks, checks := CheckBindings(s, c.checks);
    if !okChecks {
      return Refused;
    }
    var okObligations, gaps, used := CheckObligations(s, c.obligations, checks);
    if !okObligations {
      return Refused;
    }
    var okPolicies := AllPoliciesValid(s);
    UsedMeans(c);
    if !okPolicies || !(checks <= used) {
      return Refused;
    }
    out := Accepted(Report(gaps == [], gaps));
  }

  lemma UsedMeans(c: Catalog)
    ensures CheckIds(c.checks) <= UsedChecks(c.obligations)
      <==> forall b :: b in c.checks ==> exists o :: o in c.obligations && o.check == b.id
  {
    if CheckIds(c.checks) <= UsedChecks(c.obligations) {
      forall b | b in c.checks ensures exists o :: o in c.obligations && o.check == b.id {
        assert b.id in UsedChecks(c.obligations);
      }
    }
    if forall b :: b in c.checks ==> exists o :: o in c.obligations && o.check == b.id {
      forall id | id in CheckIds(c.checks) ensures id in UsedChecks(c.obligations) {
        var b :| b in c.checks && b.id == id;
        var o :| o in c.obligations && o.check == b.id;
      }
    }
  }

  /** coverage.go:139-148 */
  ghost predicate Complete(s: Spec) {
    if !s.v5 then s.catalog.None?
    else
      && s.catalog.Some? && ValidCatalog(s, s.catalog.value)
      && forall o, id, sp :: o in s.catalog.value.obligations && id in o.nodes && sp in o.sources ==> !Missing(s, o, id, sp)
  }

  method ValidateCoverage(s: Spec) returns (ok: bool)
    ensures ok <==> Complete(s)
  {
    var r := CheckCoverage(s);
    ok := r.Accepted? && r.value.complete;
    if s.v5 && r.Accepted? {
      NoGaps(s, s.catalog.value.obligations, r.value.gaps);
    }
  }

  lemma NoGaps(s: Spec, os: seq<Obligation>, gaps: seq<Gap>)
    requires AllGaps(s, os, gaps)
    ensures gaps == [] <==> forall o, id, sp :: o in os && id in o.nodes && sp in o.sources ==> !Missing(s, o, id, sp)
  {
    if gaps != [] {
      assert gaps[0] in gaps;
    }
  }

  // ---------- the run-time check ----------

  ghost predicate EvidencePresent(p: Policy, sources: Sources, selected: seq<Span>) {
    forall r :: r in p.required ==> Readable(sources, r) && Covered(r, selected)
  }

  /** The span cites bytes of a source under its digest, and whole characters of its text. */
  ghost predicate Legible(sources: Sources, r: Span) {
    && r.source in sources && sources[r.source].sha == r.sha
    && 0 <= r.start && r.start < r.end && r.end <= |sources[r.source].text| && Utf8(sources[r.source].text[r.start..r.end])
  }

  /** context.go:71-86 */
  method CheckEvidence(policy: Option<Policy>, sources: Sources, rules: seq<Span>, spans: seq<Span>) returns (ok: bool)
    ensures ok <==> (policy.Some? ==> ValidPolicy(policy.value) && EvidencePresent(policy.value, sources, rules + spans))
    ensures ok <==> policy.None? || (var p := policy.value;
      && p.version == "iu-context-policy-v1" && 0 <= p.maxBytes <= 65536 && |p.required| <= 128 && !p.tokenLimit
      && forall r :: r in p.required ==> Legible(sources, r) && Covered(r, rules + spans))
  {
    if policy.None? {
      return true;
    }
    if !ValidPolicy(policy.value) {
      return false;
    }
    var required := policy.value.required;
    var k := 0;
    while k < |required|
      invariant 0 <= k <= |required|
      invariant forall i :: 0 <= i < k ==> Readable(sources, required[i]) && Covered(required[i], rules + spans)
    {
      if !Readable(sources, required[k]) {
        return false;
      }
      var covered := RequiredEvidenceCovered(required[k], rules + spans);
      if !covered {
        return false;
      }
      k := k + 1;
    }
    return true;
  }

  /** Once the preflight of a version 5 spec is complete, the run-time check of a node with the rules and
      spans of that spec can fail only on evidence the node itself declared: no obligation span is ever
      found missing. */
  lemma PreflightSuffices(s: Spec, n: Node)
    requires s.v5 && Complete(s) && DistinctKeys(s.nodes, NodeId) && n in s.nodes
    ensures PolicyFor(s, n).Accepted? && PolicyFor(s, n).value.Some? && ValidPolicy(PolicyFor(s, n).value.value)
    ensures var p := PolicyFor(s, n).value.value;
      && (forall r :: r in RequiredOf(s.catalog.value.obligations, n.id) ==>
            r in p.required && Readable(s.sources, r) && Covered(r, s.rules + n.rules + n.spans))
      && (EvidencePresent(p, s.sources, s.rules + n.rules + n.spans) <==>
          EvidencePresent(BasePolicy(n), s.sources, s.rules + n.rules + n.spans))
  {
    var os := s.catalog.value.obligations;
    NamedHere(s.nodes, n);
    forall r | r in RequiredOf(os, n.id) ensures Readable(s.sources, r) && Covered(r, Selection(s, n)) {
      var i :| 0 <= i < |os| && n.id in os[i].nodes && r in os[i].sources;
      assert os[i] in os && ValidObligation(s, os[i], CheckIds(s.catalog.value.checks));
      assert !Missing(s, os[i], n.id, r);
    }
    assert forall r :: r in Combined(s.catalog.value, n).required <==> r in BasePolicy(n).required || r in RequiredOf(os, n.id);
  }

  lemma {:induction false} NamedHere(nodes: seq<Node>, n: Node)
    requires DistinctKeys(nodes, NodeId) && n in nodes
    ensures NodeNamed(nodes, n.id) == Some(n)
  {
    var k := |nodes| - 1;
    var i :| 0 <= i < |nodes| && nodes[i] == n;
    if i < k {
      assert NodeId(nodes[i]) != NodeId(nodes[k]);
      assert nodes[..k][i] == n;
      NamedHere(nodes[..k], n);
    }
  }
}

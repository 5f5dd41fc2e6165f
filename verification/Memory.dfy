/** internal/graph/memory.go and origin.go: memory records, sealed views and their validation. */
module Memory {
  import opened Keys
  import opened Graphs

  datatype Kind = Observation | Hypothesis | Decision | Constraint | Unresolved | Finding

  datatype Validation = Unchecked | Verified

  datatype Validity = VALID | NEEDS_REVALIDATION | INVALID

  /** memory.go:229 */
  function Rank(v: Validity): nat {
    match v
    case VALID => 0
    case NEEDS_REVALIDATION => 1
    case INVALID => 2
  }

  /** wellFormed is json.Valid's verdict on the bytes; the JSON grammar itself is not modelled. */
  datatype Payload = Payload(bytes: string, wellFormed: bool)

  datatype SourceRef = SourceRef(id: Key, sha: string)

  datatype ImportIdentity = ImportIdentity(goal: string, generation: int, job: string, node: Key, contextHash: string)

  datatype OriginLink = OriginLink(version: string, source: ImportIdentity, viewHash: string, recordId: Key, recordHash: string)

  /** origin is the chain of previous origins, newest first; a record never imported has none. */
  datatype Record = Record(
    origin: seq<OriginLink>,
    id: Key,
    kind: Kind,
    payload: Payload,
    sources: seq<SourceRef>,
    dependencies: seq<Key>,
    supersedes: seq<Key>,
    validation: Validation,
    validity: Validity,
    inputHash: string)

  datatype Conflict = Conflict(recordId: Key, candidates: seq<Record>)

  /** SHA-256 over the canonical encoding, idealised as collision free: the digest of a view is
      the content it was computed from. */
  datatype Digest = Digest(version: nat, records: seq<Record>, conflicts: seq<Conflict>)

  datatype View = View(version: nat, records: seq<Record>, conflicts: seq<Conflict>, sha: Digest)

  function Named(ids: seq<Key>): set<Key> {
    set id | id in ids
  }

  function RecordId(r: Record): Key { r.id }

  function SourceId(s: SourceRef): Key { s.id }

  // ---------- field checks ----------

  predicate ValidIdentity(s: ImportIdentity) {
    Ref(s.goal) && s.generation > 0 && Ref(s.job) && KeyPattern(s.node) && JobHash(s.contextHash)
  }

  predicate ValidLink(l: OriginLink) {
    && l.version == "iu-record-origin-v1"
    && ValidIdentity(l.source)
    && JobHash(l.viewHash) && JobHash(l.recordHash)
    && KeyPattern(l.recordId)
  }

  /** origin.go:26-41: at most eight links, one goal, strictly older generations. */
  predicate ValidOrigin(o: seq<OriginLink>) {
    && |o| <= 8
    && (forall i :: 0 <= i < |o| ==> ValidLink(o[i]))
    && (forall i :: 1 <= i < |o| ==>
      o[i].source.goal == o[i - 1].source.goal && o[i].source.generation < o[i - 1].source.generation)
  }

  const MAX_DEPENDENCIES := 1024

  /** memory.go:121-147 */
  predicate ValidRecord(r: Record, candidate: bool) {
    && KeyPattern(r.id)
    && |r.payload.bytes| <= 8192 && r.payload.wellFormed
    && |r.sources| <= 64 && |r.dependencies| <= MAX_DEPENDENCIES && |r.supersedes| <= 64
    && (candidate ==> r.validation == Unchecked && r.origin == [])
    && ValidOrigin(r.origin)
    && ValidSources(r.sources)
  }

  predicate ValidSources(ss: seq<SourceRef>) {
    && (forall s :: s in ss ==> s.id != "" && JobHash(s.sha))
    && (forall i, j :: 0 <= i < j < |ss| ==> SourceId(ss[i]) != SourceId(ss[j]))
  }

  predicate AllValid(rs: seq<Record>) {
    forall r :: r in rs ==> ValidRecord(r, false)
  }

  // ---------- views ----------

  predicate HasOrigins(records: seq<Record>, conflicts: seq<Conflict>) {
    || (exists i :: 0 <= i < |records| && records[i].origin != [])
    || (exists i, k :: 0 <= i < |conflicts| && 0 <= k < |conflicts[i].candidates| && conflicts[i].candidates[k].origin != [])
  }

  /** memory.go:60-68 */
  function Seal(records: seq<Record>, conflicts: seq<Conflict>): View {
    var version := if HasOrigins(records, conflicts) then 2 else 1;
    View(version, records, conflicts, Digest(version, records, conflicts))
  }

  predicate Sealed(v: View) {
    v == Seal(v.records, v.conflicts)
  }

  predicate OriginsValid(conflicts: seq<Conflict>) {
    forall i, k :: 0 <= i < |conflicts| && 0 <= k < |conflicts[i].candidates| ==> ValidOrigin(conflicts[i].candidates[k].origin)
  }

  function Ids(rs: seq<Record>): set<Key> {
    set r | r in rs :: r.id
  }

  ghost function Depends(rs: seq<Record>): Edges {
    set i, d | 0 <= i < |rs| && d in rs[i].dependencies :: (rs[i].id, d)
  }

  ghost predicate WellFormed(rs: seq<Record>) {
    && DistinctKeys(rs, RecordId)
    && AllValid(rs)
    && Closed(Depends(rs), Ids(rs))
    && Acyclic(Depends(rs))
  }

  /** What validateView accepts. */
  ghost predicate ValidView(v: View) {
    Sealed(v) && OriginsValid(v.conflicts) && WellFormed(v.records)
  }

  /** memory.go:69-120 */
  method ValidateView(v: View) returns (ok: bool)
    ensures ok <==> ValidView(v)
  {
    if !Sealed(v) || !OriginsValid(v.conflicts) || !AllValid(v.records) {
      return false;
    }
    var deps: map<Key, seq<Key>> := map[];
    var i := 0;
    while i < |v.records|
      invariant 0 <= i <= |v.records|
      invariant forall k :: 0 <= k < i ==> v.records[k].id in deps && deps[v.records[k].id] == v.records[k].dependencies
      invariant forall a :: a in deps ==> exists k :: 0 <= k < i && v.records[k].id == a
      invariant DistinctKeys(v.records[..i], RecordId)
    {
      var r := v.records[i];
      if r.id in deps {
        assert exists k :: 0 <= k < i && RecordId(v.records[k]) == RecordId(v.records[i]);
        return false;
      }
      deps := deps[r.id := r.dependencies];
      i := i + 1;
    }
    assert v.records[..i] == v.records;
    assert deps.Keys == Ids(v.records);
    assert EdgesOf(deps) == Depends(v.records);
    ok := CheckDependencies(deps);
  }

  // ---------- NewView ----------

  /** memory.go:52-56: the inner lists of a record in sorted order. */
  function Normal(r: Record): (n: Record)
    ensures n.id == r.id && n.origin == r.origin && n.kind == r.kind && n.payload == r.payload
    ensures n.validation == r.validation && n.validity == r.validity && n.inputHash == r.inputHash
    ensures |n.dependencies| == |r.dependencies| && |n.sources| == |r.sources| && |n.supersedes| == |r.supersedes|
    ensures forall d :: d in n.dependencies <==> d in r.dependencies
    ensures forall d :: d in n.supersedes <==> d in r.supersedes
    ensures forall s :: s in n.sources <==> s in r.sources
  {
    SortByPermutes(r.dependencies, Itself);
    SortByPermutes(r.supersedes, Itself);
    SortByPermutes(r.sources, SourceId);
    r.(dependencies := SortBy(r.dependencies, Itself),
       supersedes := SortBy(r.supersedes, Itself),
       sources := SortBy(r.sources, SourceId))
  }

  lemma NormalTwice(r: Record)
    ensures Normal(Normal(r)) == Normal(r)
  {
    SortByAscends(r.dependencies, Itself);
    SortByAscends(r.supersedes, Itself);
    SortByAscends(r.sources, SourceId);
    SortByFixes(Normal(r).dependencies, Itself);
    SortByFixes(Normal(r).supersedes, Itself);
    SortByFixes(Normal(r).sources, SourceId);
  }

  lemma NormalValid(r: Record, candidate: bool)
    ensures ValidRecord(Normal(r), candidate) <==> ValidRecord(r, candidate)
  {
    var n := Normal(r);
    SortByPermutes(r.sources, SourceId);
    SameSourcesValid(r.sources, n.sources);
    SameSourcesValid(n.sources, r.sources);
  }

  lemma SameSourcesValid(a: seq<SourceRef>, b: seq<SourceRef>)
    requires multiset(a) == multiset(b)
    ensures ValidSources(a) ==> ValidSources(b)
  {
    if ValidSources(a) {
      SameElements(a, b);
      DistinctPermutes(a, b, SourceId);
    }
  }

  function Normals(rs: seq<Record>): (ns: seq<Record>)
    ensures |ns| == |rs|
    ensures forall i :: 0 <= i < |rs| ==> ns[i] == Normal(rs[i])
  {
    seq(|rs|, i requires 0 <= i < |rs| => Normal(rs[i]))
  }

  function Arrange(rs: seq<Record>): seq<Record> {
    SortBy(Normals(rs), RecordId)
  }

  /** memory.go:45-59 */
  function NewView(rs: seq<Record>): View {
    Seal(Arrange(rs), [])
  }

  function EmptyView(): View {
    NewView([])
  }

  /** NewView keeps exactly the normalised records it was given. */
  lemma ArrangeKeeps(rs: seq<Record>)
    ensures |Arrange(rs)| == |rs|
    ensures forall r :: r in rs ==> Normal(r) in Arrange(rs)
    ensures forall n :: n in Arrange(rs) ==> exists r :: r in rs && n == Normal(r)
  {
    var ns := Normals(rs);
    SortByPermutes(ns, RecordId);
    forall r | r in rs ensures Normal(r) in Arrange(rs) {
      var i :| 0 <= i < |rs| && rs[i] == r;
      assert ns[i] in ns;
    }
    forall n | n in Arrange(rs) ensures exists r :: r in rs && n == Normal(r) {
      var i :| 0 <= i < |ns| && ns[i] == n;
      assert rs[i] in rs;
    }
  }

  /** Where a given record stands after sorting. */
  lemma ArrangeIndex(rs: seq<Record>, r: Record) returns (i: int)
    requires r in rs
    ensures |Arrange(rs)| == |rs|
    ensures 0 <= i < |Arrange(rs)| && Arrange(rs)[i] == Normal(r)
  {
    ArrangeKeeps(rs);
    i :| 0 <= i < |Arrange(rs)| && Arrange(rs)[i] == Normal(r);
  }

  /** Which given record stands at a place after sorting. */
  lemma ArrangeOrigin(rs: seq<Record>, i: int) returns (r: Record)
    requires 0 <= i < |Arrange(rs)|
    ensures |Arrange(rs)| == |rs|
    ensures r in rs && Arrange(rs)[i] == Normal(r)
  {
    ArrangeKeeps(rs);
    assert Arrange(rs)[i] in Arrange(rs);
    r :| r in rs && Arrange(rs)[i] == Normal(r);
  }

  lemma ArrangeShape(rs: seq<Record>)
    ensures |Arrange(rs)| == |rs|
    ensures Ids(Arrange(rs)) == Ids(rs)
    ensures Depends(Arrange(rs)) == Depends(rs)
    ensures DistinctKeys(rs, RecordId) ==> DistinctKeys(Arrange(rs), RecordId)
  {
    var ns := Normals(rs);
    var out := Arrange(rs);
    SortByPermutes(ns, RecordId);
    ArrangeIds(rs);
    forall a, b ensures (a, b) in Depends(out) <==> (a, b) in Depends(rs) {
      EdgeHolder(out, a, b);
      EdgeHolder(rs, a, b);
      ArrangeKeeps(rs);
    }
    if DistinctKeys(rs, RecordId) {
      assert DistinctKeys(ns, RecordId);
      DistinctPermutes(ns, out, RecordId);
    }
  }

  lemma ArrangeIds(rs: seq<Record>)
    ensures Ids(Arrange(rs)) == Ids(rs)
  {
    forall k ensures k in Ids(Arrange(rs)) <==> k in Ids(rs) {
      if k in Ids(rs) {
        var r :| r in rs && r.id == k;
        var i := ArrangeIndex(rs, r);
        assert Arrange(rs)[i] in Arrange(rs);
      }
      if k in Ids(Arrange(rs)) {
        var n :| n in Arrange(rs) && n.id == k;
        var i :| 0 <= i < |Arrange(rs)| && Arrange(rs)[i] == n;
        var r := ArrangeOrigin(rs, i);
      }
    }
  }

  /** An edge is a record of the list naming the dependency. */
  lemma EdgeHolder(rs: seq<Record>, a: Key, b: Key)
    ensures (a, b) in Depends(rs) <==> exists r :: r in rs && r.id == a && b in r.dependencies
  {
    if (a, b) in Depends(rs) {
      var i, d :| 0 <= i < |rs| && d in rs[i].dependencies && (rs[i].id, d) == (a, b);
      assert rs[i] in rs;
    }
    if r :| r in rs && r.id == a && b in r.dependencies {
      var i :| 0 <= i < |rs| && rs[i] == r;
    }
  }

  lemma ArrangeWellFormed(rs: seq<Record>)
    requires WellFormed(rs)
    ensures WellFormed(Arrange(rs))
  {
    ArrangeShape(rs);
    forall n | n in Arrange(rs) ensures ValidRecord(n, false) {
      var i :| 0 <= i < |Arrange(rs)| && Arrange(rs)[i] == n;
      var r := ArrangeOrigin(rs, i);
      NormalValid(r, false);
    }
  }

  lemma {:induction false} ArrangeReflects(rs: seq<Record>)
    ensures WellFormed(Arrange(rs)) <==> WellFormed(rs)
  {
    if WellFormed(rs) {
      ArrangeWellFormed(rs);
    }
    if WellFormed(Arrange(rs)) {
      ArrangeShape(rs);
      forall r | r in rs ensures ValidRecord(r, false) {
        var i := ArrangeIndex(rs, r);
        assert Arrange(rs)[i] in Arrange(rs);
        NormalValid(r, false);
      }
      var ns := Normals(rs);
      SortByPermutes(ns, RecordId);
      DistinctPermutes(Arrange(rs), ns, RecordId);
      forall i, j | 0 <= i < j < |rs| ensures RecordId(rs[i]) != RecordId(rs[j]) {
        assert RecordId(ns[i]) != RecordId(ns[j]);
      }
    }
  }

  lemma SameNormals(a: seq<Record>, b: seq<Record>)
    requires forall r :: r in a ==> r in b
    requires DistinctKeys(a, RecordId)
    ensures forall n :: n in Normals(a) ==> n in Normals(b)
    ensures DistinctKeys(Normals(a), RecordId)
  {
    forall n | n in Normals(a) ensures n in Normals(b) {
      var i :| 0 <= i < |a| && Normals(a)[i] == n;
      assert a[i] in a;
      var j :| 0 <= j < |b| && b[j] == a[i];
      assert Normals(b)[j] == n;
    }
    forall i, j | 0 <= i < j < |a| ensures RecordId(Normals(a)[i]) != RecordId(Normals(a)[j]) {
      assert RecordId(a[i]) != RecordId(a[j]);
    }
  }

  /** The order in which records are handed to NewView leaves no trace in a valid view. */
  lemma PermutedView(a: seq<Record>, b: seq<Record>)
    requires multiset(a) == multiset(b)
    ensures ValidView(NewView(a)) <==> ValidView(NewView(b))
    ensures ValidView(NewView(a)) ==> NewView(a) == NewView(b)
  {
    SameElements(a, b);
    ArrangeReflects(a);
    ArrangeReflects(b);
    if DistinctKeys(a, RecordId) {
      DistinctPermutes(a, b, RecordId);
      SameNormals(a, b);
      SameNormals(b, a);
      SortBySameSet(Normals(a), Normals(b), RecordId);
    } else if DistinctKeys(b, RecordId) {
      DistinctPermutes(b, a, RecordId);
      assert false;
    }
  }

  lemma ArrangeTwice(rs: seq<Record>)
    ensures Arrange(Arrange(rs)) == Arrange(rs)
  {
    ArrangeOutput(rs);
    ArrangedFrom(Arrange(rs));
  }

  lemma ArrangeOutput(rs: seq<Record>)
    ensures Ascends(Arrange(rs), RecordId)
    ensures forall i :: 0 <= i < |Arrange(rs)| ==> Normal(Arrange(rs)[i]) == Arrange(rs)[i]
  {
    var ns := Normals(rs);
    var out := Arrange(rs);
    SortByAscends(ns, RecordId);
    SortByPermutes(ns, RecordId);
    forall i | 0 <= i < |out| ensures Normal(out[i]) == out[i] {
      assert out[i] in out;
      var k :| 0 <= k < |ns| && ns[k] == out[i];
      NormalTwice(rs[k]);
    }
  }

  lemma OnlyOne(rs: seq<Record>, a: Record, b: Record)
    requires DistinctKeys(rs, RecordId) && a in rs && b in rs && a.id == b.id
    ensures a == b
  {
    var i :| 0 <= i < |rs| && rs[i] == a;
    var j :| 0 <= j < |rs| && rs[j] == b;
    assert RecordId(rs[i]) == RecordId(rs[j]);
  }

  // ---------- judgements: everything but validity and validation ----------

  function Unjudged(r: Record): Record {
    r.(validity := VALID, validation := Unchecked)
  }

  /** The lists differ at most in validity and validation. */
  ghost predicate SameBodies(a: seq<Record>, b: seq<Record>) {
    |a| == |b| && forall i :: 0 <= i < |a| ==> Unjudged(a[i]) == Unjudged(b[i])
  }

  lemma SameBodiesFacts(a: seq<Record>, b: seq<Record>)
    requires SameBodies(a, b)
    ensures Ids(a) == Ids(b)
    ensures Depends(a) == Depends(b)
    ensures WellFormed(a) <==> WellFormed(b)
    ensures Arrange(a) == a <==> Arrange(b) == b
  {
    SubEdges(a, b);
    SubEdges(b, a);
    SubIds(a, b);
    SubIds(b, a);
    if WellFormed(a) {
      SameValid(a, b);
    }
    if WellFormed(b) {
      SameValid(b, a);
    }
    if Arrange(a) == a {
      SameArranged(a, b);
    }
    if Arrange(b) == b {
      SameArranged(b, a);
    }
  }

  lemma SubIds(a: seq<Record>, b: seq<Record>)
    requires SameBodies(a, b)
    ensures Ids(a) <= Ids(b)
    ensures DistinctKeys(a, RecordId) ==> DistinctKeys(b, RecordId)
  {
    SameIds(a, b);
    forall k | k in Ids(a) ensures k in Ids(b) {
      var i :| 0 <= i < |a| && a[i].id == k;
      assert b[i] in b && RecordId(a[i]) == RecordId(b[i]);
    }
  }

  lemma SameIds(a: seq<Record>, b: seq<Record>)
    requires SameBodies(a, b)
    ensures forall i :: 0 <= i < |a| ==> RecordId(a[i]) == RecordId(b[i])
  {
    forall i | 0 <= i < |a| ensures RecordId(a[i]) == RecordId(b[i]) {
      assert Unjudged(a[i]) == Unjudged(b[i]);
    }
  }

  lemma SubEdges(a: seq<Record>, b: seq<Record>)
    requires SameBodies(a, b)
    ensures Depends(a) <= Depends(b)
  {
    forall e | e in Depends(a) ensures e in Depends(b) {
      var i, d :| 0 <= i < |a| && d in a[i].dependencies && (a[i].id, d) == e;
      assert Unjudged(a[i]) == Unjudged(b[i]);
      assert d in b[i].dependencies;
    }
  }

  lemma SameValid(a: seq<Record>, b: seq<Record>)
    requires SameBodies(a, b)
    requires AllValid(a)
    ensures AllValid(b)
  {
    forall r | r in b ensures ValidRecord(r, false) {
      var i :| 0 <= i < |b| && b[i] == r;
      assert a[i] in a && Unjudged(a[i]) == Unjudged(b[i]);
    }
  }

  lemma SameArranged(a: seq<Record>, b: seq<Record>)
    requires SameBodies(a, b)
    requires Arrange(a) == a
    ensures Arrange(b) == b
  {
    ArrangeOutput(a);
    SameIds(a, b);
    forall i | 0 <= i < |b| ensures Normal(b[i]) == b[i] {
      SameNormal(a[i], b[i]);
    }
    ArrangedFrom(b);
  }

  lemma ArrangedFrom(rs: seq<Record>)
    requires Ascends(rs, RecordId)
    requires forall i :: 0 <= i < |rs| ==> Normal(rs[i]) == rs[i]
    ensures Arrange(rs) == rs
  {
    assert Normals(rs) == rs;
    SortByFixes(rs, RecordId);
  }

  lemma SameNormal(a: Record, b: Record)
    requires Unjudged(a) == Unjudged(b)
    requires Normal(a) == a
    ensures Normal(b) == b
  {
    assert a.dependencies == b.dependencies && a.supersedes == b.supersedes && a.sources == b.sources;
  }

  lemma EmptyViewValid()
    ensures ValidView(EmptyView())
    ensures EmptyView().records == [] && EmptyView().conflicts == []
  {
    ArrangeShape([]);
    assert Arrange([]) == [];
    LayeredAcyclic(Depends([]), []);
  }
}

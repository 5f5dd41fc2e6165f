/** internal/graph/memory.go:160-226, source_lineage.go:8-47 and execution.go:37-72: admitting the
    records a node proposes, and applying them to the view it read. */
module Deltas {
  import opened Keys
  import opened Outcomes
  import opened Spans
  import opened Memory
  import opened Projection
  import opened Invalidation

  datatype Delta = Delta(readView: Digest, contextHash: string, records: seq<Record>)

  /** The length of a delta encoded as canonical JSON, the form in which BuildOutput and ApplyDelta hand it
      to ValidateDelta. */
  type DeltaSize = Delta -> nat

  const MAX_DELTA := 0x1_0000

  // ---------- ValidateDelta ----------

  ghost predicate NewIds(rs: seq<Record>, known: set<Key>) {
    DistinctKeys(rs, RecordId) && forall r :: r in rs ==> r.id !in known
  }

  predicate Declared(r: Record, known: set<Key>) {
    && ValidRecord(r, true)
    && (forall d :: d in r.dependencies ==> d in known)
    && (forall d :: d in r.supersedes ==> d in known)
  }

  ghost predicate Admissible(d: Delta, v: View) {
    && ValidView(v)
    && d.readView == v.sha
    && JobHash(d.contextHash)
    && |d.records| <= 32
    && NewIds(d.records, Ids(v.records))
    && forall r :: r in d.records ==> Declared(r, Ids(v.records))
  }

  /** Conservative lineage: a new record depends on the entire presented read set. */
  function Admit(r: Record, known: set<Key>, contextHash: string): Record {
    r.(dependencies := Enumerate(known), inputHash := contextHash, validity := VALID)
  }

  function AdmitAll(rs: seq<Record>, known: set<Key>, contextHash: string): (out: seq<Record>)
    ensures |out| == |rs|
    ensures forall i :: 0 <= i < |rs| ==> out[i] == Admit(rs[i], known, contextHash)
  {
    seq(|rs|, i requires 0 <= i < |rs| => Admit(rs[i], known, contextHash))
  }

  ghost function Admitted(d: Delta, v: View, size: DeltaSize): Outcome<Delta> {
    if size(d) <= MAX_DELTA && Admissible(d, v)
    then Accepted(d.(records := AdmitAll(d.records, Ids(v.records), d.contextHash)))
    else Refused
  }

  /** memory.go:178-201 */
  method AdmitRecords(rs: seq<Record>, known: set<Key>, contextHash: string) returns (out: Outcome<seq<Record>>)
    ensures out == if NewIds(rs, known) && forall r :: r in rs ==> Declared(r, known)
                   then Accepted(AdmitAll(rs, known, contextHash)) else Refused
  {
    var seen: set<Key> := {};
    var done: seq<Record> := [];
    var i := 0;
    while i < |rs|
      invariant 0 <= i <= |rs|
      invariant seen == Ids(rs[..i]) && NewIds(rs[..i], known)
      invariant forall n :: 0 <= n < i ==> Declared(rs[n], known)
      invariant done == AdmitAll(rs[..i], known, contextHash)
    {
      var r := rs[i];
      if !Declared(r, known) || r.id in seen || r.id in known {
        RefusalJustified(rs, known, i);
        return Refused;
      }
      NewIdsExtend(rs, known, i);
      assert rs[..i + 1] == rs[..i] + [r];
      seen := seen + {r.id};
      done := done + [Admit(r, known, contextHash)];
      i := i + 1;
    }
    assert rs[..i] == rs;
    out := Accepted(done);
  }

  /** memory.go:160-203 */
  method ValidateDelta(d: Delta, v: View, size: DeltaSize) returns (out: Outcome<Delta>)
    ensures out == Admitted(d, v, size)
  {
    if size(d) > MAX_DELTA {
      return Refused;
    }
    var ok := ValidateView(v);
    if !ok || d.readView != v.sha || !JobHash(d.contextHash) || |d.records| > 32 {
      return Refused;
    }
    var checked := AdmitRecords(d.records, Ids(v.records), d.contextHash);
    if checked.Refused? {
      return Refused;
    }
    out := Accepted(d.(records := checked.value));
  }

  lemma RefusalJustified(rs: seq<Record>, known: set<Key>, i: nat)
    requires i < |rs|
    requires !Declared(rs[i], known) || rs[i].id in Ids(rs[..i]) || rs[i].id in known
    ensures !NewIds(rs, known) || exists r :: r in rs && !Declared(r, known)
  {
    assert rs[i] in rs;
    if rs[i].id in Ids(rs[..i]) {
      var q :| q in rs[..i] && q.id == rs[i].id;
      var n :| 0 <= n < i && rs[n] == q;
      assert RecordId(rs[n]) == RecordId(rs[i]);
    }
  }

  lemma NewIdsExtend(rs: seq<Record>, known: set<Key>, i: nat)
    requires i < |rs| && NewIds(rs[..i], known)
    requires rs[i].id !in Ids(rs[..i]) && rs[i].id !in known
    ensures NewIds(rs[..i + 1], known)
  {
    assert rs[..i + 1] == rs[..i] + [rs[i]];
    assert forall n :: 0 <= n < i ==> rs[n] in rs[..i];
  }

  // ---------- BindDeltaSources ----------

  predicate SpanNamed(s: Span) {
    KeyPattern(s.source) && JobHash(s.sha)
  }

  /** Every directly presented source, by identity. */
  function DirectMap(spans: seq<Span>): map<Key, string> {
    if spans == [] then map[] else
      var n := |spans| - 1;
      DirectMap(spans[..n])[spans[n].source := spans[n].sha]
  }

  /** Well-formed spans that never give one source two digests. */
  ghost predicate SpansBind(spans: seq<Span>) {
    && (forall i :: 0 <= i < |spans| ==> SpanNamed(spans[i]))
    && (forall i, j :: 0 <= i < j < |spans| && spans[i].source == spans[j].source ==> spans[i].sha == spans[j].sha)
  }

  lemma DirectMapMeans(spans: seq<Span>)
    ensures forall k :: k in DirectMap(spans) ==> ShownAs(spans, k, DirectMap(spans)[k])
    ensures forall i :: 0 <= i < |spans| ==> spans[i].source in DirectMap(spans)
    ensures SpansBind(spans) ==> forall i :: 0 <= i < |spans| ==> DirectMap(spans)[spans[i].source] == spans[i].sha
  {
    forall k | k in DirectMap(spans) ensures ShownAs(spans, k, DirectMap(spans)[k]) {
      DirectShown(spans, k);
    }
    forall i | 0 <= i < |spans| ensures spans[i].source in DirectMap(spans) {
      DirectHolds(spans, i);
    }
  }

  ghost predicate ShownAs(spans: seq<Span>, k: Key, sha: string) {
    exists i :: 0 <= i < |spans| && spans[i].source == k && spans[i].sha == sha
  }

  lemma {:induction false} DirectShown(spans: seq<Span>, k: Key)
    requires k in DirectMap(spans)
    ensures ShownAs(spans, k, DirectMap(spans)[k])
  {
    var n := |spans| - 1;
    if k != spans[n].source {
      DirectShown(spans[..n], k);
      var i :| 0 <= i < n && spans[..n][i].source == k && spans[..n][i].sha == DirectMap(spans[..n])[k];
      assert spans[i] == spans[..n][i];
    }
  }

  lemma {:induction false} DirectHolds(spans: seq<Span>, i: nat)
    requires i < |spans|
    ensures spans[i].source in DirectMap(spans)
  {
    var n := |spans| - 1;
    if i < n {
      DirectHolds(spans[..n], i);
      assert spans[..n][i] == spans[i];
    }
  }

  function RefMap(refs: seq<SourceRef>): (m: map<Key, string>)
    ensures forall k :: k in m <==> exists s :: s in refs && s.id == k
    ensures forall k :: k in m ==> SourceRef(k, m[k]) in refs
  {
    if refs == [] then map[] else
      assert refs == [refs[0]] + refs[1..];
      RefMap(refs[1..])[refs[0].id := refs[0].sha]
  }

  function RefsOf(m: map<Key, string>): (refs: seq<SourceRef>)
    ensures forall s :: s in refs <==> s.id in m && m[s.id] == s.sha
  {
    var ids := Enumerate(m.Keys);
    var refs := seq(|ids|, i requires 0 <= i < |ids| => assert ids[i] in ids; SourceRef(ids[i], m[ids[i]]));
    assert forall s: SourceRef :: s.id in m && m[s.id] == s.sha ==> s in refs by {
      forall s: SourceRef | s.id in m && m[s.id] == s.sha ensures s in refs {
        assert s.id in ids;
        var i :| 0 <= i < |ids| && ids[i] == s.id;
        assert refs[i] == s;
      }
    }
    refs
  }

  predicate Binds(r: Record, direct: map<Key, string>) {
    && ValidRecord(r, true)
    && (forall s :: s in r.sources && s.id in direct ==> direct[s.id] == s.sha)
    && |RefMap(r.sources) + direct| <= 64
  }

  function Bind(r: Record, direct: map<Key, string>): Record {
    r.(sources := RefsOf(RefMap(r.sources) + direct))
  }

  function BindAll(rs: seq<Record>, direct: map<Key, string>): (out: seq<Record>)
    ensures |out| == |rs|
    ensures forall i :: 0 <= i < |rs| ==> out[i] == Bind(rs[i], direct)
  {
    seq(|rs|, i requires 0 <= i < |rs| => Bind(rs[i], direct))
  }

  lemma SpanStep(spans: seq<Span>, i: nat)
    requires i < |spans| && SpansBind(spans[..i])
    ensures SpansBind(spans[..i + 1])
      <==> (SpanNamed(spans[i])
        && (spans[i].source in DirectMap(spans[..i]) ==> DirectMap(spans[..i])[spans[i].source] == spans[i].sha))
  {
    var past, now := spans[..i], spans[..i + 1];
    DirectMapMeans(past);
    assert now == past + [spans[i]];
    assert forall k :: 0 <= k < i ==> now[k] == past[k];
    if SpansBind(now) && spans[i].source in DirectMap(past) {
      var k :| 0 <= k < i && past[k].source == spans[i].source && past[k].sha == DirectMap(past)[spans[i].source];
      assert now[k].source == now[i].source;
    }
  }

  lemma SpanPrefix(spans: seq<Span>, i: nat)
    requires i <= |spans| && SpansBind(spans)
    ensures SpansBind(spans[..i])
  {
  }

  /** source_lineage.go:11-20 */
  method CollectDirect(spans: seq<Span>) returns (out: Outcome<map<Key, string>>)
    ensures out == if SpansBind(spans) then Accepted(DirectMap(spans)) else Refused
  {
    var direct: map<Key, string> := map[];
    var i := 0;
    while i < |spans|
      invariant 0 <= i <= |spans|
      invariant SpansBind(spans[..i]) && direct == DirectMap(spans[..i])
    {
      var s := spans[i];
      SpanStep(spans, i);
      if !SpanNamed(s) || (s.source in direct && direct[s.source] != s.sha) {
        if SpansBind(spans) {
          SpanPrefix(spans, i + 1);
          assert false;
        }
        return Refused;
      }
      assert spans[..i + 1][..i] == spans[..i];
      direct := direct[s.source := s.sha];
      i := i + 1;
    }
    assert spans[..i] == spans;
    out := Accepted(direct);
  }

  ghost function SourcesBound(rs: seq<Record>, spans: seq<Span>): Outcome<seq<Record>> {
    if SpansBind(spans) && forall k :: 0 <= k < |rs| ==> Binds(rs[k], DirectMap(spans))
    then Accepted(BindAll(rs, DirectMap(spans)))
    else Refused
  }

  /** source_lineage.go:21-45 */
  method BindRecords(rs: seq<Record>, direct: map<Key, string>) returns (out: Outcome<seq<Record>>)
    ensures out == if forall k :: 0 <= k < |rs| ==> Binds(rs[k], direct) then Accepted(BindAll(rs, direct)) else Refused
  {
    out := MapChecked(rs, r => Binds(r, direct), r => Bind(r, direct));
    if out.Accepted? {
      assert out.value == BindAll(rs, direct);
    }
  }

  /** source_lineage.go:10-47: refuses a malformed or contradictory presentation; otherwise every
      record ends up naming every presented source besides its own. */
  method BindDeltaSources(rs: seq<Record>, spans: seq<Span>) returns (out: Outcome<seq<Record>>)
    ensures out == SourcesBound(rs, spans)
  {
    var collected := CollectDirect(spans);
    if collected.Refused? {
      return Refused;
    }
    out := BindRecords(rs, collected.value);
  }

  /** Nothing presented is dropped and nothing the record claimed is lost. */
  lemma BoundSources(r: Record, spans: seq<Span>)
    requires SpansBind(spans) && Binds(r, DirectMap(spans))
    ensures forall i :: 0 <= i < |spans| ==> SourceRef(spans[i].source, spans[i].sha) in Bind(r, DirectMap(spans)).sources
    ensures forall s :: s in r.sources ==> s in Bind(r, DirectMap(spans)).sources
  {
    DirectMapMeans(spans);
    forall i | 0 <= i < |spans| ensures SourceRef(spans[i].source, spans[i].sha) in Bind(r, DirectMap(spans)).sources {
      DirectKept(r, DirectMap(spans), spans[i].source);
    }
    ClaimsKept(r, DirectMap(spans));
  }

  lemma DirectKept(r: Record, direct: map<Key, string>, k: Key)
    requires k in direct
    ensures SourceRef(k, direct[k]) in Bind(r, direct).sources
  {
    assert (RefMap(r.sources) + direct)[k] == direct[k];
  }

  lemma ClaimsKept(r: Record, direct: map<Key, string>)
    requires Binds(r, direct)
    ensures forall s :: s in r.sources ==> s in Bind(r, direct).sources
  {
    forall s | s in r.sources ensures s in Bind(r, direct).sources {
      RefMapHolds(r.sources, s);
    }
  }

  lemma RefMapHolds(ss: seq<SourceRef>, s: SourceRef)
    requires ValidSources(ss) && s in ss
    ensures s.id in RefMap(ss) && RefMap(ss)[s.id] == s.sha
  {
    var t := SourceRef(s.id, RefMap(ss)[s.id]);
    OneSha(ss, s, t);
  }

  lemma OneSha(ss: seq<SourceRef>, s: SourceRef, t: SourceRef)
    requires ValidSources(ss) && s in ss && t in ss && s.id == t.id
    ensures s == t
  {
    var i :| 0 <= i < |ss| && ss[i] == s;
    var j :| 0 <= j < |ss| && ss[j] == t;
    assert SourceId(ss[i]) == SourceId(ss[j]);
  }

  // ---------- BuildOutput ----------

  ghost function Built(claims: seq<Record>, spans: seq<Span>, contextHash: string, v: View, size: DeltaSize): Outcome<Delta> {
    match SourcesBound(claims, spans)
    case Refused => Refused
    case Accepted(rs) => Admitted(Delta(v.sha, contextHash, rs), v, size)
  }

  /** execution.go:58-66: bind the sources of everything presented, then check the delta. */
  method BuildOutput(claims: seq<Record>, spans: seq<Span>, contextHash: string, v: View, size: DeltaSize) returns (out: Outcome<Delta>)
    ensures out == Built(claims, spans, contextHash, v, size)
  {
    var bound := BindDeltaSources(claims, spans);
    match bound {
      case Refused =>
        return Refused;
      case Accepted(rs) =>
        out := ValidateDelta(Delta(v.sha, contextHash, rs), v, size);
    }
  }

  // ---------- ApplyDelta ----------

  function Supersedes(rs: seq<Record>): set<Key> {
    set r, d | r in rs && d in r.supersedes :: d
  }

  ghost function Joined(v: View, added: seq<Record>): View {
    Seal(Arrange(v.records + added), v.conflicts)
  }

  ghost function Struck(v: View, ids: set<Key>): Outcome<View> {
    if ids == {} then Accepted(v) else Invalidated(v, ids)
  }

  ghost function Applied(v: View, d: Delta, size: DeltaSize): Outcome<View> {
    match Admitted(d, v, size)
    case Refused => Refused
    case Accepted(c) =>
      match Struck(Joined(v, c.records), Supersedes(c.records))
      case Refused => Refused
      case Accepted(w) => Accepted(Seal(Projected(w.records), w.conflicts))
  }

  /** memory.go:217-222 */
  method StrikeMore(base: View, next: View, ghost past: set<Key>, ids: seq<Key>) returns (out: Outcome<View>)
    requires Struck(base, past) == Accepted(next)
    ensures out == Struck(base, past + set x | x in ids)
  {
    ghost var now := set x | x in ids;
    if |ids| == 0 {
      assert past + now == past;
      return Accepted(next);
    }
    assert ids[0] in now;
    out := Invalidate(next, ids);
    if past == {} {
      assert past + now == now;
    } else {
      InvalidateUnion(base, past, now);
    }
  }

  lemma StruckFails(base: View, some: set<Key>, all: set<Key>)
    requires some <= all && Struck(base, some).Refused?
    ensures Struck(base, all).Refused?
  {
    var x :| x in some;
  }

  /** memory.go:216-223: one invalidation per superseding record amounts to one of them all. */
  method StrikeSuperseded(base: View, added: seq<Record>) returns (out: Outcome<View>)
    ensures out == Struck(base, Supersedes(added))
  {
    out := Accepted(base);
    var i := 0;
    while i < |added|
      invariant 0 <= i <= |added|
      invariant out.Accepted? && out == Struck(base, Supersedes(added[..i]))
    {
      SupersedesGrow(added, i);
      out := StrikeMore(base, out.value, Supersedes(added[..i]), added[i].supersedes);
      if out.Refused? {
        StruckFails(base, Supersedes(added[..i + 1]), Supersedes(added));
        return;
      }
      i := i + 1;
    }
    assert added[..i] == added;
  }

  /** memory.go:205-226 */
  method ApplyDelta(v: View, d: Delta, size: DeltaSize) returns (out: Outcome<View>)
    ensures out == Applied(v, d, size)
  {
    var checked := ValidateDelta(d, v, size);
    if checked.Refused? {
      return Refused;
    }
    var added := checked.value.records;
    var struck := StrikeSuperseded(Seal(Arrange(v.records + added), v.conflicts), added);
    if struck.Refused? {
      return Refused;
    }
    var projected := ProjectCopy(struck.value.records);
    out := Accepted(Seal(projected, struck.value.conflicts));
  }

  lemma SupersedesGrow(added: seq<Record>, i: nat)
    requires i < |added|
    ensures Supersedes(added[..i + 1]) == Supersedes(added[..i]) + (set x | x in added[i].supersedes)
    ensures Supersedes(added[..i + 1]) <= Supersedes(added)
  {
    assert added[..i + 1] == added[..i] + [added[i]];
    forall d | d in Supersedes(added[..i + 1]) ensures d in Supersedes(added) {
      var r :| r in added[..i + 1] && d in r.supersedes;
      assert r in added;
    }
  }
}

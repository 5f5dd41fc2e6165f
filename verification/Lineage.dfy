/** Whole runs of the memory-view algebra: which views can be reached, and what invalidating a
    source does to everything that was ever exposed to it. */
module Lineage {
  import opened Keys
  import opened Graphs
  import opened Outcomes
  import opened Spans
  import opened Memory
  import opened Projection
  import opened Invalidation
  import opened Contexts
  import opened Deltas
  import opened DeltaLaws
  import opened Merging
  import opened Importing

  /** How a view came about. Produce is BuildOutput followed by ApplyDelta; Apply takes any delta. */
  datatype Run =
    | Start
    | Apply(prev: Run, delta: Delta)
    | Produce(prev: Run, claims: seq<Record>, spans: seq<Span>, contextHash: string)
    | Merge(runs: seq<Run>)
    | Revoke(prev: Run, roots: set<Key>)
    | Project(prev: Run, event: Event)
    | ProjectWithContexts(prev: Run, event: Event, contexts: ContextTable)
    | Import(prev: Run, ids: seq<Key>, grant: Grant)
    | Verify(prev: Run, ids: seq<Key>)

  ghost function Produced(v: View, claims: seq<Record>, spans: seq<Span>, contextHash: string, size: DeltaSize): Outcome<View> {
    match Built(claims, spans, contextHash, v, size)
    case Refused => Refused
    case Accepted(d) => Applied(v, d, size)
  }

  ghost function ViewOf(run: Run, canon: Canon, size: DeltaSize): Outcome<View>
    requires Injective(canon)
    decreases run, 1
  {
    match run
    case Start => Accepted(EmptyView())
    case Merge(runs) =>
      if forall i :: 0 <= i < |runs| ==> ViewOf(runs[i], canon, size).Accepted?
      then Merged(Fused(run, canon, size), canon)
      else Refused
    case _ =>
      match ViewOf(run.prev, canon, size)
      case Refused => Refused
      case Accepted(v) => Stepped(run, v, size)
  }

  ghost function Fused(run: Run, canon: Canon, size: DeltaSize): (views: seq<View>)
    requires Injective(canon) && run.Merge?
    requires forall i :: 0 <= i < |run.runs| ==> ViewOf(run.runs[i], canon, size).Accepted?
    ensures |views| == |run.runs|
    ensures forall i :: 0 <= i < |views| ==> views[i] == ViewOf(run.runs[i], canon, size).value
    decreases run, 0
  {
    seq(|run.runs|, i requires 0 <= i < |run.runs| => ViewOf(run.runs[i], canon, size).value)
  }

  ghost function Stepped(run: Run, v: View, size: DeltaSize): Outcome<View>
    requires !run.Start? && !run.Merge?
  {
    match run
    case Apply(_, delta) => Applied(v, delta, size)
    case Produce(_, claims, spans, h) => Produced(v, claims, spans, h, size)
    case Revoke(_, ids) => Invalidated(v, ids)
    case Project(_, ev) => EventProjected(v, ev)
    case ProjectWithContexts(_, ev, ctxs) => ContextProjected(v, ev, ctxs)
    case Import(_, ids, g) => Imported(v, ids, g)
    case Verify(_, ids) => VerifiedScope(v, ids)
  }

  // ---------- bodies and where they live ----------

  /** What of a record no step ever changes: its normal form without judgements. */
  ghost function Core(r: Record): Record {
    Unjudged(Normal(r))
  }

  ghost function CoresOf(v: View): set<Record> {
    set r | r in Variants(v) :: Core(r)
  }

  /** Every candidate is filed under its own identity, which some record stands for. */
  ghost predicate Homed(v: View) {
    forall i, k :: 0 <= i < |v.conflicts| && 0 <= k < |v.conflicts[i].candidates| ==>
      v.conflicts[i].candidates[k].id == v.conflicts[i].recordId && v.conflicts[i].recordId in Ids(v.records)
  }

  lemma VariantIds(v: View, r: Record)
    requires Homed(v) && r in Variants(v)
    ensures r.id in Ids(v.records)
  {
    VariantsSplit(v);
  }

  ghost predicate SameShape(a: seq<Conflict>, b: seq<Conflict>) {
    |a| == |b| && forall i :: 0 <= i < |a| ==> a[i].recordId == b[i].recordId && SameBodies(a[i].candidates, b[i].candidates)
  }

  lemma CoreNormal(r: Record)
    ensures Core(Normal(r)) == Core(r)
  {
    NormalTwice(r);
  }

  lemma CoreSame(a: Record, b: Record)
    requires Unjudged(a) == Unjudged(b)
    ensures Core(a) == Core(b) && a.id == b.id
  {
    assert a.dependencies == b.dependencies && a.supersedes == b.supersedes && a.sources == b.sources;
    assert a.id == b.id && a.origin == b.origin && a.kind == b.kind && a.payload == b.payload && a.inputHash == b.inputHash;
  }

  /** Every body of v is still found in w. */
  ghost predicate Keeps(v: View, w: View) {
    CoresOf(v) <= CoresOf(w)
  }

  /** A step that only rejudges, possibly after adding records, keeps every body and its home. */
  lemma Rejudged(v: View, w: View, base: seq<Record>)
    requires SameBodies(w.records, base) && SameShape(w.conflicts, v.conflicts)
    requires forall r :: r in v.records ==> r in base || Normal(r) in base
    ensures Keeps(v, w)
    ensures Homed(v) ==> Homed(w)
  {
    RejudgedCores(v, w, base);
    if Homed(v) {
      RejudgedHomes(v, w, base);
    }
  }

  lemma RecordKept(rs: seq<Record>, base: seq<Record>, r: Record) returns (q: Record)
    requires SameBodies(rs, base) && (r in base || Normal(r) in base)
    ensures q in rs && Core(q) == Core(r) && q.id == r.id
  {
    var n := if r in base then r else Normal(r);
    var i :| 0 <= i < |base| && base[i] == n;
    q := rs[i];
    CoreNormal(r);
    CoreSame(q, n);
  }

  lemma RejudgedCores(v: View, w: View, base: seq<Record>)
    requires SameBodies(w.records, base) && SameShape(w.conflicts, v.conflicts)
    requires forall r :: r in v.records ==> r in base || Normal(r) in base
    ensures Keeps(v, w)
  {
    VariantsSplit(v);
    VariantsSplit(w);
    forall r | r in Variants(v) ensures Core(r) in CoresOf(w) {
      if r in v.records {
        var q := RecordKept(w.records, base, r);
        assert q in Variants(w);
      } else {
        var i, k :| 0 <= i < |v.conflicts| && 0 <= k < |v.conflicts[i].candidates| && v.conflicts[i].candidates[k] == r;
        assert SameBodies(w.conflicts[i].candidates, v.conflicts[i].candidates);
        var q := w.conflicts[i].candidates[k];
        CoreSame(q, r);
        assert Candidate(w.conflicts, q);
      }
    }
  }

  lemma RejudgedHomes(v: View, w: View, base: seq<Record>)
    requires SameBodies(w.records, base) && SameShape(w.conflicts, v.conflicts)
    requires forall r :: r in v.records ==> r in base || Normal(r) in base
    requires Homed(v)
    ensures Homed(w)
  {
    forall i, k | 0 <= i < |w.conflicts| && 0 <= k < |w.conflicts[i].candidates|
      ensures w.conflicts[i].candidates[k].id == w.conflicts[i].recordId && w.conflicts[i].recordId in Ids(w.records)
    {
      assert SameBodies(w.conflicts[i].candidates, v.conflicts[i].candidates);
      CoreSame(w.conflicts[i].candidates[k], v.conflicts[i].candidates[k]);
      var r :| r in v.records && r.id == v.conflicts[i].recordId;
      var q := RecordKept(w.records, base, r);
    }
  }

  lemma Arranged(rs: seq<Record>)
    ensures forall r :: r in rs ==> Normal(r) in Arrange(rs)
  {
    ArrangeKeeps(rs);
  }

  lemma StruckKept(v: View, s: set<Key>)
    ensures Keeps(v, StrikeView(v, s))
    ensures Homed(v) ==> Homed(StrikeView(v, s))
  {
    Arranged(v.records);
    StruckShape(v.conflicts, s);
    Rejudged(v, StrikeView(v, s), Arrange(v.records));
  }

  lemma StruckShape(cs: seq<Conflict>, s: set<Key>)
    ensures SameShape(StrikeConflicts(cs, s), cs)
  {
  }

  lemma DoubtedKept(v: View, ev: Event, ctxs: ContextTable)
    ensures Keeps(v, Doubted(v, ev, ctxs))
    ensures Homed(v) ==> Homed(Doubted(v, ev, ctxs))
  {
    Arranged(v.records);
    DoubtFacts(v, ev, ctxs);
    Rejudged(v, Doubted(v, ev, ctxs), Arrange(v.records));
  }

  lemma AppliedKept(v: View, d: Delta, size: DeltaSize)
    requires Applied(v, d, size).Accepted?
    ensures Keeps(v, Applied(v, d, size).value)
    ensures Homed(v) ==> Homed(Applied(v, d, size).value)
    ensures forall r :: r in AddedRecords(v, d) ==> Core(r) in CoresOf(Applied(v, d, size).value)
  {
    var w := Applied(v, d, size).value;
    var all := v.records + AddedRecords(v, d);
    var base := Arrange(all);
    var gone := Downstream(base, Supersedes(d.records));
    AppliedRecords(v, d, size);
    Arranged(all);
    StruckShape(v.conflicts, gone);
    StrikeFacts(base, gone);
    ProjectedConsistent(StrikeAll(base, gone));
    SameBodiesTrans(w.records, StrikeAll(base, gone), base);
    Rejudged(v, w, base);
    forall r | r in AddedRecords(v, d) ensures Core(r) in CoresOf(w) {
      assert r in all;
      var q := RecordKept(w.records, base, r);
      assert q in Variants(w);
    }
  }

  lemma VerifiedKept(v: View, ids: seq<Key>)
    requires VerifiedScope(v, ids).Accepted?
    ensures Keeps(v, VerifiedScope(v, ids).value)
    ensures Homed(v) ==> Homed(VerifiedScope(v, ids).value)
  {
    Rejudged(v, VerifiedScope(v, ids).value, v.records);
  }

  /** Every variant of every merged view is found in the merge. */
  lemma MergedKeeps(views: seq<View>, canon: Canon, i: int)
    requires Injective(canon) && Merged(views, canon).Accepted? && 0 <= i < |views|
    ensures Keeps(views[i], Merged(views, canon).value)
  {
    var vs := AllVariants(views);
    var w := MergedView(vs, canon);
    forall r | r in Variants(views[i]) ensures Core(r) in CoresOf(w) {
      assert r in vs;
      VariantMerged(vs, canon, r);
    }
  }

  lemma VariantMerged(vs: set<Record>, canon: Canon, r: Record)
    requires Injective(canon) && r in vs
    ensures Core(r) in CoresOf(MergedView(vs, canon))
  {
    var pick := VarietyOf(vs, canon);
    VarietySorted(vs, canon);
    InOrderHolds(Group(vs, r.id), canon);
    assert r in Group(vs, r.id) && r in pick(r.id);
    VariantAssembled(IdsOf(vs), pick, r);
  }

  lemma VariantAssembled(ids: set<Key>, pick: Variety, r: Record)
    requires Sorted(ids, pick) && r.id in ids && r in pick(r.id)
    ensures Core(r) in CoresOf(Assembled(ids, pick))
  {
    var w := Assembled(ids, pick);
    if r.id in Contested(ids, pick) {
      ConflictRecorded(ids, pick, r.id);
      assert ConflictOf(r.id, pick) in w.conflicts && r in ConflictOf(r.id, pick).candidates;
      assert r in Variants(w);
    } else {
      assert |pick(r.id)| == 1 && pick(r.id)[0] == r;
      var out := AssembledAt(ids, pick, r.id);
      CoreNormal(r);
      CoreSame(out, Normal(r));
      assert out in Variants(w);
    }
  }

  lemma MergedHomed(vs: set<Record>, canon: Canon)
    requires Injective(canon)
    ensures Homed(MergedView(vs, canon))
  {
    var pick := VarietyOf(vs, canon);
    VarietySorted(vs, canon);
    AssembledHomed(IdsOf(vs), pick);
  }

  lemma AssembledHomed(ids: set<Key>, pick: Variety)
    requires Sorted(ids, pick)
    ensures Homed(Assembled(ids, pick))
  {
    var w := Assembled(ids, pick);
    var order := Enumerate(Contested(ids, pick));
    forall i, k | 0 <= i < |w.conflicts| && 0 <= k < |w.conflicts[i].candidates|
      ensures w.conflicts[i].candidates[k].id == w.conflicts[i].recordId && w.conflicts[i].recordId in Ids(w.records)
    {
      assert order[i] in order;
      assert w.conflicts[i] == ConflictOf(order[i], pick);
      assert pick(order[i])[k] in pick(order[i]);
      var out := AssembledAt(ids, pick, order[i]);
    }
  }

  // ---------- reachable views ----------

  /** ApplyDelta checks no size on the view it returns, so only a raw application of some delta to a
      view of more than 1024 records can leave an invalid view; every other step refuses it. */
  ghost predicate Oversized(run: Run, canon: Canon, size: DeltaSize)
    requires Injective(canon)
  {
    && run.Apply?
    && run.delta.records != []
    && ViewOf(run.prev, canon, size).Accepted?
    && |ViewOf(run.prev, canon, size).value.records| > MAX_DEPENDENCIES
  }

  ghost predicate Sound(v: View) {
    Consistent(v.records) && Homed(v)
  }

  lemma ProducedValid(v: View, claims: seq<Record>, spans: seq<Span>, h: string, size: DeltaSize)
    requires Produced(v, claims, spans, h, size).Accepted?
    ensures ValidView(Produced(v, claims, spans, h, size).value)
  {
    var d := Built(claims, spans, h, v, size).value;
    ApplySound(v, d, size);
    BuiltFits(claims, spans, h, v, size);
  }

  /** BuildOutput returns the completed dependency lists, so applying its delta checks them. */
  lemma BuiltFits(claims: seq<Record>, spans: seq<Span>, h: string, v: View, size: DeltaSize)
    requires Produced(v, claims, spans, h, size).Accepted?
    ensures Built(claims, spans, h, v, size).value.records == [] || |v.records| <= MAX_DEPENDENCIES
  {
    var d := Built(claims, spans, h, v, size).value;
    if d.records != [] {
      var r := d.records[0];
      assert r in d.records && Declared(r, Ids(v.records));
      IdCount(v.records);
    }
  }

  lemma SteppedSound(run: Run, v: View, size: DeltaSize)
    requires !run.Start? && !run.Merge? && Sound(v) && Stepped(run, v, size).Accepted?
    ensures Sound(Stepped(run, v, size).value)
    ensures !run.Apply? ==> ValidView(Stepped(run, v, size).value)
  {
    match run
    case Apply(_, d) =>
      ApplySound(v, d, size);
      AppliedKept(v, d, size);
    case Produce(_, claims, spans, h) =>
      ApplySound(v, Built(claims, spans, h, v, size).value, size);
      AppliedKept(v, Built(claims, spans, h, v, size).value, size);
      ProducedValid(v, claims, spans, h, size);
    case Revoke(_, ids) =>
      RevokedSound(v, ids);
    case Project(_, ev) =>
      if !ev.auditOnly {
        RevokedSound(v, Roots(v, ev));
      }
    case ProjectWithContexts(_, ev, ctxs) =>
      ProjectedSound(v, ev, ctxs);
    case Import(_, ids, g) =>
      ImportSound(v, ids, g);
    case Verify(_, ids) =>
      VerifySound(v, ids);
      VerifiedKept(v, ids);
  }

  lemma RevokedSound(v: View, ids: set<Key>)
    requires Sound(v) && Invalidated(v, ids).Accepted?
    ensures Sound(Invalidated(v, ids).value) && ValidView(Invalidated(v, ids).value)
  {
    InvalidateConsistent(v, ids);
    StruckKept(v, Downstream(v.records, ids));
    StrikeValid(v, Downstream(v.records, ids));
  }

  lemma ProjectedSound(v: View, ev: Event, ctxs: ContextTable)
    requires Sound(v) && ContextProjected(v, ev, ctxs).Accepted?
    ensures Sound(ContextProjected(v, ev, ctxs).value) && ValidView(ContextProjected(v, ev, ctxs).value)
  {
    if !ev.auditOnly {
      var d := Doubted(v, ev, ctxs);
      DoubtedKept(v, ev, ctxs);
      ProjectedConsistent(DoubtedRecords(v, ev, ctxs));
      RevokedSound(d, Roots(d, Widened(v, ev, ctxs)));
    }
  }

  /** Every view any run reaches files each candidate under a present identity and judges no record
      better than one it depends on; it has unique identities and a closed, acyclic dependency
      relation unless its last step was an oversized raw application. */
  lemma {:induction false} ReachableSound(run: Run, canon: Canon, size: DeltaSize)
    requires Injective(canon) && ViewOf(run, canon, size).Accepted?
    ensures Sound(ViewOf(run, canon, size).value)
    ensures ValidView(ViewOf(run, canon, size).value) <==> !Oversized(run, canon, size)
    decreases run
  {
    match run
    case Start =>
      EmptyViewValid();
    case Merge(runs) =>
      var views := Fused(run, canon, size);
      MergedHomed(AllVariants(views), canon);
      MergedConsistent(AllVariants(views), canon);
    case Apply(prev, d) =>
      ReachableSound(prev, canon, size);
      SteppedSound(run, ViewOf(prev, canon, size).value, size);
      ApplySound(ViewOf(prev, canon, size).value, d, size);
    case _ =>
      ReachableSound(run.prev, canon, size);
      SteppedSound(run, ViewOf(run.prev, canon, size).value, size);
  }

  lemma MergedConsistent(vs: set<Record>, canon: Canon)
    requires Injective(canon)
    ensures Consistent(MergedView(vs, canon).records)
  {
    var pick := VarietyOf(vs, canon);
    VarietySorted(vs, canon);
    ProjectedConsistent(Arrange(Representatives(Enumerate(IdsOf(vs)), pick)));
  }

  /** Stated transitively: no VALID record of a reachable view rests on one that is not. */
  lemma NothingValidOnDoubt(run: Run, canon: Canon, size: DeltaSize, r: Record, q: Record)
    requires Injective(canon) && ViewOf(run, canon, size).Accepted?
    requires r in ViewOf(run, canon, size).value.records && Upstream(ViewOf(run, canon, size).value.records, r, q)
    ensures r.validity == VALID ==> q.validity == VALID
  {
    ReachableSound(run, canon, size);
    ConsistentUpstream(ViewOf(run, canon, size).value.records, r, q);
  }

  // ---------- exposure ----------

  ghost predicate Shows(spans: seq<Span>, s: SourceRef) {
    exists i :: 0 <= i < |spans| && SpanSource(spans[i]) == s
  }

  ghost predicate AddedCore(v: View, d: Delta, c: Record) {
    exists r :: r in AddedRecords(v, d) && Core(r) == c
  }

  ghost predicate CarriedCore(v: View, ids: seq<Key>, g: Grant, r: Record, c: Record) {
    r in v.records && r.id in ids && Core(Carry(r, g)) == c
  }

  /** Some body read from the view of this run was exposed to s. */
  ghost predicate ReadExposed(run: Run, canon: Canon, size: DeltaSize, v: View, s: SourceRef)
    requires Injective(canon)
    decreases run, 1
  {
    exists q :: q in CoresOf(v) && ExposedTo(run, canon, size, q, s)
  }

  /** During the run, a record with body c was produced from a context that contained a span of s,
      or after reading a view with a record or candidate that was itself so exposed, recursively. */
  ghost predicate ExposedTo(run: Run, canon: Canon, size: DeltaSize, c: Record, s: SourceRef)
    requires Injective(canon)
    decreases run, 0
  {
    match run
    case Start => false
    case Merge(runs) => exists i :: 0 <= i < |runs| && ExposedTo(runs[i], canon, size, c, s)
    case Import(prev, ids, g) =>
      && ViewOf(prev, canon, size).Accepted?
      && exists r :: CarriedCore(ViewOf(prev, canon, size).value, ids, g, r, c) && ExposedTo(prev, canon, size, Core(r), s)
    case Apply(prev, d) =>
      || ExposedTo(prev, canon, size, c, s)
      || (&& ViewOf(prev, canon, size).Accepted?
          && AddedCore(ViewOf(prev, canon, size).value, d, c)
          && ReadExposed(prev, canon, size, ViewOf(prev, canon, size).value, s))
    case Produce(prev, claims, spans, h) =>
      || ExposedTo(prev, canon, size, c, s)
      || (&& ViewOf(prev, canon, size).Accepted?
          && Built(claims, spans, h, ViewOf(prev, canon, size).value, size).Accepted?
          && AddedCore(ViewOf(prev, canon, size).value, Built(claims, spans, h, ViewOf(prev, canon, size).value, size).value, c)
          && (Shows(spans, s) || ReadExposed(prev, canon, size, ViewOf(prev, canon, size).value, s)))
    case _ => ExposedTo(run.prev, canon, size, c, s)
  }

  /** The flat trace exposure leaves in a view: a body that names the source outright, standing at
      the identity of c or at one c depends on. */
  ghost predicate Traced(v: View, c: Record, s: SourceRef) {
    exists d :: d in CoresOf(v) && s in d.sources && (d.id == c.id || d.id in c.dependencies)
  }

  lemma TraceKept(v: View, w: View, c: Record, s: SourceRef)
    requires Traced(v, c, s) && Keeps(v, w)
    ensures Traced(w, c, s)
  {
  }

  lemma CoreFields(r: Record)
    ensures Core(r).id == r.id
    ensures forall d :: d in Core(r).dependencies <==> d in r.dependencies
    ensures forall s :: s in Core(r).sources <==> s in r.sources
  {
  }

  /** A record added after reading v depends on all of v, so on whatever traces an exposed body. */
  lemma AddedTraced(v: View, d: Delta, c: Record, q: Record, s: SourceRef, size: DeltaSize)
    requires Applied(v, d, size).Accepted? && Homed(v)
    requires AddedCore(v, d, c) && Traced(v, q, s)
    ensures Traced(Applied(v, d, size).value, c, s)
  {
    var t :| t in CoresOf(v) && s in t.sources && (t.id == q.id || t.id in q.dependencies);
    var home :| home in Variants(v) && Core(home) == t;
    VariantIds(v, home);
    var r :| r in AddedRecords(v, d) && Core(r) == c;
    CoreFields(r);
    var i :| 0 <= i < |AddedRecords(v, d)| && AddedRecords(v, d)[i] == r;
    assert t.id in r.dependencies;
    AppliedKept(v, d, size);
  }

  lemma BuiltSources(claims: seq<Record>, spans: seq<Span>, h: string, v: View, i: int, size: DeltaSize)
    requires Built(claims, spans, h, v, size).Accepted?
    requires 0 <= i < |Built(claims, spans, h, v, size).value.records|
    ensures i < |claims| && SpansBind(spans) && Binds(claims[i], DirectMap(spans))
    ensures Built(claims, spans, h, v, size).value.records[i].sources == Bind(claims[i], DirectMap(spans)).sources
  {
    var bound := BindAll(claims, DirectMap(spans));
    assert SourcesBound(claims, spans) == Accepted(bound);
  }

  /** A record produced from a context showing s names s itself. */
  lemma ShownNamed(v: View, claims: seq<Record>, spans: seq<Span>, h: string, r: Record, s: SourceRef, size: DeltaSize)
    requires Built(claims, spans, h, v, size).Accepted? && Shows(spans, s)
    requires r in AddedRecords(v, Built(claims, spans, h, v, size).value)
    ensures s in r.sources
  {
    var d := Built(claims, spans, h, v, size).value;
    var i :| 0 <= i < |AddedRecords(v, d)| && AddedRecords(v, d)[i] == r;
    assert r.sources == d.records[i].sources;
    BuiltSources(claims, spans, h, v, i, size);
    BoundSources(claims[i], spans);
  }

  lemma ShownTraced(v: View, claims: seq<Record>, spans: seq<Span>, h: string, c: Record, s: SourceRef, size: DeltaSize)
    requires Produced(v, claims, spans, h, size).Accepted? && Shows(spans, s)
    requires AddedCore(v, Built(claims, spans, h, v, size).value, c)
    ensures Traced(Produced(v, claims, spans, h, size).value, c, s)
  {
    var d := Built(claims, spans, h, v, size).value;
    var r :| r in AddedRecords(v, d) && Core(r) == c;
    ShownNamed(v, claims, spans, h, r, s, size);
    CoreFields(r);
    AppliedKept(v, d, size);
  }

  lemma ImportTraced(v: View, ids: seq<Key>, g: Grant, r: Record, c: Record, s: SourceRef)
    requires Imported(v, ids, g).Accepted? && Homed(v)
    requires CarriedCore(v, ids, g, r, c) && Traced(v, Core(r), s)
    ensures Traced(Imported(v, ids, g).value, c, s)
  {
    var t :| t in CoresOf(v) && s in t.sources && (t.id == Core(r).id || t.id in Core(r).dependencies);
    var home :| home in Variants(v) && Core(home) == t;
    CoreFields(home);
    CoreFields(r);
    TraceChosen(v, ids, g, r, home);
    var out := CarryKept(v, ids, g, home);
    CarriedLink(r, home, g);
    CoreFields(Carry(home, g));
    CoreFields(Carry(r, g));
  }

  /** What a carried record rests on is carried with it, and is no conflict candidate. */
  lemma TraceChosen(v: View, ids: seq<Key>, g: Grant, r: Record, home: Record)
    requires Importable(v, ids, g) && Homed(v)
    requires r in v.records && r.id in ids && home in Variants(v)
    requires home.id == r.id || home.id in r.dependencies
    ensures home in v.records && home.id in ids
  {
    assert Transportable(r, Named(ids), g);
    VariantsSplit(v);
  }

  lemma CarriedLink(r: Record, home: Record, g: Grant)
    requires home.id == r.id || home.id in r.dependencies
    ensures Carry(home, g).id == Carry(r, g).id || Carry(home, g).id in Carry(r, g).dependencies
    ensures Carry(home, g).sources == home.sources
  {
    if home.id != r.id {
      var k :| 0 <= k < |r.dependencies| && r.dependencies[k] == home.id;
      assert Carry(r, g).dependencies[k] == Carry(home, g).id;
    }
  }

  lemma CarryKept(v: View, ids: seq<Key>, g: Grant, r: Record) returns (out: Record)
    requires Imported(v, ids, g).Accepted? && r in v.records && r.id in ids
    ensures out in Variants(Imported(v, ids, g).value) && Core(out) == Core(Carry(r, g))
  {
    var rs := Selected(v.records, Named(ids), g);
    SelectedFrom(v.records, Named(ids), g);
    Arranged(rs);
    out := Normal(Carry(r, g));
    CoreNormal(Carry(r, g));
  }

  lemma StepKeeps(run: Run, v: View, size: DeltaSize)
    requires run.Revoke? || run.Project? || run.ProjectWithContexts? || run.Verify?
    requires Stepped(run, v, size).Accepted?
    ensures Keeps(v, Stepped(run, v, size).value)
  {
    match run
    case Revoke(_, ids) =>
      StruckKept(v, Downstream(v.records, ids));
    case Project(_, ev) =>
      if !ev.auditOnly {
        StruckKept(v, Downstream(v.records, Roots(v, ev)));
      }
    case ProjectWithContexts(_, ev, ctxs) =>
      if !ev.auditOnly {
        var d := Doubted(v, ev, ctxs);
        DoubtedKept(v, ev, ctxs);
        StruckKept(d, Downstream(d.records, Roots(d, Widened(v, ev, ctxs))));
      }
    case Verify(_, ids) =>
      VerifiedKept(v, ids);
  }

  lemma ReadTraced(v: View, d: Delta, c: Record, s: SourceRef, size: DeltaSize)
    requires Applied(v, d, size).Accepted? && Homed(v) && AddedCore(v, d, c)
    requires exists q :: Traced(v, q, s)
    ensures Traced(Applied(v, d, size).value, c, s)
  {
    var q :| Traced(v, q, s);
    AddedTraced(v, d, c, q, s, size);
  }

  lemma MergeTraced(views: seq<View>, canon: Canon, i: int, c: Record, s: SourceRef)
    requires Injective(canon) && Merged(views, canon).Accepted? && 0 <= i < |views|
    requires Traced(views[i], c, s)
    ensures Traced(Merged(views, canon).value, c, s)
  {
    MergedKeeps(views, canon, i);
    TraceKept(views[i], Merged(views, canon).value, c, s);
  }

  /** Exposure, however indirect, always leaves the flat trace. */
  lemma {:induction false} ExposureTraced(run: Run, canon: Canon, size: DeltaSize, c: Record, s: SourceRef)
    requires Injective(canon) && ViewOf(run, canon, size).Accepted? && ExposedTo(run, canon, size, c, s)
    ensures Traced(ViewOf(run, canon, size).value, c, s)
    decreases run, 1
  {
    match run
    case Start =>
    case Merge(_) =>
      FusionTraced(run, canon, size, c, s);
    case Import(_, _, _) =>
      CarriageTraced(run, canon, size, c, s);
    case Apply(prev, d) =>
      AdditionTraced(run, canon, size, c, s, d, []);
    case Produce(prev, claims, spans, h) =>
      AdditionTraced(run, canon, size, c, s, Built(claims, spans, h, ViewOf(prev, canon, size).value, size).value, spans);
    case _ =>
      ExposureTraced(run.prev, canon, size, c, s);
      StepKeeps(run, ViewOf(run.prev, canon, size).value, size);
      TraceKept(ViewOf(run.prev, canon, size).value, ViewOf(run, canon, size).value, c, s);
  }

  lemma {:induction false} FusionTraced(run: Run, canon: Canon, size: DeltaSize, c: Record, s: SourceRef)
    requires Injective(canon) && run.Merge?
    requires ViewOf(run, canon, size).Accepted? && ExposedTo(run, canon, size, c, s)
    ensures Traced(ViewOf(run, canon, size).value, c, s)
    decreases run, 0
  {
    var views := Fused(run, canon, size);
    var i :| 0 <= i < |run.runs| && ExposedTo(run.runs[i], canon, size, c, s);
    ExposureTraced(run.runs[i], canon, size, c, s);
    MergeTraced(views, canon, i, c, s);
  }

  lemma {:induction false} CarriageTraced(run: Run, canon: Canon, size: DeltaSize, c: Record, s: SourceRef)
    requires Injective(canon) && run.Import?
    requires ViewOf(run, canon, size).Accepted? && ExposedTo(run, canon, size, c, s)
    ensures Traced(ViewOf(run, canon, size).value, c, s)
    decreases run, 0
  {
    var v := ViewOf(run.prev, canon, size).value;
    var r :| CarriedCore(v, run.ids, run.grant, r, c) && ExposedTo(run.prev, canon, size, Core(r), s);
    ReachableSound(run.prev, canon, size);
    ExposureTraced(run.prev, canon, size, Core(r), s);
    ImportTraced(v, run.ids, run.grant, r, c, s);
  }

  lemma {:induction false} AdditionTraced(run: Run, canon: Canon, size: DeltaSize, c: Record, s: SourceRef, d: Delta, spans: seq<Span>)
    requires Injective(canon) && (run.Apply? || run.Produce?)
    requires ViewOf(run.prev, canon, size).Accepted? && ViewOf(run, canon, size).Accepted?
    requires ViewOf(run, canon, size) == Applied(ViewOf(run.prev, canon, size).value, d, size)
    requires run.Produce? ==> run.spans == spans && Built(run.claims, spans, run.contextHash, ViewOf(run.prev, canon, size).value, size) == Accepted(d)
    requires run.Apply? ==> run.delta == d && spans == []
    requires ExposedTo(run, canon, size, c, s)
    ensures Traced(ViewOf(run, canon, size).value, c, s)
    decreases run, 0
  {
    var v := ViewOf(run.prev, canon, size).value;
    ReachableSound(run.prev, canon, size);
    AppliedKept(v, d, size);
    if ExposedTo(run.prev, canon, size, c, s) {
      ExposureTraced(run.prev, canon, size, c, s);
      TraceKept(v, ViewOf(run, canon, size).value, c, s);
    } else if Shows(spans, s) {
      ShownTraced(v, run.claims, spans, run.contextHash, c, s, size);
    } else {
      assert AddedCore(v, d, c) && ReadExposed(run.prev, canon, size, v, s);
      var q :| q in CoresOf(v) && ExposedTo(run.prev, canon, size, q, s);
      ExposureTraced(run.prev, canon, size, q, s);
      ReadTraced(v, d, c, s, size);
    }
  }

  /** Lineage soundness: in every reachable valid view, an event naming a source is accepted and
      leaves INVALID every record that was exposed to that source in any way during the run. */
  lemma LineageSound(run: Run, canon: Canon, size: DeltaSize, r: Record, ev: Event, s: SourceRef)
    requires Injective(canon) && ViewOf(run, canon, size).Accepted? && !Oversized(run, canon, size)
    requires r in ViewOf(run, canon, size).value.records && ExposedTo(run, canon, size, Core(r), s)
    requires s in ev.sources && !ev.auditOnly
    ensures EventProjected(ViewOf(run, canon, size).value, ev).Accepted?
    ensures forall out :: out in EventProjected(ViewOf(run, canon, size).value, ev).value.records && out.id == r.id ==> out.validity == INVALID
  {
    var v := ViewOf(run, canon, size).value;
    ReachableSound(run, canon, size);
    ExposureTraced(run, canon, size, Core(r), s);
    RootsPresent(v, ev);
    TraceStruck(v, r, ev, s);
    InvalidateExact(v, Roots(v, ev), r);
    var w := EventProjected(v, ev).value;
    var mine := Normal(r).(validity := INVALID);
    forall out | out in w.records && out.id == r.id ensures out.validity == INVALID {
      OnlyOne(w.records, out, mine);
    }
  }

  lemma RootsPresent(v: View, ev: Event)
    requires Homed(v)
    ensures Roots(v, ev) <= Ids(v.records)
  {
    forall id | id in Roots(v, ev) ensures id in Ids(v.records) {
      var q :| q in Variants(v) && Listed(q, ev) && q.id == id;
      VariantIds(v, q);
    }
  }

  lemma TraceStruck(v: View, r: Record, ev: Event, s: SourceRef)
    requires r in v.records && Traced(v, Core(r), s) && s in ev.sources
    ensures ReachesAny(Depends(v.records), r.id, Roots(v, ev))
  {
    var e := Depends(v.records);
    var d :| d in CoresOf(v) && s in d.sources && (d.id == Core(r).id || d.id in Core(r).dependencies);
    var q :| q in Variants(v) && Core(q) == d;
    CoreFields(q);
    CoreFields(r);
    assert Listed(q, ev) && q.id in Roots(v, ev);
    if q.id == r.id {
      ReachesSelf(e, r.id);
    } else {
      EdgeHolder(v.records, r.id, q.id);
      ReachesEdge(e, r.id, q.id);
    }
  }
}

/** Where the records of a view come from: every added record carries the context that produced it, and
    through that context alone an event finds it. internal/graph/memory.go:184-226, source_lineage.go:10-91. */
module Provenance {
  import opened Keys
  import opened Graphs
  import opened Outcomes
  import opened Spans
  import opened Memory
  import opened Projection
  import opened Invalidation
  import opened Contexts
  import opened Deltas
  import opened DeltaLaws
  import opened Merging
  import MergeLaws
  import opened Importing
  import opened Lineage

  // ---------- what an application adds ----------

  /** What of a claim the view takes over as it is. */
  ghost predicate Claimed(out: Record, claim: Record) {
    && out.id == claim.id && out.kind == claim.kind && out.payload == claim.payload
    && out.origin == [] && out.validation == Unchecked
    && forall x :: x in out.supersedes <==> x in claim.supersedes
  }

  /** A record of the view, but for its judgement. */
  ghost predicate SameRecord(out: Record, r: Record) {
    && out.id == r.id && out.kind == r.kind && out.payload == r.payload && out.origin == r.origin
    && out.validation == r.validation && out.inputHash == r.inputHash && Rank(r.validity) <= Rank(out.validity)
    && (forall x :: x in out.dependencies <==> x in r.dependencies)
    && (forall x :: x in out.supersedes <==> x in r.supersedes)
    && (forall s :: s in out.sources <==> s in r.sources)
  }

  lemma AppliedFrom(v: View, d: Delta, size: DeltaSize, out: Record) returns (given: Record)
    requires Applied(v, d, size).Accepted? && out in Applied(v, d, size).value.records
    ensures given in v.records + AddedRecords(v, d) && SameRecord(out, given)
  {
    var all := v.records + AddedRecords(v, d);
    var base := Arrange(all);
    var gone := Downstream(base, Supersedes(d.records));
    AppliedRecords(v, d, size);
    var i :| 0 <= i < |base| && Projected(StrikeAll(base, gone))[i] == out;
    given := ArrangeOrigin(all, i);
    OnlyRejudged(base, gone, i, given);
  }

  lemma OnlyRejudged(base: seq<Record>, gone: set<Key>, i: nat, given: Record)
    requires i < |base| && base[i] == Normal(given)
    ensures SameRecord(Projected(StrikeAll(base, gone))[i], given)
  {
    SettledRank(StrikeAll(base, gone), StrikeAll(base, gone)[i]);
  }

  ghost predicate SameSources(a: Record, b: Record) {
    forall s :: s in a.sources <==> s in b.sources
  }

  ghost predicate RestsOn(r: Record, ids: set<Key>) {
    forall x :: x in r.dependencies <==> x in ids
  }

  lemma AddedClaim(v: View, d: Delta, given: Record) returns (claim: Record)
    requires Admissible(d, v) && given in AddedRecords(v, d)
    ensures claim in d.records && Claimed(given, claim) && given.sources == claim.sources
    ensures given.inputHash == d.contextHash && RestsOn(given, Ids(v.records)) && given.id !in Ids(v.records)
  {
    var i :| 0 <= i < |d.records| && AddedRecords(v, d)[i] == given;
    claim := d.records[i];
    assert claim in d.records && Declared(claim, Ids(v.records));
  }

  lemma TakenOver(out: Record, given: Record, claim: Record)
    requires SameRecord(out, given) && Claimed(given, claim) && given.sources == claim.sources
    ensures Claimed(out, claim) && SameSources(out, claim)
  {
  }

  /** A record that is new in the view is one of the delta's, produced in the delta's context and resting on
      everything in the view that was read. */
  lemma NewRecord(v: View, d: Delta, size: DeltaSize, w: View, out: Record) returns (claim: Record)
    requires Applied(v, d, size) == Accepted(w) && out in w.records && out.id !in Ids(v.records)
    ensures out.inputHash == d.contextHash && RestsOn(out, Ids(v.records))
    ensures claim in d.records && Claimed(out, claim) && SameSources(out, claim)
  {
    var given := AppliedFrom(v, d, size, out);
    ApplySucceeds(v, d, size);
    assert given !in v.records;
    claim := AddedClaim(v, d, given);
    TakenOver(out, given, claim);
  }

  /** Any other was in the view before. */
  lemma OldRecord(v: View, d: Delta, size: DeltaSize, w: View, out: Record) returns (r: Record)
    requires Applied(v, d, size) == Accepted(w) && out in w.records && out.id in Ids(v.records)
    ensures r in v.records && SameRecord(out, r)
  {
    r := AppliedFrom(v, d, size, out);
    ApplySucceeds(v, d, size);
    if r !in v.records {
      var claim := AddedClaim(v, d, r);
    }
  }

  /** A produced record names the context it was produced in, and every source that context showed besides
      those it claimed. */
  lemma NewProduct(v: View, claims: seq<Record>, spans: seq<Span>, h: string, size: DeltaSize, w: View, out: Record) returns (claim: Record)
    requires Produced(v, claims, spans, h, size) == Accepted(w) && out in w.records && out.id !in Ids(v.records)
    ensures out.inputHash == h && RestsOn(out, Ids(v.records))
    ensures claim in claims && Claimed(out, claim) && forall s :: s in out.sources <==> s in claim.sources || Shows(spans, s)
  {
    var d := Built(claims, spans, h, v, size).value;
    var mid := NewRecord(v, d, size, w, out);
    var i :| 0 <= i < |d.records| && d.records[i] == mid;
    BuiltClaim(claims, spans, h, v, i, size);
    BoundExactly(claims[i], spans);
    claim := claims[i];
  }

  lemma BuiltClaim(claims: seq<Record>, spans: seq<Span>, h: string, v: View, i: nat, size: DeltaSize)
    requires Built(claims, spans, h, v, size).Accepted? && i < |Built(claims, spans, h, v, size).value.records|
    ensures i < |claims| && SpansBind(spans) && Binds(claims[i], DirectMap(spans))
    ensures var out := Built(claims, spans, h, v, size).value.records[i];
      && out.id == claims[i].id && out.kind == claims[i].kind && out.payload == claims[i].payload && out.supersedes == claims[i].supersedes
      && out.sources == Bind(claims[i], DirectMap(spans)).sources
    ensures Built(claims, spans, h, v, size).value.contextHash == h
  {
    assert SourcesBound(claims, spans) == Accepted(BindAll(claims, DirectMap(spans)));
  }

  /** Binding adds the presented sources and nothing else. */
  lemma BoundExactly(r: Record, spans: seq<Span>)
    requires SpansBind(spans) && Binds(r, DirectMap(spans))
    ensures forall s :: s in Bind(r, DirectMap(spans)).sources <==> s in r.sources || Shows(spans, s)
  {
    var direct := DirectMap(spans);
    BoundSources(r, spans);
    DirectMapMeans(spans);
    forall s | s in Bind(r, direct).sources ensures s in r.sources || Shows(spans, s) {
      if s.id in direct {
        assert ShownAs(spans, s.id, s.sha);
        var i :| 0 <= i < |spans| && spans[i].source == s.id && spans[i].sha == s.sha;
        assert SpanSource(spans[i]) == s;
      } else {
        assert s.id in RefMap(r.sources);
      }
    }
    forall s | Shows(spans, s) ensures s in Bind(r, direct).sources {
      var i :| 0 <= i < |spans| && SpanSource(spans[i]) == s;
    }
  }

  // ---------- what is applied ----------

  /** The limits on a proposed record. */
  ghost predicate Proposable(r: Record) {
    && KeyPattern(r.id) && |r.payload.bytes| <= 8192 && r.payload.wellFormed
    && |r.sources| <= 64 && |r.dependencies| <= 1024 && |r.supersedes| <= 64
    && r.validation == Unchecked && r.origin == []
    && (forall s :: s in r.sources ==> s.id != "" && JobHash(s.sha))
    && (forall i, j :: 0 <= i < j < |r.sources| ==> r.sources[i].id != r.sources[j].id)
  }

  /** Every record is new and refers to the view only. */
  ghost predicate Proposes(d: Delta, v: View) {
    && |d.records| <= 32
    && (forall i, j :: 0 <= i < j < |d.records| ==> d.records[i].id != d.records[j].id)
    && (forall r :: r in d.records ==> Proposable(r) && r.id !in Ids(v.records))
    && (forall r, x :: r in d.records && (x in r.dependencies || x in r.supersedes) ==> x in Ids(v.records))
  }

  lemma ProposableMeans(r: Record)
    ensures Proposable(r) <==> ValidRecord(r, true)
  {
    assert forall i :: 0 <= i < |r.sources| ==> SourceId(r.sources[i]) == r.sources[i].id;
  }

  lemma ProposesMeans(d: Delta, v: View)
    ensures Proposes(d, v) <==> |d.records| <= 32 && NewIds(d.records, Ids(v.records)) && forall r :: r in d.records ==> Declared(r, Ids(v.records))
  {
    forall r: Record ensures Proposable(r) <==> ValidRecord(r, true) {
      ProposableMeans(r);
    }
    assert forall i :: 0 <= i < |d.records| ==> RecordId(d.records[i]) == d.records[i].id;
  }

  /** A delta is applied exactly when it fits 64 KiB when encoded, was made for this valid view in a named context,
      proposes new records that refer to the view only, and supersedes nothing or the view has at most 1024
      records. */
  lemma AppliesExactly(v: View, d: Delta, size: DeltaSize)
    ensures Applied(v, d, size).Accepted? <==>
      && size(d) <= 65536 && ValidView(v) && d.readView == v.sha && JobHash(d.contextHash) && Proposes(d, v)
      && ((forall r :: r in d.records ==> r.supersedes == []) || |v.records| <= 1024)
  {
    ProposesMeans(d, v);
    ApplySucceeds(v, d, size);
    NothingSuperseded(d.records);
  }

  lemma NothingSuperseded(rs: seq<Record>)
    ensures Supersedes(rs) == {} <==> forall r :: r in rs ==> r.supersedes == []
  {
    if r :| r in rs && r.supersedes != [] {
      assert r.supersedes[0] in r.supersedes;
      assert r.supersedes[0] in Supersedes(rs);
    }
  }

  // ---------- over runs ----------

  /** During the run, a record with body c was new in a view produced in context h, which showed spans. */
  ghost predicate BornIn(run: Run, canon: Canon, size: DeltaSize, c: Record, h: string, spans: seq<Span>)
    requires Injective(canon)
  {
    match run
    case Start => false
    case Merge(runs) => exists i :: 0 <= i < |runs| && BornIn(runs[i], canon, size, c, h, spans)
    case Import(prev, ids, g) =>
      && ViewOf(prev, canon, size).Accepted?
      && exists r :: CarriedCore(ViewOf(prev, canon, size).value, ids, g, r, c) && BornIn(prev, canon, size, Core(r), h, spans)
    case Produce(prev, claims, shown, hash) =>
      || BornIn(prev, canon, size, c, h, spans)
      || (&& ViewOf(prev, canon, size).Accepted? && ViewOf(run, canon, size).Accepted?
          && h == hash && spans == shown && NewBody(ViewOf(prev, canon, size).value, ViewOf(run, canon, size).value, c))
    case _ => BornIn(run.prev, canon, size, c, h, spans)
  }

  ghost predicate NewBody(v: View, w: View, c: Record) {
    c.id !in Ids(v.records) && exists r :: r in w.records && Core(r) == c
  }

  /** Whatever was done to it since, a record carries the context that produced it. */
  lemma {:induction false} ContextKept(run: Run, canon: Canon, size: DeltaSize, c: Record, h: string, spans: seq<Span>)
    requires Injective(canon) && BornIn(run, canon, size, c, h, spans)
    ensures c.inputHash == h
    decreases run
  {
    match run
    case Start =>
    case Merge(runs) =>
      var i :| 0 <= i < |runs| && BornIn(runs[i], canon, size, c, h, spans);
      ContextKept(runs[i], canon, size, c, h, spans);
    case Import(prev, ids, g) =>
      var r :| CarriedCore(ViewOf(prev, canon, size).value, ids, g, r, c) && BornIn(prev, canon, size, Core(r), h, spans);
      ContextKept(prev, canon, size, Core(r), h, spans);
      CarriesContext(r, g);
    case Produce(prev, claims, shown, hash) =>
      if BornIn(prev, canon, size, c, h, spans) {
        ContextKept(prev, canon, size, c, h, spans);
      } else {
        BirthContext(run, canon, size, c);
      }
    case _ =>
      ContextKept(run.prev, canon, size, c, h, spans);
  }

  lemma CarriesContext(r: Record, g: Grant)
    ensures Core(Carry(r, g)).inputHash == Core(r).inputHash
  {
  }

  lemma BirthContext(run: Run, canon: Canon, size: DeltaSize, c: Record)
    requires Injective(canon) && run.Produce? && ViewOf(run.prev, canon, size).Accepted? && ViewOf(run, canon, size).Accepted?
    requires NewBody(ViewOf(run.prev, canon, size).value, ViewOf(run, canon, size).value, c)
    ensures c.inputHash == run.contextHash
  {
    var v, w := ViewOf(run.prev, canon, size).value, ViewOf(run, canon, size).value;
    var r :| r in w.records && Core(r) == c;
    var claim := NewProduct(v, run.claims, run.spans, run.contextHash, size, w, r);
  }

  // ---------- what an event does through contexts ----------

  /** The record is listed, names a target source, or was produced in a known context that showed one. */
  ghost predicate Incriminated(c: Record, ev: Event, ctxs: ContextTable) {
    || c.id in ev.records
    || (exists s :: s in c.sources && s in ev.sources)
    || (c.inputHash in ctxs && ShowsTarget(ctxs[c.inputHash], ev))
  }

  ghost predicate ShowsTarget(spans: seq<Span>, ev: Event) {
    exists i :: 0 <= i < |spans| && SourceRef(spans[i].source, spans[i].sha) in ev.sources
  }

  lemma IncriminatedMeans(c: Record, ev: Event, ctxs: ContextTable)
    ensures Incriminated(c, ev, ctxs) <==> Listed(c, ev) || Exposed(c, ev, ctxs)
  {
    if Exposed(c, ev, ctxs) {
      var s :| s in ctxs[c.inputHash] && SpanSource(s) in ev.sources;
      var i :| 0 <= i < |ctxs[c.inputHash]| && ctxs[c.inputHash][i] == s;
    }
    if c.inputHash in ctxs && ShowsTarget(ctxs[c.inputHash], ev) {
      var spans := ctxs[c.inputHash];
      var i :| 0 <= i < |spans| && SourceRef(spans[i].source, spans[i].sha) in ev.sources;
      assert spans[i] in spans && SpanSource(spans[i]) in ev.sources;
    }
  }

  /** Some version of the identity is incriminated. */
  ghost predicate Suspect(v: View, ev: Event, ctxs: ContextTable, id: Key) {
    exists c :: c in Variants(v) && c.id == id && Incriminated(c, ev, ctxs)
  }

  lemma SuspectMeans(v: View, ev: Event, ctxs: ContextTable, id: Key)
    requires id in Ids(v.records)
    ensures Suspect(v, ev, ctxs, id) <==> id in EventRoots(v, ev, ctxs)
  {
    RootsAre(v, ev, ctxs, id);
    if c :| c in Variants(v) && c.id == id && Incriminated(c, ev, ctxs) {
      IncriminatedMeans(c, ev, ctxs);
    }
    if c :| c in Variants(v) && c.id == id && (Listed(c, ev) || Exposed(c, ev, ctxs)) {
      IncriminatedMeans(c, ev, ctxs);
    }
  }

  lemma DoubtInvalid(v: View, ev: Event, ctxs: ContextTable, id: Key)
    ensures MergeLaws.JudgedAt(DoubtedRecords(v, ev, ctxs), id, INVALID) <==> MergeLaws.JudgedAt(v.records, id, INVALID)
  {
    var ds, rs := DoubtedRecords(v, ev, ctxs), Arrange(v.records);
    if q :| q in ds && q.id == id && q.validity == INVALID {
      var i :| 0 <= i < |ds| && ds[i] == q;
      var t := ArrangeOrigin(v.records, i);
    }
    if t :| t in v.records && t.id == id && t.validity == INVALID {
      var i := ArrangeIndex(v.records, t);
      assert ds[i] in ds;
    }
  }

  /** Something the identity rests on, or it itself, is suspect or was INVALID. */
  ghost predicate Falls(v: View, ev: Event, ctxs: ContextTable, id: Key) {
    exists x :: Reaches(Depends(v.records), id, x) && (Suspect(v, ev, ctxs, x) || MergeLaws.JudgedAt(v.records, x, INVALID))
  }

  /** After an event a record is INVALID exactly when it rests on something suspect or INVALID. */
  lemma StruckExactly(v: View, ev: Event, ctxs: ContextTable, r: Record, out: Record)
    requires Homed(v) && ContextProjected(v, ev, ctxs).Accepted? && !ev.auditOnly
    requires r in v.records && out in ContextProjected(v, ev, ctxs).value.records && out.id == r.id
    ensures out.validity == INVALID <==> Falls(v, ev, ctxs, r.id)
  {
    var ds, mine := DoubtedRecords(v, ev, ctxs), Doubt(Normal(r), ev, ctxs);
    OutcomeIs(v, ev, ctxs, r, out);
    ContextRecords(v, ev, ctxs);
    DoubtFacts(v, ev, ctxs);
    var own := ContextOutcome(v, ev, ctxs, r);
    MergeLaws.SettledInvalid(ds, mine);
    forall x ensures MergeLaws.JudgedAt(ds, x, INVALID) <==> MergeLaws.JudgedAt(v.records, x, INVALID) {
      DoubtInvalid(v, ev, ctxs, x);
    }
    FallsThrough(v, ev, ctxs, r.id);
  }

  lemma FallsThrough(v: View, ev: Event, ctxs: ContextTable, id: Key)
    requires Homed(v) && id in Ids(v.records) && EventRoots(v, ev, ctxs) <= Ids(v.records)
    ensures Falls(v, ev, ctxs, id) <==>
      || id in Downstream(v.records, EventRoots(v, ev, ctxs))
      || exists x :: Reaches(Depends(v.records), id, x) && MergeLaws.JudgedAt(v.records, x, INVALID)
  {
    SuspectReached(v, ev, ctxs, id);
  }

  /** A candidate falls with its identity, comes into doubt when its own context is unknown, and is kept
      otherwise. */
  lemma CandidateJudged(v: View, ev: Event, ctxs: ContextTable, i: nat, k: nat)
    requires Homed(v) && ContextProjected(v, ev, ctxs).Accepted? && !ev.auditOnly
    requires i < |v.conflicts| && k < |v.conflicts[i].candidates|
    ensures var w, c := ContextProjected(v, ev, ctxs).value, v.conflicts[i].candidates[k];
      && i < |w.conflicts| && k < |w.conflicts[i].candidates|
      && w.conflicts[i].candidates[k] == c.(validity :=
           if exists x :: Reaches(Depends(v.records), c.id, x) && Suspect(v, ev, ctxs, x) then INVALID
           else if c.validity == VALID && c.inputHash !in ctxs && !(ev.sources == [] && ev.records == []) then NEEDS_REVALIDATION
           else c.validity)
  {
    var c, d := v.conflicts[i].candidates[k], Doubted(v, ev, ctxs);
    assert c.id in Ids(v.records);
    ContextRecords(v, ev, ctxs);
    DoubtFacts(v, ev, ctxs);
    SuspectReached(v, ev, ctxs, c.id);
    assert ContextProjected(v, ev, ctxs).value.conflicts == StrikeConflicts(d.conflicts, Downstream(d.records, EventRoots(v, ev, ctxs)));
  }

  lemma SuspectReached(v: View, ev: Event, ctxs: ContextTable, id: Key)
    requires Homed(v) && id in Ids(v.records) && EventRoots(v, ev, ctxs) <= Ids(v.records)
    ensures (exists x :: Reaches(Depends(v.records), id, x) && Suspect(v, ev, ctxs, x)) <==> id in Downstream(v.records, EventRoots(v, ev, ctxs))
  {
    if x :| Reaches(Depends(v.records), id, x) && Suspect(v, ev, ctxs, x) {
      var c :| c in Variants(v) && c.id == x && Incriminated(c, ev, ctxs);
      VariantIds(v, c);
      SuspectMeans(v, ev, ctxs, x);
    }
    if b :| b in EventRoots(v, ev, ctxs) && Reaches(Depends(v.records), id, b) {
      SuspectMeans(v, ev, ctxs, b);
    }
  }

  /** An audit-only event changes nothing. Any other leaves INVALID exactly the records that were, or that rest on
      an identity with a version that is listed or names a target source, and keeps every other judgement. */
  lemma EventExplained(v: View, ev: Event, r: Record, out: Record)
    requires ValidView(v) && Homed(v) && r in v.records && EventProjected(v, ev).Accepted?
    requires out in EventProjected(v, ev).value.records && out.id == r.id
    ensures ev.auditOnly ==> EventProjected(v, ev).value == v
    ensures !ev.auditOnly ==>
      out.validity == if exists x :: Reaches(Depends(v.records), r.id, x) && Suspect(v, ev, map[], x) then INVALID else r.validity
  {
    if !ev.auditOnly {
      var mine := Normal(r).(validity := if ReachesAny(Depends(v.records), r.id, Roots(v, ev)) then INVALID else r.validity);
      InvalidateExact(v, Roots(v, ev), r);
      OnlyOne(EventProjected(v, ev).value.records, out, mine);
      RootsSuspect(v, ev);
    }
  }

  lemma RootsSuspect(v: View, ev: Event)
    ensures forall x :: x in Roots(v, ev) <==> Suspect(v, ev, map[], x)
  {
    forall c: Record ensures Incriminated(c, ev, map[]) <==> Listed(c, ev) {
      IncriminatedMeans(c, ev, map[]);
    }
  }

  lemma ContextAccepted(v: View, ev: Event, ctxs: ContextTable)
    requires ValidView(v) && Homed(v) && !ev.auditOnly
    ensures ContextProjected(v, ev, ctxs).Accepted?
  {
    var d := Doubted(v, ev, ctxs);
    DoubtedKept(v, ev, ctxs);
    DoubtFacts(v, ev, ctxs);
    ArrangeWellFormed(v.records);
    SameBodiesFacts(d.records, Arrange(v.records));
    DoubtOrigins(v.conflicts, ev, ctxs);
    RootsPresent(d, Widened(v, ev, ctxs));
  }

  lemma DoubtOrigins(cs: seq<Conflict>, ev: Event, ctxs: ContextTable)
    requires OriginsValid(cs)
    ensures OriginsValid(DoubtConflicts(cs, ev, ctxs))
  {
    var out := DoubtConflicts(cs, ev, ctxs);
    assert forall i, k :: 0 <= i < |cs| && 0 <= k < |cs[i].candidates| ==> out[i].candidates[k].origin == cs[i].candidates[k].origin;
  }

  lemma ContextSuspect(v: View, r: Record, spans: seq<Span>, ev: Event, ctxs: ContextTable, s: SourceRef)
    requires r in v.records && r.inputHash in ctxs && ctxs[r.inputHash] == spans && Shows(spans, s) && s in ev.sources
    ensures Falls(v, ev, ctxs, r.id)
  {
    var i :| 0 <= i < |spans| && SpanSource(spans[i]) == s;
    assert SourceRef(spans[i].source, spans[i].sha) in ev.sources && ShowsTarget(spans, ev);
    assert r in Variants(v) && Incriminated(r, ev, ctxs);
    assert Suspect(v, ev, ctxs, r.id);
    ReachesSelf(Depends(v.records), r.id);
  }

  /** Contexts alone suffice: in every reachable valid view, with a table that holds the context a record was
      produced in, an event naming a source that context showed leaves the record INVALID, whatever the
      record says about its sources. */
  lemma ContextsCatch(run: Run, canon: Canon, size: DeltaSize, v: View, r: Record, h: string, spans: seq<Span>, ev: Event, ctxs: ContextTable, s: SourceRef)
    requires Injective(canon) && ViewOf(run, canon, size) == Accepted(v) && !Oversized(run, canon, size)
    requires r in v.records && BornIn(run, canon, size, Core(r), h, spans)
    requires h in ctxs && ctxs[h] == spans && Shows(spans, s) && s in ev.sources && !ev.auditOnly
    ensures ContextProjected(v, ev, ctxs).Accepted?
    ensures forall out :: out in ContextProjected(v, ev, ctxs).value.records && out.id == r.id ==> out.validity == INVALID
  {
    ReachableSound(run, canon, size);
    ContextKept(run, canon, size, Core(r), h, spans);
    ContextAccepted(v, ev, ctxs);
    ContextSuspect(v, r, spans, ev, ctxs, s);
    forall out | out in ContextProjected(v, ev, ctxs).value.records && out.id == r.id ensures out.validity == INVALID {
      StruckExactly(v, ev, ctxs, r, out);
    }
  }
}

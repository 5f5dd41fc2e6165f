/** internal/graph/source_lineage.go:49-91: invalidation that also consults the frozen producer
    contexts, and fails closed when a producer context is not known. */
module Contexts {
  import opened Keys
  import opened Graphs
  import opened Outcomes
  import opened Spans
  import opened Memory
  import opened Projection
  import opened Invalidation

  type ContextTable = map<string, seq<Span>>

  function SpanSource(s: Span): SourceRef { SourceRef(s.source, s.sha) }

  /** The recorded producer context of r contained a span of a target source. */
  predicate Exposed(r: Record, ev: Event, ctxs: ContextTable) {
    r.inputHash in ctxs && exists s :: s in ctxs[r.inputHash] && SpanSource(s) in ev.sources
  }

  function Doubt(r: Record, ev: Event, ctxs: ContextTable): Record {
    if r.inputHash !in ctxs && |ev.sources| + |ev.records| > 0 && r.validity == VALID
    then r.(validity := NEEDS_REVALIDATION)
    else r
  }

  function DoubtAll(rs: seq<Record>, ev: Event, ctxs: ContextTable): (out: seq<Record>)
    ensures |out| == |rs|
    ensures forall i :: 0 <= i < |rs| ==> out[i] == Doubt(rs[i], ev, ctxs)
  {
    seq(|rs|, i requires 0 <= i < |rs| => Doubt(rs[i], ev, ctxs))
  }

  function DoubtConflicts(cs: seq<Conflict>, ev: Event, ctxs: ContextTable): (out: seq<Conflict>)
    ensures |out| == |cs|
    ensures forall i :: 0 <= i < |cs| ==> out[i] == Conflict(cs[i].recordId, DoubtAll(cs[i].candidates, ev, ctxs))
  {
    seq(|cs|, i requires 0 <= i < |cs| => Conflict(cs[i].recordId, DoubtAll(cs[i].candidates, ev, ctxs)))
  }

  ghost function NamedIds(v: View, ev: Event, ctxs: ContextTable): set<Key> {
    (set id | id in ev.records) + (set r | r in Variants(v) && Exposed(r, ev, ctxs) :: r.id)
  }

  ghost function DoubtedRecords(v: View, ev: Event, ctxs: ContextTable): seq<Record> {
    DoubtAll(Arrange(v.records), ev, ctxs)
  }

  ghost function Doubted(v: View, ev: Event, ctxs: ContextTable): View {
    Seal(Projected(DoubtedRecords(v, ev, ctxs)), DoubtConflicts(v.conflicts, ev, ctxs))
  }

  ghost function Widened(v: View, ev: Event, ctxs: ContextTable): Event {
    ev.(records := Enumerate(NamedIds(v, ev, ctxs)))
  }

  ghost function ContextProjected(v: View, ev: Event, ctxs: ContextTable): Outcome<View> {
    if ev.auditOnly then EventProjected(v, ev)
    else EventProjected(Doubted(v, ev, ctxs), Widened(v, ev, ctxs))
  }

  method CollectExposed(all: seq<Record>, ev: Event, ctxs: ContextTable) returns (ids: set<Key>)
    ensures ids == (set id | id in ev.records) + (set r | r in all && Exposed(r, ev, ctxs) :: r.id)
  {
    ids := set id | id in ev.records;
    var k := 0;
    while k < |all|
      invariant 0 <= k <= |all|
      invariant ids == (set id | id in ev.records) + (set r | r in all[..k] && Exposed(r, ev, ctxs) :: r.id)
    {
      assert all[..k + 1] == all[..k] + [all[k]];
      if Exposed(all[k], ev, ctxs) {
        ids := ids + {all[k].id};
      }
      k := k + 1;
    }
    assert all[..k] == all;
  }

  /** source_lineage.go:51-91 */
  method ProjectInvalidationWithContexts(v: View, ev: Event, ctxs: ContextTable) returns (out: Outcome<View>)
    ensures out == ContextProjected(v, ev, ctxs)
  {
    if ev.auditOnly {
      out := ProjectInvalidation(v, ev);
      return;
    }
    var all := Gather(v);
    var ids := CollectExposed(all, ev, ctxs);
    assert ids == NamedIds(v, ev, ctxs);
    var rs := DoubtAll(Arrange(v.records), ev, ctxs);
    var projected := ProjectCopy(rs);
    var next := Seal(projected, DoubtConflicts(v.conflicts, ev, ctxs));
    out := ProjectInvalidation(next, ev.(records := Enumerate(ids)));
  }

  // ---------- fail-closed projection ----------

  /** Nothing known against any variant of x, and the record itself valid with a known context. */
  ghost predicate SafeId(v: View, ev: Event, ctxs: ContextTable, x: Key) {
    && (forall t :: t in v.records && t.id == x ==> t.validity == VALID && t.inputHash in ctxs)
    && (forall c :: c in Variants(v) && c.id == x ==> !Listed(c, ev) && !Exposed(c, ev, ctxs))
  }

  lemma DoubtFacts(v: View, ev: Event, ctxs: ContextTable)
    ensures SameBodies(DoubtedRecords(v, ev, ctxs), Arrange(v.records))
    ensures SameBodies(Doubted(v, ev, ctxs).records, Arrange(v.records))
    ensures Depends(DoubtedRecords(v, ev, ctxs)) == Depends(v.records)
    ensures Depends(Doubted(v, ev, ctxs).records) == Depends(v.records)
    ensures Ids(Doubted(v, ev, ctxs).records) == Ids(v.records)
    ensures Arrange(Doubted(v, ev, ctxs).records) == Doubted(v, ev, ctxs).records
  {
    var ds := DoubtedRecords(v, ev, ctxs);
    ArrangeShape(v.records);
    ArrangeTwice(v.records);
    ProjectedConsistent(ds);
    SameBodiesFacts(ds, Arrange(v.records));
    SameBodiesTrans(Projected(ds), ds, Arrange(v.records));
    SameBodiesFacts(Projected(ds), Arrange(v.records));
  }

  lemma SameBodiesTrans(a: seq<Record>, b: seq<Record>, c: seq<Record>)
    requires SameBodies(a, b) && SameBodies(b, c)
    ensures SameBodies(a, c)
  {
  }

  /** With unique identities, a record settles VALID iff everything it reaches is VALID. */
  lemma SettledValid(rs: seq<Record>, r: Record)
    requires DistinctKeys(rs, RecordId) && r in rs
    ensures Settled(rs, r) == VALID <==> forall q :: q in rs && Reaches(Depends(rs), r.id, q.id) ==> q.validity == VALID
  {
    var e := Depends(rs);
    if Settled(rs, r) == VALID {
      forall q | q in rs && Reaches(e, r.id, q.id) ensures q.validity == VALID {
        SettledRank(rs, r);
        if q.id == r.id {
          OnlyOne(rs, q, r);
        } else {
          FirstEdge(e, r.id, q.id);
          var c :| (r.id, c) in e && Reaches(e, c, q.id);
          EdgeHolder(rs, r.id, c);
          var h :| h in rs && h.id == r.id && c in h.dependencies;
          OnlyOne(rs, h, r);
          assert Upstream(rs, r, q);
        }
      }
    }
    if forall q :: q in rs && Reaches(e, r.id, q.id) ==> q.validity == VALID {
      ReachesSelf(e, r.id);
      forall q | Upstream(rs, r, q) ensures q.validity == VALID {
        var d :| d in r.dependencies && Reaches(e, d, q.id);
        EdgeHolder(rs, r.id, d);
        ReachesAfterEdge(e, r.id, d, q.id);
      }
    }
  }

  /** A listed identity, source or exposed context names the identity as a root. */
  lemma RootsAre(v: View, ev: Event, ctxs: ContextTable, x: Key)
    requires x in Ids(v.records)
    ensures x in Roots(Doubted(v, ev, ctxs), Widened(v, ev, ctxs))
      <==> exists c :: c in Variants(v) && c.id == x && (Listed(c, ev) || Exposed(c, ev, ctxs))
  {
    var w := Doubted(v, ev, ctxs);
    var wide := Widened(v, ev, ctxs);
    var home: Record :| home in v.records && home.id == x;
    if c :| c in Variants(v) && c.id == x && (Listed(c, ev) || Exposed(c, ev, ctxs)) {
      var q := DoubtImage(v, ev, ctxs, c);
      assert Listed(q, wide);
    }
    if x in Roots(w, wide) {
      var q :| q in Variants(w) && Listed(q, wide) && q.id == x;
      var c := DoubtSource(v, ev, ctxs, q);
      if x in ev.records {
        assert home in Variants(v) && Listed(home, ev);
      } else if x in NamedIds(v, ev, ctxs) {
        var t :| t in Variants(v) && Exposed(t, ev, ctxs) && t.id == x;
      } else {
        assert Listed(c, ev);
      }
    }
  }

  lemma DoubtImage(v: View, ev: Event, ctxs: ContextTable, r: Record) returns (q: Record)
    requires r in Variants(v)
    ensures q in Variants(Doubted(v, ev, ctxs)) && q.id == r.id
    ensures forall x :: x in q.sources <==> x in r.sources
  {
    var w := Doubted(v, ev, ctxs);
    VariantsSplit(v);
    VariantsSplit(w);
    if r in v.records {
      var i := ArrangeIndex(v.records, r);
      q := w.records[i];
    } else {
      var i, k :| 0 <= i < |v.conflicts| && 0 <= k < |v.conflicts[i].candidates| && v.conflicts[i].candidates[k] == r;
      q := w.conflicts[i].candidates[k];
      assert Candidate(w.conflicts, q);
    }
  }

  lemma DoubtSource(v: View, ev: Event, ctxs: ContextTable, q: Record) returns (r: Record)
    requires q in Variants(Doubted(v, ev, ctxs))
    ensures r in Variants(v) && q.id == r.id
    ensures forall x :: x in q.sources <==> x in r.sources
  {
    var w := Doubted(v, ev, ctxs);
    VariantsSplit(v);
    VariantsSplit(w);
    if q in w.records {
      var i :| 0 <= i < |w.records| && w.records[i] == q;
      r := ArrangeOrigin(v.records, i);
    } else {
      var i, k :| 0 <= i < |w.conflicts| && 0 <= k < |w.conflicts[i].candidates| && w.conflicts[i].candidates[k] == q;
      r := v.conflicts[i].candidates[k];
      assert Candidate(v.conflicts, r);
    }
  }

  ghost function EventRoots(v: View, ev: Event, ctxs: ContextTable): set<Key> {
    Roots(Doubted(v, ev, ctxs), Widened(v, ev, ctxs))
  }

  lemma ContextRecords(v: View, ev: Event, ctxs: ContextTable)
    requires ContextProjected(v, ev, ctxs).Accepted? && !ev.auditOnly
    ensures var w := ContextProjected(v, ev, ctxs).value;
      && ValidView(w)
      && w.records == StrikeAll(Projected(DoubtedRecords(v, ev, ctxs)), Downstream(v.records, EventRoots(v, ev, ctxs)))
    ensures EventRoots(v, ev, ctxs) <= Ids(v.records)
    ensures DistinctKeys(DoubtedRecords(v, ev, ctxs), RecordId)
  {
    var d := Doubted(v, ev, ctxs);
    DoubtFacts(v, ev, ctxs);
    StrikeValid(d, Downstream(d.records, EventRoots(v, ev, ctxs)));
    SubIds(d.records, Arrange(v.records));
    SubIds(Arrange(v.records), DoubtedRecords(v, ev, ctxs));
  }

  /** Where record r ends up: its body kept, its judgement settled and possibly struck. */
  lemma ContextOutcome(v: View, ev: Event, ctxs: ContextTable, r: Record) returns (out: Record)
    requires ContextProjected(v, ev, ctxs).Accepted? && !ev.auditOnly && r in v.records
    ensures out in ContextProjected(v, ev, ctxs).value.records
    ensures Unjudged(out) == Unjudged(Normal(r)) && out.validation == r.validation
    ensures Doubt(Normal(r), ev, ctxs) in DoubtedRecords(v, ev, ctxs)
    ensures out.validity == if r.id in Downstream(v.records, EventRoots(v, ev, ctxs)) then INVALID
                            else Settled(DoubtedRecords(v, ev, ctxs), Doubt(Normal(r), ev, ctxs))
  {
    var ds := DoubtedRecords(v, ev, ctxs);
    var i := ArrangeIndex(v.records, r);
    assert ds[i] in ds;
    ContextRecords(v, ev, ctxs);
    out := ContextProjected(v, ev, ctxs).value.records[i];
  }

  lemma SafeMeans(v: View, ev: Event, ctxs: ContextTable, x: Key)
    requires |ev.sources| + |ev.records| > 0 && x in Ids(v.records)
    ensures SafeId(v, ev, ctxs, x)
      <==> x !in EventRoots(v, ev, ctxs) && forall q :: q in DoubtedRecords(v, ev, ctxs) && q.id == x ==> q.validity == VALID
  {
    RootsAre(v, ev, ctxs, x);
    DoubtValid(v, ev, ctxs, x);
  }

  /** After a non-audit event with targets, a record is VALID exactly when it and everything it
      transitively depends on was VALID, has a known producer context, and no variant of it is
      listed, carries a target source or was produced in a context showing one. */
  lemma FailClosed(v: View, ev: Event, ctxs: ContextTable, r: Record, out: Record)
    requires ContextProjected(v, ev, ctxs).Accepted?
    requires !ev.auditOnly && |ev.sources| + |ev.records| > 0
    requires r in v.records && out in ContextProjected(v, ev, ctxs).value.records && out.id == r.id
    ensures Rank(r.validity) <= Rank(out.validity)
    ensures out.validity == VALID
      <==> forall x :: x in Ids(v.records) && Reaches(Depends(v.records), r.id, x) ==> SafeId(v, ev, ctxs, x)
  {
    OutcomeIs(v, ev, ctxs, r, out);
    SettledRank(DoubtedRecords(v, ev, ctxs), Doubt(Normal(r), ev, ctxs));
    ClosedExactly(v, ev, ctxs, r, out.validity);
  }

  lemma ClosedExactly(v: View, ev: Event, ctxs: ContextTable, r: Record, x: Validity)
    requires ContextProjected(v, ev, ctxs).Accepted?
    requires !ev.auditOnly && |ev.sources| + |ev.records| > 0 && r in v.records
    requires x == if r.id in Downstream(v.records, EventRoots(v, ev, ctxs)) then INVALID
                  else Settled(DoubtedRecords(v, ev, ctxs), Doubt(Normal(r), ev, ctxs))
    ensures x == VALID <==> forall x :: x in Ids(v.records) && Reaches(Depends(v.records), r.id, x) ==> SafeId(v, ev, ctxs, x)
  {
    OutcomeSettles(v, ev, ctxs, r);
    ContextRecords(v, ev, ctxs);
    ReachableSafe(v, ev, ctxs, r.id);
  }

  lemma OutcomeIs(v: View, ev: Event, ctxs: ContextTable, r: Record, out: Record)
    requires ContextProjected(v, ev, ctxs).Accepted? && !ev.auditOnly && r in v.records
    requires out in ContextProjected(v, ev, ctxs).value.records && out.id == r.id
    ensures out.validity == if r.id in Downstream(v.records, EventRoots(v, ev, ctxs)) then INVALID
                            else Settled(DoubtedRecords(v, ev, ctxs), Doubt(Normal(r), ev, ctxs))
  {
    var mine := ContextOutcome(v, ev, ctxs, r);
    ContextRecords(v, ev, ctxs);
    OnlyOne(ContextProjected(v, ev, ctxs).value.records, out, mine);
  }

  lemma OutcomeSettles(v: View, ev: Event, ctxs: ContextTable, r: Record)
    requires ContextProjected(v, ev, ctxs).Accepted? && !ev.auditOnly && r in v.records
    ensures Settled(DoubtedRecords(v, ev, ctxs), Doubt(Normal(r), ev, ctxs)) == VALID
      <==> forall q :: q in DoubtedRecords(v, ev, ctxs) && Reaches(Depends(v.records), r.id, q.id) ==> q.validity == VALID
  {
    var mine := ContextOutcome(v, ev, ctxs, r);
    ContextRecords(v, ev, ctxs);
    DoubtFacts(v, ev, ctxs);
    SettledValid(DoubtedRecords(v, ev, ctxs), Doubt(Normal(r), ev, ctxs));
  }

  lemma ReachableSafe(v: View, ev: Event, ctxs: ContextTable, a: Key)
    requires |ev.sources| + |ev.records| > 0 && a in Ids(v.records)
    requires EventRoots(v, ev, ctxs) <= Ids(v.records)
    ensures (forall x :: x in Ids(v.records) && Reaches(Depends(v.records), a, x) ==> SafeId(v, ev, ctxs, x))
      <==> (a !in Downstream(v.records, EventRoots(v, ev, ctxs))
        && forall q :: q in DoubtedRecords(v, ev, ctxs) && Reaches(Depends(v.records), a, q.id) ==> q.validity == VALID)
  {
    var e := Depends(v.records);
    forall x | x in Ids(v.records) {
      SafeMeans(v, ev, ctxs, x);
    }
    forall q | q in DoubtedRecords(v, ev, ctxs) ensures q.id in Ids(v.records) {
      IdsOfDoubted(v, ev, ctxs, q);
    }
  }

  lemma IdsOfDoubted(v: View, ev: Event, ctxs: ContextTable, q: Record)
    requires q in DoubtedRecords(v, ev, ctxs)
    ensures q.id in Ids(v.records)
  {
    var i :| 0 <= i < |Arrange(v.records)| && DoubtedRecords(v, ev, ctxs)[i] == q;
    var r := ArrangeOrigin(v.records, i);
  }

  lemma DoubtValid(v: View, ev: Event, ctxs: ContextTable, x: Key)
    requires |ev.sources| + |ev.records| > 0
    ensures (forall q :: q in DoubtedRecords(v, ev, ctxs) && q.id == x ==> q.validity == VALID)
      <==> (forall t :: t in v.records && t.id == x ==> t.validity == VALID && t.inputHash in ctxs)
  {
    var ds := DoubtedRecords(v, ev, ctxs);
    var rs := Arrange(v.records);
    if forall q :: q in ds && q.id == x ==> q.validity == VALID {
      forall t | t in v.records && t.id == x ensures t.validity == VALID && t.inputHash in ctxs {
        var i := ArrangeIndex(v.records, t);
        assert ds[i] in ds;
      }
    }
    if forall t :: t in v.records && t.id == x ==> t.validity == VALID && t.inputHash in ctxs {
      forall q | q in ds && q.id == x ensures q.validity == VALID {
        var i :| 0 <= i < |rs| && ds[i] == q;
        var t := ArrangeOrigin(v.records, i);
      }
    }
  }
}

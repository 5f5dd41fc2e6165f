/** What an event does to conflict candidates: internal/graph/memory.go:320-343 closes over the edges of
    the records, so a candidate is struck with its identity and not through its own dependencies. */
module Candidates {
  import opened Keys
  import opened Graphs
  import opened Outcomes
  import opened Memory
  import opened Projection
  import opened Invalidation
  import opened Deltas
  import opened DeltaLaws
  import opened Merging
  import MergeLaws
  import opened Lineage

  ghost predicate CandidateAt(v: View, i: nat, k: nat, c: Record) {
    i < |v.conflicts| && k < |v.conflicts[i].candidates| && v.conflicts[i].candidates[k] == c
  }

  /** In every reachable valid view an event strikes a candidate exactly when its identity leads to a
      listed one through the records, and otherwise keeps it to the letter. */
  lemma CandidateExact(run: Run, canon: Canon, size: DeltaSize, v: View, ev: Event, i: nat, k: nat, c: Record)
    requires Injective(canon) && ViewOf(run, canon, size) == Accepted(v) && !Oversized(run, canon, size)
    requires !ev.auditOnly && CandidateAt(v, i, k, c)
    ensures EventProjected(v, ev).Accepted?
    ensures CandidateAt(EventProjected(v, ev).value, i, k,
               if ReachesAny(Depends(v.records), c.id, Roots(v, ev)) then c.(validity := INVALID) else c)
  {
    ReachableSound(run, canon, size);
    RootsPresent(v, ev);
    assert c.id in Ids(v.records);
  }

  /** So a candidate that was exposed to a source survives an event naming it exactly when no listed
      identity can be reached through the records, and then it is one of its own dependencies that
      names the source. */
  lemma ExposedCandidate(run: Run, canon: Canon, size: DeltaSize, v: View, ev: Event, s: SourceRef, i: nat, k: nat, c: Record)
    requires Injective(canon) && ViewOf(run, canon, size) == Accepted(v) && !Oversized(run, canon, size)
    requires !ev.auditOnly && s in ev.sources && CandidateAt(v, i, k, c) && c.validity != INVALID
    requires ExposedTo(run, canon, size, Core(c), s)
    ensures EventProjected(v, ev).Accepted?
    ensures CandidateAt(EventProjected(v, ev).value, i, k, c) <==> !ReachesAny(Depends(v.records), c.id, Roots(v, ev))
    ensures CandidateAt(EventProjected(v, ev).value, i, k, c) ==>
      exists q :: q in Variants(v) && s in q.sources && q.id != c.id && q.id in c.dependencies
  {
    CandidateExact(run, canon, size, v, ev, i, k, c);
    ExposureTraced(run, canon, size, Core(c), s);
    if !ReachesAny(Depends(v.records), c.id, Roots(v, ev)) {
      var q := TracedElsewhere(v, c, ev, s);
    }
  }

  lemma TracedElsewhere(v: View, c: Record, ev: Event, s: SourceRef) returns (q: Record)
    requires Traced(v, Core(c), s) && s in ev.sources && !ReachesAny(Depends(v.records), c.id, Roots(v, ev))
    ensures q in Variants(v) && s in q.sources && q.id != c.id && q.id in c.dependencies
  {
    var d :| d in CoresOf(v) && s in d.sources && (d.id == Core(c).id || d.id in Core(c).dependencies);
    q :| q in Variants(v) && Core(q) == d;
    CoreFields(q);
    CoreFields(c);
    assert Listed(q, ev) && q.id in Roots(v, ev);
    if q.id == c.id {
      ReachesSelf(Depends(v.records), c.id);
    }
  }

  // ---------- such a merge ----------

  /** The first variants of all identities depend on nothing. */
  ghost predicate Flat(ids: set<Key>, pick: Variety) {
    && Sorted(ids, pick)
    && forall id :: id in ids ==> pick(id)[0].dependencies == [] && forall r :: r in pick(id) ==> ValidRecord(r, false)
  }

  lemma FlatView(ids: set<Key>, pick: Variety)
    requires Flat(ids, pick)
    ensures ValidView(Assembled(ids, pick)) && Depends(Assembled(ids, pick).records) == {}
    ensures Ids(Assembled(ids, pick).records) == ids
  {
    var order := Enumerate(ids);
    var rs := Representatives(order, pick);
    RepresentativesDistinct(ids, pick);
    forall r | r in rs ensures ValidRecord(r, false) && r.dependencies == [] {
      var n :| 0 <= n < |rs| && rs[n] == r;
      assert order[n] in order && pick(order[n])[0] in pick(order[n]);
    }
    LonersWellFormed(rs);
    ArrangeWellFormed(rs);
    ArrangeShape(rs);
    ProjectedConsistent(Arrange(rs));
    SameBodiesFacts(Projected(Arrange(rs)), Arrange(rs));
    NoEdges(rs);
    MergeLaws.RepresentativeIds(ids, pick);
    FlatOrigins(ids, pick);
  }

  lemma NoEdges(rs: seq<Record>)
    requires forall r :: r in rs ==> r.dependencies == []
    ensures Depends(rs) == {}
  {
    assert forall i :: 0 <= i < |rs| ==> rs[i] in rs;
  }

  lemma FlatOrigins(ids: set<Key>, pick: Variety)
    requires Flat(ids, pick)
    ensures OriginsValid(Assembled(ids, pick).conflicts)
  {
    var order := Enumerate(Contested(ids, pick));
    var cs := Conflicts(order, pick);
    forall i, k | 0 <= i < |cs| && 0 <= k < |cs[i].candidates| ensures ValidOrigin(cs[i].candidates[k].origin) {
      assert order[i] in order && pick(order[i])[k] in pick(order[i]);
    }
  }

  /** A source, a record that depends on one naming it, and a rival of that record that does not. */
  ghost predicate Rivals(x: Record, y: Record, z: Record, s: SourceRef) {
    && ValidRecord(x, false) && ValidRecord(y, false) && ValidRecord(z, false)
    && x.id != y.id && y.id == z.id && y != z
    && x.dependencies == [] && y.dependencies == [x.id] && z.dependencies == []
    && x.sources == [s] && y.sources == [] && z.sources == []
    && x.supersedes == [] && y.supersedes == [] && z.supersedes == []
    && y.validity == VALID
  }

  lemma PairOrdered(group: set<Record>, canon: Canon, y: Record, z: Record)
    requires Injective(canon) && group == {y, z} && y != z && Before(canon(z), canon(y))
    ensures InOrder(group, canon) == [z, y]
  {
    var ks := Enumerate(CanonKeys(group, canon));
    BeforeOrder();
    assert CanonKeys(group, canon) == {canon(z), canon(y)} && |ks| == 2;
    assert ks[0] in ks && ks[1] in ks && Itself(ks[0]) != Itself(ks[1]);
    assert ks == [canon(z), canon(y)];
  }

  lemma SingleOrdered(group: set<Record>, canon: Canon, x: Record)
    requires group == {x}
    ensures InOrder(group, canon) == [x]
  {
    var ks := Enumerate(CanonKeys(group, canon));
    assert CanonKeys(group, canon) == {canon(x)} && |ks| == 1;
    assert ks[0] in ks;
  }

  lemma RivalsPick(vs: set<Record>, canon: Canon, x: Record, y: Record, z: Record, s: SourceRef)
    requires Injective(canon) && Rivals(x, y, z, s) && Before(canon(z), canon(y)) && vs == {x, y, z}
    ensures IdsOf(vs) == {x.id, y.id}
    ensures VarietyOf(vs, canon)(x.id) == [x] && VarietyOf(vs, canon)(y.id) == [z, y]
  {
    assert x in vs && y in vs && z in vs;
    assert Group(vs, x.id) == {x};
    assert Group(vs, y.id) == {y, z};
    SingleOrdered(Group(vs, x.id), canon, x);
    PairOrdered(Group(vs, y.id), canon, y, z);
  }

  lemma RivalsFlat(ids: set<Key>, pick: Variety, x: Record, y: Record, z: Record, s: SourceRef)
    requires Rivals(x, y, z, s) && ids == {x.id, y.id} && pick(x.id) == [x] && pick(y.id) == [z, y]
    ensures Flat(ids, pick)
  {
    assert forall r :: r in [z, y] ==> r == z || r == y;
    assert forall r :: r in [x] ==> r == x;
  }

  ghost predicate Escapes(w: View, ev: Event, c: Record) {
    && ValidView(w) && EventProjected(w, ev).Accepted?
    && Candidate(w.conflicts, c) && Candidate(EventProjected(w, ev).value.conflicts, c)
  }

  /** The rival that comes first stands for both and leads nowhere, so the event that strikes x leaves
      y, which rests on x, among the candidates as it was. */
  lemma RivalEscapes(vs: set<Record>, canon: Canon, x: Record, y: Record, z: Record, s: SourceRef, ev: Event)
    requires Injective(canon) && Rivals(x, y, z, s) && Before(canon(z), canon(y)) && vs == {x, y, z}
    requires ev == Event([s], [], false)
    ensures Escapes(MergedView(vs, canon), ev, y)
  {
    var ids, pick, w := IdsOf(vs), VarietyOf(vs, canon), MergedView(vs, canon);
    RivalsPick(vs, canon, x, y, z, s);
    RivalsFlat(ids, pick, x, y, z, s);
    FlatView(ids, pick);
    MergedHomed(vs, canon);
    RootsPresent(w, ev);
    RivalRoots(ids, pick, x, y, z, s, ev);
    NotDownstream(w.records, Roots(w, ev), y.id);
    ConflictRecorded(ids, pick, y.id);
    CandidateStays(w, Downstream(w.records, Roots(w, ev)), ConflictOf(y.id, pick), 1);
  }

  lemma NotDownstream(rs: seq<Record>, roots: set<Key>, id: Key)
    requires Depends(rs) == {} && id !in roots
    ensures id !in Downstream(rs, roots)
  {
    var e := Depends(rs);
    forall p: seq<Key> | |p| >= 2 ensures !Path(e, p) {
      assert (p[0], p[0 + 1]) !in e;
    }
  }

  /** No variant of the contested identity names the source. */
  lemma RivalRoots(ids: set<Key>, pick: Variety, x: Record, y: Record, z: Record, s: SourceRef, ev: Event)
    requires Rivals(x, y, z, s) && Flat(ids, pick) && ids == {x.id, y.id} && pick(y.id) == [z, y]
    requires ev == Event([s], [], false)
    ensures y.id !in Roots(Assembled(ids, pick), ev)
  {
    var w := Assembled(ids, pick);
    VariantsSplit(w);
    forall q | q in Variants(w) && q.id == y.id ensures !Listed(q, ev) {
      if q in w.records {
        RecordAssembled(ids, pick, q);
      } else {
        RivalSourceless(ids, pick, y, z, q);
      }
    }
  }

  lemma RivalSourceless(ids: set<Key>, pick: Variety, y: Record, z: Record, q: Record)
    requires Sorted(ids, pick) && pick(y.id) == [z, y] && y.sources == [] && z.sources == []
    requires Candidate(Assembled(ids, pick).conflicts, q) && q.id == y.id
    ensures |q.sources| == 0
  {
    CandidateAssembled(ids, pick, q);
  }

  lemma RecordAssembled(ids: set<Key>, pick: Variety, q: Record)
    requires Flat(ids, pick) && q in Assembled(ids, pick).records
    ensures q.id in ids && |q.sources| == |pick(q.id)[0].sources|
  {
    FlatView(ids, pick);
    assert q.id in Ids(Assembled(ids, pick).records);
    var out := AssembledAt(ids, pick, q.id);
    OnlyOne(Assembled(ids, pick).records, q, out);
  }

  lemma CandidateAssembled(ids: set<Key>, pick: Variety, q: Record)
    requires Sorted(ids, pick) && Candidate(Assembled(ids, pick).conflicts, q)
    ensures q.id in ids && q in pick(q.id)
  {
    var order := Enumerate(Contested(ids, pick));
    var cs := Assembled(ids, pick).conflicts;
    var i, k :| 0 <= i < |cs| && 0 <= k < |cs[i].candidates| && cs[i].candidates[k] == q;
    assert order[i] in order && pick(order[i])[k] in pick(order[i]);
  }

  lemma CandidateStays(w: View, gone: set<Key>, c: Conflict, k: nat)
    requires c in w.conflicts && k < |c.candidates| && c.candidates[k].id !in gone
    ensures Candidate(w.conflicts, c.candidates[k]) && Candidate(StrikeView(w, gone).conflicts, c.candidates[k])
  {
    var i :| 0 <= i < |w.conflicts| && w.conflicts[i] == c;
    var struck := StrikeConflicts(w.conflicts, gone)[i];
    assert struck in StrikeView(w, gone).conflicts && struck.candidates[k] == c.candidates[k];
    assert c.candidates[k] in struck.candidates && c.candidates[k] in c.candidates;
  }

  lemma OneEdge(e: Edges, a: Key, b: Key)
    requires e == {(a, b)} && a != b
    ensures Acyclic(e)
  {
    forall p: seq<Key> | |p| >= 3 ensures !Path(e, p) {
      assert (p[0], p[0 + 1]) !in e || (p[1], p[1 + 1]) !in e;
    }
    forall p: seq<Key> | Path(e, p) && |p| >= 2 ensures p[0] != p[|p| - 1] {
      assert (p[0], p[0 + 1]) in e;
    }
  }

  lemma PairReady(x: Record, y: Record)
    requires ValidRecord(x, false) && ValidRecord(y, false) && x.id != y.id
    requires x.dependencies == [] && y.dependencies == [x.id]
    ensures WellFormed([x, y])
  {
    var rs := [x, y];
    assert rs[0] == x && rs[1] == y && y.dependencies[0] == x.id;
    assert Ids(rs) == {x.id, y.id};
    forall a, b ensures (a, b) in Depends(rs) <==> a == y.id && b == x.id {
      EdgeHolder(rs, a, b);
    }
    OneEdge(Depends(rs), y.id, x.id);
  }

  lemma ShortNormal(r: Record)
    requires |r.dependencies| <= 1 && |r.sources| <= 1 && |r.supersedes| == 0
    ensures Normal(r) == r
  {
    var n := Normal(r);
    assert |n.dependencies| == 1 ==> n.dependencies[0] in n.dependencies;
    assert |n.sources| == 1 ==> n.sources[0] in n.sources;
  }

  lemma VariantsOfNew(rs: seq<Record>)
    requires forall r :: r in rs ==> Normal(r) == r
    ensures Variants(NewView(rs)) == Elements(rs)
  {
    ArrangeKeeps(rs);
  }

  /** Two valid views whose merge is accepted and holds such a candidate. */
  lemma MergeLetsEscape(canon: Canon, x: Record, y: Record, z: Record, s: SourceRef, ev: Event, views: seq<View>)
    requires Injective(canon) && Rivals(x, y, z, s) && Before(canon(z), canon(y)) && ev == Event([s], [], false)
    requires views == [NewView([x, y]), NewView([z])]
    ensures Merged(views, canon).Accepted? && Escapes(Merged(views, canon).value, ev, y)
  {
    RivalViews(views, x, y, z, s);
    RivalsGathered(views, x, y, z, s);
    RivalEscapes(AllVariants(views), canon, x, y, z, s, ev);
    MergedIs(views, canon);
  }

  lemma MergedIs(views: seq<View>, canon: Canon)
    requires Injective(canon) && (forall v :: v in views ==> ValidView(v)) && ValidView(MergedView(AllVariants(views), canon))
    ensures Merged(views, canon) == Accepted(MergedView(AllVariants(views), canon))
  {
  }

  lemma RivalViews(views: seq<View>, x: Record, y: Record, z: Record, s: SourceRef)
    requires Rivals(x, y, z, s) && views == [NewView([x, y]), NewView([z])]
    ensures forall v :: v in views ==> ValidView(v)
  {
    PairReady(x, y);
    LonersWellFormed([z]);
    ArrangeWellFormed([x, y]);
    ArrangeWellFormed([z]);
  }

  lemma RivalsGathered(views: seq<View>, x: Record, y: Record, z: Record, s: SourceRef)
    requires Rivals(x, y, z, s) && views == [NewView([x, y]), NewView([z])]
    ensures AllVariants(views) == {x, y, z}
  {
    ShortNormal(x);
    ShortNormal(y);
    ShortNormal(z);
    VariantsOfNew([x, y]);
    VariantsOfNew([z]);
    assert Elements([x, y]) == {x, y} && Elements([z]) == {z};
    assert views[0] == NewView([x, y]) && views[1] == NewView([z]);
    assert forall r :: r in AllVariants(views) <==> r in Variants(views[0]) || r in Variants(views[1]);
  }
}

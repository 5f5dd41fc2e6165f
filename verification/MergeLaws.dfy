/** What an accepted merge says of every identity, in terms of the variants the views bring:
    internal/graph/memory.go:248-299. */
module MergeLaws {
  import opened Keys
  import opened Graphs
  import opened Outcomes
  import opened Memory
  import opened Projection
  import opened Invalidation
  import opened Merging

  /** All records and candidates of the views under one identity. */
  ghost function Versions(views: seq<View>, id: Key): set<Record> {
    set i, r | 0 <= i < |views| && r in Variants(views[i]) && r.id == id :: r
  }

  /** Nobody contests the identity, and its only version is judged x. */
  ghost predicate SettledAs(views: seq<View>, id: Key, x: Validity) {
    exists q :: Versions(views, id) == {q} && q.validity == x
  }

  /** The version with the least canonical text. */
  ghost predicate Leads(views: seq<View>, canon: Canon, q: Record) {
    && q in Versions(views, q.id)
    && forall other :: other in Versions(views, q.id) && other != q ==> Before(canon(q), canon(other))
  }

  // ---------- validity through reachability ----------

  /** With one record to an identity, the projection looks at what an identity reaches. */
  lemma MeetsReached(rs: seq<Record>, r: Record, x: Validity)
    requires DistinctKeys(rs, RecordId) && r in rs
    ensures Meets(rs, r, x) <==> exists q :: q in rs && q.validity == x && Reaches(Depends(rs), r.id, q.id)
  {
    var e := Depends(rs);
    ReachesSelf(e, r.id);
    if Meets(rs, r, x) && r.validity != x {
      var q :| Upstream(rs, r, q) && q.validity == x;
      var d :| d in r.dependencies && Reaches(e, d, q.id);
      EdgeHolder(rs, r.id, d);
      ReachesAfterEdge(e, r.id, d, q.id);
    }
    if q :| q in rs && q.validity == x && Reaches(e, r.id, q.id) {
      if q.id == r.id {
        OnlyOne(rs, q, r);
      } else {
        StepsUp(rs, r, q);
      }
    }
  }

  lemma StepsUp(rs: seq<Record>, r: Record, q: Record)
    requires DistinctKeys(rs, RecordId) && r in rs && q in rs && q.id != r.id && Reaches(Depends(rs), r.id, q.id)
    ensures Upstream(rs, r, q)
  {
    var e := Depends(rs);
    FirstEdge(e, r.id, q.id);
    var c :| (r.id, c) in e && Reaches(e, c, q.id);
    EdgeHolder(rs, r.id, c);
    var holder :| holder in rs && holder.id == r.id && c in holder.dependencies;
    OnlyOne(rs, holder, r);
  }

  ghost predicate JudgedAt(rs: seq<Record>, id: Key, x: Validity) {
    exists q :: q in rs && q.id == id && q.validity == x
  }

  lemma ReachedInside(rs: seq<Record>, id: Key, to: Key)
    requires Closed(Depends(rs), Ids(rs)) && id in Ids(rs) && Reaches(Depends(rs), id, to)
    ensures to in Ids(rs)
  {
    var p :| PathFrom(Depends(rs), p, id, to);
    if |p| > 1 {
      assert (p[|p| - 2], p[|p| - 2 + 1]) in Depends(rs);
    }
  }

  lemma SettledInvalid(rs: seq<Record>, r: Record)
    requires DistinctKeys(rs, RecordId) && r in rs
    ensures Settled(rs, r) == INVALID <==> exists to :: Reaches(Depends(rs), r.id, to) && JudgedAt(rs, to, INVALID)
  {
    MeetsReached(rs, r, INVALID);
    if to :| Reaches(Depends(rs), r.id, to) && JudgedAt(rs, to, INVALID) {
      var q :| q in rs && q.id == to && q.validity == INVALID;
    }
  }

  lemma SettledValid(rs: seq<Record>, r: Record)
    requires DistinctKeys(rs, RecordId) && r in rs && Closed(Depends(rs), Ids(rs))
    ensures Settled(rs, r) == VALID <==> forall to :: Reaches(Depends(rs), r.id, to) ==> JudgedAt(rs, to, VALID)
  {
    MeetsReached(rs, r, INVALID);
    MeetsReached(rs, r, NEEDS_REVALIDATION);
    if Settled(rs, r) == VALID {
      forall to | Reaches(Depends(rs), r.id, to) ensures JudgedAt(rs, to, VALID) {
        ReachedInside(rs, r.id, to);
        var q :| q in rs && q.id == to;
        assert q.validity != INVALID && q.validity != NEEDS_REVALIDATION;
      }
    }
    if forall to :: Reaches(Depends(rs), r.id, to) ==> JudgedAt(rs, to, VALID) {
      forall q | q in rs && Reaches(Depends(rs), r.id, q.id) ensures q.validity == VALID {
        var v :| v in rs && v.id == q.id && v.validity == VALID;
        OnlyOne(rs, q, v);
      }
    }
  }

  // ---------- the representatives ----------

  lemma VersionsGroup(views: seq<View>, id: Key)
    ensures Versions(views, id) == Group(AllVariants(views), id)
  {
  }

  lemma LeadingFirst(group: set<Record>, canon: Canon)
    requires Injective(canon) && group != {}
    ensures var o := InOrder(group, canon);
      && o != [] && o[0] in group && |o| == |CanonKeys(group, canon)|
      && forall other :: other in group && other != o[0] ==> Before(canon(o[0]), canon(other))
  {
    var ks, o := Enumerate(CanonKeys(group, canon)), InOrder(group, canon);
    var any :| any in group;
    assert canon(any) in ks;
    assert ks[0] in ks;
    BeforeOrder();
    forall other | other in group && other != o[0] ensures Before(canon(o[0]), canon(other)) {
      assert canon(other) in ks;
      var i :| 0 <= i < |ks| && ks[i] == canon(other);
      assert i > 0 && Itself(ks[0]) != Itself(ks[i]) && !Before(Itself(ks[i]), Itself(ks[0]));
    }
  }

  lemma AloneExactly(group: set<Record>, canon: Canon)
    requires Injective(canon) && group != {}
    ensures InOrder(group, canon) != [] && (|InOrder(group, canon)| <= 1 <==> group == {InOrder(group, canon)[0]})
  {
    LeadingFirst(group, canon);
    InOrderHolds(group, canon);
    var o := InOrder(group, canon);
    if group == {o[0]} {
      assert CanonKeys(group, canon) == {canon(o[0])};
    }
    if |o| <= 1 {
      assert o == [o[0]];
      assert forall other :: other in group <==> other in o;
    }
  }

  /** What stands for an identity before the projection. */
  ghost predicate Stands(views: seq<View>, canon: Canon, b: Record) {
    exists q :: StandsFor(views, canon, b, q)
  }

  ghost predicate StandsFor(views: seq<View>, canon: Canon, b: Record, q: Record) {
    && Leads(views, canon, q) && q.id == b.id && Unjudged(b) == Unjudged(Normal(q))
    && if Versions(views, q.id) == {q} then b.validity == q.validity && b.validation == q.validation
       else b.validity == NEEDS_REVALIDATION && b.validation == Unchecked
  }

  ghost function Base(views: seq<View>, canon: Canon): seq<Record>
    requires Injective(canon)
  {
    VarietySorted(AllVariants(views), canon);
    Arrange(Representatives(Enumerate(IdsOf(AllVariants(views))), VarietyOf(AllVariants(views), canon)))
  }

  lemma BaseStands(views: seq<View>, canon: Canon, b: Record)
    requires Injective(canon) && b in Base(views, canon)
    ensures Stands(views, canon, b)
  {
    var vs := AllVariants(views);
    var ids, pick := IdsOf(vs), VarietyOf(vs, canon);
    VarietySorted(vs, canon);
    var rs := Representatives(Enumerate(ids), pick);
    var i :| 0 <= i < |Base(views, canon)| && Base(views, canon)[i] == b;
    var chosen := ArrangeOrigin(rs, i);
    var n :| 0 <= n < |rs| && rs[n] == chosen;
    assert Enumerate(ids)[n] in Enumerate(ids);
    RepresentativesDistinct(ids, pick);
    var id := Enumerate(ids)[n];
    ChosenStands(views, canon, id, chosen, b);
  }

  lemma ChosenStands(views: seq<View>, canon: Canon, id: Key, chosen: Record, b: Record)
    requires Injective(canon) && id in IdsOf(AllVariants(views))
    requires VarietyOf(AllVariants(views), canon)(id) != [] && chosen == Chosen(VarietyOf(AllVariants(views), canon)(id)) && b == Normal(chosen)
    ensures Stands(views, canon, b)
  {
    var group := Group(AllVariants(views), id);
    VersionsGroup(views, id);
    var o := InOrder(group, canon);
    InOrderHolds(group, canon);
    assert o[0] in o;
    LeadingFirst(group, canon);
    AloneExactly(group, canon);
    JudgedNormal(o[0], chosen);
    assert StandsFor(views, canon, b, o[0]);
  }

  lemma JudgedNormal(q: Record, chosen: Record)
    requires chosen == q.(validity := chosen.validity, validation := chosen.validation)
    ensures Unjudged(Normal(chosen)) == Unjudged(Normal(q))
  {
  }

  lemma BaseHolds(views: seq<View>, canon: Canon)
    requires Injective(canon)
    ensures Ids(Base(views, canon)) == IdsOf(AllVariants(views)) && DistinctKeys(Base(views, canon), RecordId)
  {
    var vs := AllVariants(views);
    var ids, pick := IdsOf(vs), VarietyOf(vs, canon);
    VarietySorted(vs, canon);
    RepresentativesDistinct(ids, pick);
    RepresentativeIds(ids, pick);
    ArrangeShape(Representatives(Enumerate(ids), pick));
  }

  lemma RepresentativeIds(ids: set<Key>, pick: Variety)
    requires Sorted(ids, pick)
    ensures Ids(Representatives(Enumerate(ids), pick)) == ids
  {
    var order := Enumerate(ids);
    var rs := Representatives(order, pick);
    RepresentativesDistinct(ids, pick);
    forall id ensures id in ids <==> id in Ids(rs) {
      if id in ids {
        assert id in order;
        var n :| 0 <= n < |order| && order[n] == id;
        assert rs[n] in rs;
      }
      if id in Ids(rs) {
        var r :| r in rs && r.id == id;
        var n :| 0 <= n < |rs| && rs[n] == r;
        assert order[n] in order;
      }
    }
  }

  lemma MergedFromBase(views: seq<View>, canon: Canon, w: View)
    requires Injective(canon) && Merged(views, canon) == Accepted(w)
    ensures w.records == Projected(Base(views, canon)) && Depends(w.records) == Depends(Base(views, canon))
    ensures ValidView(w) && Ids(w.records) == IdsOf(AllVariants(views))
  {
    var base := Base(views, canon);
    ProjectedConsistent(base);
    SameBodiesFacts(Projected(base), base);
    BaseHolds(views, canon);
  }

  // ---------- what a merged record is ----------

  lemma StandsJudged(views: seq<View>, canon: Canon, b: Record, x: Validity)
    requires Stands(views, canon, b) && x != NEEDS_REVALIDATION
    ensures b.validity == x <==> SettledAs(views, b.id, x)
  {
    var q :| StandsFor(views, canon, b, q);
  }

  /** An identity reached from a merged record is judged x alone, or is not. */
  lemma ReachedJudged(views: seq<View>, canon: Canon, id: Key, x: Validity)
    requires Injective(canon) && id in Ids(Base(views, canon)) && x != NEEDS_REVALIDATION
    ensures JudgedAt(Base(views, canon), id, x) <==> SettledAs(views, id, x)
  {
    var base := Base(views, canon);
    BaseHolds(views, canon);
    var b :| b in base && b.id == id;
    BaseStands(views, canon, b);
    StandsJudged(views, canon, b, x);
    forall other | other in base && other.id == id ensures other == b {
      OnlyOne(base, other, b);
    }
  }

  ghost predicate ReachesSettled(w: View, views: seq<View>, id: Key, x: Validity) {
    exists to :: Reaches(Depends(w.records), id, to) && SettledAs(views, to, x)
  }

  ghost predicate ReachesOnly(w: View, views: seq<View>, id: Key, x: Validity) {
    forall to :: Reaches(Depends(w.records), id, to) ==> SettledAs(views, to, x)
  }

  /** A merged record has the text of the leading version of its identity and keeps that version's
      validation where nobody contests it. It is INVALID exactly when it rests on, or is, an uncontested
      INVALID version, and VALID exactly when everything it rests on is uncontested and VALID. */
  lemma MergeExplained(views: seq<View>, canon: Canon, w: View, r: Record)
    requires Injective(canon) && Merged(views, canon) == Accepted(w) && r in w.records
    ensures exists q :: Explains(views, canon, r, q)
    ensures r.validity == INVALID <==> ReachesSettled(w, views, r.id, INVALID)
    ensures r.validity == VALID <==> ReachesOnly(w, views, r.id, VALID)
  {
    var base := Base(views, canon);
    MergedFromBase(views, canon, w);
    BaseHolds(views, canon);
    var i :| 0 <= i < |base| && w.records[i] == r;
    BaseStands(views, canon, base[i]);
    var q :| StandsFor(views, canon, base[i], q);
    assert Explains(views, canon, r, q);
    InvalidReaches(views, canon, w, base[i]);
    ValidReaches(views, canon, w, base[i]);
  }

  ghost predicate Explains(views: seq<View>, canon: Canon, r: Record, q: Record) {
    && Leads(views, canon, q) && q.id == r.id && Unjudged(r) == Unjudged(Normal(q))
    && r.validation == if Versions(views, q.id) == {q} then q.validation else Unchecked
  }

  lemma InvalidReaches(views: seq<View>, canon: Canon, w: View, b: Record)
    requires Injective(canon) && Merged(views, canon) == Accepted(w) && b in Base(views, canon)
    ensures Settled(Base(views, canon), b) == INVALID <==> ReachesSettled(w, views, b.id, INVALID)
  {
    ReachedAgree(views, canon, w, b, INVALID);
    BaseHolds(views, canon);
    SettledInvalid(Base(views, canon), b);
  }

  lemma ValidReaches(views: seq<View>, canon: Canon, w: View, b: Record)
    requires Injective(canon) && Merged(views, canon) == Accepted(w) && b in Base(views, canon)
    ensures Settled(Base(views, canon), b) == VALID <==> ReachesOnly(w, views, b.id, VALID)
  {
    ReachedAgree(views, canon, w, b, VALID);
    BaseHolds(views, canon);
    SettledValid(Base(views, canon), b);
  }

  lemma ReachedAgree(views: seq<View>, canon: Canon, w: View, b: Record, x: Validity)
    requires Injective(canon) && Merged(views, canon) == Accepted(w) && b in Base(views, canon) && x != NEEDS_REVALIDATION
    ensures Depends(w.records) == Depends(Base(views, canon)) && Closed(Depends(w.records), Ids(Base(views, canon)))
    ensures forall to :: Reaches(Depends(w.records), b.id, to) ==> (JudgedAt(Base(views, canon), to, x) <==> SettledAs(views, to, x))
  {
    var base := Base(views, canon);
    MergedFromBase(views, canon, w);
    BaseHolds(views, canon);
    forall to | Reaches(Depends(w.records), b.id, to) ensures JudgedAt(base, to, x) <==> SettledAs(views, to, x) {
      ReachedInside(base, b.id, to);
      ReachedJudged(views, canon, to, x);
    }
  }

  // ---------- the conflicts ----------

  ghost predicate Filed(cs: seq<Conflict>, id: Key) {
    exists c :: c in cs && c.recordId == id
  }

  /** Exactly the contested identities are filed as conflicts, each with all its versions, least canonical
      text first. */
  lemma ConflictsExact(views: seq<View>, canon: Canon, w: View, id: Key)
    requires Injective(canon) && Merged(views, canon) == Accepted(w)
    ensures Filed(w.conflicts, id) <==> |Versions(views, id)| > 1
    ensures forall c :: c in w.conflicts && c.recordId == id ==> Elements(c.candidates) == Versions(views, id) && Ascends(c.candidates, canon)
  {
    MergedConflicts(views, canon, w);
    ConflictsOf(AllVariants(views), canon, w.conflicts, id);
    VersionsGroup(views, id);
  }

  lemma ConflictsOf(vs: set<Record>, canon: Canon, cs: seq<Conflict>, id: Key)
    requires Injective(canon) && cs == Conflicts(Enumerate(Contested(IdsOf(vs), VarietyOf(vs, canon))), VarietyOf(vs, canon))
    ensures Filed(cs, id) <==> |Group(vs, id)| > 1
    ensures forall c :: c in cs && c.recordId == id ==> Elements(c.candidates) == Group(vs, id) && Ascends(c.candidates, canon)
  {
    ConflictsFiled(IdsOf(vs), VarietyOf(vs, canon), id, cs);
    GroupListed(Group(vs, id), canon);
    GroupPresent(vs, id);
  }

  lemma GroupPresent(vs: set<Record>, id: Key)
    ensures id in IdsOf(vs) <==> Group(vs, id) != {}
  {
    if id in IdsOf(vs) {
      var r :| r in vs && r.id == id;
      assert r in Group(vs, id);
    }
  }

  lemma GroupListed(group: set<Record>, canon: Canon)
    requires Injective(canon)
    ensures |InOrder(group, canon)| == |group| && Ascends(InOrder(group, canon), canon) && Elements(InOrder(group, canon)) == group
  {
    CountOrder(group, canon);
    InOrderHolds(group, canon);
  }

  lemma MergedConflicts(views: seq<View>, canon: Canon, w: View)
    requires Injective(canon) && Merged(views, canon) == Accepted(w)
    ensures var ids, pick := IdsOf(AllVariants(views)), VarietyOf(AllVariants(views), canon);
      w.conflicts == Conflicts(Enumerate(Contested(ids, pick)), pick)
  {
  }

  lemma ConflictsFiled(ids: set<Key>, pick: Variety, id: Key, cs: seq<Conflict>)
    requires cs == Conflicts(Enumerate(Contested(ids, pick)), pick)
    ensures Filed(cs, id) <==> id in ids && |pick(id)| > 1
    ensures forall c :: c in cs && c.recordId == id ==> c.candidates == pick(id)
  {
    var order := Enumerate(Contested(ids, pick));
    if id in ids && |pick(id)| > 1 {
      assert id in order;
      var n :| 0 <= n < |order| && order[n] == id;
      assert cs[n] in cs;
    }
    forall c | c in cs && c.recordId == id ensures c.candidates == pick(id) && id in Contested(ids, pick) {
      var n :| 0 <= n < |cs| && cs[n] == c;
      assert order[n] in order;
    }
  }

  lemma CountOrder(group: set<Record>, canon: Canon)
    requires Injective(canon)
    ensures |InOrder(group, canon)| == |group| && Ascends(InOrder(group, canon), canon)
  {
    var ks, o := Enumerate(CanonKeys(group, canon)), InOrder(group, canon);
    CountKeys(group, canon);
    forall i, j | 0 <= i < j < |o| ensures !Before(canon(o[j]), canon(o[i])) {
      assert ks[i] in ks && ks[j] in ks && !Before(Itself(ks[j]), Itself(ks[i]));
    }
  }

  lemma {:induction false} CountKeys(group: set<Record>, canon: Canon)
    requires Injective(canon)
    ensures |CanonKeys(group, canon)| == |group|
    decreases group
  {
    if group != {} {
      var r :| r in group;
      CountKeys(group - {r}, canon);
      assert CanonKeys(group, canon) == CanonKeys(group - {r}, canon) + {canon(r)};
    }
  }
}

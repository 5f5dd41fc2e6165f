/** internal/graph/memory.go:301-345, validity.go and source_lineage.go:51-91: striking records
    by identity, by source and by the frozen context that produced them. */
module Invalidation {
  import opened Keys
  import opened Graphs
  import opened Outcomes
  import opened Memory
  import opened Projection

  datatype Event = Event(sources: seq<SourceRef>, records: seq<Key>, auditOnly: bool)

  // ---------- Invalidate ----------

  ghost predicate ReachesAny(e: Edges, a: Key, roots: set<Key>) {
    exists b :: b in roots && Reaches(e, a, b)
  }

  /** The given identities and every transitive dependent of one of them. */
  ghost function Downstream(rs: seq<Record>, roots: set<Key>): set<Key> {
    set a | a in Ids(rs) && ReachesAny(Depends(rs), a, roots)
  }

  function Strike(r: Record, s: set<Key>): Record {
    if r.id in s then r.(validity := INVALID) else r
  }

  function StrikeAll(rs: seq<Record>, s: set<Key>): (out: seq<Record>)
    ensures |out| == |rs|
    ensures forall i :: 0 <= i < |rs| ==> out[i] == Strike(rs[i], s)
  {
    seq(|rs|, i requires 0 <= i < |rs| => Strike(rs[i], s))
  }

  function StrikeConflicts(cs: seq<Conflict>, s: set<Key>): (out: seq<Conflict>)
    ensures |out| == |cs|
    ensures forall i :: 0 <= i < |cs| ==> out[i] == Conflict(cs[i].recordId, StrikeAll(cs[i].candidates, s))
  {
    seq(|cs|, i requires 0 <= i < |cs| => Conflict(cs[i].recordId, StrikeAll(cs[i].candidates, s)))
  }

  function StrikeView(v: View, s: set<Key>): View {
    Seal(StrikeAll(Arrange(v.records), s), StrikeConflicts(v.conflicts, s))
  }

  ghost function Invalidated(v: View, ids: set<Key>): Outcome<View> {
    if ValidView(v) && ids <= Ids(v.records)
    then Accepted(StrikeView(v, Downstream(v.records, ids)))
    else Refused
  }

  ghost predicate Between(rs: seq<Record>, roots: set<Key>, cur: set<Key>) {
    roots <= cur <= Downstream(rs, roots)
  }

  /** Everything in the list that depends on a struck identity is struck. */
  ghost predicate Pulled(r: Record, cur: set<Key>, deps: seq<Key>) {
    r.id in cur || forall d :: d in deps ==> d !in cur
  }

  lemma OneMore(rs: seq<Record>, roots: set<Key>, cur: set<Key>, r: Record, d: Key)
    requires Between(rs, roots, cur) && r in rs && d in r.dependencies && d in cur
    ensures Between(rs, roots, cur + {r.id})
  {
    var e := Depends(rs);
    var b :| b in roots && Reaches(e, d, b);
    EdgeHolder(rs, r.id, d);
    ReachesAfterEdge(e, r.id, d, b);
  }

  lemma ClosureReached(rs: seq<Record>, roots: set<Key>, cur: set<Key>)
    requires Between(rs, roots, cur)
    requires forall r :: r in rs ==> Pulled(r, cur, r.dependencies)
    ensures cur == Downstream(rs, roots)
  {
    var e := Depends(rs);
    var s := iset x | x in cur;
    forall x, y | (x, y) in e && y in s ensures x in s {
      EdgeHolder(rs, x, y);
      var r :| r in rs && r.id == x && y in r.dependencies;
      assert Pulled(r, cur, r.dependencies);
    }
    forall a | a in Downstream(rs, roots) ensures a in cur {
      var b :| b in roots && Reaches(e, a, b);
      DependentsStay(e, s, a, b);
    }
  }

  /** memory.go:323-330: one sweep over the records. */
  method PullOnce(rs: seq<Record>, start: set<Key>, ghost roots: set<Key>) returns (cur: set<Key>, changed: bool)
    requires Between(rs, roots, start)
    ensures Between(rs, roots, cur) && start <= cur
    ensures changed ==> start < cur
    ensures !changed ==> cur == start && forall r :: r in rs ==> Pulled(r, cur, r.dependencies)
  {
    cur, changed := start, false;
    var i := 0;
    while i < |rs|
      invariant 0 <= i <= |rs| && Between(rs, roots, cur) && start <= cur
      invariant changed ==> start < cur
      invariant !changed ==> cur == start && forall n :: 0 <= n < i ==> Pulled(rs[n], cur, rs[n].dependencies)
    {
      var r := rs[i];
      var k := 0;
      while k < |r.dependencies|
        invariant 0 <= k <= |r.dependencies| && Between(rs, roots, cur) && start <= cur
        invariant changed ==> start < cur
        invariant !changed ==> cur == start && forall n :: 0 <= n < i ==> Pulled(rs[n], cur, rs[n].dependencies)
        invariant !changed ==> Pulled(r, cur, r.dependencies[..k])
      {
        if r.dependencies[k] in cur && r.id !in cur {
          OneMore(rs, roots, cur, r, r.dependencies[k]);
          cur := cur + {r.id};
          changed := true;
        }
        k := k + 1;
      }
      assert r.dependencies[..k] == r.dependencies;
      i := i + 1;
    }
  }

  /** memory.go:307-319 */
  method NameRoots(rs: seq<Record>, ids: seq<Key>) returns (found: bool, cur: set<Key>)
    ensures found <==> (set id | id in ids) <= Ids(rs)
    ensures found ==> cur == set id | id in ids
  {
    cur := {};
    var i := 0;
    while i < |ids|
      invariant 0 <= i <= |ids| && cur == (set id | id in ids[..i]) && cur <= Ids(rs)
    {
      if !(exists k :: 0 <= k < |rs| && rs[k].id == ids[i]) {
        assert ids[i] in (set id | id in ids) && ids[i] !in Ids(rs);
        return false, cur;
      }
      cur := cur + {ids[i]};
      i := i + 1;
    }
    assert ids[..i] == ids;
    return true, cur;
  }

  /** memory.go:320-331: sweeping until nothing changes computes the closure. */
  method Spread(rs: seq<Record>, roots: set<Key>) returns (cur: set<Key>)
    requires roots <= Ids(rs)
    ensures cur == Downstream(rs, roots)
  {
    cur := roots;
    forall a | a in cur ensures a in Downstream(rs, roots) {
      ReachesSelf(Depends(rs), a);
    }
    var changed := true;
    while changed
      invariant Between(rs, roots, cur)
      invariant !changed ==> forall r :: r in rs ==> Pulled(r, cur, r.dependencies)
      decreases |Ids(rs) - cur|, changed
    {
      ghost var before := cur;
      cur, changed := PullOnce(rs, cur, roots);
      if changed {
        StrictlyFewer(Ids(rs) - cur, Ids(rs) - before);
      }
    }
    ClosureReached(rs, roots, cur);
  }

  /** memory.go:301-345 */
  method Invalidate(v: View, ids: seq<Key>) returns (out: Outcome<View>)
    ensures out == Invalidated(v, set id | id in ids)
  {
    var ok := ValidateView(v);
    if !ok {
      return Refused;
    }
    ArrangeShape(v.records);
    var rs := Arrange(v.records);
    var found, roots := NameRoots(rs, ids);
    if !found {
      return Refused;
    }
    var cur := Spread(rs, roots);
    out := Accepted(StrikeView(v, cur));
  }

  // ---------- what Invalidate means ----------

  lemma StrikeFacts(rs: seq<Record>, s: set<Key>)
    ensures SameBodies(StrikeAll(rs, s), rs)
    ensures Ids(StrikeAll(rs, s)) == Ids(rs)
    ensures Depends(StrikeAll(rs, s)) == Depends(rs)
    ensures WellFormed(StrikeAll(rs, s)) <==> WellFormed(rs)
    ensures Arrange(rs) == rs ==> Arrange(StrikeAll(rs, s)) == StrikeAll(rs, s)
  {
    SameBodiesFacts(StrikeAll(rs, s), rs);
  }

  lemma StrikeValid(v: View, s: set<Key>)
    requires ValidView(v)
    ensures ValidView(StrikeView(v, s))
    ensures Ids(StrikeView(v, s).records) == Ids(v.records)
    ensures Depends(StrikeView(v, s).records) == Depends(v.records)
    ensures Arrange(StrikeView(v, s).records) == StrikeView(v, s).records
  {
    ArrangeShape(v.records);
    ArrangeWellFormed(v.records);
    ArrangeTwice(v.records);
    StrikeFacts(Arrange(v.records), s);
    StrikeOrigins(v.conflicts, s);
  }

  lemma StrikeOrigins(cs: seq<Conflict>, s: set<Key>)
    ensures OriginsValid(StrikeConflicts(cs, s)) <==> OriginsValid(cs)
  {
    var out := StrikeConflicts(cs, s);
    assert forall i, k :: 0 <= i < |cs| && 0 <= k < |cs[i].candidates| ==> out[i].candidates[k].origin == cs[i].candidates[k].origin;
  }

  /** Exactly the given identities and their transitive dependents become INVALID; every other
      judgement, and every record body, is kept. */
  lemma InvalidateExact(v: View, ids: set<Key>, r: Record)
    requires Invalidated(v, ids).Accepted? && r in v.records
    ensures var w := Invalidated(v, ids).value;
      && ValidView(w)
      && Normal(r).(validity := if ReachesAny(Depends(v.records), r.id, ids) then INVALID else r.validity) in w.records
      && |w.records| == |v.records|
  {
    var w := Invalidated(v, ids).value;
    var s := Downstream(v.records, ids);
    StrikeValid(v, s);
    var rs := Arrange(v.records);
    var i := ArrangeIndex(v.records, r);
    assert w.records[i] == Strike(rs[i], s);
    assert w.records[i] in w.records;
  }

  lemma DownstreamUnion(rs: seq<Record>, a: set<Key>, b: set<Key>)
    ensures Downstream(rs, a + b) == Downstream(rs, a) + Downstream(rs, b)
  {
    var e := Depends(rs);
    forall x | x in Ids(rs) ensures ReachesAny(e, x, a + b) <==> ReachesAny(e, x, a) || ReachesAny(e, x, b) {
    }
  }

  lemma StrikeTwice(rs: seq<Record>, s: set<Key>, t: set<Key>)
    ensures StrikeAll(StrikeAll(rs, s), t) == StrikeAll(rs, s + t)
  {
  }

  lemma StrikeConflictsTwice(cs: seq<Conflict>, s: set<Key>, t: set<Key>)
    ensures StrikeConflicts(StrikeConflicts(cs, s), t) == StrikeConflicts(cs, s + t)
  {
    forall i | 0 <= i < |cs| {
      StrikeTwice(cs[i].candidates, s, t);
    }
  }

  /** Two invalidations in a row are one invalidation of the union. */
  lemma InvalidateUnion(v: View, a: set<Key>, b: set<Key>)
    requires Invalidated(v, a).Accepted?
    ensures Invalidated(Invalidated(v, a).value, b) == Invalidated(v, a + b)
  {
    var s := Downstream(v.records, a);
    var w := StrikeView(v, s);
    StrikeValid(v, s);
    assert Ids(w.records) == Ids(v.records);
    assert b <= Ids(w.records) <==> a + b <= Ids(v.records);
    if b <= Ids(v.records) {
      var t := Downstream(w.records, b);
      assert t == Downstream(v.records, b);
      DownstreamUnion(v.records, a, b);
      StrikeTwice(Arrange(v.records), s, t);
      StrikeConflictsTwice(v.conflicts, s, t);
    }
  }

  /** No transitive dependent is left better than INVALID, so consistency survives. */
  lemma InvalidateConsistent(v: View, ids: set<Key>)
    requires Invalidated(v, ids).Accepted? && Consistent(v.records)
    ensures Consistent(Invalidated(v, ids).value.records)
  {
    ArrangeShape(v.records);
    ArrangeConsistent(v.records);
    StrikeConsistent(Arrange(v.records), ids);
  }

  lemma StrikeConsistent(rs: seq<Record>, ids: set<Key>)
    requires Consistent(rs)
    ensures Consistent(StrikeAll(rs, Downstream(rs, ids)))
  {
    var s := Downstream(rs, ids);
    var out := StrikeAll(rs, s);
    forall r, q | r in out && q in out && q.id in r.dependencies ensures Rank(q.validity) <= Rank(r.validity) {
      var i :| 0 <= i < |rs| && out[i] == r;
      var j :| 0 <= j < |rs| && out[j] == q;
      assert rs[i] in rs && rs[j] in rs;
      if q.id in s {
        DownstreamPulls(rs, ids, rs[i], q.id);
      }
    }
  }

  lemma DownstreamPulls(rs: seq<Record>, ids: set<Key>, r: Record, d: Key)
    requires r in rs && d in r.dependencies && d in Downstream(rs, ids)
    ensures r.id in Downstream(rs, ids)
  {
    var e := Depends(rs);
    var b :| b in ids && Reaches(e, d, b);
    EdgeHolder(rs, r.id, d);
    ReachesAfterEdge(e, r.id, d, b);
  }

  lemma ArrangeConsistent(rs: seq<Record>)
    requires Consistent(rs)
    ensures Consistent(Arrange(rs))
  {
    ArrangeKeeps(rs);
    forall r, q | r in Arrange(rs) && q in Arrange(rs) && q.id in r.dependencies ensures Rank(q.validity) <= Rank(r.validity) {
      var a :| a in rs && r == Normal(a);
      var b :| b in rs && q == Normal(b);
    }
  }

  // ---------- ProjectInvalidation ----------

  /** Records and conflict candidates alike. */
  ghost function Variants(v: View): set<Record> {
    (set r | r in v.records) + (set c, r | c in v.conflicts && r in c.candidates :: r)
  }

  predicate Listed(r: Record, ev: Event) {
    r.id in ev.records || exists s :: s in r.sources && s in ev.sources
  }

  ghost function Roots(v: View, ev: Event): set<Key> {
    set r | r in Variants(v) && Listed(r, ev) :: r.id
  }

  ghost function EventProjected(v: View, ev: Event): Outcome<View> {
    if !ValidView(v) then Refused
    else if ev.auditOnly then Accepted(v)
    else Invalidated(v, Roots(v, ev))
  }

  /** validity.go:51-54 */
  method Gather(v: View) returns (all: seq<Record>)
    ensures forall r :: r in all <==> r in Variants(v)
  {
    all := v.records;
    var i := 0;
    while i < |v.conflicts|
      invariant 0 <= i <= |v.conflicts|
      invariant forall r :: r in all <==> r in v.records || exists n :: 0 <= n < i && r in v.conflicts[n].candidates
    {
      all := all + v.conflicts[i].candidates;
      i := i + 1;
    }
  }

  /** validity.go:55-68 */
  method CollectRoots(all: seq<Record>, ev: Event) returns (ids: set<Key>)
    ensures ids == set r | r in all && Listed(r, ev) :: r.id
  {
    ids := {};
    var k := 0;
    while k < |all|
      invariant 0 <= k <= |all|
      invariant ids == set r | r in all[..k] && Listed(r, ev) :: r.id
    {
      assert all[..k + 1] == all[..k] + [all[k]];
      if Listed(all[k], ev) {
        ids := ids + {all[k].id};
      }
      k := k + 1;
    }
    assert all[..k] == all;
  }

  /** validity.go:43-75 */
  method ProjectInvalidation(v: View, ev: Event) returns (out: Outcome<View>)
    ensures out == EventProjected(v, ev)
  {
    var ok := ValidateView(v);
    if !ok {
      return Refused;
    }
    if ev.auditOnly {
      return Accepted(v);
    }
    var all := Gather(v);
    var ids := CollectRoots(all, ev);
    assert ids == Roots(v, ev);
    var roots := Enumerate(ids);
    assert (set id | id in roots) == ids;
    out := Invalidate(v, roots);
  }

  lemma RecordImage(rs: seq<Record>, s: set<Key>, r: Record) returns (q: Record)
    requires r in rs
    ensures q in StrikeAll(Arrange(rs), s) && q.id == r.id
    ensures forall x :: x in q.sources <==> x in r.sources
  {
    var i := ArrangeIndex(rs, r);
    q := StrikeAll(Arrange(rs), s)[i];
  }

  lemma RecordSource(rs: seq<Record>, s: set<Key>, q: Record) returns (r: Record)
    requires q in StrikeAll(Arrange(rs), s)
    ensures r in rs && q.id == r.id
    ensures forall x :: x in q.sources <==> x in r.sources
  {
    var i :| 0 <= i < |Arrange(rs)| && StrikeAll(Arrange(rs), s)[i] == q;
    r := ArrangeOrigin(rs, i);
  }

  ghost predicate Candidate(cs: seq<Conflict>, r: Record) {
    exists i, k :: 0 <= i < |cs| && 0 <= k < |cs[i].candidates| && cs[i].candidates[k] == r
  }

  lemma VariantsSplit(v: View)
    ensures forall r :: r in Variants(v) <==> r in v.records || Candidate(v.conflicts, r)
  {
    forall r ensures r in Variants(v) <==> r in v.records || Candidate(v.conflicts, r) {
      if Candidate(v.conflicts, r) {
        var i, k :| 0 <= i < |v.conflicts| && 0 <= k < |v.conflicts[i].candidates| && v.conflicts[i].candidates[k] == r;
        assert v.conflicts[i] in v.conflicts;
      }
      if c :| c in v.conflicts && r in c.candidates {
        var i :| 0 <= i < |v.conflicts| && v.conflicts[i] == c;
        var k :| 0 <= k < |c.candidates| && c.candidates[k] == r;
      }
    }
  }

  lemma StrickenImage(v: View, s: set<Key>, r: Record) returns (q: Record)
    requires r in Variants(v)
    ensures q in Variants(StrikeView(v, s)) && q.id == r.id
    ensures forall x :: x in q.sources <==> x in r.sources
  {
    var w := StrikeView(v, s);
    VariantsSplit(v);
    VariantsSplit(w);
    if r in v.records {
      q := RecordImage(v.records, s, r);
    } else {
      var i, k :| 0 <= i < |v.conflicts| && 0 <= k < |v.conflicts[i].candidates| && v.conflicts[i].candidates[k] == r;
      q := w.conflicts[i].candidates[k];
      assert Candidate(w.conflicts, q);
    }
  }

  lemma StrickenSource(v: View, s: set<Key>, q: Record) returns (r: Record)
    requires q in Variants(StrikeView(v, s))
    ensures r in Variants(v) && q.id == r.id
    ensures forall x :: x in q.sources <==> x in r.sources
  {
    var w := StrikeView(v, s);
    VariantsSplit(v);
    VariantsSplit(w);
    if q in w.records {
      r := RecordSource(v.records, s, q);
    } else {
      var i, k :| 0 <= i < |w.conflicts| && 0 <= k < |w.conflicts[i].candidates| && w.conflicts[i].candidates[k] == q;
      r := v.conflicts[i].candidates[k];
      assert Candidate(v.conflicts, r);
    }
  }

  lemma StrikeKeepsRoots(v: View, s: set<Key>, ev: Event)
    ensures Roots(StrikeView(v, s), ev) == Roots(v, ev)
  {
    var w := StrikeView(v, s);
    forall id | id in Roots(v, ev) ensures id in Roots(w, ev) {
      var r :| r in Variants(v) && Listed(r, ev) && r.id == id;
      var q := StrickenImage(v, s, r);
      assert Listed(q, ev);
    }
    forall id | id in Roots(w, ev) ensures id in Roots(v, ev) {
      var q :| q in Variants(w) && Listed(q, ev) && q.id == id;
      var r := StrickenSource(v, s, q);
      assert Listed(r, ev);
    }
  }

  /** After striking some identities, a further event is one invalidation of the union. */
  lemma EventAfter(v: View, ids: set<Key>, ev: Event)
    requires Invalidated(v, ids).Accepted? && !ev.auditOnly
    ensures EventProjected(Invalidated(v, ids).value, ev) == Invalidated(v, ids + Roots(v, ev))
  {
    var s := Downstream(v.records, ids);
    StrikeValid(v, s);
    StrikeKeepsRoots(v, s, ev);
    InvalidateUnion(v, ids, Roots(v, ev));
  }

  /** Applying an event again changes nothing. */
  lemma EventIdempotent(v: View, ev: Event)
    requires EventProjected(v, ev).Accepted?
    ensures EventProjected(EventProjected(v, ev).value, ev) == EventProjected(v, ev)
  {
    if !ev.auditOnly {
      EventAfter(v, Roots(v, ev), ev);
      assert Roots(v, ev) + Roots(v, ev) == Roots(v, ev);
    }
  }

  /** Events commute: the order in which they arrive leaves no trace. */
  lemma EventsCommute(v: View, a: Event, b: Event)
    requires EventProjected(v, a).Accepted? && EventProjected(v, b).Accepted?
    ensures EventProjected(EventProjected(v, a).value, b) == EventProjected(EventProjected(v, b).value, a)
  {
    var x, y := Roots(v, a), Roots(v, b);
    assert x + y == y + x;
    if !a.auditOnly && !b.auditOnly {
      EventAfter(v, x, b);
      EventAfter(v, y, a);
    } else if !a.auditOnly {
      StrikeValid(v, Downstream(v.records, x));
    } else if !b.auditOnly {
      StrikeValid(v, Downstream(v.records, y));
    }
  }
}

/** internal/graph/memory.go:228-245: validity flows down the dependency relation. */
module Projection {
  import opened Keys
  import opened Graphs
  import opened Memory

  /** q is a transitive dependency of r in the list. */
  ghost predicate Upstream(rs: seq<Record>, r: Record, q: Record) {
    q in rs && exists d :: d in r.dependencies && Reaches(Depends(rs), d, q.id)
  }

  ghost predicate Meets(rs: seq<Record>, r: Record, x: Validity) {
    r.validity == x || exists q :: Upstream(rs, r, q) && q.validity == x
  }

  /** The worst validity among a record and everything it transitively depends on. */
  ghost function Settled(rs: seq<Record>, r: Record): Validity {
    if Meets(rs, r, INVALID) then INVALID
    else if Meets(rs, r, NEEDS_REVALIDATION) then NEEDS_REVALIDATION
    else VALID
  }

  ghost function Projected(rs: seq<Record>): (out: seq<Record>)
    ensures |out| == |rs|
    ensures forall i :: 0 <= i < |rs| ==> out[i] == rs[i].(validity := Settled(rs, rs[i]))
  {
    seq(|rs|, i requires 0 <= i < |rs| => rs[i].(validity := Settled(rs, rs[i])))
  }

  /** No record is judged better than one it depends on. */
  ghost predicate Consistent(rs: seq<Record>) {
    forall r, q :: r in rs && q in rs && q.id in r.dependencies ==> Rank(q.validity) <= Rank(r.validity)
  }

  // ---------- the loop ----------

  /** How far validities can still fall. */
  ghost function Slack(rs: seq<Record>): nat {
    if rs == [] then 0 else 2 - Rank(rs[0].validity) + Slack(rs[1..])
  }

  lemma {:induction false} SlackFalls(rs: seq<Record>, i: int, x: Validity)
    requires 0 <= i < |rs| && Rank(rs[i].validity) < Rank(x)
    ensures Slack(rs[i := rs[i].(validity := x)]) < Slack(rs)
  {
    var next := rs[i := rs[i].(validity := x)];
    if i == 0 {
      assert next[1..] == rs[1..];
    } else {
      SlackFalls(rs[1..], i - 1, x);
      assert next[1..] == rs[1..][i - 1 := rs[i].(validity := x)];
    }
  }

  /** cur is orig with some validities lowered to ones found upstream. */
  ghost predicate Tracks(orig: seq<Record>, cur: seq<Record>) {
    && |orig| == |cur|
    && forall i :: 0 <= i < |orig| ==>
      && cur[i] == orig[i].(validity := cur[i].validity)
      && Rank(orig[i].validity) <= Rank(cur[i].validity)
      && Meets(orig, orig[i], cur[i].validity)
  }

  lemma MeetsThrough(rs: seq<Record>, r: Record, q: Record, x: Validity)
    requires q in rs && q.id in r.dependencies && Meets(rs, q, x)
    ensures Meets(rs, r, x)
  {
    var e := Depends(rs);
    if q.validity == x {
      ReachesSelf(e, q.id);
      assert Upstream(rs, r, q);
    } else {
      var t :| Upstream(rs, q, t) && t.validity == x;
      var d :| d in q.dependencies && Reaches(e, d, t.id);
      EdgeHolder(rs, q.id, d);
      ReachesAfterEdge(e, q.id, d, t.id);
      assert Upstream(rs, r, t);
    }
  }

  /** Record i is judged no better than any record named in deps. */
  ghost predicate Covers(cur: seq<Record>, i: int, deps: seq<Key>)
    requires 0 <= i < |cur|
  {
    forall j :: 0 <= j < |cur| && cur[j].id in deps ==> Rank(cur[j].validity) <= Rank(cur[i].validity)
  }

  ghost predicate Settles(cur: seq<Record>, i: int)
    requires 0 <= i < |cur|
  {
    Covers(cur, i, cur[i].dependencies)
  }

  function Lowered(cur: seq<Record>, i: nat, x: Validity): seq<Record>
    requires i < |cur|
  {
    cur[i := cur[i].(validity := x)]
  }

  lemma LowerStep(orig: seq<Record>, cur: seq<Record>, i: nat, j: nat)
    requires Tracks(orig, cur) && i < |cur| && j < |cur|
    requires cur[j].id in cur[i].dependencies && Rank(cur[i].validity) < Rank(cur[j].validity)
    ensures Tracks(orig, Lowered(cur, i, cur[j].validity))
    ensures Slack(Lowered(cur, i, cur[j].validity)) < Slack(cur)
  {
    var next := Lowered(cur, i, cur[j].validity);
    SlackFalls(cur, i, cur[j].validity);
    assert orig[j] in orig && orig[j].id in orig[i].dependencies;
    MeetsThrough(orig, orig[i], orig[j], cur[j].validity);
    forall k | 0 <= k < |orig|
      ensures next[k] == orig[k].(validity := next[k].validity)
        && Rank(orig[k].validity) <= Rank(next[k].validity) && Meets(orig, orig[k], next[k].validity)
    {
      assert k != i ==> next[k] == cur[k];
    }
  }

  /** memory.go:236-241: one dependency of record i against every record of the list. */
  method RaiseAgainst(a: array<Record>, i: nat, dep: Key, ghost orig: seq<Record>) returns (changed: bool)
    requires i < a.Length && Tracks(orig, a[..]) && dep in a[i].dependencies
    modifies a
    ensures Tracks(orig, a[..])
    ensures changed ==> Slack(a[..]) < old(Slack(a[..]))
    ensures !changed ==> a[..] == old(a[..]) && Covers(a[..], i, [dep])
  {
    changed := false;
    var j := 0;
    while j < a.Length
      invariant 0 <= j <= a.Length && Tracks(orig, a[..]) && dep in a[i].dependencies
      invariant changed ==> Slack(a[..]) < old(Slack(a[..]))
      invariant !changed ==> a[..] == old(a[..])
      invariant !changed ==> forall n :: 0 <= n < j && a[n].id == dep ==> Rank(a[n].validity) <= Rank(a[i].validity)
    {
      if a[j].id == dep && Rank(a[j].validity) > Rank(a[i].validity) {
        LowerStep(orig, a[..], i, j);
        ghost var next := Lowered(a[..], i, a[j].validity);
        a[i] := a[i].(validity := a[j].validity);
        assert a[..] == next;
        changed := true;
      }
      j := j + 1;
    }
  }

  method RaiseFrom(a: array<Record>, i: nat, ghost orig: seq<Record>) returns (changed: bool)
    requires i < a.Length && Tracks(orig, a[..])
    modifies a
    ensures Tracks(orig, a[..])
    ensures changed ==> Slack(a[..]) < old(Slack(a[..]))
    ensures !changed ==> a[..] == old(a[..]) && Settles(a[..], i)
  {
    changed := false;
    var deps := a[i].dependencies;
    ghost var start := a[..];
    var k := 0;
    while k < |deps|
      invariant 0 <= k <= |deps| && Tracks(orig, a[..])
      invariant orig[i].dependencies == deps
      invariant changed ==> Slack(a[..]) < Slack(start)
      invariant !changed ==> a[..] == start && Covers(start, i, deps[..k])
    {
      var more := RaiseAgainst(a, i, deps[k], orig);
      changed := changed || more;
      assert deps[..k + 1] == deps[..k] + [deps[k]];
      k := k + 1;
    }
    assert deps[..k] == deps;
  }

  /** memory.go:228-245: the fixpoint loop leaves each record with the worst validity upstream of it. */
  method ProjectValidity(a: array<Record>)
    modifies a
    ensures a[..] == Projected(old(a[..]))
  {
    ghost var orig := a[..];
    var changed := true;
    while changed
      invariant Tracks(orig, a[..])
      invariant !changed ==> forall i :: 0 <= i < a.Length ==> Settles(a[..], i)
      decreases Slack(a[..]), changed
    {
      changed := false;
      ghost var start := a[..];
      var i := 0;
      while i < a.Length
        invariant 0 <= i <= a.Length && Tracks(orig, a[..])
        invariant changed ==> Slack(a[..]) < Slack(start)
        invariant !changed ==> a[..] == start && forall n :: 0 <= n < i ==> Settles(a[..], n)
      {
        var more := RaiseFrom(a, i, orig);
        changed := changed || more;
        i := i + 1;
      }
    }
    forall i | 0 <= i < a.Length ensures a[i].validity == Settled(orig, orig[i]) {
      FixpointSettles(orig, a[..], i);
    }
    assert a[..] == Projected(orig);
  }

  /** The projection of a detached copy. */
  method ProjectCopy(rs: seq<Record>) returns (out: seq<Record>)
    ensures out == Projected(rs)
  {
    var a := new Record[|rs|](i requires 0 <= i < |rs| => rs[i]);
    assert a[..] == rs;
    ProjectValidity(a);
    out := a[..];
  }

  lemma FixpointSettles(orig: seq<Record>, cur: seq<Record>, i: int)
    requires Tracks(orig, cur) && 0 <= i < |cur|
    requires forall k :: 0 <= k < |cur| ==> Settles(cur, k)
    ensures cur[i].validity == Settled(orig, orig[i])
  {
    forall q | Upstream(orig, orig[i], q) ensures Rank(q.validity) <= Rank(cur[i].validity) {
      UpstreamBounded(orig, cur, i, q);
    }
    MeetsBounded(orig, orig[i], cur[i].validity);
  }

  lemma MeetsBounded(rs: seq<Record>, r: Record, x: Validity)
    requires Meets(rs, r, x)
    requires Rank(r.validity) <= Rank(x)
    requires forall q :: Upstream(rs, r, q) ==> Rank(q.validity) <= Rank(x)
    ensures x == Settled(rs, r)
  {
  }

  ghost predicate Capped(rs: seq<Record>, top: nat, x: Key) {
    forall j :: 0 <= j < |rs| && rs[j].id == x ==> Rank(rs[j].validity) <= top
  }

  lemma UpstreamBounded(orig: seq<Record>, cur: seq<Record>, i: int, q: Record)
    requires Tracks(orig, cur) && 0 <= i < |cur|
    requires forall k :: 0 <= k < |cur| ==> Settles(cur, k)
    requires Upstream(orig, orig[i], q)
    ensures Rank(q.validity) <= Rank(cur[i].validity)
  {
    var e := Depends(orig);
    var top := Rank(cur[i].validity);
    var low := iset x: Key | Capped(cur, top, x);
    var d :| d in orig[i].dependencies && Reaches(e, d, q.id);
    assert Settles(cur, i);
    forall x, y | (x, y) in e && x in low ensures y in low {
      var k, b :| 0 <= k < |orig| && b in orig[k].dependencies && (orig[k].id, b) == (x, y);
      assert Settles(cur, k) && cur[k].id == x;
    }
    DependenciesStay(e, low, d, q.id);
    var j :| 0 <= j < |orig| && orig[j] == q;
    assert cur[j].id == q.id;
  }

  // ---------- what the projection means ----------

  lemma SettledRank(rs: seq<Record>, r: Record)
    ensures Rank(r.validity) <= Rank(Settled(rs, r))
    ensures forall q :: Upstream(rs, r, q) ==> Rank(q.validity) <= Rank(Settled(rs, r))
  {
  }

  /** After projecting, nothing is judged better than what it depends on. */
  lemma ProjectedConsistent(rs: seq<Record>)
    ensures Consistent(Projected(rs)) && SameBodies(Projected(rs), rs)
  {
    var out := Projected(rs);
    forall i, j | 0 <= i < |rs| && 0 <= j < |rs| && rs[j].id in rs[i].dependencies
      ensures Rank(out[j].validity) <= Rank(out[i].validity)
    {
      SettledBound(rs, rs[i], rs[j]);
    }
    forall r, q | r in out && q in out && q.id in r.dependencies ensures Rank(q.validity) <= Rank(r.validity) {
      var i :| 0 <= i < |out| && out[i] == r;
      var j :| 0 <= j < |out| && out[j] == q;
      assert rs[j].id in rs[i].dependencies;
    }
  }

  lemma SettledBound(rs: seq<Record>, r: Record, q: Record)
    requires q in rs && q.id in r.dependencies
    ensures Rank(Settled(rs, q)) <= Rank(Settled(rs, r))
  {
    var x := Settled(rs, q);
    if Meets(rs, q, x) {
      MeetsThrough(rs, r, q, x);
      SettledRank(rs, r);
    }
  }

  /** Transitively: in a consistent list nothing upstream is judged worse. */
  lemma ConsistentUpstream(rs: seq<Record>, r: Record, q: Record)
    requires Consistent(rs) && r in rs && Upstream(rs, r, q)
    ensures Rank(q.validity) <= Rank(r.validity)
  {
    var e := Depends(rs);
    var top := Rank(r.validity);
    var low := iset x: Key | Capped(rs, top, x);
    var d :| d in r.dependencies && Reaches(e, d, q.id);
    forall k | 0 <= k < |rs| && rs[k].id == d ensures Rank(rs[k].validity) <= top {
      assert rs[k] in rs;
    }
    forall x, y | (x, y) in e && x in low ensures y in low {
      EdgeHolder(rs, x, y);
      var t :| t in rs && t.id == x && y in t.dependencies;
      var n :| 0 <= n < |rs| && rs[n] == t;
      forall k | 0 <= k < |rs| && rs[k].id == y ensures Rank(rs[k].validity) <= top {
        assert rs[k] in rs && Rank(rs[k].validity) <= Rank(t.validity);
      }
    }
    DependenciesStay(e, low, d, q.id);
  }

  /** A consistent list is a fixpoint: projecting it changes nothing. */
  lemma ConsistentFixed(rs: seq<Record>)
    requires Consistent(rs)
    ensures Projected(rs) == rs
  {
    forall i | 0 <= i < |rs| ensures Settled(rs, rs[i]) == rs[i].validity {
      forall q | Upstream(rs, rs[i], q) ensures Rank(q.validity) <= Rank(rs[i].validity) {
        ConsistentUpstream(rs, rs[i], q);
      }
      MeetsBounded(rs, rs[i], rs[i].validity);
    }
  }
}

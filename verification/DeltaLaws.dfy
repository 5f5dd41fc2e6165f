/** What ApplyDelta keeps, and the exact bound within which its result is a valid view. */
module DeltaLaws {
  import opened Keys
  import opened Graphs
  import opened Outcomes
  import opened Memory
  import opened Projection
  import opened Invalidation
  import opened Deltas

  lemma {:induction false} IdCount(rs: seq<Record>)
    requires DistinctKeys(rs, RecordId)
    ensures |Ids(rs)| == |rs|
  {
    if rs == [] {
      assert Ids(rs) == {};
    } else {
      var n := |rs| - 1;
      IdCount(rs[..n]);
      LastIdNew(rs);
    }
  }

  lemma LastIdNew(rs: seq<Record>)
    requires DistinctKeys(rs, RecordId) && rs != []
    ensures rs[|rs| - 1].id !in Ids(rs[..|rs| - 1])
    ensures Ids(rs) == Ids(rs[..|rs| - 1]) + {rs[|rs| - 1].id}
  {
    var n := |rs| - 1;
    assert rs == rs[..n] + [rs[n]];
    forall r | r in rs[..n] ensures r.id != rs[n].id {
      var k :| 0 <= k < n && rs[k] == r;
      assert RecordId(rs[k]) != RecordId(rs[n]);
    }
  }

  lemma AdmitIds(rs: seq<Record>, known: set<Key>, h: string)
    ensures Ids(AdmitAll(rs, known, h)) == Ids(rs)
    ensures DistinctKeys(AdmitAll(rs, known, h), RecordId) <==> DistinctKeys(rs, RecordId)
  {
    var out := AdmitAll(rs, known, h);
    assert forall i :: 0 <= i < |rs| ==> RecordId(out[i]) == RecordId(rs[i]) && out[i] in out && rs[i] in rs;
    forall k | k in Ids(out) ensures k in Ids(rs) {
      var i :| 0 <= i < |out| && out[i].id == k;
      assert rs[i].id == k;
    }
    forall k | k in Ids(rs) ensures k in Ids(out) {
      var i :| 0 <= i < |rs| && rs[i].id == k;
      assert out[i].id == k;
    }
  }

  lemma JoinIds(a: seq<Record>, b: seq<Record>)
    ensures Ids(a + b) == Ids(a) + Ids(b)
  {
  }

  lemma JoinEdges(a: seq<Record>, b: seq<Record>)
    ensures Depends(a + b) == Depends(a) + Depends(b)
  {
    forall x, y ensures (x, y) in Depends(a + b) <==> (x, y) in Depends(a) || (x, y) in Depends(b) {
      EdgeHolder(a, x, y);
      EdgeHolder(b, x, y);
      EdgeHolder(a + b, x, y);
    }
  }

  lemma AdmittedEdges(rs: seq<Record>, known: set<Key>, h: string)
    ensures forall x, y :: (x, y) in Depends(AdmitAll(rs, known, h)) <==> x in Ids(rs) && y in known
  {
    var out := AdmitAll(rs, known, h);
    AdmitIds(rs, known, h);
    forall x, y ensures (x, y) in Depends(out) <==> x in Ids(rs) && y in known {
      EdgeHolder(out, x, y);
      if x in Ids(rs) && y in known {
        var r :| r in out && r.id == x;
        var i :| 0 <= i < |out| && out[i] == r;
        assert y in r.dependencies;
      }
      if (x, y) in Depends(out) {
        var r :| r in out && r.id == x && y in r.dependencies;
        var i :| 0 <= i < |out| && out[i] == r;
      }
    }
  }

  /** The relation stays closed and acyclic whatever its size. */
  lemma JoinGraph(old_: seq<Record>, rs: seq<Record>, h: string)
    requires WellFormed(old_) && NewIds(rs, Ids(old_))
    ensures var all := old_ + AdmitAll(rs, Ids(old_), h);
      && Ids(all) == Ids(old_) + Ids(rs)
      && Closed(Depends(all), Ids(all))
      && Acyclic(Depends(all))
  {
    var added := AdmitAll(rs, Ids(old_), h);
    JoinIds(old_, added);
    JoinEdges(old_, added);
    AdmitIds(rs, Ids(old_), h);
    AdmittedEdges(rs, Ids(old_), h);
    forall k | k in Ids(rs) ensures k !in Ids(old_) {
      var r :| r in rs && r.id == k;
    }
    AddedAcyclic(Depends(old_), Depends(old_ + added), Ids(rs));
  }

  lemma JoinDistinct(old_: seq<Record>, rs: seq<Record>, h: string)
    requires DistinctKeys(old_, RecordId) && NewIds(rs, Ids(old_))
    ensures DistinctKeys(old_ + AdmitAll(rs, Ids(old_), h), RecordId)
  {
    var added := AdmitAll(rs, Ids(old_), h);
    var all := old_ + added;
    forall i, j | 0 <= i < j < |all| ensures RecordId(all[i]) != RecordId(all[j]) {
      if j < |old_| {
        assert all[i] == old_[i] && all[j] == old_[j];
      } else {
        var b := j - |old_|;
        assert all[j] == added[b] && rs[b] in rs && RecordId(all[j]) == RecordId(rs[b]);
        if i < |old_| {
          assert old_[i] in old_;
        } else {
          var a := i - |old_|;
          assert all[i] == added[a] && RecordId(all[i]) == RecordId(rs[a]);
        }
      }
    }
  }

  lemma AdmitValid(r: Record, known: set<Key>, h: string)
    requires ValidRecord(r, true)
    ensures ValidRecord(Admit(r, known, h), false) <==> |known| <= MAX_DEPENDENCIES
  {
  }

  lemma JoinValid(old_: seq<Record>, rs: seq<Record>, h: string)
    requires WellFormed(old_) && NewIds(rs, Ids(old_))
    requires forall r :: r in rs ==> Declared(r, Ids(old_))
    ensures AllValid(old_ + AdmitAll(rs, Ids(old_), h)) <==> rs == [] || |old_| <= MAX_DEPENDENCIES
  {
    var known := Ids(old_);
    var added := AdmitAll(rs, known, h);
    var all := old_ + added;
    IdCount(old_);
    forall i | 0 <= i < |rs| ensures added[i] in all && (ValidRecord(added[i], false) <==> |old_| <= MAX_DEPENDENCIES) {
      assert rs[i] in rs;
      AdmitValid(rs[i], known, h);
      assert all[|old_| + i] == added[i];
    }
    forall r | r in all ensures r in old_ || exists i :: 0 <= i < |rs| && added[i] == r {
    }
    if rs != [] && AllValid(all) {
      assert added[0] in all;
    }
  }

  lemma JoinWellFormed(old_: seq<Record>, rs: seq<Record>, h: string)
    requires WellFormed(old_) && NewIds(rs, Ids(old_))
    requires forall r :: r in rs ==> Declared(r, Ids(old_))
    ensures WellFormed(old_ + AdmitAll(rs, Ids(old_), h)) <==> rs == [] || |old_| <= MAX_DEPENDENCIES
  {
    JoinGraph(old_, rs, h);
    JoinDistinct(old_, rs, h);
    JoinValid(old_, rs, h);
  }

  ghost function AddedRecords(v: View, d: Delta): seq<Record> {
    AdmitAll(d.records, Ids(v.records), d.contextHash)
  }

  /** memory.go:122, 194-197: a new record lists every identity of the view, so the joined view is
      valid exactly while that list fits the dependency bound. */
  lemma JoinedValid(v: View, d: Delta)
    requires Admissible(d, v)
    ensures ValidView(Joined(v, AddedRecords(v, d))) <==> d.records == [] || |v.records| <= MAX_DEPENDENCIES
    ensures Ids(Joined(v, AddedRecords(v, d)).records) == Ids(v.records) + Ids(d.records)
    ensures Arrange(Joined(v, AddedRecords(v, d)).records) == Joined(v, AddedRecords(v, d)).records
  {
    var all := v.records + AddedRecords(v, d);
    JoinWellFormed(v.records, d.records, d.contextHash);
    JoinGraph(v.records, d.records, d.contextHash);
    ArrangeReflects(all);
    ArrangeShape(all);
    ArrangeTwice(all);
  }

  /** ApplyDelta goes through exactly when the delta is admissible and, if anything is superseded,
      the joined view is within the dependency bound. */
  lemma ApplySucceeds(v: View, d: Delta, size: DeltaSize)
    ensures Applied(v, d, size).Accepted?
      <==> (size(d) <= MAX_DELTA && Admissible(d, v) && (Supersedes(d.records) == {} || |v.records| <= MAX_DEPENDENCIES))
  {
    AppliedWhen(v, d, size);
    if Admissible(d, v) {
      StruckWhen(v, d);
    }
  }

  lemma AppliedWhen(v: View, d: Delta, size: DeltaSize)
    ensures Applied(v, d, size).Accepted?
      <==> (size(d) <= MAX_DELTA && Admissible(d, v) && Struck(Joined(v, AddedRecords(v, d)), Supersedes(AddedRecords(v, d))).Accepted?)
  {
  }

  lemma StruckWhen(v: View, d: Delta)
    requires Admissible(d, v)
    ensures Struck(Joined(v, AddedRecords(v, d)), Supersedes(AddedRecords(v, d))).Accepted?
      <==> (Supersedes(d.records) == {} || |v.records| <= MAX_DEPENDENCIES)
  {
    JoinedValid(v, d);
    SupersedesAdmitted(d.records, Ids(v.records), d.contextHash);
    SupersedesKnown(v, d);
    assert Supersedes(d.records) <= Ids(Joined(v, AddedRecords(v, d)).records);
  }

  lemma SupersedesKnown(v: View, d: Delta)
    requires Admissible(d, v)
    ensures Supersedes(d.records) <= Ids(v.records)
    ensures d.records == [] ==> Supersedes(d.records) == {}
  {
    forall x | x in Supersedes(d.records) ensures x in Ids(v.records) {
      var r :| r in d.records && x in r.supersedes;
      assert Declared(r, Ids(v.records));
    }
  }

  lemma SupersedesAdmitted(rs: seq<Record>, known: set<Key>, h: string)
    ensures Supersedes(AdmitAll(rs, known, h)) == Supersedes(rs)
  {
    var out := AdmitAll(rs, known, h);
    forall x | x in Supersedes(out) ensures x in Supersedes(rs) {
      var r :| r in out && x in r.supersedes;
      var i :| 0 <= i < |out| && out[i] == r;
      assert rs[i] in rs && x in rs[i].supersedes;
    }
    forall x | x in Supersedes(rs) ensures x in Supersedes(out) {
      var r :| r in rs && x in r.supersedes;
      var i :| 0 <= i < |rs| && rs[i] == r;
      assert out[i] in out && x in out[i].supersedes;
    }
  }

  /** The records of an applied delta: joined, struck below everything superseded, then projected. */
  lemma AppliedRecords(v: View, d: Delta, size: DeltaSize)
    requires Applied(v, d, size).Accepted?
    ensures var w := Applied(v, d, size).value;
      var base := Arrange(v.records + AddedRecords(v, d));
      var gone := Downstream(base, Supersedes(d.records));
      && w == Seal(Projected(StrikeAll(base, gone)), StrikeConflicts(v.conflicts, gone))
  {
    var base := Joined(v, AddedRecords(v, d));
    JoinedValid(v, d);
    SupersedesAdmitted(d.records, Ids(v.records), d.contextHash);
    if Supersedes(d.records) == {} {
      StruckByNothing(base);
    } else {
      assert Struck(base, Supersedes(d.records)) == Accepted(StrikeView(base, Downstream(base.records, Supersedes(d.records))));
    }
  }

  lemma StruckByNothing(base: View)
    requires Arrange(base.records) == base.records
    ensures Downstream(base.records, {}) == {}
    ensures StrikeAll(base.records, {}) == base.records
    ensures StrikeConflicts(base.conflicts, {}) == base.conflicts
  {
    StrikeNothing(base.conflicts);
  }

  lemma StrikeNothing(cs: seq<Conflict>)
    ensures StrikeConflicts(cs, {}) == cs
  {
    forall i | 0 <= i < |cs| ensures StrikeConflicts(cs, {})[i] == cs[i] {
      assert StrikeAll(cs[i].candidates, {}) == cs[i].candidates;
    }
  }

  /** An applied delta is never judged better than what it rests on, and it is a valid view exactly
      within the record bound. */
  lemma ApplySound(v: View, d: Delta, size: DeltaSize)
    requires Applied(v, d, size).Accepted?
    ensures Consistent(Applied(v, d, size).value.records)
    ensures Ids(Applied(v, d, size).value.records) == Ids(v.records) + Ids(d.records)
    ensures ValidView(Applied(v, d, size).value) <==> d.records == [] || |v.records| <= MAX_DEPENDENCIES
  {
    var base := Arrange(v.records + AddedRecords(v, d));
    var gone := Downstream(base, Supersedes(d.records));
    AppliedRecords(v, d, size);
    JoinedValid(v, d);
    StrikeFacts(base, gone);
    StrikeOrigins(v.conflicts, gone);
    ProjectedConsistent(StrikeAll(base, gone));
    SameBodiesFacts(Projected(StrikeAll(base, gone)), StrikeAll(base, gone));
  }

  /** The superseding record reads what it supersedes, so it goes down with it: a delta that
      supersedes anything leaves every record it added INVALID. */
  lemma SupersederFalls(v: View, d: Delta, out: Record, size: DeltaSize)
    requires Applied(v, d, size).Accepted? && Supersedes(d.records) != {}
    requires out in Applied(v, d, size).value.records && out.id in Ids(d.records)
    ensures out.validity == INVALID
  {
    AppliedRecords(v, d, size);
    var base := Arrange(v.records + AddedRecords(v, d));
    SupersederDownstream(v, d, out.id);
    StruckFalls(base, Downstream(base, Supersedes(d.records)), out);
  }

  lemma SupersederDownstream(v: View, d: Delta, id: Key)
    requires Admissible(d, v) && Supersedes(d.records) != {} && id in Ids(d.records)
    ensures id in Downstream(Arrange(v.records + AddedRecords(v, d)), Supersedes(d.records))
  {
    var all := v.records + AddedRecords(v, d);
    ArrangeShape(all);
    JoinGraph(v.records, d.records, d.contextHash);
    JoinEdges(v.records, AddedRecords(v, d));
    AdmittedEdges(d.records, Ids(v.records), d.contextHash);
    SupersedesKnown(v, d);
    var x :| x in Supersedes(d.records);
    ReachesEdge(Depends(Arrange(all)), id, x);
  }

  /** Where nothing is superseded, applying is joining and projecting. */
  lemma PlainApplied(v: View, d: Delta, size: DeltaSize)
    requires Applied(v, d, size).Accepted? && Supersedes(d.records) == {}
    ensures Applied(v, d, size).value == Seal(Projected(Arrange(v.records + AddedRecords(v, d))), v.conflicts)
  {
    AppliedRecords(v, d, size);
    JoinedValid(v, d);
    StruckByNothing(Joined(v, AddedRecords(v, d)));
  }

  /** Over a view without doubt a delta that supersedes nothing leaves everything VALID. */
  lemma NothingFalls(v: View, d: Delta)
    requires forall r :: r in v.records ==> r.validity == VALID
    ensures var all := Arrange(v.records + AddedRecords(v, d));
      Projected(all) == all && forall r :: r in all ==> r.validity == VALID
  {
    var given := v.records + AddedRecords(v, d);
    var all := Arrange(given);
    forall r | r in all ensures r.validity == VALID {
      var i :| 0 <= i < |all| && all[i] == r;
      var q := ArrangeOrigin(given, i);
    }
    ConsistentFixed(all);
  }

  /** An added record reads the whole view, so a doubtful record of the view drags it down. */
  lemma DoubtInherited(v: View, d: Delta, out: Record, r: Record)
    requires Admissible(d, v) && r in v.records && out.id in Ids(d.records)
    requires out in Projected(Arrange(v.records + AddedRecords(v, d)))
    ensures Rank(r.validity) <= Rank(out.validity)
  {
    var given := v.records + AddedRecords(v, d);
    var all := Arrange(given);
    var k :| 0 <= k < |all| && Projected(all)[k] == out;
    var added := ArrangeOrigin(given, k);
    AddedIs(v, d, added);
    var j := ArrangeIndex(given, r);
    assert r.id in Ids(v.records);
    ReachesSelf(Depends(all), r.id);
    assert Upstream(all, all[k], all[j]);
    SettledRank(all, all[k]);
  }

  lemma AddedIs(v: View, d: Delta, r: Record)
    requires Admissible(d, v) && r in v.records + AddedRecords(v, d) && r.id in Ids(d.records)
    ensures forall x :: x in r.dependencies <==> x in Ids(v.records)
  {
    var q :| q in d.records && q.id == r.id;
    assert r !in v.records;
    var i :| 0 <= i < |d.records| && AddedRecords(v, d)[i] == r;
  }

  /** A record the delta added ends VALID exactly when the delta supersedes nothing and everything in
      the view it read is VALID. */
  lemma AddedValid(v: View, d: Delta, out: Record, size: DeltaSize)
    requires Applied(v, d, size).Accepted?
    requires out in Applied(v, d, size).value.records && out.id in Ids(d.records)
    ensures out.validity == VALID <==> Supersedes(d.records) == {} && forall r :: r in v.records ==> r.validity == VALID
  {
    if Supersedes(d.records) != {} {
      SupersederFalls(v, d, out, size);
    } else {
      PlainApplied(v, d, size);
      ApplySucceeds(v, d, size);
      if r :| r in v.records && r.validity != VALID {
        DoubtInherited(v, d, out, r);
      } else {
        ReaderStands(v, d, out);
      }
    }
  }

  lemma ReaderStands(v: View, d: Delta, out: Record)
    requires out in Projected(Arrange(v.records + AddedRecords(v, d)))
    requires forall r :: r in v.records ==> r.validity == VALID
    ensures out.validity == VALID
  {
    NothingFalls(v, d);
  }

  /** In a view of one record, a record that replaces it is applied, and both end INVALID. */
  lemma ReplacementFalls(v: View, r: Record, h: string, size: DeltaSize)
    requires ValidView(v) && |v.records| == 1 && Replaces(r, v.records[0])
    requires JobHash(h) && size(Delta(v.sha, h, [r])) <= MAX_DELTA
    ensures AllFallen(v, Delta(v.sha, h, [r]), size)
  {
    ReplacementAdmissible(v, r, h);
    EverythingFalls(v, Delta(v.sha, h, [r]), size);
  }

  /** The delta is applied and every record, old or added, ends INVALID. */
  ghost predicate AllFallen(v: View, d: Delta, size: DeltaSize) {
    && Applied(v, d, size).Accepted? && Ids(Applied(v, d, size).value.records) == Ids(v.records) + Ids(d.records)
    && forall out :: out in Applied(v, d, size).value.records ==> out.validity == INVALID
  }

  ghost predicate Replaces(r: Record, old_: Record) {
    ValidRecord(r, true) && r.id != old_.id && r.supersedes == [old_.id] && r.dependencies == []
  }

  lemma ReplacementAdmissible(v: View, r: Record, h: string)
    requires ValidView(v) && |v.records| == 1 && Replaces(r, v.records[0]) && JobHash(h)
    ensures Admissible(Delta(v.sha, h, [r]), v)
    ensures Supersedes([r]) == Ids(v.records) == {v.records[0].id} && Ids([r]) == {r.id}
  {
    OneRecord(r);
    OneRecord(v.records[0]);
    assert v.records == [v.records[0]];
    assert r.supersedes[0] in r.supersedes;
    assert Declared(r, Ids(v.records));
  }

  lemma OneRecord(r: Record)
    ensures Ids([r]) == {r.id} && DistinctKeys([r], RecordId)
    ensures Supersedes([r]) == set x | x in r.supersedes
    ensures forall q :: q in [r] <==> q == r
  {
    assert [r][0] == r;
  }

  /** A delta that supersedes a whole view within the bound leaves nothing standing, itself included. */
  lemma EverythingFalls(v: View, d: Delta, size: DeltaSize)
    requires size(d) <= MAX_DELTA && Admissible(d, v) && |v.records| <= MAX_DEPENDENCIES
    requires Supersedes(d.records) == Ids(v.records) != {}
    ensures AllFallen(v, d, size)
  {
    ApplySucceeds(v, d, size);
    ApplySound(v, d, size);
    forall out | out in Applied(v, d, size).value.records ensures out.validity == INVALID {
      assert out.id in Ids(Applied(v, d, size).value.records);
      if out.id in Ids(d.records) {
        SupersederFalls(v, d, out, size);
      } else {
        SupersededFalls(v, d, out, size);
      }
    }
  }

  /** There are such views and records: two observations that depend on nothing. */
  lemma LoneReplaced(a: Key, b: Key, v: View)
    requires KeyPattern(a) && KeyPattern(b) && a != b && v == NewView([Lone(a)])
    ensures ValidView(v) && |v.records| == 1 && Replaces(Lone(b).(supersedes := [a]), v.records[0])
  {
    LoneValid(a, false);
    LoneValid(b, true);
    assert [Lone(a)][0] == Lone(a);
    LonersWellFormed([Lone(a)]);
    ArrangeWellFormed([Lone(a)]);
    var n := ArrangeOrigin([Lone(a)], 0);
  }

  /** What is superseded is struck. */
  lemma SupersededFalls(v: View, d: Delta, out: Record, size: DeltaSize)
    requires Applied(v, d, size).Accepted?
    requires out in Applied(v, d, size).value.records && out.id in Supersedes(d.records)
    ensures out.validity == INVALID
  {
    AppliedRecords(v, d, size);
    var base := Arrange(v.records + AddedRecords(v, d));
    SupersedesKnown(v, d);
    JoinedValid(v, d);
    RootStruck(base, Supersedes(d.records), out.id);
    StruckFalls(base, Downstream(base, Supersedes(d.records)), out);
  }

  lemma RootStruck(rs: seq<Record>, roots: set<Key>, id: Key)
    requires id in Ids(rs) && id in roots
    ensures id in Downstream(rs, roots)
  {
    ReachesSelf(Depends(rs), id);
  }

  lemma StruckFalls(base: seq<Record>, gone: set<Key>, out: Record)
    requires out in Projected(StrikeAll(base, gone)) && out.id in gone
    ensures out.validity == INVALID
  {
    var struck := StrikeAll(base, gone);
    var i :| 0 <= i < |struck| && Projected(struck)[i] == out;
    SettledRank(struck, struck[i]);
  }

  // ---------- beyond the bound ----------

  function Sign(n: nat): char
    requires n < 36
  {
    if n < 10 then '0' + n as char else 'a' + (n - 10) as char
  }

  /** An observation that depends on nothing. */
  function Lone(id: Key): Record {
    Record([], id, Observation, Payload("{}", true), [], [], [], Unchecked, VALID, "")
  }

  function Crowd(n: nat): (rs: seq<Record>)
    requires n <= 1296
    ensures |rs| == n
    ensures forall i :: 0 <= i < n ==> rs[i] == Lone(['a', Sign(i / 36), Sign(i % 36)])
  {
    seq(n, i requires 0 <= i < n => Lone(['a', Sign(i / 36), Sign(i % 36)]))
  }

  lemma LonersWellFormed(rs: seq<Record>)
    requires DistinctKeys(rs, RecordId) && forall r :: r in rs ==> ValidRecord(r, false) && r.dependencies == []
    ensures WellFormed(rs)
  {
    var e := Depends(rs);
    assert forall i :: 0 <= i < |rs| ==> rs[i] in rs;
    assert e == {};
    forall p: seq<Key> | |p| >= 2 ensures !Path(e, p) {
      assert (p[0], p[0 + 1]) !in e;
    }
  }

  lemma LoneValid(id: Key, candidate: bool)
    requires KeyPattern(id)
    ensures ValidRecord(Lone(id), candidate)
  {
  }

  lemma CrowdWellFormed(n: nat)
    requires n <= 1296
    ensures WellFormed(Crowd(n)) && "b" !in Ids(Crowd(n))
  {
    var rs := Crowd(n);
    forall i, j | 0 <= i < j < |rs| ensures RecordId(rs[i]) != RecordId(rs[j]) {
      assert RecordId(rs[i])[1] == Sign(i / 36) && RecordId(rs[j])[1] == Sign(j / 36);
      assert RecordId(rs[i])[2] == Sign(i % 36) && RecordId(rs[j])[2] == Sign(j % 36);
    }
    forall r | r in rs ensures |r.id| == 3 && ValidRecord(r, false) && r.dependencies == [] {
      LoneValid(r.id, false);
    }
    LonersWellFormed(rs);
  }

  lemma OneMoreApplied(v: View, d: Delta, size: DeltaSize)
    requires ValidView(v) && |v.records| > MAX_DEPENDENCIES && "b" !in Ids(v.records)
    requires d == Delta(v.sha, d.contextHash, [Lone("b")]) && JobHash(d.contextHash) && size(d) <= MAX_DELTA
    ensures Applied(v, d, size).Accepted? && !ValidView(Applied(v, d, size).value)
  {
    assert d.records[0] == Lone("b");
    LoneValid("b", true);
    assert Declared(Lone("b"), Ids(v.records));
    assert Supersedes(d.records) == {};
    assert Admissible(d, v);
    ApplySucceeds(v, d, size);
    ApplySound(v, d, size);
  }

  /** The bound is real: a delta of one record on a valid view of 1025 is applied, and leaves a view
      that fails its own validation. */
  lemma BeyondTheBound(size: DeltaSize, d: Delta)
    requires d == Delta(NewView(Crowd(1025)).sha, seq(64, _ => '0'), [Lone("b")]) && size(d) <= MAX_DELTA
    ensures var v := NewView(Crowd(1025));
      ValidView(v) && Applied(v, d, size).Accepted? && !ValidView(Applied(v, d, size).value)
  {
    CrowdWellFormed(1025);
    ArrangeWellFormed(Crowd(1025));
    ArrangeShape(Crowd(1025));
    var v := NewView(Crowd(1025));
    OneMoreApplied(v, d, size);
  }
}

/** internal/graph/memory.go:247-299: merging views by the set of variants they hold. */
module Merging {
  import opened Keys
  import opened Outcomes
  import opened Memory
  import opened Projection
  import opened Invalidation

  /** The canonical JSON of a record; all that is used of it is that it identifies the record. */
  type Canon = Record -> Key

  ghost predicate Injective(canon: Canon) {
    forall a: Record, b: Record :: canon(a) == canon(b) ==> a == b
  }

  /** For each identity, its variants in canonical order. */
  type Variety = Key -> seq<Record>

  function ConflictId(c: Conflict): Key { c.recordId }

  // ---------- assembling a view from the variants of each identity ----------

  /** memory.go:277-287: the first variant stands for the rest, marked doubtful when there are any. */
  function Chosen(ordered: seq<Record>): Record
    requires ordered != []
  {
    if |ordered| > 1 then ordered[0].(validity := NEEDS_REVALIDATION, validation := Unchecked) else ordered[0]
  }

  ghost predicate Sorted(ids: set<Key>, pick: Variety) {
    forall id :: id in ids ==> pick(id) != [] && forall r :: r in pick(id) ==> r.id == id
  }

  function Contested(ids: set<Key>, pick: Variety): set<Key> {
    set id | id in ids && |pick(id)| > 1
  }

  function ConflictOf(id: Key, pick: Variety): Conflict {
    Conflict(id, pick(id))
  }

  ghost function Representatives(ids: seq<Key>, pick: Variety): (out: seq<Record>)
    requires forall i :: 0 <= i < |ids| ==> pick(ids[i]) != []
    ensures |out| == |ids|
    ensures forall i :: 0 <= i < |ids| ==> out[i] == Chosen(pick(ids[i]))
  {
    seq(|ids|, i requires 0 <= i < |ids| => Chosen(pick(ids[i])))
  }

  ghost function Conflicts(ids: seq<Key>, pick: Variety): (out: seq<Conflict>)
    ensures |out| == |ids|
    ensures forall i :: 0 <= i < |ids| ==> out[i] == ConflictOf(ids[i], pick)
  {
    seq(|ids|, i requires 0 <= i < |ids| => ConflictOf(ids[i], pick))
  }

  ghost function Assembled(ids: set<Key>, pick: Variety): View
    requires Sorted(ids, pick)
  {
    Seal(Projected(Arrange(Representatives(Enumerate(ids), pick))), Conflicts(Enumerate(Contested(ids, pick)), pick))
  }

  lemma Congruent(ids: set<Key>, f: Variety, g: Variety)
    requires Sorted(ids, f)
    requires forall id :: id in ids ==> f(id) == g(id)
    ensures Sorted(ids, g) && Assembled(ids, f) == Assembled(ids, g)
  {
    assert Contested(ids, f) == Contested(ids, g);
    SameRepresentatives(Enumerate(ids), f, g);
    SameConflicts(Enumerate(Contested(ids, f)), f, g);
  }

  lemma SameRepresentatives(ids: seq<Key>, f: Variety, g: Variety)
    requires forall id :: id in ids ==> f(id) == g(id) && f(id) != []
    ensures Representatives(ids, f) == Representatives(ids, g)
  {
    assert forall i :: 0 <= i < |ids| ==> ids[i] in ids;
  }

  lemma SameConflicts(ids: seq<Key>, f: Variety, g: Variety)
    requires forall id :: id in ids ==> f(id) == g(id)
    ensures Conflicts(ids, f) == Conflicts(ids, g)
  {
    assert forall i :: 0 <= i < |ids| ==> ids[i] in ids;
  }

  /** The representatives of the identities done so far, in some order. */
  ghost predicate BuiltRecords(done: set<Key>, records: seq<Record>, pick: Variety) {
    && (forall r :: r in records ==> r.id in done && pick(r.id) != [] && r == Chosen(pick(r.id)))
    && (forall id :: id in done ==> exists r :: r in records && r.id == id)
    && DistinctKeys(records, RecordId)
  }

  /** The conflicts of the identities done so far, in some order. */
  ghost predicate BuiltConflicts(done: set<Key>, conflicts: seq<Conflict>, pick: Variety) {
    && (forall c :: c in conflicts ==> c.recordId in Contested(done, pick) && c == ConflictOf(c.recordId, pick))
    && (forall id :: id in Contested(done, pick) ==> ConflictOf(id, pick) in conflicts)
    && DistinctKeys(conflicts, ConflictId)
  }

  lemma AppendDistinct<T>(s: seq<T>, x: T, key: T -> Key)
    requires DistinctKeys(s, key)
    requires forall y :: y in s ==> key(y) != key(x)
    ensures DistinctKeys(s + [x], key)
  {
    forall i, j | 0 <= i < j < |s + [x]| ensures key((s + [x])[i]) != key((s + [x])[j]) {
      assert (s + [x])[i] in s;
    }
  }

  lemma RecordBuilt(done: set<Key>, records: seq<Record>, pick: Variety, id: Key)
    requires BuiltRecords(done, records, pick) && id !in done
    requires pick(id) != [] && pick(id)[0].id == id
    ensures BuiltRecords(done + {id}, records + [Chosen(pick(id))], pick)
  {
    var r := Chosen(pick(id));
    AppendDistinct(records, r, RecordId);
    forall k | k in done + {id} ensures exists q :: q in records + [r] && q.id == k {
      if k in done {
        var q :| q in records && q.id == k;
        assert q in records + [r];
      } else {
        assert r in records + [r];
      }
    }
  }

  lemma ConflictBuilt(done: set<Key>, conflicts: seq<Conflict>, pick: Variety, id: Key)
    requires BuiltConflicts(done, conflicts, pick) && id !in done
    ensures BuiltConflicts(done + {id}, if |pick(id)| > 1 then conflicts + [ConflictOf(id, pick)] else conflicts, pick)
  {
    if |pick(id)| > 1 {
      AppendDistinct(conflicts, ConflictOf(id, pick), ConflictId);
    }
  }

  /** memory.go:269-288: the identities come in whatever order the map yields them. */
  method Build(ids: set<Key>, pick: Variety) returns (records: seq<Record>, conflicts: seq<Conflict>)
    requires Sorted(ids, pick)
    ensures BuiltRecords(ids, records, pick) && BuiltConflicts(ids, conflicts, pick)
  {
    records, conflicts := [], [];
    var todo := ids;
    ghost var done: set<Key> := {};
    while todo != {}
      invariant todo == ids - done && done <= ids
      invariant BuiltRecords(done, records, pick) && BuiltConflicts(done, conflicts, pick)
      decreases |todo|
    {
      var id :| id in todo;
      var ordered := pick(id);
      assert ordered[0] in ordered;
      RecordBuilt(done, records, pick, id);
      ConflictBuilt(done, conflicts, pick, id);
      records := records + [Chosen(ordered)];
      if |ordered| > 1 {
        conflicts := conflicts + [ConflictOf(id, pick)];
      }
      todo, done := todo - {id}, done + {id};
    }
    assert done == ids;
  }

  lemma RepresentativesDistinct(ids: set<Key>, pick: Variety)
    requires Sorted(ids, pick)
    ensures DistinctKeys(Representatives(Enumerate(ids), pick), RecordId)
    ensures forall i :: 0 <= i < |Enumerate(ids)| ==> Representatives(Enumerate(ids), pick)[i].id == Enumerate(ids)[i]
  {
    var order := Enumerate(ids);
    var out := Representatives(order, pick);
    forall i | 0 <= i < |order| ensures RecordId(out[i]) == Itself(order[i]) {
      assert order[i] in order;
      assert pick(order[i])[0] in pick(order[i]);
    }
  }

  lemma RecordsSettled(ids: set<Key>, records: seq<Record>, pick: Variety)
    requires Sorted(ids, pick) && BuiltRecords(ids, records, pick)
    ensures Arrange(records) == Arrange(Representatives(Enumerate(ids), pick))
  {
    var order := Enumerate(ids);
    var other := Representatives(order, pick);
    RepresentativesDistinct(ids, pick);
    forall r ensures r in records <==> r in other {
      if r in records {
        assert r.id in order;
        var i :| 0 <= i < |order| && order[i] == r.id;
        assert other[i] == r;
      }
      if r in other {
        var i :| 0 <= i < |other| && other[i] == r;
        assert order[i] in order;
        var q :| q in records && q.id == order[i];
      }
    }
    SameNormals(records, other);
    SameNormals(other, records);
    SortBySameSet(Normals(records), Normals(other), RecordId);
  }

  lemma ConflictsSettled(ids: set<Key>, conflicts: seq<Conflict>, pick: Variety)
    requires BuiltConflicts(ids, conflicts, pick)
    ensures SortBy(conflicts, ConflictId) == Conflicts(Enumerate(Contested(ids, pick)), pick)
  {
    var order := Enumerate(Contested(ids, pick));
    var other := Conflicts(order, pick);
    forall i | 0 <= i < |order| ensures ConflictId(other[i]) == Itself(order[i]) {
    }
    forall c ensures c in conflicts <==> c in other {
      if c in conflicts {
        assert c.recordId in order;
        var i :| 0 <= i < |order| && order[i] == c.recordId;
        assert other[i] == c;
      }
      if c in other {
        var i :| 0 <= i < |other| && other[i] == c;
        assert order[i] in order;
      }
    }
    SortBySameSet(conflicts, other, ConflictId);
    SortByFixes(other, ConflictId);
  }

  /** memory.go:269-294 */
  method Assemble(ids: set<Key>, pick: Variety) returns (v: View)
    requires Sorted(ids, pick)
    ensures v == Assembled(ids, pick)
  {
    var records, conflicts := Build(ids, pick);
    RecordsSettled(ids, records, pick);
    ConflictsSettled(ids, conflicts, pick);
    var projected := ProjectCopy(Arrange(records));
    v := Seal(projected, SortBy(conflicts, ConflictId));
  }

  // ---------- collecting variants ----------

  ghost function AllVariants(views: seq<View>): set<Record> {
    set i, r | 0 <= i < |views| && r in Variants(views[i]) :: r
  }

  ghost function IdsOf(vs: set<Record>): set<Key> {
    set r | r in vs :: r.id
  }

  ghost function Group(vs: set<Record>, id: Key): set<Record> {
    set r | r in vs && r.id == id
  }

  ghost function CanonKeys(group: set<Record>, canon: Canon): set<Key> {
    set r | r in group :: canon(r)
  }

  ghost function Decode(group: set<Record>, canon: Canon, k: Key): (r: Record)
    requires k in CanonKeys(group, canon)
    ensures r in group && canon(r) == k
  {
    var r :| r in group && canon(r) == k;
    r
  }

  /** The variants of one identity in canonical order. */
  ghost function InOrder(group: set<Record>, canon: Canon): seq<Record> {
    var ks := Enumerate(CanonKeys(group, canon));
    seq(|ks|, i requires 0 <= i < |ks| => assert ks[i] in ks; Decode(group, canon, ks[i]))
  }

  ghost function VarietyOf(vs: set<Record>, canon: Canon): Variety {
    id => InOrder(Group(vs, id), canon)
  }

  /** The canonical order lists exactly the group. */
  lemma InOrderHolds(group: set<Record>, canon: Canon)
    requires Injective(canon)
    ensures forall r :: r in InOrder(group, canon) <==> r in group
  {
    var ks := Enumerate(CanonKeys(group, canon));
    var out := InOrder(group, canon);
    forall r | r in group ensures r in out {
      assert canon(r) in ks;
      var i :| 0 <= i < |ks| && ks[i] == canon(r);
      assert out[i] == r;
    }
    forall r | r in out ensures r in group {
      var i :| 0 <= i < |out| && out[i] == r;
      assert ks[i] in ks;
    }
  }

  lemma VarietySorted(vs: set<Record>, canon: Canon)
    requires Injective(canon)
    ensures Sorted(IdsOf(vs), VarietyOf(vs, canon))
  {
    var pick := VarietyOf(vs, canon);
    forall id | id in IdsOf(vs) ensures pick(id) != [] && forall r :: r in pick(id) ==> r.id == id {
      InOrderHolds(Group(vs, id), canon);
      var r :| r in vs && r.id == id;
      assert r in Group(vs, id);
      assert r in pick(id);
    }
  }

  /** The merge as a function of the set of variants. */
  ghost function MergedView(vs: set<Record>, canon: Canon): View
    requires Injective(canon)
  {
    VarietySorted(vs, canon);
    Assembled(IdsOf(vs), VarietyOf(vs, canon))
  }

  ghost function Merged(views: seq<View>, canon: Canon): Outcome<View>
    requires Injective(canon)
  {
    if (forall v :: v in views ==> ValidView(v)) && ValidView(MergedView(AllVariants(views), canon))
    then Accepted(MergedView(AllVariants(views), canon))
    else Refused
  }

  type VariantMap = map<Key, map<Key, Record>>

  ghost predicate HoldsAt(m: VariantMap, vs: set<Record>, canon: Canon, id: Key) {
    id in m ==>
      && m[id] != map[]
      && forall k :: k in m[id] ==> m[id][k] in vs && m[id][k].id == id && canon(m[id][k]) == k
  }

  ghost predicate Held(m: VariantMap, canon: Canon, r: Record) {
    r.id in m && canon(r) in m[r.id]
  }

  ghost predicate Holds(m: VariantMap, vs: set<Record>, canon: Canon) {
    && (forall id :: HoldsAt(m, vs, canon, id))
    && (forall r :: r in vs ==> Held(m, canon, r))
  }

  function Put(m: VariantMap, r: Record, canon: Canon): VariantMap {
    m[r.id := (if r.id in m then m[r.id] else map[])[canon(r) := r]]
  }

  lemma PutHolds(m: VariantMap, vs: set<Record>, r: Record, canon: Canon)
    requires Holds(m, vs, canon)
    ensures Holds(Put(m, r, canon), vs + {r}, canon)
  {
    var n := Put(m, r, canon);
    assert canon(r) in n[r.id];
    forall id ensures HoldsAt(n, vs + {r}, canon, id) {
      assert HoldsAt(m, vs, canon, id);
      assert id != r.id && id in n ==> n[id] == m[id];
    }
    forall q | q in vs + {r} ensures Held(n, canon, q) {
      assert q in vs ==> Held(m, canon, q);
    }
  }

  /** memory.go:254-259, 261-266 */
  method PutAll(m: VariantMap, rs: seq<Record>, canon: Canon, ghost vs: set<Record>) returns (out: VariantMap)
    requires Holds(m, vs, canon)
    ensures Holds(out, vs + Elements(rs), canon)
  {
    out := m;
    ghost var have := vs;
    assert vs + Elements(rs[..0]) == vs;
    var i := 0;
    while i < |rs|
      invariant 0 <= i <= |rs|
      invariant Holds(out, have, canon) && have == vs + Elements(rs[..i])
    {
      PutHolds(out, have, rs[i], canon);
      out := Put(out, rs[i], canon);
      ElementsGrow(rs, i);
      have := have + {rs[i]};
      i := i + 1;
    }
    assert rs[..i] == rs;
  }

  lemma ElementsGrow(rs: seq<Record>, i: nat)
    requires i < |rs|
    ensures Elements(rs[..i + 1]) == Elements(rs[..i]) + {rs[i]}
  {
    assert rs[..i + 1] == rs[..i] + [rs[i]];
  }

  method AllViewsValid(views: seq<View>) returns (ok: bool)
    ensures ok <==> forall v :: v in views ==> ValidView(v)
  {
    var i := 0;
    while i < |views|
      invariant 0 <= i <= |views|
      invariant forall n :: 0 <= n < i ==> ValidView(views[n])
    {
      var fine := ValidateView(views[i]);
      if !fine {
        return false;
      }
      i := i + 1;
    }
    return true;
  }

  /** memory.go:249-268 */
  method CollectVariants(views: seq<View>, canon: Canon) returns (m: VariantMap)
    ensures Holds(m, AllVariants(views), canon)
  {
    m := map[];
    var i := 0;
    while i < |views|
      invariant 0 <= i <= |views|
      invariant Holds(m, AllVariants(views[..i]), canon)
    {
      var all := Gather(views[i]);
      m := PutAll(m, all, canon, AllVariants(views[..i]));
      VariantsExtend(views, i, all);
      i := i + 1;
    }
    assert views[..i] == views;
  }

  lemma VariantsExtend(views: seq<View>, i: nat, all: seq<Record>)
    requires i < |views| && forall r :: r in all <==> r in Variants(views[i])
    ensures AllVariants(views[..i]) + Elements(all) == AllVariants(views[..i + 1])
  {
    var a, b := views[..i], views[..i + 1];
    assert b == a + [views[i]];
    forall r | r in AllVariants(b) ensures r in AllVariants(a) || r in all {
      var n :| 0 <= n < |b| && r in Variants(b[n]);
      if n < i {
        assert r in Variants(a[n]);
      }
    }
    forall r | r in AllVariants(a) ensures r in AllVariants(b) {
      var n :| 0 <= n < |a| && r in Variants(a[n]);
      assert r in Variants(b[n]);
    }
    forall r | r in all ensures r in AllVariants(b) {
      assert r in Variants(b[i]);
    }
  }

  /** memory.go:272-282: the variants of one identity by sorted canonical key. */
  function OrderedOf(m: VariantMap, id: Key): seq<Record> {
    if id !in m then [] else
      var ks := Enumerate(m[id].Keys);
      seq(|ks|, i requires 0 <= i < |ks| => assert ks[i] in ks; m[id][ks[i]])
  }

  lemma HeldKeys(m: VariantMap, vs: set<Record>, canon: Canon, id: Key)
    requires Injective(canon) && Holds(m, vs, canon) && id in m
    ensures m[id].Keys == CanonKeys(Group(vs, id), canon)
    ensures forall k :: k in m[id] ==> m[id][k] == Decode(Group(vs, id), canon, k)
  {
    assert HoldsAt(m, vs, canon, id);
    forall k | k in m[id] ensures k in CanonKeys(Group(vs, id), canon) {
      assert m[id][k] in Group(vs, id);
    }
    forall k | k in CanonKeys(Group(vs, id), canon) ensures k in m[id] {
      var r :| r in Group(vs, id) && canon(r) == k;
      assert Held(m, canon, r);
    }
  }

  lemma HeldOrder(m: VariantMap, vs: set<Record>, canon: Canon, id: Key)
    requires Injective(canon) && Holds(m, vs, canon) && id in m
    ensures OrderedOf(m, id) == InOrder(Group(vs, id), canon)
  {
    HeldKeys(m, vs, canon, id);
    var ks := Enumerate(m[id].Keys);
    forall i | 0 <= i < |ks| ensures OrderedOf(m, id)[i] == InOrder(Group(vs, id), canon)[i] {
      assert ks[i] in ks;
    }
  }

  lemma HeldIds(m: VariantMap, vs: set<Record>, canon: Canon)
    requires Holds(m, vs, canon)
    ensures m.Keys == IdsOf(vs)
  {
    forall id ensures id in m <==> id in IdsOf(vs) {
      assert HoldsAt(m, vs, canon, id);
      if id in m {
        var k :| k in m[id];
        assert m[id][k] in vs && m[id][k].id == id;
      }
      if id in IdsOf(vs) {
        var r :| r in vs && r.id == id;
        assert Held(m, canon, r);
      }
    }
  }

  /** memory.go:248-299: whatever order the views and the maps yield, the result is one function of
      the set of variants. */
  method MergeViews(views: seq<View>, canon: Canon) returns (out: Outcome<View>)
    requires Injective(canon)
    ensures out == Merged(views, canon)
  {
    var ok := AllViewsValid(views);
    if !ok {
      return Refused;
    }
    var m := CollectVariants(views, canon);
    var v := MergeCollected(m, canon, AllVariants(views));
    var fine := ValidateView(v);
    out := if fine then Accepted(v) else Refused;
  }

  method MergeCollected(m: VariantMap, canon: Canon, ghost vs: set<Record>) returns (v: View)
    requires Injective(canon) && Holds(m, vs, canon)
    ensures v == MergedView(vs, canon)
  {
    var pick := id => OrderedOf(m, id);
    ghost var spec := VarietyOf(vs, canon);
    HeldIds(m, vs, canon);
    VarietySorted(vs, canon);
    forall id | id in IdsOf(vs) ensures spec(id) == pick(id) {
      HeldOrder(m, vs, canon, id);
    }
    Congruent(IdsOf(vs), spec, pick);
    v := Assemble(m.Keys, pick);
  }

  // ---------- what a merge keeps ----------

  /** Permuting or repeating the views changes nothing. */
  lemma MergeSetOnly(a: seq<View>, b: seq<View>, canon: Canon)
    requires Injective(canon)
    requires forall v :: v in a <==> v in b
    ensures Merged(a, canon) == Merged(b, canon)
  {
    SubVariants(a, b);
    SubVariants(b, a);
    assert AllVariants(a) == AllVariants(b);
  }

  lemma SubVariants(a: seq<View>, b: seq<View>)
    requires forall v :: v in a ==> v in b
    ensures AllVariants(a) <= AllVariants(b)
  {
    forall r | r in AllVariants(a) ensures r in AllVariants(b) {
      var i :| 0 <= i < |a| && r in Variants(a[i]);
      assert a[i] in a;
      var j :| 0 <= j < |b| && b[j] == a[i];
    }
  }

  /** Where an identity ends up: a record with the body of its first variant, judged no better. */
  lemma AssembledAt(ids: set<Key>, pick: Variety, id: Key) returns (out: Record)
    requires Sorted(ids, pick) && id in ids
    ensures out in Assembled(ids, pick).records && out.id == id
    ensures Unjudged(out) == Unjudged(Normal(Chosen(pick(id))))
    ensures out.validation == Chosen(pick(id)).validation
    ensures Rank(Chosen(pick(id)).validity) <= Rank(out.validity)
  {
    var order := Enumerate(ids);
    var rs := Representatives(order, pick);
    RepresentativesDistinct(ids, pick);
    assert id in order;
    var n :| 0 <= n < |order| && order[n] == id;
    assert rs[n] in rs;
    var i := ArrangeIndex(rs, rs[n]);
    SettledRank(Arrange(rs), Arrange(rs)[i]);
    out := Projected(Arrange(rs))[i];
  }

  lemma ConflictRecorded(ids: set<Key>, pick: Variety, id: Key)
    requires Sorted(ids, pick) && id in Contested(ids, pick)
    ensures ConflictOf(id, pick) in Assembled(ids, pick).conflicts
  {
    var order := Enumerate(Contested(ids, pick));
    assert id in order;
    var n :| 0 <= n < |order| && order[n] == id;
    assert Conflicts(order, pick)[n] in Conflicts(order, pick);
  }

  ghost predicate ListsExactly(c: Conflict, vs: set<Record>) {
    forall r :: r in c.candidates <==> r in vs && r.id == c.recordId
  }

  /** Every variant of a contested identity survives verbatim as a candidate, and the record that
      stands for it is neither VALID nor verified. */
  lemma MergeKeepsVariants(views: seq<View>, canon: Canon, a: Record, b: Record)
    requires Injective(canon) && Merged(views, canon).Accepted?
    requires a in AllVariants(views) && b in AllVariants(views) && a.id == b.id && a != b
    ensures exists c :: c in Merged(views, canon).value.conflicts && c.recordId == a.id && ListsExactly(c, AllVariants(views))
    ensures forall r :: r in Merged(views, canon).value.records && r.id == a.id ==> r.validity != VALID && r.validation == Unchecked
  {
    var vs := AllVariants(views);
    var pick := VarietyOf(vs, canon);
    VarietySorted(vs, canon);
    TwoListed(vs, canon, a, b);
    ConflictRecorded(IdsOf(vs), pick, a.id);
    var rep := AssembledAt(IdsOf(vs), pick, a.id);
    forall r | r in MergedView(vs, canon).records && r.id == a.id ensures r == rep {
      OnlyOne(MergedView(vs, canon).records, r, rep);
    }
  }

  lemma TwoListed(vs: set<Record>, canon: Canon, a: Record, b: Record)
    requires Injective(canon) && a in vs && b in vs && a.id == b.id && a != b
    ensures a.id in Contested(IdsOf(vs), VarietyOf(vs, canon))
    ensures ListsExactly(ConflictOf(a.id, VarietyOf(vs, canon)), vs)
  {
    var group := Group(vs, a.id);
    InOrderHolds(group, canon);
    assert a in group && b in group;
    assert a in InOrder(group, canon) && b in InOrder(group, canon);
    assert VarietyOf(vs, canon)(a.id) == InOrder(group, canon);
  }
}

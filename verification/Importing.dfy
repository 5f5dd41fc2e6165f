/** internal/graph/import.go and verification.go:172-214: carrying a closed set of valid records into
    another namespace, and marking records verified inside one scoped view. */
module Importing {
  import opened Keys
  import opened Outcomes
  import opened Memory
  import opened Projection

  /** rename is the digest-derived identity of a record in the target namespace, recordHash the
      digest of its canonical form, viewHash the hexadecimal digest of the origin view. */
  datatype Grant = Grant(
    space: string,
    rename: Key -> Key,
    source: ImportIdentity,
    viewHash: string,
    recordHash: Record -> string)

  function RenameAll(ids: seq<Key>, rename: Key -> Key): (out: seq<Key>)
    ensures |out| == |ids|
    ensures forall i :: 0 <= i < |ids| ==> out[i] == rename(ids[i])
  {
    seq(|ids|, i requires 0 <= i < |ids| => rename(ids[i]))
  }

  /** import.go:50-63 */
  function Carry(r: Record, g: Grant): Record {
    r.(
      origin := [OriginLink("iu-record-origin-v1", g.source, g.viewHash, r.id, g.recordHash(r))] + r.origin,
      id := g.rename(r.id),
      validation := Unchecked,
      dependencies := RenameAll(r.dependencies, g.rename),
      supersedes := RenameAll(r.supersedes, g.rename))
  }

  ghost predicate Transportable(r: Record, chosen: set<Key>, g: Grant) {
    && r.validity == VALID
    && (forall d :: d in r.dependencies ==> d in chosen)
    && (forall d :: d in r.supersedes ==> d in chosen)
    && ValidOrigin(Carry(r, g).origin)
  }

  ghost predicate Importable(v: View, ids: seq<Key>, g: Grant) {
    && ValidView(v)
    && ValidIdentity(g.source) && 1 <= |g.space| <= 512 && 1 <= |ids| <= 32
    && DistinctKeys(ids, Itself)
    && (forall id :: id in ids ==> id in Ids(v.records))
    && (forall c :: c in v.conflicts ==> c.recordId !in ids)
    && (forall r :: r in v.records && r.id in ids ==> Transportable(r, Named(ids), g))
  }

  /** The selected records of the view, renamed, in the order the view lists them. */
  ghost function Selected(rs: seq<Record>, chosen: set<Key>, g: Grant): seq<Record> {
    if rs == [] then []
    else if rs[0].id in chosen then [Carry(rs[0], g)] + Selected(rs[1..], chosen, g)
    else Selected(rs[1..], chosen, g)
  }

  ghost function Imported(v: View, ids: seq<Key>, g: Grant): Outcome<View> {
    var w := NewView(Selected(v.records, Named(ids), g));
    if Importable(v, ids, g) && ValidView(w) then Accepted(w) else Refused
  }

  lemma {:induction false} SelectedFrom(rs: seq<Record>, chosen: set<Key>, g: Grant)
    ensures forall n :: n in Selected(rs, chosen, g) ==> exists r :: r in rs && r.id in chosen && n == Carry(r, g)
    ensures forall r :: r in rs && r.id in chosen ==> Carry(r, g) in Selected(rs, chosen, g)
  {
    if rs != [] {
      SelectedFrom(rs[1..], chosen, g);
      assert rs == [rs[0]] + rs[1..];
      forall n | n in Selected(rs, chosen, g) ensures exists r :: r in rs && r.id in chosen && n == Carry(r, g) {
        if n in Selected(rs[1..], chosen, g) {
          var r :| r in rs[1..] && r.id in chosen && n == Carry(r, g);
          assert r in rs;
        } else {
          assert rs[0] in rs;
        }
      }
    }
  }

  function ById(rs: seq<Record>): (m: map<Key, Record>)
    ensures forall id :: id in m <==> id in Ids(rs)
    ensures forall id :: id in m ==> m[id] in rs && m[id].id == id
  {
    if rs == [] then map[] else
      assert rs == rs[..|rs| - 1] + [rs[|rs| - 1]];
      ById(rs[..|rs| - 1])[rs[|rs| - 1].id := rs[|rs| - 1]]
  }

  /** import.go:24-30, 37-44: every named record exists, is VALID, and brings all it refers to. */
  predicate Carried(records: map<Key, Record>, chosen: set<Key>, g: Grant) {
    forall id :: id in chosen ==>
      && id in records && records[id].validity == VALID
      && (forall d :: d in records[id].dependencies ==> d in chosen)
      && (forall d :: d in records[id].supersedes ==> d in chosen)
      && ValidOrigin(Carry(records[id], g).origin)
  }

  /** The identity a carried record had before. */
  function OldId(r: Record): Key {
    if r.origin == [] then "" else r.origin[0].recordId
  }

  /** out enumerates the images of the identities done, once each. */
  ghost predicate Collected(done: set<Key>, image: Key -> Record, out: seq<Record>) {
    && (forall n :: n in out ==> OldId(n) in done && n == image(OldId(n)))
    && (forall id :: id in done ==> image(id) in out)
    && DistinctKeys(out, OldId)
  }

  /** import.go:46-65: the selection comes in whatever order the map yields it. */
  method CarryAll(chosen: set<Key>, image: Key -> Record) returns (out: seq<Record>)
    requires forall id :: id in chosen ==> OldId(image(id)) == id
    ensures Collected(chosen, image, out)
  {
    out := [];
    NothingCollected(image);
    var todo := chosen;
    ghost var done: set<Key> := {};
    while todo != {}
      invariant todo == chosen - done && done <= chosen
      invariant Collected(done, image, out)
      decreases |todo|
    {
      var id :| id in todo;
      CollectOne(done, image, out, id);
      out := out + [image(id)];
      todo := todo - {id};
      done := done + {id};
    }
    assert done == chosen;
  }

  lemma NothingCollected(image: Key -> Record)
    ensures Collected({}, image, [])
  {
  }

  lemma CollectOne(done: set<Key>, image: Key -> Record, out: seq<Record>, id: Key)
    requires Collected(done, image, out) && OldId(image(id)) == id && id !in done
    ensures Collected(done + {id}, image, out + [image(id)])
  {
    var more := out + [image(id)];
    forall i, j | 0 <= i < j < |more| ensures OldId(more[i]) != OldId(more[j]) {
      assert more[i] in out;
    }
  }

  lemma CollectedSame(done: set<Key>, image: Key -> Record, a: seq<Record>, b: seq<Record>)
    requires Collected(done, image, a) && Collected(done, image, b)
    ensures multiset(a) == multiset(b)
  {
    SortBySameSet(a, b, OldId);
    SortByPermutes(a, OldId);
    SortByPermutes(b, OldId);
  }

  function ImageOf(records: map<Key, Record>, g: Grant): Key -> Record {
    id => if id in records then Carry(records[id], g)
          else Record([], id, Observation, Payload("", false), [], [], [], Unchecked, VALID, "")
  }

  lemma {:induction false} SelectedDistinct(rs: seq<Record>, chosen: set<Key>, g: Grant)
    requires DistinctKeys(rs, RecordId)
    ensures DistinctKeys(Selected(rs, chosen, g), OldId)
  {
    if rs != [] {
      SelectedDistinct(rs[1..], chosen, g);
      if rs[0].id in chosen {
        var rest := Selected(rs[1..], chosen, g);
        SelectedFrom(rs[1..], chosen, g);
        forall j | 0 <= j < |rest| ensures OldId(rest[j]) != rs[0].id {
          assert rest[j] in rest;
          var r :| r in rs[1..] && r.id in chosen && rest[j] == Carry(r, g);
          var k :| 1 <= k < |rs| && rs[k] == r;
          assert RecordId(rs[0]) != RecordId(rs[k]);
        }
      }
    }
  }

  lemma ImageIs(rs: seq<Record>, r: Record, g: Grant)
    requires DistinctKeys(rs, RecordId) && r in rs
    ensures ImageOf(ById(rs), g)(r.id) == Carry(r, g)
  {
    OnlyOne(rs, r, ById(rs)[r.id]);
  }

  lemma SelectedImage(rs: seq<Record>, chosen: set<Key>, g: Grant, n: Record)
    requires DistinctKeys(rs, RecordId) && n in Selected(rs, chosen, g)
    ensures OldId(n) in chosen && n == ImageOf(ById(rs), g)(OldId(n))
  {
    SelectedFrom(rs, chosen, g);
    var r :| r in rs && r.id in chosen && n == Carry(r, g);
    CarriedOldId(r, g);
    ImageIs(rs, r, g);
  }

  lemma CarriedOldId(r: Record, g: Grant)
    ensures OldId(Carry(r, g)) == r.id
  {
  }

  lemma ImageSelected(rs: seq<Record>, chosen: set<Key>, g: Grant, id: Key)
    requires DistinctKeys(rs, RecordId) && id in chosen && id in Ids(rs)
    ensures ImageOf(ById(rs), g)(id) in Selected(rs, chosen, g)
    ensures OldId(ImageOf(ById(rs), g)(id)) == id
  {
    SelectedFrom(rs, chosen, g);
    var r :| r in rs && r.id == id;
    ImageIs(rs, r, g);
  }

  lemma SelectedCollected(rs: seq<Record>, chosen: set<Key>, g: Grant, image: Key -> Record)
    requires DistinctKeys(rs, RecordId) && chosen <= Ids(rs) && image == ImageOf(ById(rs), g)
    ensures Collected(chosen, image, Selected(rs, chosen, g))
    ensures forall id :: id in chosen ==> OldId(image(id)) == id
  {
    SelectedDistinct(rs, chosen, g);
    forall n | n in Selected(rs, chosen, g) ensures OldId(n) in chosen && n == image(OldId(n)) {
      SelectedImage(rs, chosen, g, n);
    }
    forall id | id in chosen ensures image(id) in Selected(rs, chosen, g) && OldId(image(id)) == id {
      ImageSelected(rs, chosen, g, id);
    }
  }

  lemma CarriedMeans(v: View, ids: seq<Key>, g: Grant)
    requires ValidView(v)
    ensures Carried(ById(v.records), Named(ids), g)
      <==> ((forall id :: id in ids ==> id in Ids(v.records))
        && (forall r :: r in v.records && r.id in ids ==> Transportable(r, Named(ids), g)))
  {
    var records := ById(v.records);
    if Carried(records, Named(ids), g) {
      forall r | r in v.records && r.id in ids ensures Transportable(r, Named(ids), g) {
        OnlyOne(v.records, r, records[r.id]);
      }
    }
  }

  /** import.go:13-45 */
  method CheckImport(v: View, ids: seq<Key>, g: Grant) returns (ok: bool, chosen: set<Key>)
    requires ValidView(v)
    ensures ok <==> Importable(v, ids, g)
    ensures ok ==> chosen == Named(ids)
  {
    var distinct;
    distinct, chosen := CollectTargets(ids);
    if !distinct {
      return false, chosen;
    }
    CarriedMeans(v, ids, g);
    assert (exists i :: 0 <= i < |v.conflicts| && v.conflicts[i].recordId in chosen) <==> (exists c :: c in v.conflicts && c.recordId in ids);
    ok := ValidIdentity(g.source) && 1 <= |g.space| <= 512 && 1 <= |ids| <= 32
      && !(exists i :: 0 <= i < |v.conflicts| && v.conflicts[i].recordId in chosen)
      && Carried(ById(v.records), chosen, g);
  }

  /** import.go:11-69 */
  method ImportView(v: View, ids: seq<Key>, g: Grant) returns (out: Outcome<View>)
    ensures out == Imported(v, ids, g)
  {
    var valid := ValidateView(v);
    if !valid {
      return Refused;
    }
    var ok, chosen := CheckImport(v, ids, g);
    if !ok {
      return Refused;
    }
    var w := ImportChosen(v, chosen, g);
    var fine := ValidateView(w);
    out := if fine then Accepted(w) else Refused;
  }

  method ImportChosen(v: View, chosen: set<Key>, g: Grant) returns (w: View)
    requires ValidView(v) && chosen <= Ids(v.records)
    ensures ValidView(w) <==> ValidView(NewView(Selected(v.records, chosen, g)))
    ensures ValidView(w) ==> w == NewView(Selected(v.records, chosen, g))
  {
    var records := ById(v.records);
    var image := ImageOf(records, g);
    SelectedCollected(v.records, chosen, g, image);
    var result := CarryAll(chosen, image);
    CollectedSame(chosen, image, result, Selected(v.records, chosen, g));
    PermutedView(result, Selected(v.records, chosen, g));
    w := NewView(result);
  }

  /** An import only ever yields a valid view in which every record is VALID and unchecked. */
  lemma ImportSound(v: View, ids: seq<Key>, g: Grant)
    requires Imported(v, ids, g).Accepted?
    ensures ValidView(Imported(v, ids, g).value)
    ensures Consistent(Imported(v, ids, g).value.records)
    ensures forall r :: r in Imported(v, ids, g).value.records ==> r.validity == VALID && r.validation == Unchecked && r.origin != []
  {
    var chosen := Named(ids);
    var out := Selected(v.records, chosen, g);
    forall n | n in Arrange(out) ensures n.validity == VALID && n.validation == Unchecked && n.origin != [] {
      var i :| 0 <= i < |Arrange(out)| && Arrange(out)[i] == n;
      var c := ArrangeOrigin(out, i);
      SelectedFrom(v.records, chosen, g);
      var r :| r in v.records && r.id in chosen && c == Carry(r, g);
      assert Transportable(r, chosen, g);
    }
  }

  // ---------- ProjectVerifiedScope ----------

  function Check(r: Record, chosen: set<Key>): Record {
    r.(validation := if r.id in chosen then Verified else Unchecked)
  }

  function CheckAll(rs: seq<Record>, chosen: set<Key>): (out: seq<Record>)
    ensures |out| == |rs|
    ensures forall i :: 0 <= i < |rs| ==> out[i] == Check(rs[i], chosen)
  {
    seq(|rs|, i requires 0 <= i < |rs| => Check(rs[i], chosen))
  }

  function UncheckConflicts(cs: seq<Conflict>): (out: seq<Conflict>)
    ensures |out| == |cs|
    ensures forall i :: 0 <= i < |cs| ==> out[i] == Conflict(cs[i].recordId, CheckAll(cs[i].candidates, {}))
  {
    seq(|cs|, i requires 0 <= i < |cs| => Conflict(cs[i].recordId, CheckAll(cs[i].candidates, {})))
  }

  ghost predicate Verifiable(v: View, ids: seq<Key>) {
    && ValidView(v)
    && DistinctKeys(ids, Itself)
    && (forall c :: c in v.conflicts ==> c.recordId !in ids)
    && (forall id :: id in ids ==> id in Ids(v.records))
    && (forall r :: r in v.records && r.id in ids ==> r.validity == VALID)
  }

  ghost function VerifiedScope(v: View, ids: seq<Key>): Outcome<View> {
    if Verifiable(v, ids)
    then Accepted(Seal(CheckAll(v.records, Named(ids)), UncheckConflicts(v.conflicts)))
    else Refused
  }

  /** verification.go:182-188 */
  method CollectTargets(ids: seq<Key>) returns (ok: bool, chosen: set<Key>)
    ensures ok <==> DistinctKeys(ids, Itself)
    ensures ok ==> chosen == Named(ids)
  {
    chosen := {};
    var i := 0;
    while i < |ids|
      invariant 0 <= i <= |ids|
      invariant chosen == Named(ids[..i])
      invariant DistinctKeys(ids[..i], Itself)
    {
      if ids[i] in chosen {
        var k :| 0 <= k < i && ids[k] == ids[i];
        assert Itself(ids[k]) == Itself(ids[i]);
        return false, chosen;
      }
      chosen := chosen + {ids[i]};
      assert ids[..i + 1] == ids[..i] + [ids[i]];
      i := i + 1;
    }
    assert ids[..i] == ids;
    return true, chosen;
  }

  /** verification.go:194-207 */
  method MarkRecords(rs: seq<Record>, chosen: set<Key>) returns (ok: bool, out: seq<Record>)
    ensures ok <==> chosen <= Ids(rs) && forall r :: r in rs && r.id in chosen ==> r.validity == VALID
    ensures ok ==> out == CheckAll(rs, chosen)
  {
    out := [];
    var left := chosen;
    var i := 0;
    while i < |rs|
      invariant 0 <= i <= |rs| && |out| == i
      invariant forall n :: 0 <= n < i ==> out[n] == Check(rs[n], chosen)
      invariant forall n :: 0 <= n < i && rs[n].id in chosen ==> rs[n].validity == VALID
      invariant left == chosen - Ids(rs[..i])
    {
      var r := rs[i];
      assert rs[..i + 1] == rs[..i] + [r];
      if r.id in chosen {
        if r.validity != VALID {
          assert r in rs;
          return false, out;
        }
        left := left - {r.id};
      }
      out := out + [Check(r, chosen)];
      i := i + 1;
    }
    assert rs[..i] == rs;
    assert out == CheckAll(rs, chosen);
    forall x | x in chosen ensures x in left || x in Ids(rs) {
    }
    ok := left == {};
  }

  predicate Contests(cs: seq<Conflict>, chosen: set<Key>) {
    exists i :: 0 <= i < |cs| && cs[i].recordId in chosen
  }

  /** verification.go:172-214 */
  method ProjectVerifiedScope(v: View, ids: seq<Key>) returns (out: Outcome<View>)
    ensures out == VerifiedScope(v, ids)
  {
    var valid := ValidateView(v);
    if !valid {
      return Refused;
    }
    var distinct, chosen := CollectTargets(ids);
    if !distinct || Contests(v.conflicts, chosen) {
      return Refused;
    }
    var ok, records := MarkRecords(v.records, chosen);
    if !ok {
      return Refused;
    }
    out := Accepted(Seal(records, UncheckConflicts(v.conflicts)));
  }

  /** Only validation changes: every body and every validity is kept, and exactly the named VALID
      records read verified. */
  lemma VerifySound(v: View, ids: seq<Key>)
    requires VerifiedScope(v, ids).Accepted?
    ensures ValidView(VerifiedScope(v, ids).value)
    ensures SameBodies(VerifiedScope(v, ids).value.records, v.records)
    ensures Consistent(v.records) ==> Consistent(VerifiedScope(v, ids).value.records)
    ensures forall r :: r in VerifiedScope(v, ids).value.records ==>
      (r.validation == Verified <==> r.id in ids) && (r.validation == Verified ==> r.validity == VALID)
  {
    SameBodiesFacts(CheckAll(v.records, Named(ids)), v.records);
    UncheckOrigins(v.conflicts);
    CheckConsistent(v.records, Named(ids));
    forall r | r in CheckAll(v.records, Named(ids))
      ensures (r.validation == Verified <==> r.id in ids) && (r.validation == Verified ==> r.validity == VALID)
    {
      var q := CheckedFrom(v.records, Named(ids), r);
    }
  }

  lemma CheckedFrom(rs: seq<Record>, chosen: set<Key>, r: Record) returns (q: Record)
    requires r in CheckAll(rs, chosen)
    ensures q in rs && r == Check(q, chosen)
  {
    var i :| 0 <= i < |rs| && CheckAll(rs, chosen)[i] == r;
    q := rs[i];
  }

  lemma CheckConsistent(rs: seq<Record>, chosen: set<Key>)
    ensures Consistent(rs) ==> Consistent(CheckAll(rs, chosen))
  {
    if Consistent(rs) {
      forall r, q | r in CheckAll(rs, chosen) && q in CheckAll(rs, chosen) && q.id in r.dependencies
        ensures Rank(q.validity) <= Rank(r.validity)
      {
        var a := CheckedFrom(rs, chosen, r);
        var b := CheckedFrom(rs, chosen, q);
      }
    }
  }

  lemma UncheckOrigins(cs: seq<Conflict>)
    ensures OriginsValid(UncheckConflicts(cs)) <==> OriginsValid(cs)
  {
    var out := UncheckConflicts(cs);
    assert forall i, k :: 0 <= i < |cs| && 0 <= k < |cs[i].candidates| ==> out[i].candidates[k].origin == cs[i].candidates[k].origin;
  }
}

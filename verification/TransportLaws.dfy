/** What an import carries over and what a verified scope marks, record by record:
    internal/graph/import.go:11-69, verification.go:172-214. */
module TransportLaws {
  import opened Keys
  import opened Outcomes
  import opened Memory
  import opened Invalidation
  import opened Importing

  /** Every reference is renamed, and nothing else is referred to. */
  ghost predicate Renamed(out: seq<Key>, ids: seq<Key>, rename: Key -> Key) {
    forall x :: x in out <==> exists i :: 0 <= i < |ids| && x == rename(ids[i])
  }

  /** The image of r under the grant: unchecked, with one more link of origin, and otherwise the same. */
  ghost predicate ImageOfRecord(out: Record, r: Record, g: Grant) {
    && out.id == g.rename(r.id) && out.kind == r.kind && out.payload == r.payload && out.inputHash == r.inputHash
    && out.validity == r.validity && out.validation == Unchecked
    && (forall s :: s in out.sources <==> s in r.sources)
    && Renamed(out.dependencies, r.dependencies, g.rename) && Renamed(out.supersedes, r.supersedes, g.rename)
    && |out.origin| == |r.origin| + 1 && out.origin[1..] == r.origin
    && out.origin[0].version == "iu-record-origin-v1" && out.origin[0].source == g.source && out.origin[0].viewHash == g.viewHash
    && out.origin[0].recordId == r.id && out.origin[0].recordHash == g.recordHash(r)
  }

  lemma CarriedImage(r: Record, g: Grant)
    ensures ImageOfRecord(Normal(Carry(r, g)), r, g)
  {
    var c := Carry(r, g);
    RenamedAll(r.dependencies, g.rename);
    RenamedAll(r.supersedes, g.rename);
    assert c.origin[1..] == r.origin;
  }

  lemma RenamedAll(ids: seq<Key>, rename: Key -> Key)
    ensures Renamed(RenameAll(ids, rename), ids, rename)
  {
    var out := RenameAll(ids, rename);
    assert forall i :: 0 <= i < |ids| ==> out[i] in out;
  }

  ghost predicate ComesFrom(v: View, ids: seq<Key>, g: Grant, out: Record) {
    exists r :: r in v.records && r.id in ids && ImageOfRecord(out, r, g)
  }

  ghost predicate Arrives(w: View, g: Grant, r: Record) {
    exists out :: out in w.records && ImageOfRecord(out, r, g)
  }

  lemma Origin(v: View, ids: seq<Key>, g: Grant, out: Record)
    requires out in Arrange(Selected(v.records, Named(ids), g))
    ensures ComesFrom(v, ids, g, out)
  {
    var all := Selected(v.records, Named(ids), g);
    ArrangeKeeps(all);
    var c :| c in all && out == Normal(c);
    SelectedFrom(v.records, Named(ids), g);
    var r :| r in v.records && r.id in Named(ids) && c == Carry(r, g);
    CarriedImage(r, g);
  }

  lemma Arrival(v: View, ids: seq<Key>, g: Grant, r: Record)
    requires r in v.records && r.id in ids
    ensures Arrives(NewView(Selected(v.records, Named(ids), g)), g, r)
  {
    var all := Selected(v.records, Named(ids), g);
    SelectedFrom(v.records, Named(ids), g);
    ArrangeKeeps(all);
    CarriedImage(r, g);
    assert Normal(Carry(r, g)) in Arrange(all);
  }

  /** Every record of an imported view is the image of a selected one, and every selected record has its image
      there. */
  lemma ImportExplained(v: View, ids: seq<Key>, g: Grant, w: View)
    requires Imported(v, ids, g) == Accepted(w)
    ensures forall out :: out in w.records ==> ComesFrom(v, ids, g, out)
    ensures forall r :: r in v.records && r.id in ids ==> Arrives(w, g, r)
    ensures w.conflicts == []
  {
    forall out | out in w.records ensures ComesFrom(v, ids, g, out) {
      Origin(v, ids, g, out);
    }
    forall r | r in v.records && r.id in ids ensures Arrives(w, g, r) {
      Arrival(v, ids, g, r);
    }
  }

  /** What is carried is VALID and brings all it refers to. */
  ghost predicate Carriable(r: Record, ids: seq<Key>, g: Grant) {
    && r.validity == VALID
    && (forall d :: d in r.dependencies || d in r.supersedes ==> d in ids)
    && ValidOrigin([OriginLink("iu-record-origin-v1", g.source, g.viewHash, r.id, g.recordHash(r))] + r.origin)
  }

  ghost predicate EachOnce(ids: seq<Key>) {
    forall i, j :: 0 <= i < j < |ids| ==> ids[i] != ids[j]
  }

  /** An import is accepted exactly for a valid view, identity and name space and a selection named once each,
      present, uncontested and closed, whose image is a valid view. */
  lemma ImportAccepted(v: View, ids: seq<Key>, g: Grant)
    ensures Imported(v, ids, g).Accepted? <==>
      && ValidView(v) && ValidIdentity(g.source) && 1 <= |g.space| <= 512 && 1 <= |ids| <= 32 && EachOnce(ids)
      && (forall id :: id in ids ==> id in Ids(v.records))
      && (forall c :: c in v.conflicts ==> c.recordId !in ids)
      && (forall r :: r in v.records && r.id in ids ==> Carriable(r, ids, g))
      && ValidView(NewView(Selected(v.records, Named(ids), g)))
  {
    EachOnceMeans(ids);
    forall r ensures Transportable(r, Named(ids), g) <==> Carriable(r, ids, g) {
      CarriableMeans(r, ids, g);
    }
  }

  lemma EachOnceMeans(ids: seq<Key>)
    ensures EachOnce(ids) <==> DistinctKeys(ids, Itself)
  {
    assert forall i :: 0 <= i < |ids| ==> Itself(ids[i]) == ids[i];
  }

  lemma CarriableMeans(r: Record, ids: seq<Key>, g: Grant)
    ensures Transportable(r, Named(ids), g) <==> Carriable(r, ids, g)
  {
    assert forall d :: d in Named(ids) <==> d in ids;
  }

  // ---------- chains of origin ----------

  /** Going back along its origins, a record stays within one goal and comes from ever older generations, over at
      most eight imports. */
  lemma OriginsDescend(v: View, r: Record, i: nat, j: nat)
    requires ValidView(v) && r in v.records && i < j < |r.origin|
    ensures |r.origin| <= 8 && r.origin[j].source.goal == r.origin[i].source.goal
    ensures 0 < r.origin[j].source.generation < r.origin[i].source.generation
  {
    assert ValidRecord(r, false);
    Descends(r.origin, i, j);
  }

  lemma {:induction false} Descends(o: seq<OriginLink>, i: nat, j: nat)
    requires ValidOrigin(o) && i < j < |o|
    ensures o[j].source.goal == o[i].source.goal && 0 < o[j].source.generation < o[i].source.generation
    decreases j
  {
    assert ValidLink(o[j]);
    if i < j - 1 {
      Descends(o, i, j - 1);
    }
  }

  /** The version of a valid view says whether anything in it was imported. */
  lemma VersionTells(v: View)
    requires ValidView(v)
    ensures v.version == 2 <==> exists r :: r in Variants(v) && r.origin != []
    ensures v.version == 1 || v.version == 2
  {
    VariantsSplit(v);
    if HasOrigins(v.records, v.conflicts) {
      if i :| 0 <= i < |v.records| && v.records[i].origin != [] {
        assert v.records[i] in Variants(v);
      } else {
        var i, k :| 0 <= i < |v.conflicts| && 0 <= k < |v.conflicts[i].candidates| && v.conflicts[i].candidates[k].origin != [];
        assert Candidate(v.conflicts, v.conflicts[i].candidates[k]);
        assert v.conflicts[i].candidates[k] in Variants(v);
      }
    }
    if r :| r in Variants(v) && r.origin != [] {
      if r in v.records {
        var i :| 0 <= i < |v.records| && v.records[i] == r;
      } else {
        var i, k :| 0 <= i < |v.conflicts| && 0 <= k < |v.conflicts[i].candidates| && v.conflicts[i].candidates[k] == r;
      }
    }
  }

  // ---------- verified scopes ----------

  ghost predicate OnlyMarked(out: Record, r: Record, marked: bool) {
    out == r.(validation := if marked then Verified else Unchecked)
  }

  /** In a verified scope exactly the named records are verified, candidates never are, and nothing else changes. */
  lemma ScopeExplained(v: View, ids: seq<Key>, w: View)
    requires VerifiedScope(v, ids) == Accepted(w)
    ensures |w.records| == |v.records| && forall i :: 0 <= i < |v.records| ==> OnlyMarked(w.records[i], v.records[i], v.records[i].id in ids)
    ensures |w.conflicts| == |v.conflicts| && forall i :: 0 <= i < |v.conflicts| ==>
      && w.conflicts[i].recordId == v.conflicts[i].recordId && |w.conflicts[i].candidates| == |v.conflicts[i].candidates|
      && forall k :: 0 <= k < |v.conflicts[i].candidates| ==> OnlyMarked(w.conflicts[i].candidates[k], v.conflicts[i].candidates[k], false)
    ensures forall r :: r in v.records && r.id in ids ==> r.validity == VALID
    ensures forall c :: c in v.conflicts ==> c.recordId !in ids
  {
  }
}

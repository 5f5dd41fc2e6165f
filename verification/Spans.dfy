/** internal/graph/token.go:89-111: when the bytes of a required span lie inside selected spans. */
module Spans {
  import opened Keys

  datatype Span = Span(source: Key, start: int, end: int, sha: string)

  predicate SameText(a: Span, b: Span) {
    a.source == b.source && a.sha == b.sha
  }

  /** Byte b of the text r refers to lies in some selected span of that text. */
  ghost predicate Holds(r: Span, selected: seq<Span>, b: int) {
    exists i :: 0 <= i < |selected| && SameText(selected[i], r) && selected[i].start <= b < selected[i].end
  }

  /** Every byte of r does. */
  ghost predicate Pointwise(r: Span, selected: seq<Span>) {
    forall b :: r.start <= b < r.end ==> Holds(r, selected, b)
  }

  ghost predicate NothingBeyond(r: Span, selected: seq<Span>) {
    forall i :: 0 <= i < |selected| && SameText(selected[i], r) ==> selected[i].end <= r.start
  }

  /** What the sweep decides. A span that holds no bytes is accepted only when its start is inside a
      selected span or no selected span of its text ends beyond it. */
  ghost predicate Covered(r: Span, selected: seq<Span>) {
    if r.start < r.end then Pointwise(r, selected)
    else Holds(r, selected, r.start) || NothingBeyond(r, selected)
  }

  function Matching(r: Span, selected: seq<Span>): (out: seq<Span>)
    ensures forall s :: s in out <==> s in selected && SameText(s, r)
  {
    if selected == [] then []
    else
      assert selected == [selected[0]] + selected[1..];
      (if SameText(selected[0], r) then [selected[0]] else []) + Matching(r, selected[1..])
  }

  ghost predicate ByStart(s: seq<Span>) {
    forall i, j :: 0 <= i < j < |s| ==> s[i].start <= s[j].start
  }

  function InsertByStart(x: Span, s: seq<Span>): (out: seq<Span>)
    ensures forall y :: y in out <==> y == x || y in s
  {
    if s == [] then [x]
    else
      assert s == [s[0]] + s[1..];
      if s[0].start < x.start then [s[0]] + InsertByStart(x, s[1..]) else [x] + s
  }

  function SortByStart(s: seq<Span>): (out: seq<Span>)
    ensures forall y :: y in out <==> y in s
  {
    if s == [] then []
    else
      assert s == [s[0]] + s[1..];
      InsertByStart(s[0], SortByStart(s[1..]))
  }

  lemma {:induction false} InsertSorted(x: Span, s: seq<Span>)
    requires ByStart(s)
    ensures ByStart(InsertByStart(x, s))
  {
    if s != [] && s[0].start < x.start {
      InsertSorted(x, s[1..]);
      var rest := InsertByStart(x, s[1..]);
      forall j | 0 <= j < |rest| ensures s[0].start <= rest[j].start {
        assert rest[j] in rest;
      }
    }
  }

  lemma {:induction false} SortSorted(s: seq<Span>)
    ensures ByStart(SortByStart(s))
  {
    if s != [] {
      SortSorted(s[1..]);
      InsertSorted(s[0], SortByStart(s[1..]));
    }
  }

  /** Bytes from r.start up to end are held, and the first k spans reach no further. */
  ghost predicate Swept(r: Span, spans: seq<Span>, k: int, end: int)
    requires 0 <= k <= |spans|
  {
    && r.start <= end
    && (forall b :: r.start <= b < end ==> Holds(r, spans, b))
    && (forall i :: 0 <= i < k ==> spans[i].end <= end)
  }

  /** A gap in the sweep is a byte no span holds. */
  lemma GapFound(r: Span, spans: seq<Span>, k: nat, end: int)
    requires k < |spans| && ByStart(spans) && Swept(r, spans, k, end) && spans[k].start > end
    ensures !Holds(r, spans, end)
  {
    forall i | 0 <= i < |spans| ensures !(spans[i].start <= end < spans[i].end) {
      assert i > k ==> spans[k].start <= spans[i].start;
    }
  }

  /** token.go:97-110 */
  method Sweep(r: Span, spans: seq<Span>) returns (ok: bool)
    requires ByStart(spans) && forall i :: 0 <= i < |spans| ==> SameText(spans[i], r)
    ensures ok <==> Covered(r, spans)
  {
    var end := r.start;
    var k := 0;
    while k < |spans|
      invariant 0 <= k <= |spans| && Swept(r, spans, k, end)
      invariant end == r.start || end < r.end
    {
      var s := spans[k];
      if s.end > end {
        if s.start > end {
          GapFound(r, spans, k, end);
          return false;
        }
        assert Holds(r, spans, end);
        end := s.end;
        if end >= r.end {
          return true;
        }
      }
      k := k + 1;
    }
    ok := end >= r.end;
    if !ok {
      assert !Holds(r, spans, end);
    }
  }

  /** Filtering and sorting change nothing about which bytes are held. */
  lemma SameBytes(r: Span, a: seq<Span>, b: seq<Span>)
    requires forall s :: SameText(s, r) ==> (s in a <==> s in b)
    ensures Covered(r, a) <==> Covered(r, b)
  {
    HeldThere(r, a, b);
    HeldThere(r, b, a);
  }

  lemma HeldThere(r: Span, a: seq<Span>, b: seq<Span>)
    requires forall s :: SameText(s, r) && s in a ==> s in b
    ensures forall x :: Holds(r, a, x) ==> Holds(r, b, x)
    ensures NothingBeyond(r, b) ==> NothingBeyond(r, a)
  {
    forall x | Holds(r, a, x) ensures Holds(r, b, x) {
      var i :| 0 <= i < |a| && SameText(a[i], r) && a[i].start <= x < a[i].end;
      assert a[i] in b;
      var j :| 0 <= j < |b| && b[j] == a[i];
    }
    forall i | 0 <= i < |a| && SameText(a[i], r) && NothingBeyond(r, b) ensures a[i].end <= r.start {
      assert a[i] in b;
      var j :| 0 <= j < |b| && b[j] == a[i];
    }
  }

  /** token.go:89-111 */
  method RequiredEvidenceCovered(r: Span, selected: seq<Span>) returns (ok: bool)
    ensures ok <==> Covered(r, selected)
  {
    var spans := SortByStart(Matching(r, selected));
    SortSorted(Matching(r, selected));
    assert forall i :: 0 <= i < |spans| ==> spans[i] in spans;
    ok := Sweep(r, spans);
    SameBytes(r, spans, selected);
  }

  // ---------- laws ----------

  /** Selecting more never makes the check fail exactly for required spans with bytes. */
  lemma CoverageMonotone(r: Span)
    ensures (forall a: seq<Span>, b: seq<Span> :: Within(a, b) && Covered(r, a) ==> Covered(r, b)) <==> r.start < r.end
  {
    if r.start < r.end {
      forall a: seq<Span>, b: seq<Span> | Within(a, b) && Covered(r, a) ensures Covered(r, b) {
        HeldThere(r, a, b);
      }
    } else {
      EmptySpanNotMonotone(r);
    }
  }

  ghost predicate Within(a: seq<Span>, b: seq<Span>) {
    forall s :: s in a ==> s in b
  }

  /** Any span without bytes is covered by nothing at all and uncovered by a selected span further on.
      Every span of a spec is read before it is required or selected, which refuses spans without bytes,
      with one exception: ValidateRecovery compares the spans of the prior spec without compiling it, and
      those of the next spec before compiling it (internal/graph/recovery.go:46-55). */
  lemma EmptySpanNotMonotone(r: Span)
    requires r.start >= r.end
    ensures var far := [Span(r.source, r.start + 1, r.start + 2, r.sha)];
      Within([], far) && Covered(r, []) && !Covered(r, far)
  {
    var far := [Span(r.source, r.start + 1, r.start + 2, r.sha)];
    assert !(far[0].end <= r.start) && SameText(far[0], r);
  }

  /** What is covered by covered spans is covered. */
  lemma CoverageTransitive(r: Span, a: seq<Span>, b: seq<Span>)
    requires Pointwise(r, a)
    requires forall s :: s in a ==> Covered(s, b)
    ensures Pointwise(r, b)
  {
    forall x | r.start <= x < r.end ensures Holds(r, b, x) {
      assert Holds(r, a, x);
      var i :| 0 <= i < |a| && SameText(a[i], r) && a[i].start <= x < a[i].end;
      assert a[i] in a && Covered(a[i], b);
      assert Holds(a[i], b, x);
      var j :| 0 <= j < |b| && SameText(b[j], a[i]) && b[j].start <= x < b[j].end;
      assert SameText(b[j], r);
    }
  }
}

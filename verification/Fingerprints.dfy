/** internal/goal/evaluator_contract.go: what counts as the same evidence, plan or strategy. */
module Fingerprints {
  import opened Keys
  import opened Outcomes
  import opened Texts

  predicate Blank(s: string) {
    Trim(s) == ""
  }

  datatype Item = Item(kind: string, artifact: string, fact: string)

  datatype Evidence = Evidence(failure: string, items: seq<Item>)

  const FAILURES := {"TEST_FAILURE", "MISSING_CAPABILITY", "PERMISSION_DENIED", "ARCHITECTURE_CONFLICT",
    "DEPENDENCY_UNAVAILABLE", "POLICY_REJECTED", "TIMEOUT", "RESOURCE_EXHAUSTED", "INVALID_ASSUMPTION", "UNKNOWN"}

  /** evaluator_contract.go:38-54 */
  predicate ValidEvidence(e: Evidence) {
    && e.failure in FAILURES
    && 1 <= |e.items| <= 32
    && forall i :: 0 <= i < |e.items| ==> ValidItem(e.items[i])
  }

  predicate ValidItem(item: Item) {
    && !Blank(item.kind) && !Blank(item.fact)
    && |item.kind| <= 64 && |item.artifact| <= 128 && |item.fact| <= 4096
  }

  // ---------- evidence ----------

  /** What of an item the comparison function of the sort can see. */
  type Pair = (string, string)

  predicate PairBefore(a: Pair, b: Pair) {
    Before(a.0, b.0) || (a.0 == b.0 && Before(a.1, b.1))
  }

  function Visible(item: Item): Pair {
    (item.kind, Trim(item.fact))
  }

  function Semantic(p: Pair): Pair {
    (Trim(p.0), p.1)
  }

  function Pairs(items: seq<Item>): seq<Pair> {
    Mapped(items, Visible)
  }

  function Semantics(ps: seq<Pair>): seq<Pair> {
    Mapped(ps, Semantic)
  }

  function InsertPair(p: Pair, s: seq<Pair>): seq<Pair> {
    if s == [] then [p]
    else if PairBefore(s[0], p) then [s[0]] + InsertPair(p, s[1..])
    else [p] + s
  }

  function SortPairs(s: seq<Pair>): seq<Pair> {
    if s == [] then [] else InsertPair(s[0], SortPairs(s[1..]))
  }

  /** SHA-256 over JSON, idealised as the content digested. */
  datatype EvidencePrint = EvidencePrint(failure: string, facts: seq<Pair>)

  /** evaluator_contract.go:56-81 */
  function EvidenceFingerprint(e: Evidence): EvidencePrint {
    EvidencePrint(e.failure, Semantics(SortPairs(Pairs(e.items))))
  }

  lemma {:induction false} InsertPairPermutes(p: Pair, s: seq<Pair>)
    ensures multiset(InsertPair(p, s)) == multiset{p} + multiset(s)
  {
    if s != [] && PairBefore(s[0], p) {
      InsertPairPermutes(p, s[1..]);
      assert s == [s[0]] + s[1..];
    }
  }

  lemma {:induction false} SortPairsPermutes(s: seq<Pair>)
    ensures multiset(SortPairs(s)) == multiset(s)
  {
    if s != [] {
      SortPairsPermutes(s[1..]);
      InsertPairPermutes(s[0], SortPairs(s[1..]));
      assert s == [s[0]] + s[1..];
    }
  }

  lemma PairOrder()
    ensures forall a: Pair :: !PairBefore(a, a)
    ensures forall a: Pair, b: Pair, c: Pair :: PairBefore(a, b) && PairBefore(b, c) ==> PairBefore(a, c)
    ensures forall a: Pair, b: Pair :: a == b || PairBefore(a, b) || PairBefore(b, a)
  {
    BeforeOrder();
  }

  /** Inserting two pairs gives the same list in either order. */
  lemma {:induction false} InsertsCommute(a: Pair, b: Pair, s: seq<Pair>)
    ensures InsertPair(a, InsertPair(b, s)) == InsertPair(b, InsertPair(a, s))
  {
    PairOrder();
    if s != [] && PairBefore(s[0], a) && PairBefore(s[0], b) {
      InsertsCommute(a, b, s[1..]);
      assert InsertPair(a, s)[1..] == InsertPair(a, s[1..]);
      assert InsertPair(b, s)[1..] == InsertPair(b, s[1..]);
    } else if s != [] {
      assert ([a] + s)[1..] == s && ([b] + s)[1..] == s;
      assert InsertPair(a, s)[0] == if PairBefore(s[0], a) then s[0] else a;
      assert InsertPair(b, s)[0] == if PairBefore(s[0], b) then s[0] else b;
    }
  }

  /** Moving an element to the front does not change the sorted list. */
  lemma {:induction false} SortMoved(s: seq<Pair>, i: nat)
    requires i < |s|
    ensures SortPairs(s) == InsertPair(s[i], SortPairs(s[..i] + s[i + 1..]))
  {
    if i == 0 {
      assert s[..0] + s[1..] == s[1..];
    } else {
      var rest := s[1..];
      SortMoved(rest, i - 1);
      assert rest[..i - 1] + rest[i..] == (s[..i] + s[i + 1..])[1..];
      InsertsCommute(s[0], s[i], SortPairs(rest[..i - 1] + rest[i..]));
    }
  }

  lemma {:induction false} SortPairsUnique(s: seq<Pair>, t: seq<Pair>)
    requires multiset(s) == multiset(t)
    ensures SortPairs(s) == SortPairs(t)
  {
    SameElements(s, t);
    if s != [] {
      var i := TakenOut(s, t);
      SortMoved(t, i);
      SortPairsUnique(s[1..], t[..i] + t[i + 1..]);
    }
  }

  lemma {:induction false} ImagesPermute<T, U>(s: seq<T>, t: seq<T>, f: T -> U)
    requires multiset(s) == multiset(t)
    ensures multiset(Mapped(s, f)) == multiset(Mapped(t, f))
  {
    if s == [] {
      assert |multiset(t)| == |t|;
      assert t == [];
    } else {
      var i := TakenOut(s, t);
      var front := s[..0] + s[1..];
      assert front == s[1..];
      ImageOut(s, 0, f);
      ImageOut(t, i, f);
      ImagesPermute(front, t[..i] + t[i + 1..], f);
    }
  }

  lemma ImageOut<T, U>(s: seq<T>, i: nat, f: T -> U)
    requires i < |s|
    ensures multiset(Mapped(s, f)) == multiset{f(s[i])} + multiset(Mapped(s[..i] + s[i + 1..], f))
  {
    var before, after := Mapped(s[..i], f), Mapped(s[i + 1..], f);
    assert Mapped(s, f) == before + [f(s[i])] + after;
    assert Mapped(s[..i] + s[i + 1..], f) == before + after;
  }

  /** The order in which evidence is listed never makes it new. */
  lemma EvidenceOrderFree(a: Evidence, b: Evidence)
    requires a.failure == b.failure && multiset(a.items) == multiset(b.items)
    ensures EvidenceFingerprint(a) == EvidenceFingerprint(b)
  {
    ImagesPermute(a.items, b.items, Visible);
    SortPairsUnique(Pairs(a.items), Pairs(b.items));
  }

  ghost function Meaning(e: Evidence): (string, multiset<Pair>) {
    (e.failure, multiset(Semantics(Pairs(e.items))))
  }

  /** Different facts are never confused. */
  lemma FingerprintSeparates(a: Evidence, b: Evidence)
    requires EvidenceFingerprint(a) == EvidenceFingerprint(b)
    ensures Meaning(a) == Meaning(b)
  {
    forall e ensures multiset(EvidenceFingerprint(e).facts) == Meaning(e).1 {
      SortPairsPermutes(Pairs(e.items));
      ImagesPermute(SortPairs(Pairs(e.items)), Pairs(e.items), Semantic);
    }
  }

  // ---------- when white space on a kind matters ----------

  ghost predicate Ascending(s: seq<Pair>) {
    forall i, j :: 0 <= i < j < |s| ==> !PairBefore(s[j], s[i])
  }

  /** No two items stand in one order with their kinds as given and in the other with kinds trimmed. */
  ghost predicate TrimKeepsOrder(items: seq<Item>) {
    forall i, j :: 0 <= i < |items| && 0 <= j < |items| && PairBefore(Visible(items[i]), Visible(items[j])) ==>
      !PairBefore(Semantic(Visible(items[j])), Semantic(Visible(items[i])))
  }

  function TrimKind(item: Item): Item {
    item.(kind := Trim(item.kind))
  }

  function TrimKinds(e: Evidence): Evidence {
    Evidence(e.failure, Mapped(e.items, TrimKind))
  }

  lemma {:induction false} InsertAscending(p: Pair, s: seq<Pair>)
    requires Ascending(s)
    ensures Ascending(InsertPair(p, s))
  {
    PairOrder();
    if s != [] && PairBefore(s[0], p) {
      InsertAscending(p, s[1..]);
      var rest := InsertPair(p, s[1..]);
      forall q | q in rest ensures !PairBefore(q, s[0]) {
        InsertPairPermutes(p, s[1..]);
        assert q in multiset(rest);
      }
    }
  }

  lemma {:induction false} SortAscending(s: seq<Pair>)
    ensures Ascending(SortPairs(s))
  {
    if s != [] {
      SortAscending(s[1..]);
      InsertAscending(s[0], SortPairs(s[1..]));
    }
  }

  lemma {:induction false} SortFixed(s: seq<Pair>)
    requires Ascending(s)
    ensures SortPairs(s) == s
  {
    if s != [] {
      SortFixed(s[1..]);
      assert s == [s[0]] + s[1..];
      assert s[1..] != [] ==> s[1..][0] == s[1];
    }
  }

  lemma SortedSame(s: seq<Pair>, p: Pair)
    ensures p in SortPairs(s) <==> p in s
  {
    SortPairsPermutes(s);
    SameElements(SortPairs(s), s);
  }

  /** The list sorted as given is in order after trimming exactly when trimming turns no two items around. */
  lemma SortedThenTrimmed(items: seq<Item>)
    ensures Ascending(Semantics(SortPairs(Pairs(items)))) <==> TrimKeepsOrder(items)
  {
    var ps := Pairs(items);
    var sorted := SortPairs(ps);
    PairOrder();
    SortAscending(ps);
    if TrimKeepsOrder(items) {
      forall i, j | 0 <= i < j < |sorted| ensures !PairBefore(Semantic(sorted[j]), Semantic(sorted[i])) {
        SortedSame(ps, sorted[i]);
        SortedSame(ps, sorted[j]);
        var k :| 0 <= k < |ps| && ps[k] == sorted[i];
        var l :| 0 <= l < |ps| && ps[l] == sorted[j];
        assert !PairBefore(Visible(items[l]), Visible(items[k]));
      }
    }
    if Ascending(Semantics(sorted)) {
      forall k, l | 0 <= k < |items| && 0 <= l < |items| && PairBefore(Visible(items[k]), Visible(items[l]))
        ensures !PairBefore(Semantic(Visible(items[l])), Semantic(Visible(items[k])))
      {
        assert ps[k] in ps && ps[l] in ps;
        SortedSame(ps, ps[k]);
        SortedSame(ps, ps[l]);
        var i :| 0 <= i < |sorted| && sorted[i] == ps[k];
        var j :| 0 <= j < |sorted| && sorted[j] == ps[l];
        assert i < j;
        assert Semantics(sorted)[i] == Semantic(ps[k]) && Semantics(sorted)[j] == Semantic(ps[l]);
      }
    }
  }

  /** What the fingerprint is meant to be: the facts under their trimmed kinds, in order. */
  ghost function MeantPrint(e: Evidence): EvidencePrint {
    EvidencePrint(e.failure, SortPairs(Semantics(Pairs(e.items))))
  }

  lemma FingerprintMeant(e: Evidence)
    ensures EvidenceFingerprint(e) == MeantPrint(e) <==> TrimKeepsOrder(e.items)
  {
    var ps := Pairs(e.items);
    var facts := EvidenceFingerprint(e).facts;
    SortedThenTrimmed(e.items);
    SortAscending(Semantics(ps));
    if Ascending(facts) {
      SortFixed(facts);
      SortPairsPermutes(ps);
      ImagesPermute(SortPairs(ps), ps, Semantic);
      SortPairsUnique(facts, Semantics(ps));
    }
  }

  lemma TrimmedMeant(e: Evidence)
    ensures EvidenceFingerprint(TrimKinds(e)) == MeantPrint(e)
  {
    var ps := Semantics(Pairs(e.items));
    assert Pairs(TrimKinds(e).items) == ps;
    forall i | 0 <= i < |SortPairs(ps)| ensures Semantic(SortPairs(ps)[i]) == SortPairs(ps)[i] {
      SortedSame(ps, SortPairs(ps)[i]);
      var k :| 0 <= k < |ps| && ps[k] == SortPairs(ps)[i];
      TrimTwice(e.items[k].kind);
    }
    assert Semantics(SortPairs(ps)) == SortPairs(ps);
  }

  /** White space around kinds goes unnoticed exactly when trimming it turns no two items around. */
  lemma PaddingUnnoticed(e: Evidence)
    ensures EvidenceFingerprint(e) == EvidenceFingerprint(TrimKinds(e)) <==> TrimKeepsOrder(e.items)
  {
    FingerprintMeant(e);
    TrimmedMeant(e);
  }

  /** Beside evidence whose order trimming keeps, exactly the evidence of the same meaning that keeps its
      order too has the same fingerprint. */
  lemma FingerprintExact(a: Evidence, b: Evidence)
    requires TrimKeepsOrder(a.items)
    ensures EvidenceFingerprint(a) == EvidenceFingerprint(b) <==> Meaning(a) == Meaning(b) && TrimKeepsOrder(b.items)
  {
    FingerprintMeant(a);
    FingerprintMeant(b);
    if EvidenceFingerprint(a) == EvidenceFingerprint(b) {
      FingerprintSeparates(a, b);
    }
    if Meaning(a) == Meaning(b) {
      SortPairsUnique(Semantics(Pairs(a.items)), Semantics(Pairs(b.items)));
    }
  }

  /** Kinds without outer white space keep their order. */
  lemma TrimmedKeepOrder(e: Evidence)
    requires forall i :: 0 <= i < |e.items| ==> Trim(e.items[i].kind) == e.items[i].kind
    ensures TrimKeepsOrder(e.items)
  {
    PairOrder();
    forall i | 0 <= i < |e.items| ensures Semantic(Visible(e.items[i])) == Visible(e.items[i]) {
    }
  }

  /** The sort compares kinds untrimmed, so outer white space on a kind can make old evidence look
      new: two valid lists with the same meaning and different fingerprints. */
  lemma PaddedKindLooksNew(failure: string, x: char, y: char, a: Evidence, b: Evidence)
    requires failure in FAILURES && ' ' < x < y && !Space(x) && !Space(y)
    requires a == Evidence(failure, [Item([y], "", [y]), Item([x], "", [x])])
    requires b == Evidence(failure, [Item([' ', y], "", [y]), Item([x], "", [x])])
    ensures ValidEvidence(a) && ValidEvidence(b)
    ensures Meaning(a) == Meaning(b) && EvidenceFingerprint(a) != EvidenceFingerprint(b)
  {
    TrimOne(x);
    TrimOne(y);
    assert ValidItem(a.items[0]) && ValidItem(b.items[0]) && ValidItem(a.items[1]);
    TwoItems(failure, a.items[0], a.items[1]);
    TwoItems(failure, b.items[0], b.items[1]);
  }

  lemma TwoItems(failure: string, p: Item, q: Item)
    ensures var e := Evidence(failure, [p, q]);
      && Meaning(e) == (failure, multiset{Semantic(Visible(p)), Semantic(Visible(q))})
      && |EvidenceFingerprint(e).facts| == 2
      && EvidenceFingerprint(e).facts[0] == Semantic(if PairBefore(Visible(q), Visible(p)) then Visible(q) else Visible(p))
  {
    assert Pairs([p, q]) == [Visible(p), Visible(q)];
    assert Semantics(Pairs([p, q])) == [Semantic(Visible(p)), Semantic(Visible(q))];
    SortTwo(Visible(p), Visible(q));
  }

  lemma TrimOne(c: char)
    requires !Space(c)
    ensures Trim([c]) == [c] && Trim([' ', c]) == [c]
  {
    assert [' ', c][1..] == [c];
  }

  lemma SortTwo(p: Pair, q: Pair)
    ensures SortPairs([p, q]) == if PairBefore(q, p) then [q, p] else [p, q]
  {
    assert [p, q][1..] == [q] && [q][1..] == [];
    assert SortPairs([q]) == [q];
    assert SortPairs([p, q]) == InsertPair(p, [q]);
    assert PairBefore(q, p) ==> InsertPair(p, [q]) == [q] + InsertPair(p, []);
  }

  // ---------- plans ----------

  datatype Proposal = Proposal(
    strategy: string,
    class_: string,
    dependencies: string,
    capabilities: seq<string>,
    assumptions: seq<string>,
    evaluation: string,
    sideEffects: string,
    jobSpecHash: string)

  predicate Hex(s: string) {
    forall i :: 0 <= i < |s| ==> '0' <= s[i] <= '9' || 'a' <= s[i] <= 'f'
  }

  /** evaluator_contract.go:94-108 */
  predicate ValidProposal(p: Proposal) {
    && !Blank(p.strategy) && !Blank(p.class_) && !Blank(p.dependencies)
    && |p.strategy| <= 4096 && |p.class_| <= 128 && |p.dependencies| <= 4096
    && |p.evaluation| <= 1024 && |p.sideEffects| <= 128
    && |p.capabilities| <= 64 && |p.assumptions| <= 64
    && (p.jobSpecHash != "" ==> |p.jobSpecHash| == 64 && Hex(p.jobSpecHash))
  }

  /** evaluator_contract.go:119-141, idealised as the content digested. */
  function PlanFingerprint(p: Proposal): Proposal {
    p.(capabilities := SortBy(p.capabilities, Itself), assumptions := SortBy(p.assumptions, Itself))
  }

  datatype Signature = Signature(class_: string, dependencies: string, sideEffects: string)

  /** evaluator_contract.go:174-186, idealised as the content digested. */
  function StrategySignature(p: Proposal): Signature {
    Signature(Trim(p.class_), Trim(p.dependencies), Trim(p.sideEffects))
  }

  /** A plan already seen cannot return under a strategy signature of its own. */
  lemma {:induction false} SamePlanSameSignature(p: Proposal, q: Proposal)
    requires PlanFingerprint(p) == PlanFingerprint(q)
    ensures StrategySignature(p) == StrategySignature(q)
    ensures multiset(p.capabilities) == multiset(q.capabilities) && multiset(p.assumptions) == multiset(q.assumptions)
  {
    SortByPermutes(p.capabilities, Itself);
    SortByPermutes(q.capabilities, Itself);
    SortByPermutes(p.assumptions, Itself);
    SortByPermutes(q.assumptions, Itself);
    assert PlanFingerprint(p).class_ == PlanFingerprint(q).class_;
    assert PlanFingerprint(p).dependencies == PlanFingerprint(q).dependencies;
    assert PlanFingerprint(p).sideEffects == PlanFingerprint(q).sideEffects;
  }

  /** Plans have one fingerprint exactly when they agree in every text and list the same capabilities and
      assumptions in any order. */
  lemma PlanFingerprintExact(p: Proposal, q: Proposal)
    ensures PlanFingerprint(p) == PlanFingerprint(q) <==>
      && p.strategy == q.strategy && p.class_ == q.class_ && p.dependencies == q.dependencies && p.evaluation == q.evaluation
      && p.sideEffects == q.sideEffects && p.jobSpecHash == q.jobSpecHash
      && multiset(p.capabilities) == multiset(q.capabilities) && multiset(p.assumptions) == multiset(q.assumptions)
  {
    SortedSameExactly(p.capabilities, q.capabilities);
    SortedSameExactly(p.assumptions, q.assumptions);
    if PlanFingerprint(p) == PlanFingerprint(q) {
      assert PlanFingerprint(p).strategy == PlanFingerprint(q).strategy && PlanFingerprint(p).class_ == PlanFingerprint(q).class_;
      assert PlanFingerprint(p).dependencies == PlanFingerprint(q).dependencies && PlanFingerprint(p).evaluation == PlanFingerprint(q).evaluation;
      assert PlanFingerprint(p).sideEffects == PlanFingerprint(q).sideEffects && PlanFingerprint(p).jobSpecHash == PlanFingerprint(q).jobSpecHash;
      assert PlanFingerprint(p).capabilities == PlanFingerprint(q).capabilities && PlanFingerprint(p).assumptions == PlanFingerprint(q).assumptions;
    }
  }

  lemma SortedSameExactly(s: seq<string>, t: seq<string>)
    ensures SortBy(s, Itself) == SortBy(t, Itself) <==> multiset(s) == multiset(t)
  {
    SortByPermutes(s, Itself);
    SortByPermutes(t, Itself);
    if multiset(s) == multiset(t) {
      SortByAscends(s, Itself);
      SortByAscends(t, Itself);
      SortedUnique(SortBy(s, Itself), SortBy(t, Itself));
    }
  }

  /** Strategies are the same exactly when class, dependencies and side effects are, but for outer white space. */
  lemma SignatureExact(p: Proposal, q: Proposal)
    ensures StrategySignature(p) == StrategySignature(q) <==>
      Trim(p.class_) == Trim(q.class_) && Trim(p.dependencies) == Trim(q.dependencies) && Trim(p.sideEffects) == Trim(q.sideEffects)
  {
  }

  // ---------- strategy deltas and progress ----------

  datatype StrategyDelta = StrategyDelta(dimensions: seq<string>, summary: string)

  /** evaluator_contract.go:159-172 */
  predicate ValidDelta(d: StrategyDelta) {
    && 1 <= |d.dimensions| <= 16
    && !Blank(d.summary) && |d.summary| <= 2048
    && forall i :: 0 <= i < |d.dimensions| ==> !Blank(d.dimensions[i]) && |d.dimensions[i]| <= 64
  }

  datatype Progress = Progress(accepted: int, failed: int, unknown: int, resolved: int, blockers: int)

  /** evaluator_contract.go:196-201 */
  predicate ValidProgress(p: Progress) {
    p.accepted >= 0 && p.failed >= 0 && p.unknown >= 0 && p.resolved >= 0 && p.blockers >= 0
  }

  /** evaluator_contract.go:203-209 */
  predicate ImprovedOver(p: Progress, prev: Progress) {
    || p.accepted > prev.accepted || p.failed < prev.failed || p.unknown < prev.unknown
    || p.resolved > prev.resolved || p.blockers < prev.blockers
  }
}

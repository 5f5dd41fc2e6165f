/** internal/graph/coverage_verifier.go:69-257: the verifier as a whole, and what its verdicts are worth. */
module OrderVerifier {
  import opened Keys
  import opened Outcomes
  import opened OrderTotals
  import opened OrderSources
  import opened OrderChecks

  /** usable: the profile is valid, of the orders kind, and the context is alive. */
  datatype Profile = Profile(version: string, scope: Key, usable: bool)

  datatype Result = Result(verdict: Verdict, checks: seq<(Key, Verdict)>)

  predicate Serves(p: Profile, catalog: Option<Coverage.Catalog>) {
    && p.usable && catalog.Some?
    && catalog.value.profileVersion == p.version && catalog.value.scope == p.scope && catalog.value.sealed
  }

  /** The case the verifier judges: what the sources say and what the orders add up to. */
  ghost predicate Decides(p: Profile, catalog: Option<Coverage.Catalog>, sources: seq<OrderSource>, d: Decoders, c: Option<Case>) {
    match c
    case Some(k) => Serves(p, catalog) && ReadsTo(catalog.value, sources, d, k.facts) && Adds(k)
    case None => Serves(p, catalog) ==> forall k: Case :: ReadsTo(catalog.value, sources, d, k.facts) ==> !Adds(k)
  }

  ghost predicate ReadsTo(cat: Coverage.Catalog, sources: seq<OrderSource>, d: Decoders, f: OrderFacts) {
    exists t, g :: Reads(cat, sources, t, g, d, f)
  }

  /** The sum of the orders fits 64 bits, and due is what remains of it after discounts. */
  ghost predicate Adds(c: Case) {
    && ValidOrders(c.facts.originals)
    && Gross(BookOf(c.facts.originals, c.facts.excluded)) <= MAX
    && c.due == Net(BookOf(c.facts.originals, c.facts.excluded), c.facts.rule)
  }

  ghost function OutputsOf(cat: Coverage.Catalog, id: Key): Outputs {
    if exists b :: b in cat.checks && b.id == id then
      var b :| b in cat.checks && b.id == id;
      b.outputs
    else []
  }

  ghost function Verdicts(cat: Coverage.Catalog, vs: Values, c: Case, ids: seq<Key>): seq<(Key, Verdict)> {
    seq(|ids|, i requires 0 <= i < |ids| => (ids[i], Judged(ids[i], vs, OutputsOf(cat, ids[i]), c)))
  }

  /** The worst of them. */
  ghost function Overall(checks: seq<(Key, Verdict)>): Verdict {
    if exists i :: 0 <= i < |checks| && checks[i].1 == Fail then Fail
    else if exists i :: 0 <= i < |checks| && checks[i].1 == Unknown then Unknown
    else Pass
  }

  /** coverage_verifier.go:69-78 */
  function AllUnknown(catalog: Option<Coverage.Catalog>): Result {
    if catalog.None? then Result(Unknown, [])
    else Result(Unknown, seq(|catalog.value.checks|, i requires 0 <= i < |catalog.value.checks| => (catalog.value.checks[i].id, Unknown)))
  }

  /** coverage_verifier.go:191-250: the checks one after the other, the worst verdict kept. */
  method RunChecks(ids: seq<Key>, cat: Coverage.Catalog, m: Bindings, vs: Values, c: Case) returns (r: Result)
    requires Bound(cat.checks, m, Required()) && forall id :: id in ids ==> id in m
    ensures r.checks == Verdicts(cat, vs, c, ids) && r.verdict == Overall(r.checks)
  {
    var overall, checks: seq<(Key, Verdict)> := Pass, [];
    for k := 0 to |ids|
      invariant checks == Verdicts(cat, vs, c, ids[..k]) && overall == Overall(checks)
    {
      var id := ids[k];
      BoundHere(cat, m, id);
      var verdict := RunCheck(id, vs, m[id], c);
      VerdictsNext(cat, vs, c, ids, k);
      WorstNext(checks, (id, verdict));
      checks := checks + [(id, verdict)];
      if verdict == Fail {
        overall := Fail;
      } else if verdict == Unknown && overall != Fail {
        overall := Unknown;
      }
    }
    assert ids[..|ids|] == ids;
    r := Result(overall, checks);
  }

  lemma VerdictsNext(cat: Coverage.Catalog, vs: Values, c: Case, ids: seq<Key>, k: nat)
    requires k < |ids|
    ensures Verdicts(cat, vs, c, ids[..k + 1]) == Verdicts(cat, vs, c, ids[..k]) + [(ids[k], Judged(ids[k], vs, OutputsOf(cat, ids[k]), c))]
  {
  }

  lemma BoundHere(cat: Coverage.Catalog, m: Bindings, id: Key)
    requires Bound(cat.checks, m, Required()) && id in m
    ensures OutputsOf(cat, id) == m[id]
  {
    assert id in BoundIds(cat.checks);
    var b :| b in cat.checks && b.id == id;
  }

  lemma WorstNext(checks: seq<(Key, Verdict)>, one: (Key, Verdict))
    ensures Overall(checks + [one]) ==
      if one.1 == Fail || Overall(checks) == Fail then Fail
      else if one.1 == Unknown || Overall(checks) == Unknown then Unknown
      else Pass
  {
    var more := checks + [one];
    assert more[|checks|] == one;
    assert forall i :: 0 <= i < |checks| ==> more[i] == checks[i];
  }

  /** coverage_verifier.go:80-257, with the case that was judged. */
  method JudgeCase(p: Profile, catalog: Option<Coverage.Catalog>, sources: seq<OrderSource>, d: Decoders, vs: Values, late: bool)
    returns (r: Result, ghost c: Option<Case>)
    ensures Decides(p, catalog, sources, d, c)
    ensures c.Some? && !late ==>
      r.checks == Verdicts(catalog.value, vs, c.value, CHECKS) && r.verdict == Overall(r.checks)
    ensures c.None? || late ==> r == AllUnknown(catalog)
  {
    r, c := AllUnknown(catalog), None;
    if !Serves(p, catalog) {
      return;
    }
    var cat := catalog.value;
    var header := ReadHeader(cat, sources, d);
    if header.Refused? {
      return;
    }
    var (t, g, m) := header.value;
    var facts := ReadFacts(cat, sources, t, g, d);
    NoOtherFacts(cat, sources, d, t, g, facts);
    if facts.Refused? {
      return;
    }
    var f := facts.value;
    HoldValid(g.orders, {cat.goalSource}, t, d, f.originals);
    var total := Total(f.originals, f.excluded, f.rule);
    if total.Refused? {
      return;
    }
    c := Some(Case(f, total.value));
    if late {
      return;
    }
    assert forall id :: id in CHECKS ==> id in Required();
    r := RunChecks(CHECKS, cat, m, vs, Case(f, total.value));
  }

  ghost predicate Answers(r: Result, catalog: Option<Coverage.Catalog>, vs: Values, late: bool, c: Option<Case>)
    requires c.Some? ==> catalog.Some?
  {
    if c.Some? && !late then r.checks == Verdicts(catalog.value, vs, c.value, CHECKS) && r.verdict == Overall(r.checks)
    else r == AllUnknown(catalog)
  }

  /** coverage_verifier.go:80-257. late: the deadline passed before the end. There is a case to judge or
      there is none, and the answer is the one for it. */
  method RunCoverageVerifier(p: Profile, catalog: Option<Coverage.Catalog>, sources: seq<OrderSource>, d: Decoders, vs: Values, late: bool)
    returns (r: Result)
    ensures exists c :: Decides(p, catalog, sources, d, c)
    ensures forall c :: Decides(p, catalog, sources, d, c) ==> Answers(r, catalog, vs, late, c)
  {
    ghost var c;
    r, c := JudgeCase(p, catalog, sources, d, vs, late);
    forall k | Decides(p, catalog, sources, d, k) ensures k == c {
      CaseUnique(p, catalog, sources, d, k, c);
    }
  }

  lemma NoOtherFacts(cat: Coverage.Catalog, sources: seq<OrderSource>, d: Decoders, t: Table, g: OrderGoal, r: Outcome<OrderFacts>)
    requires Tabled(sources, t) && GoalRead(cat, t, g, d)
    requires r.Accepted? ==> Reads(cat, sources, t, g, d, r.value)
    requires r.Refused? ==> forall f :: !Reads(cat, sources, t, g, d, f)
    ensures forall f :: ReadsTo(cat, sources, d, f) <==> r == Accepted(f)
  {
    forall f | ReadsTo(cat, sources, d, f) ensures r == Accepted(f) {
      var u, h :| Reads(cat, sources, u, h, d, f);
      TableUnique(sources, t, u);
      if r.Accepted? {
        ReadsUnique(cat, sources, d, t, g, r.value, u, h, f);
      }
    }
  }

  // ---------- laws ----------

  /** What a decided case rests on: one goal of the supported form, its orders, one rule that applies once,
      and exceptions of the one known kind. */
  ghost predicate Founded(cat: Coverage.Catalog, t: Table, d: Decoders, c: Case, g: OrderGoal) {
    && cat.goalSource in t && d.goal(t[cat.goalSource]) == Some(g)
    && g.version == "iu-orders-goal-v1" && |g.currency| == 3 && g.unit == "cent" && 1 <= |g.orders| <= 32 && g.exceptions.Some?
    && c.facts.currency == g.currency && c.facts.unit == g.unit && (c.facts.excluded <==> g.exceptions.value != [])
    && g.rule in t && RuleFound(d.rule(t[g.rule]), c.facts.rule)
    && (forall x :: x in g.exceptions.value ==> x in t && d.exception(t[x]) == Some("special_no_discount"))
    && (forall x :: x in g.orders ==> OrderFound(x, t, d, c.facts.originals))
    && (forall k :: k in c.facts.originals ==> Decoded(g.orders, t, d, c.facts.originals[k]))
  }

  ghost predicate RuleFound(r: Option<RuleText>, rule: Rule) {
    && r.Some? && r.value.threshold == Some(rule.threshold) && r.value.discount == Some(rule.discount) && r.value.most == Some(1)
    && rule.threshold >= 1 && rule.discount >= 0
  }

  ghost predicate ReadAs(x: Key, t: Table, d: Decoders, o: Order) {
    x in t && d.order(t[x]) == Some(o)
  }

  /** Source x is an order with all its fields, kept under its identity. */
  ghost predicate OrderFound(x: Key, t: Table, d: Decoders, originals: map<Key, Order>) {
    exists o :: ReadAs(x, t, d, o) && Complete(o) && o.id in originals && originals[o.id] == o
  }

  ghost predicate Complete(o: Order) {
    1 <= |o.id| <= 256 && 1 <= |o.customer| <= 256 && o.paid.Some? && o.paid.value >= 0 && o.special.Some?
  }

  ghost predicate Decoded(ids: seq<Key>, t: Table, d: Decoders, o: Order) {
    exists x :: x in ids && ReadAs(x, t, d, o)
  }

  ghost predicate TableOf(sources: seq<OrderSource>, t: Table) {
    && (forall s :: s in sources ==> s.intact && s.id in t && t[s.id] == s.text)
    && (forall id :: id in t ==> exists s :: s in sources && s.id == id)
  }

  lemma CaseFounded(p: Profile, catalog: Option<Coverage.Catalog>, sources: seq<OrderSource>, d: Decoders, c: Case)
    requires Decides(p, catalog, sources, d, Some(c))
    ensures catalog.Some? && catalog.value.sealed && p.usable && p.version == catalog.value.profileVersion && p.scope == catalog.value.scope
    ensures exists s :: s in sources && s.id == catalog.value.goalSource && s.sha == catalog.value.goalHash
    ensures exists t, g :: TableOf(sources, t) && Founded(catalog.value, t, d, c, g)
  {
    var t, g :| Reads(catalog.value, sources, t, g, d, c.facts);
    RuleFounded(catalog.value, sources, t, g, d, c.facts);
    OrdersFounded(g.orders, {catalog.value.goalSource}, t, d, c.facts.originals);
    assert TableOf(sources, t) && Founded(catalog.value, t, d, c, g);
  }

  lemma RuleFounded(cat: Coverage.Catalog, sources: seq<OrderSource>, t: Table, g: OrderGoal, d: Decoders, f: OrderFacts)
    requires Reads(cat, sources, t, g, d, f)
    ensures g.exceptions.Some? && g.rule in t && RuleFound(d.rule(t[g.rule]), f.rule)
    ensures forall x :: x in g.exceptions.value ==> x in t && d.exception(t[x]) == Some("special_no_discount")
  {
    assert forall x :: x in g.exceptions.value ==> ExceptionReadable(x, {cat.goalSource} + Elements(g.orders) + {g.rule}, t, d);
  }

  lemma SourceFound(ids: seq<Key>, used: set<Key>, t: Table, d: Decoders, m: map<Key, Order>, x: Key)
    requires Hold(ids, used, t, d, m) && x in ids
    ensures OrderFound(x, t, d, m)
  {
    assert OrderReadable(x, used, t, d);
    var o := OrderAt(x, t, d);
    assert ReadAs(x, t, d, o) && Complete(o) && o.id in m && m[o.id] == o;
  }

  lemma OriginalFound(ids: seq<Key>, used: set<Key>, t: Table, d: Decoders, m: map<Key, Order>, k: Key)
    requires Hold(ids, used, t, d, m) && k in m
    ensures Decoded(ids, t, d, m[k])
  {
    var x :| x in ids && OrderAt(x, t, d).id == k;
    assert OrderReadable(x, used, t, d) && OrderAt(x, t, d) == m[k];
    assert ReadAs(x, t, d, m[k]);
  }

  lemma OrdersFounded(ids: seq<Key>, used: set<Key>, t: Table, d: Decoders, m: map<Key, Order>)
    requires Hold(ids, used, t, d, m)
    ensures forall x :: x in ids ==> OrderFound(x, t, d, m)
    ensures forall k :: k in m ==> Decoded(ids, t, d, m[k])
  {
    forall x | x in ids ensures OrderFound(x, t, d, m) {
      SourceFound(ids, used, t, d, m, x);
    }
    forall k | k in m ensures Decoded(ids, t, d, m[k]) {
      OriginalFound(ids, used, t, d, m, k);
    }
  }

  /** There is one case, so the result depends on the inputs alone and not on the order in which maps
      are visited. */
  lemma CaseUnique(p: Profile, catalog: Option<Coverage.Catalog>, sources: seq<OrderSource>, d: Decoders, a: Option<Case>, b: Option<Case>)
    requires Decides(p, catalog, sources, d, a) && Decides(p, catalog, sources, d, b)
    ensures a == b
  {
    if a.Some? && b.Some? {
      var t, g :| Reads(catalog.value, sources, t, g, d, a.value.facts);
      var u, h :| Reads(catalog.value, sources, u, h, d, b.value.facts);
      ReadsUnique(catalog.value, sources, d, t, g, a.value.facts, u, h, b.value.facts);
    }
  }

  /** The four parts a source can play. */
  ghost function Parts(cat: Coverage.Catalog, g: OrderGoal, id: Key): set<string>
    requires g.exceptions.Some?
  {
    (if id == cat.goalSource then {"goal"} else {}) + (if id in g.orders then {"order"} else {})
    + (if id == g.rule then {"rule"} else {}) + (if id in g.exceptions.value then {"exception"} else {})
  }

  ghost predicate Classified(cat: Coverage.Catalog, sources: seq<OrderSource>, d: Decoders, g: OrderGoal) {
    && (exists s :: s in sources && s.id == cat.goalSource && s.sha == cat.goalHash && d.goal(s.text) == Some(g))
    && g.exceptions.Some? && forall s :: s in sources ==> |Parts(cat, g, s.id)| == 1
  }

  /** A verdict is given only over sources that name a goal of which every one of them is the goal
      itself, an order, the rule or an exception, and only one of these. */
  lemma EverySourceClassified(p: Profile, catalog: Option<Coverage.Catalog>, sources: seq<OrderSource>, d: Decoders, vs: Values, late: bool, r: Result, c: Option<Case>)
    requires Decides(p, catalog, sources, d, c) && Answers(r, catalog, vs, late, c) && r.verdict != Unknown
    ensures catalog.Some? && exists g :: Classified(catalog.value, sources, d, g)
  {
    var cat := catalog.value;
    var t, g :| Reads(cat, sources, t, g, d, c.value.facts);
    forall s | s in sources ensures |Parts(cat, g, s.id)| == 1 {
      OnePart(cat, sources, t, g, d, c.value.facts, s.id);
    }
    var s :| s in sources && s.id == cat.goalSource && s.sha == cat.goalHash;
    assert Classified(cat, sources, d, g);
  }

  lemma Apart(cat: Coverage.Catalog, sources: seq<OrderSource>, t: Table, g: OrderGoal, d: Decoders, f: OrderFacts, id: Key)
    requires Reads(cat, sources, t, g, d, f) && id in t
    ensures id == cat.goalSource || id in g.orders || id == g.rule || id in g.exceptions.value
    ensures id == cat.goalSource ==> id !in g.orders && id != g.rule && id !in g.exceptions.value
    ensures id in g.orders ==> id != g.rule && id !in g.exceptions.value
    ensures id == g.rule ==> id !in g.exceptions.value
  {
    assert forall k :: k in g.orders ==> OrderReadable(k, {cat.goalSource}, t, d);
    assert forall k :: k in g.exceptions.value ==> ExceptionReadable(k, {cat.goalSource} + Elements(g.orders) + {g.rule}, t, d);
  }

  lemma OnePart(cat: Coverage.Catalog, sources: seq<OrderSource>, t: Table, g: OrderGoal, d: Decoders, f: OrderFacts, id: Key)
    requires Reads(cat, sources, t, g, d, f) && id in t
    ensures |Parts(cat, g, id)| == 1
  {
    Apart(cat, sources, t, g, d, f, id);
    var part := if id == cat.goalSource then "goal" else if id in g.orders then "order" else if id == g.rule then "rule" else "exception";
    assert Parts(cat, g, id) == {part};
  }

  /** What one check accepts. */
  lemma PassExactly(check: Key, vs: Values, outs: Outputs, c: Case)
    ensures Judged(check, vs, outs, c) == Pass <==>
      && (forall out :: out in outs ==> Read(vs, out).Some? && !Contradicts(check, Read(vs, out).value, c))
      && (forall o :: o in Shown(vs, outs) ==> Known(o, c) && (FieldsMatter(check) ==> c.facts.originals[o.id] == o))
      && (forall o, p :: o in Shown(vs, outs) && p in Shown(vs, outs) && o.id == p.id ==> o == p)
      && ShownIds(Shown(vs, outs), c) == c.facts.originals.Keys
  {
    var shown := Shown(vs, outs);
    if Judged(check, vs, outs, c) == Pass {
      forall o, p | o in shown && p in shown && o.id == p.id ensures o == p {
        assert Clash(o, p, c) || o == p;
      }
    }
  }

  ghost function Originals(c: Case): set<Order> {
    set k | k in c.facts.originals :: c.facts.originals[k]
  }

  /** The checks that compare fields accept exactly those outputs that show the original orders, all of
      them and nothing else. */
  lemma {:induction false} FieldChecksReproduce(check: Key, vs: Values, outs: Outputs, c: Case)
    requires FieldsMatter(check) && ValidOrders(c.facts.originals)
    requires forall k :: k in c.facts.originals ==> c.facts.originals[k].id == k
    ensures Judged(check, vs, outs, c) == Pass <==>
      && (forall out :: out in outs ==> Read(vs, out).Some? && !Contradicts(check, Read(vs, out).value, c))
      && Shown(vs, outs) == Originals(c)
  {
    PassExactly(check, vs, outs, c);
    var shown := Shown(vs, outs);
    if Judged(check, vs, outs, c) == Pass {
      forall o | o in Originals(c) ensures o in shown {
        assert o.id in ShownIds(shown, c);
        var p :| p in shown && Known(p, c) && p.id == o.id;
      }
    }
    if shown == Originals(c) {
      forall k | k in c.facts.originals ensures k in ShownIds(shown, c) {
        var o := c.facts.originals[k];
        assert o in shown && Known(o, c);
      }
    }
  }

  /** The checks that look at the total, and those that compare orders field by field. */
  const TOTAL_CHECKS := {"threshold_once", "customer_grouping", "exception_rules"}

  const FIELD_CHECKS := {"source_fields", "customer_grouping", "exception_rules"}

  /** Every output can be judged, the total checks find the right total and the currency check the
      goal's currency and unit. */
  ghost predicate Uncontradicted(check: Key, vs: Values, outs: Outputs, c: Case) {
    forall out :: out in outs ==>
      && Read(vs, out).Some?
      && (check in TOTAL_CHECKS ==> Read(vs, out).value.total == Some(c.due))
      && (check == "currency_unit" ==> Read(vs, out).value.currency == c.facts.currency && Read(vs, out).value.unit == c.facts.unit)
  }

  /** The outputs name the original orders, each of them and no other, and never in two ways. */
  ghost predicate NamesOriginals(vs: Values, outs: Outputs, c: Case) {
    && (forall o :: o in Shown(vs, outs) ==> Known(o, c))
    && (forall k :: k in c.facts.originals ==> exists o :: o in Shown(vs, outs) && o.id == k)
    && (forall o, p :: o in Shown(vs, outs) && p in Shown(vs, outs) && o.id == p.id ==> o == p)
  }

  /** What the outputs bound to a check have to carry. */
  ghost predicate Reproduces(check: Key, vs: Values, outs: Outputs, c: Case) {
    && Uncontradicted(check, vs, outs, c)
    && if check in FIELD_CHECKS then Shown(vs, outs) == Originals(c) else NamesOriginals(vs, outs, c)
  }

  lemma CheckReproduces(check: Key, vs: Values, outs: Outputs, c: Case)
    requires ValidOrders(c.facts.originals) && forall k :: k in c.facts.originals ==> c.facts.originals[k].id == k
    ensures Judged(check, vs, outs, c) == Pass <==> Reproduces(check, vs, outs, c)
  {
    UncontradictedMeans(check, vs, outs, c);
    if FieldsMatter(check) {
      FieldChecksReproduce(check, vs, outs, c);
    } else {
      NamesExactly(check, vs, outs, c);
    }
  }

  lemma NamesExactly(check: Key, vs: Values, outs: Outputs, c: Case)
    requires !FieldsMatter(check)
    ensures Judged(check, vs, outs, c) == Pass <==>
      && (forall out :: out in outs ==> Read(vs, out).Some? && !Contradicts(check, Read(vs, out).value, c))
      && NamesOriginals(vs, outs, c)
  {
    PassExactly(check, vs, outs, c);
    if forall o :: o in Shown(vs, outs) ==> Known(o, c) {
      ShownAll(vs, outs, c);
    }
  }

  lemma UncontradictedMeans(check: Key, vs: Values, outs: Outputs, c: Case)
    ensures Uncontradicted(check, vs, outs, c) <==>
      forall out :: out in outs ==> Read(vs, out).Some? && !Contradicts(check, Read(vs, out).value, c)
  {
  }

  lemma ShownAll(vs: Values, outs: Outputs, c: Case)
    requires forall o :: o in Shown(vs, outs) ==> Known(o, c)
    ensures ShownIds(Shown(vs, outs), c) == c.facts.originals.Keys <==>
      forall k :: k in c.facts.originals ==> exists o :: o in Shown(vs, outs) && o.id == k
  {
    var shown := Shown(vs, outs);
    if forall k :: k in c.facts.originals ==> exists o :: o in shown && o.id == k {
      forall k | k in c.facts.originals ensures k in ShownIds(shown, c) {
        var o :| o in shown && o.id == k;
      }
    }
    if ShownIds(shown, c) == c.facts.originals.Keys {
      forall k | k in c.facts.originals ensures exists o :: o in shown && o.id == k {
        assert k in ShownIds(shown, c);
      }
    }
  }

  /** The answer is an overall pass exactly when the sources decide a case in time and the outputs bound to
      each of the six checks reproduce what that check is about. */
  lemma PassReproduces(p: Profile, catalog: Option<Coverage.Catalog>, sources: seq<OrderSource>, d: Decoders, vs: Values, late: bool, r: Result, c: Option<Case>)
    requires Decides(p, catalog, sources, d, c) && Answers(r, catalog, vs, late, c)
    ensures r.verdict == Pass <==>
      c.Some? && !late && forall id :: id in CHECKS ==> Reproduces(id, vs, OutputsOf(catalog.value, id), c.value)
  {
    if c.Some? && !late {
      var cat := catalog.value;
      var t, g :| Reads(cat, sources, t, g, d, c.value.facts);
      HoldValid(g.orders, {cat.goalSource}, t, d, c.value.facts.originals);
      forall id | id in CHECKS ensures Judged(id, vs, OutputsOf(cat, id), c.value) == Pass <==> Reproduces(id, vs, OutputsOf(cat, id), c.value) {
        CheckReproduces(id, vs, OutputsOf(cat, id), c.value);
      }
      PassAll(cat, vs, c.value);
    }
  }

  /** Something shown is wrong: a total, a currency or unit, an order that is no original or differs from its
      original where fields count, or one order shown in two ways. */
  ghost predicate Refuted(check: Key, vs: Values, outs: Outputs, c: Case) {
    || (exists out :: out in outs && Read(vs, out).Some? && Misstates(check, Read(vs, out).value, c))
    || (exists o :: o in Shown(vs, outs) && Complete(o) && Foreign(check, o, c))
    || (exists o, p :: o in Shown(vs, outs) && p in Shown(vs, outs) && Complete(o) && Complete(p) && o.id in c.facts.originals && o.id == p.id && o != p)
  }

  ghost predicate Misstates(check: Key, a: Answer, c: Case) {
    || (check in TOTAL_CHECKS && a.total != Some(c.due))
    || (check == "currency_unit" && !(a.currency == c.facts.currency && a.unit == c.facts.unit))
  }

  ghost predicate Foreign(check: Key, o: Order, c: Case) {
    o.id !in c.facts.originals || (check in FIELD_CHECKS && c.facts.originals[o.id] != o)
  }

  /** Something cannot be judged: an output that is missing, too long or not of the form, or an order with
      fields missing. */
  ghost predicate Unclear(vs: Values, outs: Outputs) {
    (exists out :: out in outs && Read(vs, out).None?) || exists o :: o in Shown(vs, outs) && !Complete(o)
  }

  ghost predicate Lacking(vs: Values, outs: Outputs, c: Case) {
    exists k :: k in c.facts.originals && forall o :: o in Shown(vs, outs) ==> o.id != k
  }

  lemma RefutedMeans(check: Key, vs: Values, outs: Outputs, c: Case)
    ensures Refuted(check, vs, outs, c) <==> WrongOutput(check, vs, outs, c) || WrongShown(check, Shown(vs, outs), c)
  {
    forall o: Order ensures Complete(o) <==> ValidOrder(o) {
    }
    forall out | out in outs && Read(vs, out).Some? ensures Misstates(check, Read(vs, out).value, c) <==> Contradicts(check, Read(vs, out).value, c) {
    }
    forall o: Order | Complete(o) ensures Foreign(check, o, c) <==> WrongOrder(check, o, c) {
    }
    if o, p :| o in Shown(vs, outs) && p in Shown(vs, outs) && Complete(o) && Complete(p) && o.id in c.facts.originals && o.id == p.id && o != p {
      assert Clash(o, p, c);
    }
    if o, p :| o in Shown(vs, outs) && p in Shown(vs, outs) && Clash(o, p, c) {
      assert Complete(o) && Complete(p);
    }
  }

  /** A check fails exactly when something shown is wrong, or when all is clear and an original is missing; it
      stays unknown exactly when nothing is wrong and something is unclear. */
  lemma JudgedExactly(check: Key, vs: Values, outs: Outputs, c: Case)
    ensures Judged(check, vs, outs, c) == Unknown <==> !Refuted(check, vs, outs, c) && Unclear(vs, outs)
    ensures Judged(check, vs, outs, c) == Fail <==> Refuted(check, vs, outs, c) || (!Unclear(vs, outs) && Lacking(vs, outs, c))
  {
    RefutedMeans(check, vs, outs, c);
    assert Unclear(vs, outs) <==> MissingOutput(vs, outs) || UnclearShown(Shown(vs, outs));
    if !Refuted(check, vs, outs, c) && !Unclear(vs, outs) {
      LackingMeans(check, vs, outs, c);
    }
  }

  lemma LackingMeans(check: Key, vs: Values, outs: Outputs, c: Case)
    requires !WrongShown(check, Shown(vs, outs), c) && !UnclearShown(Shown(vs, outs))
    ensures Lacking(vs, outs, c) <==> ShownIds(Shown(vs, outs), c) != c.facts.originals.Keys
  {
    var shown := Shown(vs, outs);
    forall o | o in shown ensures Known(o, c) {
      assert !WrongOrder(check, o, c);
    }
    ShownAll(vs, outs, c);
  }

  lemma PassAll(cat: Coverage.Catalog, vs: Values, c: Case)
    ensures Overall(Verdicts(cat, vs, c, CHECKS)) == Pass <==> forall id :: id in CHECKS ==> Judged(id, vs, OutputsOf(cat, id), c) == Pass
  {
    var checks := Verdicts(cat, vs, c, CHECKS);
    assert forall i :: 0 <= i < |CHECKS| ==> checks[i].1 == Judged(CHECKS[i], vs, OutputsOf(cat, CHECKS[i]), c);
    if Overall(checks) == Pass {
      forall id | id in CHECKS ensures Judged(id, vs, OutputsOf(cat, id), c) == Pass {
        var i :| 0 <= i < |CHECKS| && CHECKS[i] == id;
        assert checks[i].1 == Pass;
      }
    } else {
      var i :| 0 <= i < |checks| && checks[i].1 != Pass;
      assert CHECKS[i] in CHECKS;
    }
  }

  /** The same checks with the same outputs, listed in another order. */
  ghost predicate Rearranged(a: Coverage.Catalog, b: Coverage.Catalog) {
    && b == a.(checks := b.checks)
    && DistinctKeys(a.checks, Coverage.CheckId) && DistinctKeys(b.checks, Coverage.CheckId)
    && BoundIds(a.checks) == BoundIds(b.checks)
    && forall x, y :: x in a.checks && y in b.checks && x.id == y.id ==> multiset(x.outputs) == multiset(y.outputs)
  }

  lemma VerdictRearranged(check: Key, vs: Values, these: Outputs, those: Outputs, c: Case)
    requires forall out :: out in these <==> out in those
    ensures Judged(check, vs, these, c) == Judged(check, vs, those, c)
  {
    assert Shown(vs, these) == Shown(vs, those);
  }

  lemma OutputsRearranged(a: Coverage.Catalog, b: Coverage.Catalog, id: Key)
    requires Rearranged(a, b)
    ensures forall out :: out in OutputsOf(a, id) <==> out in OutputsOf(b, id)
  {
    if id in BoundIds(a.checks) {
      var x :| x in a.checks && x.id == id && OutputsOf(a, id) == x.outputs;
      assert id in BoundIds(b.checks);
      var y :| y in b.checks && y.id == id && OutputsOf(b, id) == y.outputs;
      SameElements(x.outputs, y.outputs);
    } else {
      assert id !in BoundIds(b.checks);
    }
  }

  lemma BindsRearranged(a: Coverage.Catalog, b: Coverage.Catalog)
    requires Rearranged(a, b) && BindsAll(a.checks, Required())
    ensures BindsAll(b.checks, Required())
  {
    forall y | y in b.checks ensures Binds(y, Required()) {
      assert y.id in BoundIds(a.checks);
      var x :| x in a.checks && x.id == y.id;
      SameElements(x.outputs, y.outputs);
    }
  }

  lemma ReadsRearranged(a: Coverage.Catalog, b: Coverage.Catalog, sources: seq<OrderSource>, d: Decoders, f: OrderFacts)
    requires Rearranged(a, b) && ReadsTo(a, sources, d, f)
    ensures ReadsTo(b, sources, d, f)
  {
    var t, g :| Reads(a, sources, t, g, d, f);
    BindsRearranged(a, b);
    assert Reads(b, sources, t, g, d, f);
  }

  lemma DecidesRearranged(p: Profile, a: Coverage.Catalog, b: Coverage.Catalog, sources: seq<OrderSource>, d: Decoders, c: Case)
    requires Rearranged(a, b) && Decides(p, Some(a), sources, d, Some(c))
    ensures Decides(p, Some(b), sources, d, Some(c))
  {
    ReadsRearranged(a, b, sources, d, c.facts);
  }

  /** Neither the order in which the catalog lists its checks nor that of the outputs bound to them can
      change a verdict. */
  lemma OutputOrderIrrelevant(p: Profile, a: Coverage.Catalog, b: Coverage.Catalog, sources: seq<OrderSource>, d: Decoders, vs: Values, r: Result, c: Case)
    requires Rearranged(a, b) && Decides(p, Some(a), sources, d, Some(c)) && Answers(r, Some(a), vs, false, Some(c))
    ensures Decides(p, Some(b), sources, d, Some(c)) && Answers(r, Some(b), vs, false, Some(c))
  {
    DecidesRearranged(p, a, b, sources, d, c);
    var these, those := Verdicts(a, vs, c, CHECKS), Verdicts(b, vs, c, CHECKS);
    forall i | 0 <= i < |CHECKS| ensures these[i] == those[i] {
      OutputsRearranged(a, b, CHECKS[i]);
      VerdictRearranged(CHECKS[i], vs, OutputsOf(a, CHECKS[i]), OutputsOf(b, CHECKS[i]), c);
    }
    assert these == those;
  }

  /** The other checks look at identities only: an order with a different price passes them. */
  lemma IdentityIsNotContent()
    ensures var o := Order("o", "c", Some(5), Some(false));
      var c := Case(OrderFacts(map["o" := o.(paid := Some(7))], Rule(1, 0), false, "EUR", "cent"), 7);
      var vs := Values(map["n/p" := ""], _ => Some(Answer(Some([o]), Some(7), "EUR", "cent")));
      Judged("source_identity", vs, [Coverage.Output("n", "p")], c) == Pass
  {
    var o := Order("o", "c", Some(5), Some(false));
    var c := Case(OrderFacts(map["o" := o.(paid := Some(7))], Rule(1, 0), false, "EUR", "cent"), 7);
    var vs := Values(map["n/p" := ""], _ => Some(Answer(Some([o]), Some(7), "EUR", "cent")));
    var out := Coverage.Output("n", "p");
    assert out.node + "/" + out.port == "n/p";
    assert Read(vs, out) == Some(Answer(Some([o]), Some(7), "EUR", "cent"));
    OneShown(vs, out);
    assert Elements([o]) == {o};
    assert ShownIds({o}, c) == {"o"};
    PassExactly("source_identity", vs, [out], c);
  }

  lemma OneShown(vs: Values, out: Coverage.Output)
    requires Read(vs, out).Some?
    ensures Shown(vs, [out]) == Elements(Read(vs, out).value.orders.value)
  {
    assert out in [out];
  }
}

/** internal/graph/coverage_verifier.go:80-165: reading the goal, the orders, the rule and the exceptions
    out of the sources, so that every source plays exactly one part. */
module OrderSources {
  import opened Keys
  import opened Outcomes
  import opened OrderTotals
  import Coverage

  const CHECKS := ["source_identity", "source_fields", "customer_grouping", "threshold_once", "exception_rules", "currency_unit"]

  /** sha is the digest the source carries, intact whether it is that of its text. */
  datatype OrderSource = OrderSource(id: Key, text: string, sha: string, intact: bool)

  datatype OrderGoal = OrderGoal(
    version: string,
    currency: string,
    unit: string,
    orders: seq<Key>,
    rule: Key,
    exceptions: Option<seq<Key>>,
    required: seq<Key>)

  datatype RuleText = RuleText(threshold: Option<Int64>, discount: Option<Int64>, most: Option<Int64>)

  /** The strict decoders, one for each kind of text. */
  datatype Decoders = Decoders(
    goal: string -> Option<OrderGoal>,
    order: string -> Option<Order>,
    rule: string -> Option<RuleText>,
    exception: string -> Option<string>)

  type Table = map<Key, string>

  /** What the sources say. */
  datatype OrderFacts = OrderFacts(originals: map<Key, Order>, rule: Rule, excluded: bool, currency: string, unit: string)

  // ---------- orders ----------

  /** Source id is free to be read as an order, and is one. */
  predicate OrderReadable(id: Key, used: set<Key>, table: Table, d: Decoders) {
    id !in used && id in table && d.order(table[id]).Some? && ValidOrder(d.order(table[id]).value)
  }

  function OrderAt(id: Key, table: Table, d: Decoders): Order
    requires id in table && d.order(table[id]).Some?
  {
    d.order(table[id]).value
  }

  /** The sources ids are distinct readable orders, and m holds them by their own identities. */
  ghost predicate Hold(ids: seq<Key>, used: set<Key>, table: Table, d: Decoders, m: map<Key, Order>) {
    && DistinctKeys(ids, Itself)
    && (forall id :: id in ids ==> OrderReadable(id, used, table, d))
    && (forall id :: id in ids ==> OrderAt(id, table, d).id in m && m[OrderAt(id, table, d).id] == OrderAt(id, table, d))
    && (forall k :: k in m ==> exists id :: id in ids && OrderAt(id, table, d).id == k)
  }

  lemma DistinctNext(ids: seq<Key>, k: nat)
    requires k < |ids| && DistinctKeys(ids[..k], Itself) && ids[k] !in ids[..k]
    ensures DistinctKeys(ids[..k + 1], Itself)
    ensures forall id :: id in ids[..k + 1] <==> id in ids[..k] || id == ids[k]
  {
    var more := ids[..k + 1];
    assert more == ids[..k] + [ids[k]];
    forall i, j | 0 <= i < j < |more| ensures Itself(more[i]) != Itself(more[j]) {
      assert more[i] in ids[..k];
    }
  }

  lemma HoldNext(ids: seq<Key>, k: nat, used: set<Key>, table: Table, d: Decoders, m: map<Key, Order>)
    requires k < |ids| && Hold(ids[..k], used, table, d, m)
    requires ids[k] !in ids[..k] && OrderReadable(ids[k], used, table, d)
    requires var o := OrderAt(ids[k], table, d); o.id in m ==> m[o.id] == o
    ensures var o := OrderAt(ids[k], table, d); Hold(ids[..k + 1], used, table, d, m[o.id := o])
  {
    var o := OrderAt(ids[k], table, d);
    var more, n := ids[..k + 1], m[o.id := o];
    DistinctNext(ids, k);
    forall id | id in more ensures OrderReadable(id, used, table, d) && OrderAt(id, table, d).id in n && n[OrderAt(id, table, d).id] == OrderAt(id, table, d) {
      assert id in ids[..k] || id == ids[k];
    }
    forall x | x in n ensures exists id :: id in more && OrderAt(id, table, d).id == x {
      if x == o.id {
        assert ids[k] in more;
      } else {
        var id :| id in ids[..k] && OrderAt(id, table, d).id == x;
        assert id in more;
      }
    }
  }

  /** Where reading stops, nothing would hold the sources. */
  lemma HoldNever(ids: seq<Key>, k: nat, used: set<Key>, table: Table, d: Decoders, m: map<Key, Order>, n: map<Key, Order>)
    requires k < |ids| && Hold(ids[..k], used, table, d, m)
    requires ids[k] !in ids[..k] && OrderReadable(ids[k], used, table, d) ==>
      var o := OrderAt(ids[k], table, d); o.id in m && m[o.id] != o
    ensures !Hold(ids, used, table, d, n)
  {
    Repeats(ids, k);
    if ids[k] !in ids[..k] && OrderReadable(ids[k], used, table, d) {
      var o := OrderAt(ids[k], table, d);
      var id :| id in ids[..k] && OrderAt(id, table, d).id == o.id;
      assert id in ids;
    }
  }

  lemma Repeats(ids: seq<Key>, k: nat)
    requires k < |ids|
    ensures ids[k] in ids && (ids[k] in ids[..k] ==> !DistinctKeys(ids, Itself))
  {
    if ids[k] in ids[..k] {
      var i :| 0 <= i < k && ids[i] == ids[k];
      assert Itself(ids[i]) == Itself(ids[k]);
    }
  }

  lemma ElementsNext(ids: seq<Key>, k: nat)
    requires k < |ids|
    ensures Elements(ids[..k + 1]) == Elements(ids[..k]) + {ids[k]}
  {
    assert ids[..k + 1] == ids[..k] + [ids[k]];
  }

  /** coverage_verifier.go:131-138, 141-149: one order; marked are the sources already used. */
  method ReadOrder(ids: seq<Key>, k: nat, used: set<Key>, marked: set<Key>, table: Table, d: Decoders, originals: map<Key, Order>)
    returns (r: Outcome<map<Key, Order>>)
    requires k < |ids| && Hold(ids[..k], used, table, d, originals) && marked == used + Elements(ids[..k])
    ensures r.Accepted? ==> Hold(ids[..k + 1], used, table, d, r.value)
    ensures r.Refused? ==> forall m :: !Hold(ids, used, table, d, m)
  {
    var id := ids[k];
    if id !in marked && OrderReadable(id, used, table, d) {
      var o := OrderAt(id, table, d);
      if o.id !in originals || originals[o.id] == o {
        HoldNext(ids, k, used, table, d, originals);
        return Accepted(originals[o.id := o]);
      }
    }
    forall m ensures !Hold(ids, used, table, d, m) {
      HoldNever(ids, k, used, table, d, originals, m);
    }
    r := Refused;
  }

  /** coverage_verifier.go:140-150 */
  method ReadOrders(ids: seq<Key>, used: set<Key>, table: Table, d: Decoders) returns (r: Outcome<map<Key, Order>>, marked: set<Key>)
    ensures r.Accepted? ==> Hold(ids, used, table, d, r.value) && marked == used + Elements(ids)
    ensures r.Refused? ==> forall m :: !Hold(ids, used, table, d, m)
  {
    var originals: map<Key, Order> := map[];
    marked := used;
    for k := 0 to |ids|
      invariant Hold(ids[..k], used, table, d, originals) && marked == used + Elements(ids[..k])
    {
      r := ReadOrder(ids, k, used, marked, table, d, originals);
      if r.Refused? {
        return;
      }
      ElementsNext(ids, k);
      originals, marked := r.value, marked + {ids[k]};
    }
    assert ids[..|ids|] == ids;
    r := Accepted(originals);
  }

  // ---------- exceptions ----------

  predicate ExceptionReadable(id: Key, used: set<Key>, table: Table, d: Decoders) {
    id !in used && id in table && d.exception(table[id]) == Some("special_no_discount")
  }

  ghost predicate Except(ids: seq<Key>, used: set<Key>, table: Table, d: Decoders) {
    DistinctKeys(ids, Itself) && forall id :: id in ids ==> ExceptionReadable(id, used, table, d)
  }

  /** coverage_verifier.go:155-163 */
  method ReadExceptions(ids: seq<Key>, used: set<Key>, table: Table, d: Decoders) returns (ok: bool, marked: set<Key>)
    ensures ok <==> Except(ids, used, table, d)
    ensures ok ==> marked == used + Elements(ids)
  {
    marked := used;
    for k := 0 to |ids|
      invariant Except(ids[..k], used, table, d) && marked == used + Elements(ids[..k])
    {
      var id := ids[k];
      ElementsNext(ids, k);
      if id in marked || !ExceptionReadable(id, used, table, d) {
        Repeats(ids, k);
        return false, marked;
      }
      assert ids[..k + 1] == ids[..k] + [id];
      marked := marked + {id};
    }
    assert ids[..|ids|] == ids;
    ok := true;
  }

  // ---------- sources, goal and checks ----------

  function OrderSourceId(s: OrderSource): Key { s.id }

  ghost predicate Tabled(sources: seq<OrderSource>, table: Table) {
    && DistinctKeys(sources, OrderSourceId)
    && (forall s :: s in sources ==> s.intact && s.id in table && table[s.id] == s.text)
    && (forall id :: id in table ==> exists s :: s in sources && s.id == id)
  }

  /** coverage_verifier.go:92-98 */
  method Tabulate(sources: seq<OrderSource>) returns (r: Outcome<Table>)
    ensures r.Accepted? ==> Tabled(sources, r.value)
    ensures r.Refused? ==> forall t :: !Tabled(sources, t)
  {
    var table: Table := map[];
    for k := 0 to |sources|
      invariant Tabled(sources[..k], table)
    {
      var s := sources[k];
      if s.id in table || !s.intact {
        if s.id in table {
          var p :| p in sources[..k] && p.id == s.id;
          var i :| 0 <= i < k && sources[i] == p;
          assert OrderSourceId(sources[i]) == OrderSourceId(sources[k]);
        }
        assert s in sources;
        return Refused;
      }
      TabledNext(sources, k, table);
      table := table[s.id := s.text];
    }
    assert sources[..|sources|] == sources;
    r := Accepted(table);
  }

  lemma TabledNext(sources: seq<OrderSource>, k: nat, table: Table)
    requires k < |sources| && Tabled(sources[..k], table) && sources[k].intact && sources[k].id !in table
    ensures Tabled(sources[..k + 1], table[sources[k].id := sources[k].text])
  {
    var s, more, t := sources[k], sources[..k + 1], table[sources[k].id := sources[k].text];
    assert forall x :: x in more <==> x in sources[..k] || x == s;
    forall i, j | 0 <= i < j < |more| ensures OrderSourceId(more[i]) != OrderSourceId(more[j]) {
      assert more[i] in sources[..k];
      assert j < k ==> sources[..k][j] == more[j] && sources[..k][i] == more[i];
    }
    forall id | id in t ensures exists x :: x in more && x.id == id {
      if id == s.id {
        assert s in more;
      } else {
        var x :| x in sources[..k] && x.id == id;
        assert x in more;
      }
    }
  }

  /** coverage_verifier.go:105-107 */
  predicate GoalSupported(g: OrderGoal) {
    && g.version == "iu-orders-goal-v1" && |g.currency| == 3 && g.unit == "cent"
    && 1 <= |g.orders| <= 32 && g.exceptions.Some?
  }

  /** coverage_verifier.go:151-154 */
  predicate RuleSupported(t: RuleText) {
    && t.threshold.Some? && t.threshold.value >= 1
    && t.discount.Some? && t.discount.value >= 0
    && t.most == Some(1)
  }

  /** A list naming each of the required checks exactly once. */
  ghost predicate NamesAll(ids: seq<Key>, required: set<Key>) {
    DistinctKeys(ids, Itself) && Elements(ids) == required
  }

  predicate Binds(b: Coverage.Check, required: set<Key>) {
    b.id in required && 1 <= |b.outputs| <= 32
  }

  ghost function BoundIds(checks: seq<Coverage.Check>): set<Key> {
    set b | b in checks :: b.id
  }

  ghost predicate BindsAll(checks: seq<Coverage.Check>, required: set<Key>) {
    && DistinctKeys(checks, Coverage.CheckId)
    && (forall b :: b in checks ==> Binds(b, required))
    && BoundIds(checks) == required
  }

  /** For a part of a set, having its size is being all of it. */
  lemma {:induction false} SameSize(part: set<Key>, all: set<Key>)
    requires part <= all
    ensures |part| == |all| <==> part == all
  {
    if part != all {
      assert all == part + (all - part) && |all| == |part| + |all - part|;
      var k :| k in all - part;
    }
  }

  /** coverage_verifier.go:108-121 */
  method CheckNames(ids: seq<Key>, required: set<Key>) returns (ok: bool)
    ensures ok <==> NamesAll(ids, required)
  {
    var have: set<Key> := {};
    for k := 0 to |ids|
      invariant DistinctKeys(ids[..k], Itself) && have == Elements(ids[..k]) <= required
    {
      if ids[k] !in required || ids[k] in have {
        Repeats(ids, k);
        assert ids[k] in Elements(ids);
        return false;
      }
      DistinctNext(ids, k);
      ElementsNext(ids, k);
      have := have + {ids[k]};
    }
    assert ids[..|ids|] == ids;
    SameSize(have, required);
    ok := |have| == |required|;
  }

  type Bindings = map<Key, seq<Coverage.Output>>

  ghost predicate Bound(checks: seq<Coverage.Check>, m: Bindings, required: set<Key>) {
    && DistinctKeys(checks, Coverage.CheckId) && m.Keys == BoundIds(checks)
    && forall b :: b in checks ==> Binds(b, required) && m[b.id] == b.outputs
  }

  lemma BoundNext(checks: seq<Coverage.Check>, k: nat, m: Bindings, required: set<Key>)
    requires k < |checks| && Bound(checks[..k], m, required) && Binds(checks[k], required) && checks[k].id !in m
    ensures Bound(checks[..k + 1], m[checks[k].id := checks[k].outputs], required)
  {
    var b, more := checks[k], checks[..k + 1];
    var n := m[b.id := b.outputs];
    IdsDistinct(checks, k);
    BoundIdsNext(checks, k);
    assert n.Keys == m.Keys + {b.id};
    forall x | x in more ensures Binds(x, required) && x.id in n && n[x.id] == x.outputs {
      if x != b {
        assert x in checks[..k] && x.id in BoundIds(checks[..k]);
      }
    }
  }

  lemma BoundIdsNext(checks: seq<Coverage.Check>, k: nat)
    requires k < |checks|
    ensures BoundIds(checks[..k + 1]) == BoundIds(checks[..k]) + {checks[k].id}
    ensures forall x :: x in checks[..k + 1] ==> x in checks[..k] || x == checks[k]
  {
    assert checks[..k + 1] == checks[..k] + [checks[k]];
  }

  lemma IdsDistinct(checks: seq<Coverage.Check>, k: nat)
    requires k < |checks| && DistinctKeys(checks[..k], Coverage.CheckId) && checks[k].id !in BoundIds(checks[..k])
    ensures DistinctKeys(checks[..k + 1], Coverage.CheckId)
  {
    var more := checks[..k + 1];
    forall i, j | 0 <= i < j < |more| ensures Coverage.CheckId(more[i]) != Coverage.CheckId(more[j]) {
      assert more[i] in checks[..k];
      assert j < k ==> checks[..k][i] == more[i] && checks[..k][j] == more[j];
    }
  }

  lemma BoundNever(checks: seq<Coverage.Check>, k: nat, m: Bindings, required: set<Key>)
    requires k < |checks| && Bound(checks[..k], m, required) && !(Binds(checks[k], required) && checks[k].id !in m)
    ensures !BindsAll(checks, required)
  {
    var b := checks[k];
    assert b in checks;
    if b.id in m {
      var x :| x in checks[..k] && x.id == b.id;
      var i :| 0 <= i < k && checks[i] == x;
      assert Coverage.CheckId(checks[i]) == Coverage.CheckId(checks[k]);
    }
  }

  lemma BoundWithin(checks: seq<Coverage.Check>, m: Bindings, required: set<Key>)
    requires Bound(checks, m, required)
    ensures m.Keys <= required
  {
  }

  /** coverage_verifier.go:119-130 */
  method Bind(checks: seq<Coverage.Check>, required: set<Key>) returns (r: Outcome<Bindings>)
    ensures r.Accepted? <==> BindsAll(checks, required)
    ensures r.Accepted? ==> Bound(checks, r.value, required) && r.value.Keys == required
  {
    var m: Bindings := map[];
    for k := 0 to |checks|
      invariant Bound(checks[..k], m, required) && |m.Keys| == k
    {
      var b := checks[k];
      if b.id !in required || |b.outputs| < 1 || |b.outputs| > 32 || b.id in m {
        BoundNever(checks, k, m, required);
        return Refused;
      }
      BoundNext(checks, k, m, required);
      m := m[b.id := b.outputs];
    }
    assert checks[..|checks|] == checks;
    BoundWithin(checks, m, required);
    SameSize(m.Keys, required);
    if |checks| != |required| {
      return Refused;
    }
    r := Accepted(m);
  }

  function Required(): set<Key> {
    set id | id in CHECKS
  }

  // ---------- everything read ----------

  ghost predicate GoalHash(sources: seq<OrderSource>, cat: Coverage.Catalog) {
    exists s :: s in sources && s.id == cat.goalSource && s.sha == cat.goalHash
  }

  ghost predicate RuleRead(g: OrderGoal, used: set<Key>, t: Table, d: Decoders, rule: Rule) {
    && g.rule !in used && g.rule in t && d.rule(t[g.rule]).Some? && RuleSupported(d.rule(t[g.rule]).value)
    && rule == Rule(d.rule(t[g.rule]).value.threshold.value, d.rule(t[g.rule]).value.discount.value)
  }

  /** t is the table of sources and g the goal in it; goal, orders, rule and exceptions are different
      sources, together all of them; and f is what they say. */
  ghost predicate Reads(cat: Coverage.Catalog, sources: seq<OrderSource>, t: Table, g: OrderGoal, d: Decoders, f: OrderFacts) {
    && Tabled(sources, t) && GoalHash(sources, cat)
    && GoalRead(cat, t, g, d)
    && BindsAll(cat.checks, Required())
    && Hold(g.orders, {cat.goalSource}, t, d, f.originals)
    && RuleRead(g, {cat.goalSource} + Elements(g.orders), t, d, f.rule)
    && Except(g.exceptions.value, {cat.goalSource} + Elements(g.orders) + {g.rule}, t, d)
    && t.Keys == {cat.goalSource} + Elements(g.orders) + {g.rule} + Elements(g.exceptions.value)
    && f.excluded == (g.exceptions.value != []) && f.currency == g.currency && f.unit == g.unit
  }

  ghost predicate GoalRead(cat: Coverage.Catalog, t: Table, g: OrderGoal, d: Decoders) {
    cat.goalSource in t && d.goal(t[cat.goalSource]) == Some(g) && GoalSupported(g) && NamesAll(g.required, Required())
  }

  lemma {:induction false} TableUnique(sources: seq<OrderSource>, t: Table, u: Table)
    requires Tabled(sources, t) && Tabled(sources, u)
    ensures t == u
  {
    forall id | id in t ensures id in u && t[id] == u[id] {
      var s :| s in sources && s.id == id;
    }
    forall id | id in u ensures id in t {
      var s :| s in sources && s.id == id;
    }
    assert t.Keys == u.Keys;
  }

  lemma HoldUnique(ids: seq<Key>, used: set<Key>, t: Table, d: Decoders, m: map<Key, Order>, n: map<Key, Order>)
    requires Hold(ids, used, t, d, m) && Hold(ids, used, t, d, n)
    ensures m == n
  {
    forall k | k in m ensures k in n && m[k] == n[k] {
      var id :| id in ids && OrderAt(id, t, d).id == k;
    }
    forall k | k in n ensures k in m {
      var id :| id in ids && OrderAt(id, t, d).id == k;
    }
    assert m.Keys == n.Keys;
  }

  /** The sources say one thing. */
  lemma ReadsUnique(cat: Coverage.Catalog, sources: seq<OrderSource>, d: Decoders, t: Table, g: OrderGoal, f: OrderFacts, u: Table, h: OrderGoal, e: OrderFacts)
    requires Reads(cat, sources, t, g, d, f) && Reads(cat, sources, u, h, d, e)
    ensures t == u && g == h && f == e
  {
    TableUnique(sources, t, u);
    HoldUnique(g.orders, {cat.goalSource}, t, d, f.originals, e.originals);
  }

  lemma HoldValid(ids: seq<Key>, used: set<Key>, t: Table, d: Decoders, m: map<Key, Order>)
    requires Hold(ids, used, t, d, m)
    ensures ValidOrders(m) && forall k :: k in m ==> m[k].id == k
  {
    forall k | k in m ensures ValidOrder(m[k]) && m[k].id == k {
      var id :| id in ids && OrderAt(id, t, d).id == k;
    }
  }

  /** The reading stopped: no table, goal and facts fit. */
  ghost predicate Unreadable(cat: Coverage.Catalog, sources: seq<OrderSource>, d: Decoders) {
    forall t, g, f :: !Reads(cat, sources, t, g, d, f)
  }

  method FindGoalHash(sources: seq<OrderSource>, cat: Coverage.Catalog) returns (ok: bool)
    ensures ok <==> GoalHash(sources, cat)
  {
    ok := exists s :: s in sources && s.id == cat.goalSource && s.sha == cat.goalHash;
  }

  /** coverage_verifier.go:92-130: sources, goal and catalog, before any order is read. */
  method ReadHeader(cat: Coverage.Catalog, sources: seq<OrderSource>, d: Decoders) returns (r: Outcome<(Table, OrderGoal, Bindings)>)
    ensures r.Accepted? ==>
      && Tabled(sources, r.value.0) && GoalHash(sources, cat) && GoalRead(cat, r.value.0, r.value.1, d)
      && BindsAll(cat.checks, Required()) && Bound(cat.checks, r.value.2, Required()) && r.value.2.Keys == Required()
    ensures r.Refused? ==> Unreadable(cat, sources, d)
  {
    var table := Tabulate(sources);
    if table.Refused? {
      return Refused;
    }
    var t := table.value;
    forall u | Tabled(sources, u) ensures u == t {
      TableUnique(sources, t, u);
    }
    var hash := FindGoalHash(sources, cat);
    if !hash || cat.goalSource !in t {
      return Refused;
    }
    var goal := d.goal(t[cat.goalSource]);
    if goal.None? || !GoalSupported(goal.value) {
      return Refused;
    }
    var named := CheckNames(goal.value.required, Required());
    if !named {
      return Refused;
    }
    var bound := Bind(cat.checks, Required());
    if bound.Refused? {
      return Refused;
    }
    r := Accepted((t, goal.value, bound.value));
  }

  /** coverage_verifier.go:131-165: what the sources say, given sources, goal and catalog. */
  method ReadFacts(cat: Coverage.Catalog, sources: seq<OrderSource>, t: Table, g: OrderGoal, d: Decoders) returns (r: Outcome<OrderFacts>)
    requires Tabled(sources, t) && GoalHash(sources, cat) && GoalRead(cat, t, g, d) && BindsAll(cat.checks, Required())
    ensures r.Accepted? ==> Reads(cat, sources, t, g, d, r.value)
    ensures r.Refused? ==> forall f :: !Reads(cat, sources, t, g, d, f)
  {
    var orders, marked := ReadOrders(g.orders, {cat.goalSource}, t, d);
    if orders.Refused? || g.rule in marked || g.rule !in t {
      return Refused;
    }
    var rule := d.rule(t[g.rule]);
    if rule.None? || !RuleSupported(rule.value) {
      return Refused;
    }
    var ok, all := ReadExceptions(g.exceptions.value, marked + {g.rule}, t, d);
    if !ok || all != t.Keys {
      return Refused;
    }
    r := Accepted(OrderFacts(orders.value, Rule(rule.value.threshold.value, rule.value.discount.value), g.exceptions.value != [], g.currency, g.unit));
  }
}

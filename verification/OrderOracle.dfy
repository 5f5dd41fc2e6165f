/** internal/iuexperiment/experiment.go:86-116: the same amount computed from the list of orders, with
    unchecked 64-bit arithmetic, and its agreement with the verifier. */
module OrderOracle {
  import opened Keys
  import opened Outcomes
  import opened OrderTotals

  datatype Listed = Listed(id: Key, customer: Key, paid: Int64)

  predicate Plausible(o: Listed) {
    o.id != "" && o.customer != "" && 0 <= o.paid <= 1_000_000_000_000
  }

  ghost predicate Unambiguous(os: seq<Listed>) {
    forall o, p :: o in os && p in os && o.id == p.id ==> o == p
  }

  ghost predicate Acceptable(os: seq<Listed>, rule: Rule) {
    rule.threshold >= 0 && rule.discount >= 0 && Unambiguous(os) && forall o :: o in os ==> Plausible(o)
  }

  function EntryOf(o: Listed): Entry {
    Entry(o.customer, if o.paid >= 0 then o.paid else 0, true)
  }

  ghost function ListedIds(os: seq<Listed>): set<Key> {
    set o | o in os :: o.id
  }

  /** Repeated orders are entered once; all of them count. */
  ghost function Ledger(os: seq<Listed>): Book {
    if os == [] then map[] else Ledger(os[..|os| - 1])[os[|os| - 1].id := EntryOf(os[|os| - 1])]
  }

  lemma IdsGrow(os: seq<Listed>, k: nat)
    requires k < |os|
    ensures ListedIds(os[..k + 1]) == ListedIds(os[..k]) + {os[k].id}
    ensures forall o :: o in os[..k + 1] <==> o in os[..k] || o == os[k]
  {
    assert os[..k + 1] == os[..k] + [os[k]];
  }

  lemma {:induction false} LedgerKeys(os: seq<Listed>)
    ensures Ledger(os).Keys == ListedIds(os)
  {
    if os != [] {
      LedgerKeys(os[..|os| - 1]);
      IdsGrow(os, |os| - 1);
      assert os[..|os|] == os;
    }
  }

  lemma {:induction false} LedgerHolds(os: seq<Listed>, o: Listed)
    requires Unambiguous(os) && o in os
    ensures o.id in Ledger(os) && Ledger(os)[o.id] == EntryOf(o)
  {
    var n := |os| - 1;
    IdsGrow(os, n);
    assert os[..|os|] == os;
    if o in os[..n] {
      LedgerHolds(os[..n], o);
    }
  }

  lemma {:induction false} LedgerCounts(os: seq<Listed>)
    ensures forall k :: k in Ledger(os) ==> Ledger(os)[k].counts
  {
    if os != [] {
      LedgerCounts(os[..|os| - 1]);
    }
  }

  function Reduced(amount: int, rule: Rule): int {
    if amount < rule.threshold then amount else if amount - rule.discount < 0 then 0 else amount - rule.discount
  }

  ghost function Reductions(g: map<Key, int>, rule: Rule): (m: map<Key, int>)
    ensures m.Keys == g.Keys
  {
    map c | c in g :: Reduced(g[c], rule)
  }

  /** Each customer's sum after the discount, added up. */
  ghost function Oracle(b: Book, rule: Rule): int {
    Whole(Reductions(Groups(b, b.Keys), rule))
  }

  /** No sum of these orders can wrap. */
  ghost predicate Fits(os: seq<Listed>) {
    Unambiguous(os) && Gross(Ledger(os)) <= MAX && forall o :: o in os ==> Plausible(o)
  }

  /** One order not seen before, when nothing can wrap. */
  lemma TallyStep(os: seq<Listed>, seen: set<Key>, o: Listed, totals: map<Key, int>)
    requires Fits(os) && o in os && o.id !in seen && seen <= Ledger(os).Keys && totals == Groups(Ledger(os), seen)
    ensures o.id in Ledger(os)
    ensures var sum := (if o.customer in totals then totals[o.customer] else 0) + o.paid;
      0 <= sum <= MAX && Groups(Ledger(os), seen + {o.id}) == totals[o.customer := sum]
  {
    LedgerHolds(os, o);
    StepFacts(Ledger(os), seen, o.id);
  }

  /** experiment.go:99-103: what the map entry of a customer becomes. */
  function Booked(totals: map<Key, int>, o: Listed): int
    requires InRange(totals)
  {
    Wrap((if o.customer in totals then totals[o.customer] else 0) + o.paid)
  }

  ghost predicate Seen(os: seq<Listed>, k: nat, seen: map<Key, Listed>) {
    k <= |os| && seen.Keys == ListedIds(os[..k]) && forall o :: o in os[..k] ==> Plausible(o) && seen[o.id] == o
  }

  lemma SeenNext(os: seq<Listed>, k: nat, seen: map<Key, Listed>)
    requires Seen(os, k, seen) && k < |os| && Plausible(os[k])
    requires os[k].id in seen ==> seen[os[k].id] == os[k]
    ensures Seen(os, k + 1, seen[os[k].id := os[k]])
  {
    IdsGrow(os, k);
    assert forall o :: o in os[..k] ==> o.id in ListedIds(os[..k]);
  }

  /** While nothing can wrap, the sums are those of the orders seen. */
  ghost predicate Exact(os: seq<Listed>, ks: set<Key>, totals: map<Key, int>) {
    Fits(os) ==> ks <= Ledger(os).Keys && totals == Groups(Ledger(os), ks)
  }

  predicate InRange(totals: map<Key, int>) {
    forall c :: c in totals ==> -MAX - 1 <= totals[c] <= MAX
  }

  lemma ExactNext(os: seq<Listed>, ks: set<Key>, totals: map<Key, int>, o: Listed)
    requires InRange(totals) && Exact(os, ks, totals) && o in os && o.id !in ks
    ensures Exact(os, ks + {o.id}, totals[o.customer := Booked(totals, o)])
  {
    if Fits(os) {
      TallyStep(os, ks, o, totals);
    }
  }

  lemma InRangeNext(totals: map<Key, int>, o: Listed)
    requires InRange(totals)
    ensures InRange(totals[o.customer := Booked(totals, o)])
  {
  }

  /** experiment.go:93-103: one order. */
  method TallyOne(os: seq<Listed>, k: nat, seen: map<Key, Listed>, totals: map<Key, int>)
    returns (r: Outcome<(map<Key, Listed>, map<Key, int>)>)
    requires k < |os| && Seen(os, k, seen) && InRange(totals) && Exact(os, seen.Keys, totals)
    ensures r.Accepted? ==> Seen(os, k + 1, r.value.0) && InRange(r.value.1) && Exact(os, r.value.0.Keys, r.value.1)
    ensures r.Refused? ==> !Plausible(os[k]) || !Unambiguous(os)
  {
    var o := os[k];
    if !Plausible(o) {
      return Refused;
    }
    if o.id in seen && seen[o.id] != o {
      Conflicting(os, k, seen[o.id]);
      return Refused;
    }
    SeenNext(os, k, seen);
    if o.id in seen {
      assert seen[o.id := o] == seen;
      return Accepted((seen, totals));
    }
    ExactNext(os, seen.Keys, totals, o);
    InRangeNext(totals, o);
    assert seen[o.id := o].Keys == seen.Keys + {o.id};
    r := Accepted((seen[o.id := o], totals[o.customer := Booked(totals, o)]));
  }

  /** experiment.go:92-104 */
  method Tally(os: seq<Listed>) returns (r: Outcome<map<Key, int>>)
    ensures r.Accepted? <==> Unambiguous(os) && forall o :: o in os ==> Plausible(o)
    ensures r.Accepted? ==> InRange(r.value)
    ensures r.Accepted? && Gross(Ledger(os)) <= MAX ==> r.value == Groups(Ledger(os), Ledger(os).Keys)
  {
    var seen: map<Key, Listed>, totals: map<Key, int> := map[], map[];
    NoGroups(Ledger(os));
    for k := 0 to |os|
      invariant Seen(os, k, seen) && InRange(totals) && Exact(os, seen.Keys, totals)
    {
      assert os[k] in os;
      var one := TallyOne(os, k, seen, totals);
      if one.Refused? {
        return Refused;
      }
      seen, totals := one.value.0, one.value.1;
    }
    AllSeen(os, seen);
    r := Accepted(totals);
  }

  lemma AllSeen(os: seq<Listed>, seen: map<Key, Listed>)
    requires Seen(os, |os|, seen)
    ensures seen.Keys == Ledger(os).Keys && Unambiguous(os) && forall o :: o in os ==> Plausible(o)
  {
    LedgerKeys(os);
    assert os[..|os|] == os;
  }

  lemma Conflicting(os: seq<Listed>, k: nat, prev: Listed)
    requires k < |os| && prev != os[k] && os[k].id in ListedIds(os[..k])
    requires forall o :: o in os[..k] && o.id == os[k].id ==> o == prev
    ensures !Unambiguous(os)
  {
    var o :| o in os[..k] && o.id == os[k].id;
    assert o in os && os[k] in os;
  }

  /** experiment.go:105-115, visiting the map in any order. */
  method Collect(totals: map<Key, int>, rule: Rule) returns (total: Int64)
    requires rule.threshold >= 0 && rule.discount >= 0
    requires InRange(totals)
    ensures var m := Reductions(totals, rule);
      (forall c :: c in totals ==> totals[c] >= 0) && Whole(m) <= MAX ==> total == Whole(m)
  {
    ghost var m := Reductions(totals, rule);
    ghost var fits := (forall c :: c in totals ==> totals[c] >= 0) && Whole(m) <= MAX;
    total := 0;
    var rest := totals.Keys;
    ghost var done: set<Key> := {};
    while rest != {}
      invariant rest <= totals.Keys && done == totals.Keys - rest
      invariant fits ==> total == Sum(done, m)
      decreases rest
    {
      var c :| c in rest;
      var v := totals[c];
      if v >= rule.threshold {
        v := v - rule.discount;
        if v < 0 {
          v := 0;
        }
      }
      if fits {
        CollectStep(m, done, c);
      }
      total := Wrap(total + v);
      rest, done := rest - {c}, done + {c};
    }
    assert done == totals.Keys;
  }

  lemma CollectStep(m: map<Key, int>, done: set<Key>, c: Key)
    requires done <= m.Keys && c in m && c !in done && forall k :: k in m ==> m[k] >= 0
    ensures Sum(done + {c}, m) == Sum(done, m) + m[c] && 0 <= Sum(done + {c}, m) <= Whole(m)
  {
    SumWith(done, m, c);
    SumPart(done + {c}, m.Keys, m);
  }

  /** experiment.go:86-116 */
  method Expected(os: seq<Listed>, rule: Rule) returns (r: Outcome<Int64>)
    ensures r.Accepted? <==> Acceptable(os, rule)
    ensures r.Accepted? && Gross(Ledger(os)) <= MAX ==> r.value == Oracle(Ledger(os), rule)
  {
    if rule.threshold < 0 || rule.discount < 0 {
      return Refused;
    }
    var totals := Tally(os);
    if totals.Refused? {
      return Refused;
    }
    LedgerCounts(os);
    OracleIsNet(Ledger(os), rule);
    var total := Collect(totals.value, rule);
    r := Accepted(total);
  }

  /** Adding up what each customer pays, or taking all discounts off the price, is the same. */
  lemma OracleIsNet(b: Book, rule: Rule)
    requires rule.threshold >= 0 && rule.discount >= 0 && forall k :: k in b ==> b[k].counts
    ensures Oracle(b, rule) == Net(b, rule) && 0 <= Oracle(b, rule) <= Gross(b)
    ensures forall c :: c in Groups(b, b.Keys) ==> Groups(b, b.Keys)[c] >= 0
  {
    var g := Groups(b, b.Keys);
    forall c | c in g ensures Reductions(g, rule)[c] == g[c] - Cuts(g, rule)[c] && g[c] >= 0 {
      GroupsWithin(b, b.Keys, c);
    }
    SumDifference(g.Keys, g, Cuts(g, rule), Reductions(g, rule));
    GroupsAddUp(b, b.Keys);
    NetBounded(b, rule);
  }

  /** The orders the verifier read, as the oracle's list would give them. */
  ghost predicate SameOrders(originals: map<Key, Order>, os: seq<Listed>)
    requires ValidOrders(originals)
  {
    originals.Keys == ListedIds(os) && forall o :: o in os ==> SameOrder(originals[o.id], o)
  }

  ghost predicate SameOrder(v: Order, o: Listed)
    requires ValidOrder(v)
  {
    v.customer == o.customer && v.paid.value == o.paid
  }

  ghost function Prices(originals: map<Key, Order>): (w: map<Key, int>)
    requires ValidOrders(originals)
    ensures w.Keys == originals.Keys && forall k :: k in w ==> w[k] >= 0
  {
    map k | k in originals :: originals[k].paid.value
  }

  /** What counts for customer c: all orders, or only the ordinary ones while the exception is in force. */
  ghost function EligibleIds(originals: map<Key, Order>, excluded: bool, c: Key): set<Key>
    requires ValidOrders(originals)
  {
    set k | k in originals && originals[k].customer == c && !(excluded && originals[k].special.value)
  }

  ghost function Eligible(originals: map<Key, Order>, excluded: bool, c: Key): int
    requires ValidOrders(originals)
  {
    Sum(EligibleIds(originals, excluded, c), Prices(originals))
  }

  ghost function Buyers(originals: map<Key, Order>): set<Key> {
    set k | k in originals :: originals[k].customer
  }

  /** One discount per customer, also for those without an eligible order, who get none. */
  ghost function CutMap(originals: map<Key, Order>, excluded: bool, rule: Rule): (m: map<Key, int>)
    requires ValidOrders(originals)
    ensures m.Keys == Buyers(originals)
  {
    map c | c in Buyers(originals) :: Cut(Eligible(originals, excluded, c), rule)
  }

  lemma EligibleIsGroup(originals: map<Key, Order>, excluded: bool, c: Key)
    requires ValidOrders(originals)
    ensures var b := BookOf(originals, excluded);
      && Eligible(originals, excluded, c) == Sum(Members(b, b.Keys, c), Paid(b))
      && (c !in Customers(b, b.Keys) ==> Eligible(originals, excluded, c) == 0)
  {
    var b := BookOf(originals, excluded);
    assert Prices(originals) == Paid(b) && EligibleIds(originals, excluded, c) == Members(b, b.Keys, c);
    if c !in Customers(b, b.Keys) {
      assert Members(b, b.Keys, c) == {};
    }
  }

  lemma CutsOfAll(originals: map<Key, Order>, excluded: bool, rule: Rule)
    requires ValidOrders(originals) && rule.discount >= 0
    ensures var b := BookOf(originals, excluded); Whole(Cuts(Groups(b, b.Keys), rule)) == Whole(CutMap(originals, excluded, rule))
  {
    var b := BookOf(originals, excluded);
    var g := Groups(b, b.Keys);
    var all := CutMap(originals, excluded, rule);
    assert g.Keys <= Buyers(originals);
    forall c | c in all ensures all[c] == if c in g then Cuts(g, rule)[c] else 0 {
      EligibleIsGroup(originals, excluded, c);
    }
    SumOfZeroes(g.Keys, all.Keys, all);
    SumCongruent(g.Keys, Cuts(g, rule), all);
  }

  lemma EligibleLess(originals: map<Key, Order>, excluded: bool, c: Key, rule: Rule)
    requires ValidOrders(originals) && rule.discount >= 0
    ensures 0 <= Cut(Eligible(originals, excluded, c), rule) <= Cut(Eligible(originals, false, c), rule)
  {
    SumPart(EligibleIds(originals, excluded, c), EligibleIds(originals, false, c), Prices(originals));
  }

  /** The exception only ever raises the total, and the verifier agrees with the oracle exactly when it
      changes no customer's discount. */
  lemma VerifierAgrees(originals: map<Key, Order>, excluded: bool, os: seq<Listed>, rule: Rule)
    requires ValidOrders(originals) && SameOrders(originals, os)
    requires rule.threshold >= 0 && rule.discount >= 0
    ensures Oracle(Ledger(os), rule) <= Net(BookOf(originals, excluded), rule)
    ensures Net(BookOf(originals, excluded), rule) == Oracle(Ledger(os), rule) <==>
      forall c :: c in Buyers(originals) ==> Cut(Eligible(originals, excluded, c), rule) == Cut(Eligible(originals, false, c), rule)
  {
    SameBook(originals, false, os);
    LedgerCounts(os);
    OracleIsNet(Ledger(os), rule);
    NetByBuyers(originals, excluded, rule);
    NetByBuyers(originals, false, rule);
    CutsCompare(originals, excluded, rule);
  }

  lemma NetByBuyers(originals: map<Key, Order>, excluded: bool, rule: Rule)
    requires ValidOrders(originals) && rule.discount >= 0
    ensures Net(BookOf(originals, excluded), rule) == Whole(Prices(originals)) - Whole(CutMap(originals, excluded, rule))
  {
    assert Paid(BookOf(originals, excluded)) == Prices(originals);
    CutsOfAll(originals, excluded, rule);
  }

  lemma CutsCompare(originals: map<Key, Order>, excluded: bool, rule: Rule)
    requires ValidOrders(originals) && rule.discount >= 0
    ensures Whole(CutMap(originals, excluded, rule)) <= Whole(CutMap(originals, false, rule))
    ensures Whole(CutMap(originals, excluded, rule)) == Whole(CutMap(originals, false, rule)) <==>
      forall c :: c in Buyers(originals) ==> Cut(Eligible(originals, excluded, c), rule) == Cut(Eligible(originals, false, c), rule)
  {
    var w, x := CutMap(originals, excluded, rule), CutMap(originals, false, rule);
    forall c | c in Buyers(originals) ensures 0 <= w[c] <= x[c] {
      EligibleLess(originals, excluded, c, rule);
    }
    SumBelow(w.Keys, w, x);
    SumEqual(w.Keys, w, x);
    assert (forall c :: c in w.Keys ==> w[c] == x[c]) <==>
      forall c :: c in Buyers(originals) ==> Cut(Eligible(originals, excluded, c), rule) == Cut(Eligible(originals, false, c), rule);
  }

  /** In particular where no special order is excluded. */
  lemma OrdinaryAgrees(originals: map<Key, Order>, excluded: bool, os: seq<Listed>, rule: Rule)
    requires ValidOrders(originals) && SameOrders(originals, os)
    requires rule.threshold >= 0 && rule.discount >= 0
    requires !excluded || forall k :: k in originals ==> !originals[k].special.value
    ensures Net(BookOf(originals, excluded), rule) == Oracle(Ledger(os), rule)
    ensures BookOf(originals, excluded) == Ledger(os)
  {
    SameBook(originals, excluded, os);
    LedgerCounts(os);
    OracleIsNet(Ledger(os), rule);
  }

  lemma SameBook(originals: map<Key, Order>, excluded: bool, os: seq<Listed>)
    requires ValidOrders(originals) && SameOrders(originals, os)
    requires !excluded || forall k :: k in originals ==> !originals[k].special.value
    ensures BookOf(originals, excluded) == Ledger(os)
  {
    var b, l := BookOf(originals, excluded), Ledger(os);
    LedgerKeys(os);
    assert b.Keys == l.Keys;
    assert Unambiguous(os);
    forall k | k in b ensures b[k] == l[k] {
      var o :| o in os && o.id == k;
      LedgerHolds(os, o);
      assert SameOrder(originals[k], o);
    }
  }

  /** Otherwise they may differ: one special order at the threshold, with the exception in force. */
  lemma ExceptionMatters()
    ensures var originals := map["o" := Order("o", "c", Some(100), Some(true))];
      var os := [Listed("o", "c", 100)];
      && ValidOrders(originals) && SameOrders(originals, os)
      && Net(BookOf(originals, true), Rule(100, 10)) == 100
      && Oracle(Ledger(os), Rule(100, 10)) == 90
  {
    var originals := map["o" := Order("o", "c", Some(100), Some(true))];
    var o := Listed("o", "c", 100);
    assert o in [o];
    assert ValidOrders(originals) && SameOrders(originals, [o]);
    OneOrder(BookOf(originals, true), "o", Rule(100, 10));
    LedgerKeys([o]);
    LedgerHolds([o], o);
    LedgerCounts([o]);
    OneOrder(Ledger([o]), "o", Rule(100, 10));
    OracleIsNet(Ledger([o]), Rule(100, 10));
  }

  lemma OneOrder(b: Book, k: Key, rule: Rule)
    requires b.Keys == {k}
    ensures Net(b, rule) == b[k].paid - (if b[k].counts then Cut(b[k].paid, rule) else 0)
  {
    NoGroups(b);
    assert {} + {k} == b.Keys;
    GroupsGrow(b, {}, k);
    SumWith({}, Paid(b), k);
    var c := b[k].customer;
    var g := Groups(b, b.Keys);
    if b[k].counts {
      assert Cuts(g, rule) == map[][c := Cut(b[k].paid, rule)];
      WholeUpdated(map[], c, Cut(b[k].paid, rule));
    } else {
      assert Cuts(g, rule) == map[];
    }
  }
}

/** internal/graph/coverage_verifier.go:166-190 and internal/iuexperiment/experiment.go:86-116: the amount
    due for a set of orders, computed once over Go maps with overflow checks and once, as an oracle,
    from the list. */
module OrderTotals {
  import opened Keys
  import opened Outcomes

  const MAX := 0x7fff_ffff_ffff_ffff

  type Int64 = n: int | -MAX - 1 <= n <= MAX

  /** The sum of two 64-bit numbers, as Go's unchecked addition leaves it. */
  function Wrap(n: int): Int64
    requires -2 * MAX - 2 <= n <= 2 * MAX
  {
    if n > MAX then n - 2 * MAX - 2 else if n < -MAX - 1 then n + 2 * MAX + 2 else n
  }

  // ---------- sums ----------

  ghost function Sum(ks: set<Key>, w: map<Key, int>): int
    requires ks <= w.Keys
  {
    if ks == {} then 0
    else
      var k :| k in ks;
      w[k] + Sum(ks - {k}, w)
  }

  /** Any element may be taken out first. */
  lemma {:induction false} SumWithout(ks: set<Key>, w: map<Key, int>, k: Key)
    requires ks <= w.Keys && k in ks
    ensures Sum(ks, w) == w[k] + Sum(ks - {k}, w)
    decreases ks
  {
    var j :| j in ks && Sum(ks, w) == w[j] + Sum(ks - {j}, w);
    if j != k {
      SumWithout(ks - {j}, w, k);
      SumWithout(ks - {k}, w, j);
      assert ks - {j} - {k} == ks - {k} - {j};
    }
  }

  lemma SumWith(ks: set<Key>, w: map<Key, int>, k: Key)
    requires ks <= w.Keys && k in w && k !in ks
    ensures Sum(ks + {k}, w) == Sum(ks, w) + w[k]
  {
    SumWithout(ks + {k}, w, k);
    assert ks + {k} - {k} == ks;
  }

  lemma {:induction false} SumCongruent(ks: set<Key>, w: map<Key, int>, x: map<Key, int>)
    requires ks <= w.Keys && ks <= x.Keys && forall k :: k in ks ==> w[k] == x[k]
    ensures Sum(ks, w) == Sum(ks, x)
    decreases ks
  {
    if ks != {} {
      var k :| k in ks;
      SumWithout(ks, w, k);
      SumWithout(ks, x, k);
      SumCongruent(ks - {k}, w, x);
    }
  }

  lemma {:induction false} SumBelow(ks: set<Key>, w: map<Key, int>, x: map<Key, int>)
    requires ks <= w.Keys && ks <= x.Keys && forall k :: k in ks ==> 0 <= w[k] <= x[k]
    ensures 0 <= Sum(ks, w) <= Sum(ks, x)
    decreases ks
  {
    if ks != {} {
      var k :| k in ks;
      SumWithout(ks, w, k);
      SumWithout(ks, x, k);
      SumBelow(ks - {k}, w, x);
    }
  }

  lemma {:induction false} SumDifference(ks: set<Key>, w: map<Key, int>, x: map<Key, int>, y: map<Key, int>)
    requires ks <= w.Keys && ks <= x.Keys && ks <= y.Keys && forall k :: k in ks ==> y[k] == w[k] - x[k]
    ensures Sum(ks, y) == Sum(ks, w) - Sum(ks, x)
    decreases ks
  {
    if ks != {} {
      var k :| k in ks;
      SumWithout(ks, w, k);
      SumWithout(ks, x, k);
      SumWithout(ks, y, k);
      SumDifference(ks - {k}, w, x, y);
    }
  }

  lemma {:induction false} SumPart(part: set<Key>, ks: set<Key>, w: map<Key, int>)
    requires part <= ks <= w.Keys && forall k :: k in ks ==> w[k] >= 0
    ensures 0 <= Sum(part, w) <= Sum(ks, w)
    decreases ks
  {
    if ks != {} {
      var k :| k in ks;
      SumWithout(ks, w, k);
      if k in part {
        SumWithout(part, w, k);
        SumPart(part - {k}, ks - {k}, w);
      } else {
        SumPart(part, ks - {k}, w);
      }
    }
  }

  /** Sums of lesser terms are equal only term by term. */
  lemma {:induction false} SumEqual(ks: set<Key>, w: map<Key, int>, x: map<Key, int>)
    requires ks <= w.Keys && ks <= x.Keys && forall k :: k in ks ==> 0 <= w[k] <= x[k]
    ensures Sum(ks, w) == Sum(ks, x) <==> forall k :: k in ks ==> w[k] == x[k]
    decreases ks
  {
    if ks != {} {
      var k :| k in ks;
      SumWithout(ks, w, k);
      SumWithout(ks, x, k);
      SumBelow(ks - {k}, w, x);
      SumEqual(ks - {k}, w, x);
      assert (forall j :: j in ks ==> w[j] == x[j]) <==> w[k] == x[k] && forall j :: j in ks - {k} ==> w[j] == x[j];
    }
  }

  lemma {:induction false} SumOfZeroes(part: set<Key>, ks: set<Key>, w: map<Key, int>)
    requires part <= ks <= w.Keys && forall k :: k in ks - part ==> w[k] == 0
    ensures Sum(ks, w) == Sum(part, w)
    decreases ks - part
  {
    if k :| k in ks && k !in part {
      SumWithout(ks, w, k);
      assert ks - {k} - part == ks - part - {k};
      SumOfZeroes(part, ks - {k}, w);
    } else {
      assert ks == part;
    }
  }

  ghost function Whole(m: map<Key, int>): int {
    Sum(m.Keys, m)
  }

  lemma WholeUpdated(m: map<Key, int>, k: Key, x: int)
    ensures Whole(m[k := x]) == Whole(m) + x - (if k in m then m[k] else 0)
  {
    var u, rest := m[k := x], m.Keys - {k};
    SumWithout(u.Keys, u, k);
    assert u.Keys - {k} == rest;
    SumCongruent(rest, u, m);
    if k in m {
      SumWithout(m.Keys, m, k);
    } else {
      assert rest == m.Keys;
    }
  }

  // ---------- the amount due ----------

  /** What matters of an order; counts says whether it counts towards a discount. */
  datatype Entry = Entry(customer: Key, paid: nat, counts: bool)

  /** Orders by identity. */
  type Book = map<Key, Entry>

  datatype Rule = Rule(threshold: int, discount: int)

  ghost function Paid(b: Book): (w: map<Key, int>)
    ensures w.Keys == b.Keys && forall k :: k in b ==> w[k] == b[k].paid
  {
    map k | k in b :: b[k].paid
  }

  ghost function Gross(b: Book): int {
    Sum(b.Keys, Paid(b))
  }

  /** The orders among ks that count for customer c. */
  ghost function Members(b: Book, ks: set<Key>, c: Key): set<Key>
    requires ks <= b.Keys
  {
    set k | k in ks && b[k].counts && b[k].customer == c
  }

  ghost function Customers(b: Book, ks: set<Key>): set<Key>
    requires ks <= b.Keys
  {
    set k | k in ks && b[k].counts :: b[k].customer
  }

  ghost function Groups(b: Book, ks: set<Key>): (g: map<Key, int>)
    requires ks <= b.Keys
    ensures g.Keys == Customers(b, ks)
  {
    map c | c in Customers(b, ks) :: Sum(Members(b, ks, c), Paid(b))
  }

  /** The discount on one customer's orders, never more than they cost. */
  function Cut(amount: int, rule: Rule): int {
    if amount < rule.threshold then 0 else if rule.discount > amount then amount else rule.discount
  }

  ghost function Cuts(g: map<Key, int>, rule: Rule): (m: map<Key, int>)
    ensures m.Keys == g.Keys
  {
    map c | c in g :: Cut(g[c], rule)
  }

  /** All orders once, less one discount for each customer who reaches the threshold. */
  ghost function Net(b: Book, rule: Rule): int {
    Gross(b) - Whole(Cuts(Groups(b, b.Keys), rule))
  }

  function Raised(g: map<Key, int>, c: Key, x: int): map<Key, int> {
    g[c := (if c in g then g[c] else 0) + x]
  }

  lemma RaisedWhole(g: map<Key, int>, c: Key, x: int)
    ensures Whole(Raised(g, c, x)) == Whole(g) + x
  {
    WholeUpdated(g, c, (if c in g then g[c] else 0) + x);
  }

  /** One more order changes one customer's sum. */
  lemma GroupsGrow(b: Book, ks: set<Key>, k: Key)
    requires ks <= b.Keys && k in b && k !in ks
    ensures Groups(b, ks + {k}) == if b[k].counts then Raised(Groups(b, ks), b[k].customer, b[k].paid) else Groups(b, ks)
  {
    var more, less := Groups(b, ks + {k}), Groups(b, ks);
    var goal := if b[k].counts then Raised(less, b[k].customer, b[k].paid) else less;
    CustomersGrow(b, ks, k);
    assert more.Keys == goal.Keys;
    forall d | d in goal ensures more[d] == goal[d] {
      if b[k].counts && d == b[k].customer {
        OwnGroupGrows(b, ks, k);
      } else {
        OtherGroupStays(b, ks, k, d);
      }
    }
  }

  lemma OtherGroupStays(b: Book, ks: set<Key>, k: Key, d: Key)
    requires ks <= b.Keys && k in b && k !in ks && !(b[k].counts && b[k].customer == d)
    ensures Members(b, ks + {k}, d) == Members(b, ks, d)
  {
  }

  lemma OwnGroupGrows(b: Book, ks: set<Key>, k: Key)
    requires ks <= b.Keys && k in b && k !in ks && b[k].counts
    ensures var c := b[k].customer;
      Sum(Members(b, ks + {k}, c), Paid(b)) == (if c in Customers(b, ks) then Sum(Members(b, ks, c), Paid(b)) else 0) + b[k].paid
  {
    var c := b[k].customer;
    assert Members(b, ks + {k}, c) == Members(b, ks, c) + {k};
    SumWith(Members(b, ks, c), Paid(b), k);
    if c !in Customers(b, ks) {
      assert Members(b, ks, c) == {};
    }
  }

  lemma CustomersGrow(b: Book, ks: set<Key>, k: Key)
    requires ks <= b.Keys && k in b && k !in ks
    ensures Customers(b, ks + {k}) == Customers(b, ks) + (if b[k].counts then {b[k].customer} else {})
  {
    forall c | c in Customers(b, ks) ensures c in Customers(b, ks + {k}) {
      var j :| j in ks && b[j].counts && b[j].customer == c;
      assert j in ks + {k};
    }
    if b[k].counts {
      assert k in ks + {k};
    }
  }

  lemma NoGroups(b: Book)
    ensures Groups(b, {}) == map[] && Sum({}, Paid(b)) == 0 && Whole(map[]) == 0
  {
    assert Customers(b, {}) == {};
  }

  /** Grouping loses nothing: the customers' sums add up to what the counted orders cost. */
  lemma {:induction false} GroupsAddUp(b: Book, ks: set<Key>)
    requires ks <= b.Keys
    ensures Whole(Groups(b, ks)) <= Sum(ks, Paid(b))
    ensures (forall k :: k in ks ==> b[k].counts) ==> Whole(Groups(b, ks)) == Sum(ks, Paid(b))
    decreases ks
  {
    if ks == {} {
      NoGroups(b);
    } else {
      var k :| k in ks;
      var rest := ks - {k};
      GroupsAddUp(b, rest);
      assert rest + {k} == ks;
      GroupsGrow(b, rest, k);
      SumWith(rest, Paid(b), k);
      RaisedWhole(Groups(b, rest), b[k].customer, b[k].paid);
    }
  }

  lemma GroupsWithin(b: Book, ks: set<Key>, c: Key)
    requires ks <= b.Keys && c in Groups(b, ks)
    ensures 0 <= Groups(b, ks)[c] <= Sum(ks, Paid(b))
  {
    SumPart(Members(b, ks, c), ks, Paid(b));
  }

  lemma CutsBounded(b: Book, rule: Rule)
    requires rule.discount >= 0
    ensures var g := Groups(b, b.Keys);
      && (forall c :: c in g ==> 0 <= Cuts(g, rule)[c] <= g[c])
      && 0 <= Whole(Cuts(g, rule)) <= Whole(g) <= Gross(b)
  {
    var g := Groups(b, b.Keys);
    forall c | c in g ensures 0 <= Cuts(g, rule)[c] <= g[c] {
      GroupsWithin(b, b.Keys, c);
    }
    SumBelow(g.Keys, Cuts(g, rule), g);
    GroupsAddUp(b, b.Keys);
  }

  /** The amount due is never negative and never above the price. */
  lemma NetBounded(b: Book, rule: Rule)
    requires rule.discount >= 0
    ensures 0 <= Net(b, rule) <= Gross(b)
  {
    CutsBounded(b, rule);
  }

  /** All that one step of the verifier's loop needs. */
  lemma StepFacts(b: Book, done: set<Key>, k: Key)
    requires done <= b.Keys && k in b && k !in done
    ensures Sum(done + {k}, Paid(b)) == Sum(done, Paid(b)) + b[k].paid
    ensures 0 <= Sum(done, Paid(b)) && Sum(done + {k}, Paid(b)) <= Gross(b)
    ensures var c, g := b[k].customer, Groups(b, done);
      && 0 <= (if c in g then g[c] else 0) <= Sum(done, Paid(b))
      && Groups(b, done + {k}) == if b[k].counts then Raised(g, c, b[k].paid) else g
  {
    SumWith(done, Paid(b), k);
    SumPart(done + {k}, b.Keys, Paid(b));
    SumPart(done, b.Keys, Paid(b));
    GroupsGrow(b, done, k);
    if b[k].customer in Groups(b, done) {
      GroupsWithin(b, done, b[k].customer);
    }
  }

  // ---------- the verifier's loops ----------

  /** coverage_verifier.go:38-43 as decoded: fields that were null are None. */
  datatype Order = Order(id: Key, customer: Key, paid: Option<Int64>, special: Option<bool>)

  /** coverage_verifier.go:66-68 */
  predicate ValidOrder(o: Order) {
    && 1 <= |o.id| <= 256 && 1 <= |o.customer| <= 256
    && o.paid.Some? && o.paid.value >= 0 && o.special.Some?
  }

  predicate ValidOrders(originals: map<Key, Order>) {
    forall k :: k in originals ==> ValidOrder(originals[k])
  }

  ghost function BookOf(originals: map<Key, Order>, excluded: bool): Book
    requires ValidOrders(originals)
  {
    map k | k in originals ::
      Entry(originals[k].customer, originals[k].paid.value, !excluded || !originals[k].special.value)
  }

  /** coverage_verifier.go:169-178: the loop body for one order; the ghost arguments name the orders that
      were visited before it. */
  method AddOne(total: Int64, groups: map<Key, int>, o: Order, excluded: bool, ghost b: Book, ghost done: set<Key>, ghost k: Key)
    returns (r: Outcome<(Int64, map<Key, int>)>)
    requires ValidOrder(o) && done <= b.Keys && k in b && k !in done
    requires b[k] == Entry(o.customer, o.paid.value, !excluded || !o.special.value)
    requires total == Sum(done, Paid(b)) && groups == Groups(b, done)
    ensures var sum := Sum(done + {k}, Paid(b));
      r == if sum <= MAX then Accepted((sum, Groups(b, done + {k}))) else Refused
  {
    StepFacts(b, done, k);
    if o.paid.value > MAX - total {
      return Refused;
    }
    var more: Int64 := total + o.paid.value;
    if excluded && o.special.value {
      return Accepted((more, groups));
    }
    var before: Int64 := if o.customer in groups then groups[o.customer] else 0;
    if o.paid.value > MAX - before {
      assert false;
      return Refused;
    }
    var after: Int64 := before + o.paid.value;
    r := Accepted((more, groups[o.customer := after]));
  }

  /** coverage_verifier.go:166-179, visiting the map in any order: the sums, unless they overflow, which
      no order of visiting can change. */
  method AddUp(originals: map<Key, Order>, excluded: bool) returns (r: Outcome<(Int64, map<Key, int>)>)
    requires ValidOrders(originals)
    ensures var b := BookOf(originals, excluded);
      r == if Gross(b) <= MAX then Accepted((Gross(b), Groups(b, b.Keys))) else Refused
  {
    ghost var b := BookOf(originals, excluded);
    assert b.Keys == originals.Keys;
    NoGroups(b);
    var total: Int64, groups: map<Key, int> := 0, map[];
    var rest := originals.Keys;
    ghost var done: set<Key> := {};
    while rest != {}
      invariant rest <= originals.Keys && done == originals.Keys - rest
      invariant total == Sum(done, Paid(b)) && groups == Groups(b, done)
      decreases rest
    {
      var k :| k in rest;
      var one := AddOne(total, groups, originals[k], excluded, b, done, k);
      rest, done := rest - {k}, done + {k};
      if one.Refused? {
        SumPart(done, b.Keys, Paid(b));
        return Refused;
      }
      total, groups := one.value.0, one.value.1;
    }
    assert done == b.Keys;
    r := Accepted((total, groups));
  }

  /** coverage_verifier.go:182-190, again in any order. */
  method Discounted(total: Int64, groups: map<Key, int>, rule: Rule, ghost b: Book) returns (due: Int64)
    requires rule.discount >= 0 && total == Gross(b) && groups == Groups(b, b.Keys)
    ensures due == Net(b, rule)
  {
    ghost var cuts := Cuts(groups, rule);
    CutsBounded(b, rule);
    due := total;
    var rest := groups.Keys;
    ghost var done: set<Key> := {};
    while rest != {}
      invariant rest <= groups.Keys && done == groups.Keys - rest
      invariant due == total - Sum(done, cuts)
      decreases rest
    {
      var c :| c in rest;
      SumWith(done, cuts, c);
      SumPart(done + {c}, groups.Keys, cuts);
      var amount := groups[c];
      if amount >= rule.threshold {
        var discount := rule.discount;
        if discount > amount {
          discount := amount;
        }
        due := due - discount;
      }
      rest, done := rest - {c}, done + {c};
    }
    assert done == groups.Keys;
  }

  /** coverage_verifier.go:166-190 */
  method Total(originals: map<Key, Order>, excluded: bool, rule: Rule) returns (r: Outcome<Int64>)
    requires ValidOrders(originals) && rule.discount >= 0
    ensures var b := BookOf(originals, excluded);
      r == if Gross(b) <= MAX then Accepted(Net(b, rule)) else Refused
  {
    ghost var b := BookOf(originals, excluded);
    NetBounded(b, rule);
    var sums := AddUp(originals, excluded);
    if sums.Refused? {
      return Refused;
    }
    var due := Discounted(sums.value.0, sums.value.1, rule, b);
    r := Accepted(due);
  }
}

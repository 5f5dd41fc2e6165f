/** internal/graph/coverage_verifier.go:140-257: what the bound outputs say about the original orders, as
    one verdict for each of the six checks. */
module OrderChecks {
  import opened Keys
  import opened Outcomes
  import opened OrderTotals
  import opened OrderSources

  datatype Verdict = Pass | Fail | Unknown

  /** coverage_verifier.go:44-49 as decoded: fields that were null are None. */
  datatype Answer = Answer(orders: Option<seq<Order>>, total: Option<Int64>, currency: string, unit: string)

  /** The values of the run by "node/port", with the decoder for outputs. */
  datatype Values = Values(raw: map<Key, string>, answer: string -> Option<Answer>)

  type Outputs = seq<Coverage.Output>

  /** coverage_verifier.go:196-204: an output that cannot be judged is None. */
  function Read(vs: Values, out: Coverage.Output): Option<Answer> {
    var key := out.node + "/" + out.port;
    if key !in vs.raw || |vs.raw[key]| > 65536 then None
    else
      var a := vs.answer(vs.raw[key]);
      if a.Some? && a.value.orders.Some? && a.value.total.Some? then a else None
  }

  // ---------- what a verdict means ----------

  predicate TotalMatters(check: Key) {
    check == "threshold_once" || check == "customer_grouping" || check == "exception_rules"
  }

  predicate FieldsMatter(check: Key) {
    check == "source_fields" || check == "customer_grouping" || check == "exception_rules"
  }

  /** due is the amount the original orders add up to. */
  datatype Case = Case(facts: OrderFacts, due: Int64)

  predicate Contradicts(check: Key, a: Answer, c: Case)
    requires a.total.Some?
  {
    || (TotalMatters(check) && a.total.value != c.due)
    || (check == "currency_unit" && (a.currency != c.facts.currency || a.unit != c.facts.unit))
  }

  predicate Known(o: Order, c: Case) {
    ValidOrder(o) && o.id in c.facts.originals
  }

  predicate WrongOrder(check: Key, o: Order, c: Case) {
    && ValidOrder(o)
    && (o.id in c.facts.originals ==> FieldsMatter(check) && c.facts.originals[o.id] != o)
  }

  /** All orders in those outputs that can be judged. */
  ghost function Shown(vs: Values, outs: Outputs): set<Order> {
    set out, o | out in outs && Read(vs, out).Some? && o in Read(vs, out).value.orders.value :: o
  }

  ghost predicate WrongOutput(check: Key, vs: Values, outs: Outputs, c: Case) {
    exists out :: out in outs && Read(vs, out).Some? && Contradicts(check, Read(vs, out).value, c)
  }

  ghost predicate MissingOutput(vs: Values, outs: Outputs) {
    exists out :: out in outs && Read(vs, out).None?
  }

  /** Some order is not an original, or is shown in two ways. */
  ghost predicate WrongShown(check: Key, shown: set<Order>, c: Case) {
    || (exists o :: o in shown && WrongOrder(check, o, c))
    || (exists o, p :: o in shown && p in shown && Clash(o, p, c))
  }

  predicate Clash(o: Order, p: Order, c: Case) {
    Known(o, c) && Known(p, c) && o.id == p.id && o != p
  }

  ghost predicate UnclearShown(shown: set<Order>) {
    exists o :: o in shown && !ValidOrder(o)
  }

  ghost function ShownIds(shown: set<Order>, c: Case): set<Key> {
    set o | o in shown && Known(o, c) :: o.id
  }

  /** The verdict as a property of the bound outputs: refuted, undecided, or complete. */
  ghost function Judged(check: Key, vs: Values, outs: Outputs, c: Case): Verdict {
    var shown := Shown(vs, outs);
    if WrongOutput(check, vs, outs, c) || WrongShown(check, shown, c) then Fail
    else if MissingOutput(vs, outs) || UnclearShown(shown) then Unknown
    else if ShownIds(shown, c) == c.facts.originals.Keys then Pass
    else Fail
  }

  // ---------- the loops ----------

  datatype Scan = Scan(verdict: Verdict, collected: map<Key, Order>)

  /** Where the loops stand: bad and gap are what the outputs themselves have shown so far. */
  ghost predicate Stands(s: Scan, check: Key, bad: bool, gap: bool, shown: set<Order>, c: Case) {
    && (s.verdict == Fail <==> bad || WrongShown(check, shown, c))
    && (s.verdict == Unknown <==> !(bad || WrongShown(check, shown, c)) && (gap || UnclearShown(shown)))
    && Collected(s.collected, shown, c)
  }

  ghost predicate Collected(m: map<Key, Order>, shown: set<Order>, c: Case) {
    m.Keys == ShownIds(shown, c) && forall k :: k in m ==> m[k] in shown && Known(m[k], c) && m[k].id == k
  }

  lemma CollectedNext(m: map<Key, Order>, shown: set<Order>, o: Order, c: Case)
    requires Collected(m, shown, c)
    ensures Known(o, c) ==> Collected(m[o.id := o], shown + {o}, c)
    ensures !Known(o, c) ==> Collected(m, shown + {o}, c)
  {
    assert o in shown + {o};
    forall k | k in ShownIds(shown, c) ensures k in ShownIds(shown + {o}, c) {
      var p :| p in shown && Known(p, c) && p.id == k;
      assert p in shown + {o};
    }
  }

  /** One more order is wrong itself, clashes with the one collected, or changes nothing. */
  lemma WrongNext(check: Key, m: map<Key, Order>, shown: set<Order>, o: Order, c: Case)
    requires Collected(m, shown, c)
    ensures WrongShown(check, shown + {o}, c) <==>
      || WrongShown(check, shown, c)
      || WrongOrder(check, o, c)
      || (Known(o, c) && o.id in m && m[o.id] != o)
    ensures UnclearShown(shown + {o}) <==> UnclearShown(shown) || !ValidOrder(o)
  {
    var more := shown + {o};
    assert o in more && forall p :: p in shown ==> p in more;
    if Known(o, c) && o.id in m && m[o.id] != o {
      assert Clash(m[o.id], o, c) && m[o.id] in more;
    }
    if WrongShown(check, more, c) && !WrongShown(check, shown, c) && !WrongOrder(check, o, c) {
      var p, q :| p in more && q in more && Clash(p, q, c);
      var other := if p == o then q else p;
      assert other in shown && Clash(other, o, c);
      assert other.id in ShownIds(shown, c);
      assert Clash(other, m[o.id], c) ==> WrongShown(check, shown, c);
    }
  }

  /** coverage_verifier.go:217-240: one order of an output. */
  method TakeOrder(s: Scan, check: Key, o: Order, c: Case, ghost bad: bool, ghost gap: bool, ghost shown: set<Order>)
    returns (t: Scan)
    requires Stands(s, check, bad, gap, shown, c)
    ensures Stands(t, check, bad, gap, shown + {o}, c)
  {
    t := s;
    WrongNext(check, s.collected, shown, o, c);
    CollectedNext(s.collected, shown, o, c);
    if !ValidOrder(o) {
      if t.verdict != Fail {
        t := t.(verdict := Unknown);
      }
      return;
    }
    if o.id !in c.facts.originals {
      t := t.(verdict := Fail);
      return;
    }
    if o.id in t.collected && t.collected[o.id] != o {
      t := t.(verdict := Fail);
    }
    t := t.(collected := t.collected[o.id := o]);
    if FieldsMatter(check) && c.facts.originals[o.id] != o {
      t := t.(verdict := Fail);
    }
  }

  method TakeOrders(s: Scan, check: Key, orders: seq<Order>, c: Case, ghost bad: bool, ghost gap: bool, ghost shown: set<Order>)
    returns (t: Scan)
    requires Stands(s, check, bad, gap, shown, c)
    ensures Stands(t, check, bad, gap, shown + Elements(orders), c)
  {
    t := s;
    assert shown + Elements(orders[..0]) == shown;
    for k := 0 to |orders|
      invariant Stands(t, check, bad, gap, shown + Elements(orders[..k]), c)
    {
      t := TakeOrder(t, check, orders[k], c, bad, gap, shown + Elements(orders[..k]));
      assert orders[..k + 1] == orders[..k] + [orders[k]];
      assert shown + Elements(orders[..k + 1]) == shown + Elements(orders[..k]) + {orders[k]};
    }
    assert orders[..|orders|] == orders;
  }

  /** coverage_verifier.go:194-241: one bound output. */
  method TakeOutput(s: Scan, check: Key, vs: Values, out: Coverage.Output, c: Case, ghost bad: bool, ghost gap: bool, ghost shown: set<Order>)
    returns (t: Scan)
    requires Stands(s, check, bad, gap, shown, c)
    ensures var a := Read(vs, out);
      if a.None? then Stands(t, check, bad, true, shown, c)
      else Stands(t, check, bad || Contradicts(check, a.value, c), gap, shown + Elements(a.value.orders.value), c)
  {
    var a := Read(vs, out);
    t := s;
    if a.None? {
      if t.verdict != Fail {
        t := t.(verdict := Unknown);
      }
      return;
    }
    if TotalMatters(check) && a.value.total.value != c.due {
      t := t.(verdict := Fail);
    }
    if check == "currency_unit" && (a.value.currency != c.facts.currency || a.value.unit != c.facts.unit) {
      t := t.(verdict := Fail);
    }
    t := TakeOrders(t, check, a.value.orders.value, c, bad || Contradicts(check, a.value, c), gap, shown);
  }

  lemma OutputsNext(check: Key, vs: Values, outs: Outputs, out: Coverage.Output, c: Case)
    ensures WrongOutput(check, vs, outs + [out], c) <==>
      WrongOutput(check, vs, outs, c) || (Read(vs, out).Some? && Contradicts(check, Read(vs, out).value, c))
    ensures MissingOutput(vs, outs + [out]) <==> MissingOutput(vs, outs) || Read(vs, out).None?
    ensures Shown(vs, outs + [out]) ==
      Shown(vs, outs) + if Read(vs, out).Some? then Elements(Read(vs, out).value.orders.value) else {}
  {
    var more := outs + [out];
    assert forall x :: x in more <==> x in outs || x == out;
    if WrongOutput(check, vs, outs, c) {
      var x :| x in outs && Read(vs, x).Some? && Contradicts(check, Read(vs, x).value, c);
      assert x in more;
    }
    if MissingOutput(vs, outs) {
      var x :| x in outs && Read(vs, x).None?;
      assert x in more;
    }
    assert out in more;
  }

  /** coverage_verifier.go:191-245 */
  method RunCheck(check: Key, vs: Values, outs: Outputs, c: Case) returns (verdict: Verdict)
    ensures verdict == Judged(check, vs, outs, c)
  {
    var s := Scan(Pass, map[]);
    for k := 0 to |outs|
      invariant Stands(s, check, WrongOutput(check, vs, outs[..k], c), MissingOutput(vs, outs[..k]), Shown(vs, outs[..k]), c)
    {
      OutputsNext(check, vs, outs[..k], outs[k], c);
      assert outs[..k + 1] == outs[..k] + [outs[k]];
      s := TakeOutput(s, check, vs, outs[k], c,
        WrongOutput(check, vs, outs[..k], c), MissingOutput(vs, outs[..k]), Shown(vs, outs[..k]));
    }
    assert outs[..|outs|] == outs;
    verdict := s.verdict;
    if verdict == Pass && |s.collected.Keys| != |c.facts.originals.Keys| {
      verdict := Fail;
    }
    Concluded(s, check, vs, outs, c);
  }

  /** Comparing sizes after the loops compares the identities. */
  lemma Concluded(s: Scan, check: Key, vs: Values, outs: Outputs, c: Case)
    requires Stands(s, check, WrongOutput(check, vs, outs, c), MissingOutput(vs, outs), Shown(vs, outs), c)
    ensures Judged(check, vs, outs, c) ==
      if s.verdict == Pass && |s.collected.Keys| != |c.facts.originals.Keys| then Fail else s.verdict
  {
    SameSize(s.collected.Keys, c.facts.originals.Keys);
  }
}

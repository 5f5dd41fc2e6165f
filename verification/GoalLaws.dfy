/** What every run of the re-plan guard and of human governance keeps. */
module GoalLaws {
  import opened Keys
  import opened Outcomes
  import opened Fingerprints
  import opened Goals

  type Plans = seq<PlanRow>
  type History = seq<HistoryRow>
  type Permissions = map<Key, Permission>

  // ---------- the invariant, table by table ----------

  /** The replan that made this revision consumed a human permission. */
  ghost predicate Approved(ps: Permissions, revision: int) {
    exists op :: op in ps && ps[op].consumed && ps[op].plan == revision - 1
  }

  ghost predicate Numbered(h: History) {
    forall i :: 0 <= i < |h| ==> h[i].plan == i + 2 && h[i].graph == i + 2
  }

  ghost predicate DistinctEvaluations(h: History) {
    forall i, j :: 0 <= i < j < |h| ==> h[i].evaluation != h[j].evaluation
  }

  /** No plan and no revision is ever recorded twice. */
  ghost predicate DistinctPlans(p: Plans) {
    && (forall i :: 0 <= i < |p| ==> p[i].revision >= 1)
    && (forall i, j :: 0 <= i < j < |p| ==> p[i].revision != p[j].revision && p[i].fingerprint != p[j].fingerprint)
  }

  ghost predicate HasPlan(p: Plans, row: HistoryRow) {
    exists k :: 0 <= k < |p| && p[k] == PlanRow(row.plan, row.fingerprint, row.signature)
  }

  ghost predicate Backed(h: History, p: Plans) {
    forall i :: 0 <= i < |h| ==> HasPlan(p, h[i])
  }

  /** Among the plan rows recorded before row k, none of the six revisions before it (or after it)
      has its signature. */
  ghost predicate NewStrategy(p: Plans, k: int)
    requires 0 <= k < |p|
  {
    forall j :: 0 <= j < k && p[j].revision >= p[k].revision - CYCLE_WINDOW ==> p[j].signature != p[k].signature
  }

  /** n is the number of replans, so the revisions 2 to n + 1 are the guard's own. */
  ghost predicate NoLoops(n: int, p: Plans, ps: Permissions) {
    forall k :: 0 <= k < |p| && 2 <= p[k].revision <= n + 1 && !Approved(ps, p[k].revision) ==> NewStrategy(p, k)
  }

  /** The guard's rows were recorded in the order of their revisions. */
  ghost predicate InSequence(n: int, p: Plans) {
    forall j, k :: 0 <= j < k < |p| && 2 <= p[j].revision <= n + 1 && 2 <= p[k].revision <= n + 1 ==> p[j].revision < p[k].revision
  }

  ghost predicate NoThreeAlike(h: History, ps: Permissions) {
    forall i :: 2 <= i < |h| && !Approved(ps, i + 2) ==> !(h[i].failure == h[i - 1].failure == h[i - 2].failure)
  }

  ghost predicate NoTwoStalled(h: History, ps: Permissions) {
    forall i :: 1 <= i < |h| && !Approved(ps, i + 2) ==> h[i].progressed || h[i - 1].progressed
  }

  ghost predicate Honest(h: History, i: int)
    requires 0 <= i < |h|
  {
    h[i].progressed <==> (i == 0 || ImprovedOver(h[i].progress, h[i - 1].progress))
  }

  ghost predicate HonestProgress(h: History) {
    forall i :: 0 <= i < |h| ==> Honest(h, i)
  }

  /** Every permission answers a recorded approval at its own revision and generation; a consumed one
      belongs to a revision already left behind, and no two of them to the same one. */
  ghost predicate Warranted(ps: Permissions, ds: map<Key, DecisionRow>, active: int) {
    && (forall op :: op in ps ==>
      && op in ds && ds[op].request.action == APPROVE_NEXT_REPLAN
      && ds[op].request.plan == ps[op].plan == ds[op].request.graph == ps[op].graph
      && ps[op].plan <= active && (ps[op].consumed ==> ps[op].plan < active))
    && (forall a, b :: a in ps && b in ps && ps[a].consumed && ps[b].consumed && ps[a].plan == ps[b].plan ==> a == b)
  }

  ghost predicate Answers(h: History, e: Key, row: RequestRow) {
    2 <= row.nextPlan <= |h| + 1 && row.nextGraph == row.nextPlan && h[row.nextPlan - 2].evaluation == e
  }

  /** An allowed request is the one that made its revision. */
  ghost predicate Answered(h: History, rs: map<Key, RequestRow>) {
    && (forall e :: e in rs && rs[e].verdict.ruling == Allowed ==> Answers(h, e, rs[e]))
    && (forall i :: 0 <= i < |h| ==> h[i].evaluation in rs && rs[h[i].evaluation].verdict.ruling == Allowed)
  }

  ghost predicate Balanced(g: Goal) {
    && g.activePlan == g.activeGraph == 1 + g.usedReplans
    && g.usedReplans == |g.history| == |g.evidence|
    && g.usedReplans <= g.maxReplans
    && 0 <= g.usedAttempts <= g.maxAttempts
  }

  ghost predicate LoopFree(h: History, p: Plans, ps: Permissions) {
    && Numbered(h) && DistinctPlans(p) && Backed(h, p) && HonestProgress(h)
    && InSequence(|h|, p) && NoLoops(|h|, p, ps) && NoThreeAlike(h, ps) && NoTwoStalled(h, ps)
  }

  ghost predicate Inv(g: Goal) {
    && Balanced(g)
    && LoopFree(g.history, g.plans, g.permissions)
    && DistinctEvaluations(g.history)
    && Warranted(g.permissions, g.decisions, g.activePlan)
    && Answered(g.history, g.requests)
  }

  // ---------- adding one revision ----------

  /** The permissions differ at most in ones for the revision now left behind. */
  ghost predicate SamePast(old_: Permissions, new_: Permissions, active: int) {
    forall v :: v <= active ==> (Approved(new_, v) <==> Approved(old_, v))
  }

  lemma NoLoopsGrow(n: int, p: Plans, row: PlanRow, old_: Permissions, ps: Permissions)
    requires NoLoops(n, p, old_) && SamePast(old_, ps, n + 1) && row.revision == n + 2
    requires forall k :: 0 <= k < |p| ==> p[k].revision != row.revision
    requires Approved(ps, n + 2)
      || forall j :: 0 <= j < |p| && p[j].revision >= n + 2 - CYCLE_WINDOW ==> p[j].signature != row.signature
    ensures NoLoops(n + 1, p + [row], ps)
  {
    var q := p + [row];
    forall k | 0 <= k < |q| && 2 <= q[k].revision <= n + 2 && !Approved(ps, q[k].revision) ensures NewStrategy(q, k) {
      if k < |p| {
        assert q[k] == p[k] && NewStrategy(p, k);
      }
    }
  }

  lemma SequenceGrows(n: int, p: Plans, row: PlanRow)
    requires InSequence(n, p) && row.revision == n + 2
    requires forall k :: 0 <= k < |p| ==> p[k].revision != row.revision
    ensures InSequence(n + 1, p + [row])
  {
    var q := p + [row];
    forall j, k | 0 <= j < k < |q| && 2 <= q[j].revision <= n + 2 && 2 <= q[k].revision <= n + 2 ensures q[j].revision < q[k].revision {
      assert q[j] == p[j];
    }
  }

  lemma DistinctGrow(p: Plans, row: PlanRow)
    requires DistinctPlans(p) && Insertable(p, row.revision, row.fingerprint) && row.revision >= 1
    ensures DistinctPlans(p + [row])
  {
  }

  lemma NoThreeGrow(h: History, row: HistoryRow, old_: Permissions, ps: Permissions)
    requires NoThreeAlike(h, old_) && SamePast(old_, ps, |h| + 1)
    requires Approved(ps, |h| + 2) || !RepeatsFailure(h, row.failure)
    ensures NoThreeAlike(h + [row], ps)
  {
    var more := h + [row];
    forall i | 2 <= i < |more| && !Approved(ps, i + 2) ensures !(more[i].failure == more[i - 1].failure == more[i - 2].failure) {
      assert i < |h| ==> !Approved(old_, i + 2);
    }
  }

  lemma NoStallGrow(h: History, row: HistoryRow, old_: Permissions, ps: Permissions)
    requires NoTwoStalled(h, old_) && SamePast(old_, ps, |h| + 1)
    requires row.progressed == Improves(h, row.progress)
    requires Approved(ps, |h| + 2) || !Stalls(h, row.progress)
    ensures NoTwoStalled(h + [row], ps)
  {
    var more := h + [row];
    forall i | 1 <= i < |more| && !Approved(ps, i + 2) ensures more[i].progressed || more[i - 1].progressed {
      assert i < |h| ==> !Approved(old_, i + 2);
    }
  }

  lemma HonestGrow(h: History, row: HistoryRow)
    requires HonestProgress(h) && row.progressed == Improves(h, row.progress)
    ensures HonestProgress(h + [row])
  {
    var more := h + [row];
    forall i | 0 <= i < |more| ensures Honest(more, i) {
      if i < |h| {
        assert Honest(h, i);
      } else if i > 0 {
        assert more[i - 1] == h[|h| - 1];
      }
    }
  }

  lemma BackedGrows(h: History, p: Plans, row: HistoryRow)
    requires Backed(h, p)
    ensures Backed(h + [row], p + [PlanRow(row.plan, row.fingerprint, row.signature)])
  {
    var more := p + [PlanRow(row.plan, row.fingerprint, row.signature)];
    forall i | 0 <= i < |h + [row]| ensures HasPlan(more, (h + [row])[i]) {
      if i < |h| {
        HasPlanStill(p, more, h[i]);
      } else {
        assert more[|p|] == PlanRow(row.plan, row.fingerprint, row.signature);
      }
    }
  }

  lemma HasPlanStill(p: Plans, q: Plans, row: HistoryRow)
    requires HasPlan(p, row) && p <= q
    ensures HasPlan(q, row)
  {
    var k :| 0 <= k < |p| && p[k] == PlanRow(row.plan, row.fingerprint, row.signature);
    assert q[k] == p[k];
  }

  lemma LoopFreeGrows(g: Goal, r: ReplanRequest, ps: Permissions)
    requires Balanced(g) && LoopFree(g.history, g.plans, g.permissions) && Bumpable(g, r)
    requires SamePast(g.permissions, ps, g.activePlan)
    requires Approved(ps, g.activePlan + 1)
      || (!LoopsBack(g, StrategySignature(r.proposal)) && !RepeatsFailure(g.history, r.evidence.failure) && !Stalls(g.history, r.progress))
    ensures LoopFree(Bumped(g, r).history, Bumped(g, r).plans, ps)
  {
    var row := Recorded(g, r);
    var plan := PlanRow(row.plan, row.fingerprint, row.signature);
    assert Bumped(g, r).history == g.history + [row] && Bumped(g, r).plans == g.plans + [plan];
    if !Approved(ps, g.activePlan + 1) {
      forall j | 0 <= j < |g.plans| && g.plans[j].revision >= |g.history| + 2 - CYCLE_WINDOW ensures g.plans[j].signature != plan.signature {
        assert g.plans[j].revision >= Oldest(g);
      }
    }
    DistinctGrow(g.plans, plan);
    SequenceGrows(|g.history|, g.plans, plan);
    NoLoopsGrow(|g.history|, g.plans, plan, g.permissions, ps);
    NoThreeGrow(g.history, row, g.permissions, ps);
    NoStallGrow(g.history, row, g.permissions, ps);
    HonestGrow(g.history, row);
    BackedGrows(g.history, g.plans, row);
  }

  // ---------- every transaction keeps the invariant ----------

  lemma AnsweredGrows(g: Goal, r: ReplanRequest, row: RequestRow)
    requires Balanced(g) && Answered(g.history, g.requests) && Bumpable(g, r)
    requires row.verdict.ruling == Allowed && row.nextPlan == g.activePlan + 1 && row.nextGraph == g.activeGraph + 1
    ensures Answered(g.history + [Recorded(g, r)], g.requests[r.evaluation := row])
    ensures DistinctEvaluations(g.history) ==> DistinctEvaluations(g.history + [Recorded(g, r)])
  {
    var h := g.history + [Recorded(g, r)];
    var rs := g.requests[r.evaluation := row];
    forall e | e in rs && rs[e].verdict.ruling == Allowed ensures Answers(h, e, rs[e]) {
      if e != r.evaluation {
        assert Answers(g.history, e, g.requests[e]);
      }
    }
    forall i | 0 <= i < |h| ensures h[i].evaluation in rs && rs[h[i].evaluation].verdict.ruling == Allowed {
    }
  }

  lemma BumpKeeps(g: Goal, r: ReplanRequest, row: RequestRow, ps: Permissions)
    requires Inv(g) && Bumpable(g, r) && g.usedReplans < g.maxReplans
    requires EvidenceFingerprint(r.evidence) !in g.evidence
    requires row.verdict.ruling == Allowed && row.nextPlan == g.activePlan + 1 && row.nextGraph == g.activeGraph + 1
    requires SamePast(g.permissions, ps, g.activePlan) && Warranted(ps, g.decisions, g.activePlan + 1)
    requires Approved(ps, g.activePlan + 1)
      || (!LoopsBack(g, StrategySignature(r.proposal)) && !RepeatsFailure(g.history, r.evidence.failure) && !Stalls(g.history, r.progress))
    ensures Inv(Bumped(g.(permissions := ps, requests := g.requests[r.evaluation := row]), r))
  {
    LoopFreeGrows(g, r, ps);
    AnsweredGrows(g, r, row);
  }

  lemma ConsumedKeeps(g: Goal, op: Key)
    requires Inv(g) && Consumed(g, op).Accepted?
    ensures var ps := Consumed(g, op).value.permissions;
      && Consumed(g, op).value == g.(permissions := ps)
      && SamePast(g.permissions, ps, g.activePlan) && Warranted(ps, g.decisions, g.activePlan + 1)
      && Approved(ps, g.activePlan + 1)
  {
    var ps := Consumed(g, op).value.permissions;
    assert ps[op].consumed && ps[op].plan == g.activePlan;
    forall v | v <= g.activePlan ensures Approved(ps, v) <==> Approved(g.permissions, v) {
      if Approved(g.permissions, v) {
        var a :| a in g.permissions && g.permissions[a].consumed && g.permissions[a].plan == v - 1;
        assert ps[a] == g.permissions[a];
      }
    }
  }

  lemma UnusedKeeps(g: Goal)
    requires Inv(g)
    ensures SamePast(g.permissions, g.permissions, g.activePlan) && Warranted(g.permissions, g.decisions, g.activePlan + 1)
  {
  }

  /** What an allowed replan leaves: the bump, on top of the permissions it was granted with. */
  lemma AllowedForm(g: Goal, r: ReplanRequest, approval: Key, p: Publication, usage: Usage, now: int) returns (h: Goal, row: RequestRow)
    requires Ruled(g, r, approval, p, usage, now).Accepted?
    requires Screen(g, r, approval, p.Publish?, usage, now).ruling == Allowed
    ensures Permitted(g, approval, p.Publish?) == Accepted(h) && Bumpable(h, r)
    ensures h == g.(permissions := h.permissions)
    ensures row.verdict.ruling == Allowed && row.nextPlan == g.activePlan + 1 && row.nextGraph == g.activeGraph + 1
    ensures row == RowOf(r, Screen(g, r, approval, p.Publish?, usage, now), g.activePlan + 1, g.activeGraph + 1)
    ensures Ruled(g, r, approval, p, usage, now).value.1 == Decision(row.verdict, row.nextPlan, row.nextGraph, false)
    ensures Written(Bumped(h.(requests := h.requests[r.evaluation := row]), r), p) == Accepted(Ruled(g, r, approval, p, usage, now).value.0)
  {
    h := Permitted(g, approval, p.Publish?).value;
    row := RowOf(r, Screen(g, r, approval, p.Publish?, usage, now), g.activePlan + 1, g.activeGraph + 1);
  }

  lemma WrittenKeeps(g: Goal, p: Publication)
    requires Inv(g) && Written(g, p).Accepted?
    ensures Inv(Written(g, p).value)
  {
  }

  lemma AllowedMeans(g: Goal, r: ReplanRequest, approval: Key, publishing: bool, usage: Usage, now: int)
    requires Screen(g, r, approval, publishing, usage, now).ruling == Allowed
    ensures !Terminal(g.state) && g.usedReplans < g.maxReplans && EvidenceFingerprint(r.evidence) !in g.evidence
    ensures (g.state == NEEDS_APPROVAL && approval != "" && publishing)
      || (!LoopsBack(g, StrategySignature(r.proposal)) && !RepeatsFailure(g.history, r.evidence.failure) && !Stalls(g.history, r.progress))
  {
  }

  lemma AllowedKeeps(g: Goal, r: ReplanRequest, approval: Key, p: Publication, usage: Usage, now: int)
    requires Inv(g) && Ruled(g, r, approval, p, usage, now).Accepted?
    requires Screen(g, r, approval, p.Publish?, usage, now).ruling == Allowed
    ensures Inv(Ruled(g, r, approval, p, usage, now).value.0)
  {
    var h, row := AllowedForm(g, r, approval, p, usage, now);
    AllowedMeans(g, r, approval, p.Publish?, usage, now);
    if p.Publish? && g.state == NEEDS_APPROVAL {
      ConsumedKeeps(g, approval);
    } else {
      UnusedKeeps(g);
    }
    BumpKeeps(g, r, row, h.permissions);
    var w := h.(requests := h.requests[r.evaluation := row]);
    assert w == g.(permissions := h.permissions, requests := g.requests[r.evaluation := row]);
    WrittenKeeps(Bumped(w, r), p);
  }

  /** A row that allows nothing leaves the history answered. */
  lemma UnansweredKeeps(h: History, rs: map<Key, RequestRow>, e: Key, row: RequestRow)
    requires Answered(h, rs) && row.verdict.ruling != Allowed
    requires e in rs ==> rs[e].verdict.ruling != Allowed
    ensures Answered(h, rs[e := row]) && Answered(h, rs - {e})
  {
    forall i | 0 <= i < |h| ensures h[i].evaluation != e {
      assert h[i].evaluation in rs && rs[h[i].evaluation].verdict.ruling == Allowed;
    }
  }

  lemma RuledKeeps(g: Goal, r: ReplanRequest, approval: Key, p: Publication, usage: Usage, now: int)
    requires Inv(g) && r.evaluation !in g.requests && Ruled(g, r, approval, p, usage, now).Accepted?
    ensures Inv(Ruled(g, r, approval, p, usage, now).value.0)
  {
    var v := Screen(g, r, approval, p.Publish?, usage, now);
    if v.ruling == Allowed {
      AllowedKeeps(g, r, approval, p, usage, now);
    } else {
      UnansweredKeeps(g.history, g.requests, r.evaluation, RowOf(r, v, 0, 0));
    }
  }

  lemma DecidedKeeps(g: Goal, a: Actor, d: DecisionRequest)
    requires Inv(g) && Decidable(g, a, d) && d.operation !in g.decisions
    ensures Inv(Decided(g, a, d))
  {
    var w := Decided(g, a, d);
    assert d.operation !in g.permissions;
    PermissionsAdded(g.permissions, w.permissions, d.operation, g.activePlan);
    assert Warranted(w.permissions, w.decisions, w.activePlan);
    SameApprovals(g.history, g.plans, g.permissions, w.permissions);
  }

  lemma PermissionsAdded(ps: Permissions, qs: Permissions, op: Key, active: int)
    requires op !in ps && (qs == ps || qs == ps[op := Permission(active, active, false)])
    ensures forall v :: Approved(qs, v) <==> Approved(ps, v)
  {
    forall v ensures Approved(qs, v) <==> Approved(ps, v) {
      if Approved(ps, v) {
        var a :| a in ps && ps[a].consumed && ps[a].plan == v - 1;
        assert qs[a] == ps[a];
      }
    }
  }

  lemma SameApprovals(h: History, p: Plans, ps: Permissions, qs: Permissions)
    requires LoopFree(h, p, ps)
    requires forall v :: Approved(qs, v) <==> Approved(ps, v)
    ensures LoopFree(h, p, qs)
  {
  }

  lemma RegisteredKeeps(g: Goal, revision: int, p: Proposal)
    requires Inv(g) && RegisteredPlan(g, revision, p).Accepted?
    ensures Inv(RegisteredPlan(g, revision, p).value)
  {
    var row := PlanRow(revision, PlanFingerprint(p), StrategySignature(p));
    RowAdded(g.history, g.plans, g.permissions, row);
  }

  lemma RevisionMade(h: History, revision: int)
    requires Numbered(h)
    ensures 2 <= revision <= |h| + 1 ==> exists i :: 0 <= i < |h| && h[i].plan == revision
  {
    if 2 <= revision <= |h| + 1 {
      assert h[revision - 2].plan == revision;
    }
  }

  lemma RowAdded(h: History, p: Plans, ps: Permissions, row: PlanRow)
    requires LoopFree(h, p, ps) && Insertable(p, row.revision, row.fingerprint) && row.revision >= 1
    ensures LoopFree(h, p + [row], ps)
  {
    var q := p + [row];
    forall i | 0 <= i < |h| ensures HasPlan(q, h[i]) && h[i].plan != row.revision {
      assert HasPlan(p, h[i]);
      HasPlanStill(p, q, h[i]);
    }
    RevisionMade(h, row.revision);
    forall k | 0 <= k < |q| && 2 <= q[k].revision <= |h| + 1 && !Approved(ps, q[k].revision) ensures NewStrategy(q, k) {
      assert h[q[k].revision - 2].plan == q[k].revision;
      assert NewStrategy(p, k);
    }
  }
}

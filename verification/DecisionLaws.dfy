/** Who decides about a goal, on what terms, and with what effect, over whole runs:
    internal/governance/governance.go:59-173. */
module DecisionLaws {
  import opened Keys
  import opened Outcomes
  import opened Texts
  import opened Fingerprints
  import opened Goals
  import opened GoalLaws
  import opened GoalRuns

  // ---------- white space ----------

  /** Something in the text is not white space. */
  ghost predicate Says(s: string) {
    exists i :: 0 <= i < |s| && !Space(s[i])
  }

  lemma {:induction false} LeftTrimmed(s: string)
    ensures TrimLeft(s) == "" <==> !Says(s)
    ensures TrimLeft(s) != "" ==> !Space(TrimLeft(s)[0])
  {
    if s != "" && Space(s[0]) {
      LeftTrimmed(s[1..]);
      if Says(s) {
        var i :| 0 <= i < |s| && !Space(s[i]);
        assert s[1..][i - 1] == s[i];
      }
      if i :| 0 <= i < |s[1..]| && !Space(s[1..][i]) {
        assert s[i + 1] == s[1..][i];
      }
    } else if s != "" {
      assert !Space(s[0]);
    }
  }

  lemma {:induction false} RightTrimmed(s: string)
    requires s != "" && !Space(s[0])
    ensures TrimRight(s) != ""
  {
    if Space(s[|s| - 1]) {
      assert |s| > 1;
      RightTrimmed(s[..|s| - 1]);
    }
  }

  lemma BlankMeans(s: string)
    ensures Blank(s) <==> !Says(s)
  {
    LeftTrimmed(s);
    if TrimLeft(s) != "" {
      RightTrimmed(TrimLeft(s));
    }
  }

  // ---------- who may decide ----------

  /** A human with a name and the scope, on a goal of their own in one of their projects. */
  ghost predicate Entitled(a: Actor, g: Goal) {
    a.human && Says(a.id) && "goals:approve" in a.scopes && a.owner == g.owner && g.project in a.projects
  }

  ghost predicate Scoped(a: Actor, action: ActionKind) {
    && (action == INCREASE_BUDGET ==> "goals:budget" in a.scopes)
    && (action == CHANGE_CONSTRAINT ==> "goals:constraints" in a.scopes)
  }

  ghost predicate WellMade(d: DecisionRequest) {
    && 1 <= |d.operation| <= 128 && (forall i :: 0 <= i < |d.operation| ==> '!' <= d.operation[i] <= '~')
    && Says(d.reason) && |d.reason| <= 2048 && d.version >= 1 && d.plan >= 1 && d.graph >= 1
    && |d.change.evidence| <= 4096 && |d.change.constraint| <= 4096
  }

  /** The decision speaks of the goal as it is: not over, at that version, revision and generation, and
      waiting, unless the budget is raised or the goal aborted. */
  ghost predicate Current(g: Goal, d: DecisionRequest) {
    && g.state != SUCCEEDED && g.state != FAILED && g.state != CANCELED
    && g.version == d.version && g.activePlan == d.plan && g.activeGraph == d.graph
    && (g.state == NEEDS_APPROVAL || d.action == INCREASE_BUDGET || d.action == ABORT)
  }

  ghost predicate Above(new_: Option<int>, low: int, high: int) {
    new_.Some? ==> low < new_.value <= high
  }

  /** A decision brings what belongs to its action and nothing else; a budget only grows. */
  ghost predicate Fitting(g: Goal, d: DecisionRequest) {
    var c := d.change;
    && (d.action == PROVIDE_EVIDENCE <==> c.evidence != "") && (d.action == PROVIDE_EVIDENCE ==> Says(c.evidence))
    && (d.action == CHANGE_CONSTRAINT <==> c.constraint != "") && (d.action == CHANGE_CONSTRAINT ==> Says(c.constraint))
    && (d.action == INCREASE_BUDGET <==> c.maxAttempts.Some? || c.maxReplans.Some? || c.maxTokens.Some? || c.maxCost.Some?)
    && Above(c.maxAttempts, g.maxAttempts, 100_000) && Above(c.maxReplans, g.maxReplans, 100)
    && Above(c.maxTokens, if g.maxTokens.Some? && g.maxTokens.value > 0 then g.maxTokens.value else 0, 1_000_000_000_000)
    && Above(c.maxCost, if g.maxCost.Some? && g.maxCost.value > 0 then g.maxCost.value else 0, 1_000_000_000_000)
  }

  ghost predicate Acceptable(g: Goal, a: Actor, d: DecisionRequest) {
    Entitled(a, g) && Scoped(a, d.action) && WellMade(d) && Current(g, d) && Fitting(g, d)
  }

  // ---------- what a decision does ----------

  /** A rejection fails the goal, an abort cancels it, nothing else moves its state. */
  ghost predicate StateAfter(g: Goal, h: Goal, action: ActionKind) {
    h.state == match action
      case REJECT => FAILED
      case ABORT => CANCELED
      case _ => g.state
  }

  ghost predicate Taken<T>(old_: T, new_: T, asked: Option<T>) {
    new_ == if asked.Some? then asked.value else old_
  }

  ghost predicate TakenOption(old_: Option<int>, new_: Option<int>, asked: Option<int>) {
    new_ == if asked.Some? then asked else old_
  }

  /** The row is written, the version counted, and an approval leaves one unspent permission. */
  ghost predicate Effected(g: Goal, h: Goal, a: Actor, d: DecisionRequest) {
    && h == g.(state := h.state, version := h.version, maxAttempts := h.maxAttempts, maxReplans := h.maxReplans,
               maxTokens := h.maxTokens, maxCost := h.maxCost, decisions := h.decisions, permissions := h.permissions)
    && StateAfter(g, h, d.action) && h.version == g.version + 1
    && Taken(g.maxAttempts, h.maxAttempts, d.change.maxAttempts) && Taken(g.maxReplans, h.maxReplans, d.change.maxReplans)
    && TakenOption(g.maxTokens, h.maxTokens, d.change.maxTokens) && TakenOption(g.maxCost, h.maxCost, d.change.maxCost)
    && h.decisions == g.decisions[d.operation := DecisionRow(a.id, d, g.version + 1)]
    && h.permissions == if d.action == APPROVE_NEXT_REPLAN then g.permissions[d.operation := Permission(g.activePlan, g.activeGraph, false)] else g.permissions
  }

  lemma EntitledMeans(a: Actor, g: Goal)
    ensures Entitled(a, g) <==> Authorised(a) && g.owner == a.owner && g.project in a.projects
  {
    BlankMeans(a.id);
  }

  lemma WellMadeMeans(d: DecisionRequest)
    ensures WellMade(d) <==> ValidDecision(d)
  {
    BlankMeans(d.reason);
    assert forall i :: 0 <= i < |d.operation| ==> ('!' <= d.operation[i] <= '~' <==> 33 <= d.operation[i] as int <= 126);
  }

  lemma RaisesMeans(g: Goal, c: Change)
    ensures ValidIncrease(g, c) <==>
      && Above(c.maxAttempts, g.maxAttempts, 100_000) && Above(c.maxReplans, g.maxReplans, 100)
      && Above(c.maxTokens, if g.maxTokens.Some? && g.maxTokens.value > 0 then g.maxTokens.value else 0, 1_000_000_000_000)
      && Above(c.maxCost, if g.maxCost.Some? && g.maxCost.value > 0 then g.maxCost.value else 0, 1_000_000_000_000)
  {
  }

  lemma DecidableMeans(g: Goal, a: Actor, d: DecisionRequest)
    ensures Decidable(g, a, d) <==> Scoped(a, d.action) && Current(g, d) && Fitting(g, d)
  {
    BlankMeans(d.change.evidence);
    BlankMeans(d.change.constraint);
    RaisesMeans(g, d.change);
  }

  /** A decision under a new name is taken exactly when it is acceptable, and does just what it says. */
  lemma DecisionExact(db: Db, a: Actor, goal: Key, d: DecisionRequest)
    requires goal in db && Inv(db[goal]) && d.operation !in db[goal].decisions
    ensures var g, x := db[goal], DecidedIn(db, a, goal, d);
      && (x.answer.Accepted? <==> Acceptable(g, a, d))
      && (x.answer.Accepted? ==> x.answer.value == Receipt(g.version + 1, false))
      && (x.answer.Accepted? ==> goal in x.db && x.db == db[goal := x.db[goal]] && Effected(g, x.db[goal], a, d))
      && (x.answer.Refused? ==> x.db == db)
  {
    var g := db[goal];
    EntitledMeans(a, g);
    WellMadeMeans(d);
    DecidableMeans(g, a, d);
    assert d.operation !in g.permissions;
  }

  // ---------- over runs ----------

  /** The step in which the decision on record was made. */
  ghost predicate MadeBy(steps: seq<Step>, i: nat, id: Key, op: Key, row: DecisionRow) {
    && i < |steps| && steps[i].Decide? && steps[i].goal == id && steps[i].decision == row.request && row.request.operation == op
    && id in After(steps[..i]) && row.actor == steps[i].actor.id
    && Acceptable(After(steps[..i])[id], steps[i].actor, row.request)
    && Decides(After(steps[..i]), steps[i], id, op, Next(After(steps[..i]), steps[i]))
  }

  ghost predicate Decides(db: Db, step: Step, id: Key, op: Key, next: Db) {
    && step.Decide? && step.goal == id && id in db && step.decision.operation == op && id in next && op in next[id].decisions
    && next[id].decisions[op].actor == step.actor.id && next[id].decisions[op].request == step.decision
    && Acceptable(db[id], step.actor, step.decision) && Effected(db[id], next[id], step.actor, step.decision)
  }

  ghost predicate Kept(db: Db, next: Db, id: Key, op: Key) {
    id in db && id in next && op in db[id].decisions && op in next[id].decisions && db[id].decisions[op] == next[id].decisions[op]
  }

  lemma DecideDecides(db: Db, step: Step, id: Key, op: Key, next: Db)
    requires AllInv(db) && step.Decide? && next == DecidedIn(db, step.actor, step.goal, step.decision).db
    requires id in next && op in next[id].decisions && !Kept(db, next, id, op)
    ensures Decides(db, step, id, op, next)
  {
    assert id == step.goal && id in db && op !in db[id].decisions && op == step.decision.operation;
    DecisionExact(db, step.actor, id, step.decision);
  }

  lemma GuardDecidesNothing(db: Db, r: ReplanRequest, approval: Key, p: Publication, usage: Usage, now: int, id: Key)
    requires id in Guarded(db, r, approval, p, usage, now).db
    ensures id in db && Guarded(db, r, approval, p, usage, now).db[id].decisions == db[id].decisions
  {
    if r.goal in db {
      var open := db[r.goal].(requests := db[r.goal].requests - {r.evaluation});
      RulingDecidesNothing(open, r, approval, p, usage, now);
    }
  }

  lemma RulingDecidesNothing(g: Goal, r: ReplanRequest, approval: Key, p: Publication, usage: Usage, now: int)
    ensures var x := Ruled(g, r, approval, p, usage, now); x.Accepted? ==> x.value.0.decisions == g.decisions
  {
    var x := Ruled(g, r, approval, p, usage, now);
    if x.Accepted? && Screen(g, r, approval, p.Publish?, usage, now).ruling == Allowed {
      var h, row := AllowedForm(g, r, approval, p, usage, now);
    }
  }

  lemma OthersDecideNothing(db: Db, step: Step, id: Key)
    requires !step.Decide? && id in Next(db, step)
    ensures if id in db then Next(db, step)[id].decisions == db[id].decisions else Next(db, step)[id].decisions == map[]
  {
    match step
    case Guard(r, usage, now) =>
      GuardDecidesNothing(db, r, "", Absent, usage, now, id);
    case Publishing(r, approval, fails, writes, usage, now) =>
      GuardDecidesNothing(db, r, approval, Publish(fails, writes), usage, now, id);
    case _ =>
  }

  lemma OnlyDecided(db: Db, step: Step, id: Key, op: Key, next: Db)
    requires AllInv(db) && next == Next(db, step) && id in next && op in next[id].decisions
    ensures Kept(db, next, id, op) || Decides(db, step, id, op, next)
  {
    if step.Decide? {
      if !Kept(db, next, id, op) {
        DecideDecides(db, step, id, op, next);
      }
    } else {
      OthersDecideNothing(db, step, id);
    }
  }

  /** Every decision on record was made during the run by a human entitled to it, on the goal as it then
      was. */
  lemma {:induction false} EveryDecisionMade(steps: seq<Step>, id: Key, op: Key) returns (i: nat)
    requires id in After(steps) && op in After(steps)[id].decisions
    ensures MadeBy(steps, i, id, op, After(steps)[id].decisions[op])
  {
    var last := |steps| - 1;
    var before := steps[..last];
    RunInvariant(before);
    OnlyDecided(After(before), steps[last], id, op, After(steps));
    if Kept(After(before), After(steps), id, op) {
      i := EveryDecisionMade(before, id, op);
      StillMade(steps, last, i, id, op, After(steps)[id].decisions[op]);
    } else {
      i := last;
    }
  }

  lemma StillMade(steps: seq<Step>, last: nat, i: nat, id: Key, op: Key, row: DecisionRow)
    requires last <= |steps| && MadeBy(steps[..last], i, id, op, row)
    ensures MadeBy(steps, i, id, op, row)
  {
    assert steps[..last][..i] == steps[..i] && steps[..last][i] == steps[i];
  }

  /** So a permission that was spent was granted by a human, for the revision it was spent on. */
  lemma SpentByHuman(steps: seq<Step>, id: Key, op: Key) returns (i: nat)
    requires Spent(After(steps), id, op)
    ensures i < |steps| && steps[i].Decide? && steps[i].goal == id && steps[i].decision.operation == op
    ensures steps[i].decision.action == APPROVE_NEXT_REPLAN && steps[i].decision.plan == After(steps)[id].permissions[op].plan
    ensures id in After(steps[..i]) && Entitled(steps[i].actor, After(steps[..i])[id]) && After(steps[..i])[id].state == NEEDS_APPROVAL
  {
    RunInvariant(steps);
    assert Inv(After(steps)[id]);
    i := EveryDecisionMade(steps, id, op);
  }
}

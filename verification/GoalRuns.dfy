/** Whole runs of the guard and of governance, interleaved with the server's own state changes. */
module GoalRuns {
  import opened Keys
  import opened Outcomes
  import opened Fingerprints
  import opened Goals
  import opened GoalLaws

  /** Reserve is also what internal/server/goal_execution.go:96-99 does; what else it asks for only refuses. */
  datatype Step =
    | Create(spec: NewGoal, now: int)
    | Reserve(goal: Key)
    | Register(goal: Key, revision: int, proposal: Proposal)
    | Guard(request: ReplanRequest, usage: Usage, now: int)
    | Publishing(request: ReplanRequest, approval: Key, fails: bool, writes: bool, usage: Usage, now: int)
    | Decide(actor: Actor, goal: Key, decision: DecisionRequest)
    | Advance(goal: Key, state: GoalState)
    | Extend(goal: Key, deadline: int)
    | Retry(goal: Key)
    | Insert(goal: Key, owner: string, project: string, work: Work, created: int, wall: int, deadline: int)

  /** What a goal the server inserts by itself is for: a submitted graph, whose attempts are allowed once
      per replan, or a job without a goal, whose attempts so far already count. */
  datatype Work = OfGraph(attempts: int, replans: int) | OfJob(tasks: int, perTask: int, used: int)

  function Put(db: Db, goal: Key, g: Outcome<Goal>): Db {
    if g.Accepted? then db[goal := g.value] else db
  }

  /** Execution, evaluation and cancellation move only goals that are not terminal, and leave the guard's
      tables alone: internal/server/goal_execution.go:126, 214, graph_evaluation.go:93-132, 174, jobs.go:416. */
  function Advanced(g: Goal, s: GoalState): Outcome<Goal> {
    if Terminal(g.state) then Refused else Accepted(g.(state := s, version := g.version + 1))
  }

  /** internal/server/long_running.go:74 */
  function Extended(g: Goal, deadline: int): Outcome<Goal> {
    if Terminal(g.state) || deadline - g.created < 1 then Refused
    else Accepted(g.(deadline := deadline, maxWall := deadline - g.created, version := g.version + 1))
  }

  /** A manual retry runs a FAILED goal again: internal/server/manual_retry.go:200-202. */
  function Retried(g: Goal): Outcome<Goal> {
    if g.state == FAILED then Accepted(g.(state := RUNNING, version := g.version + 1)) else Refused
  }

  function AtLeast(low: int, x: int): int {
    if x < low then low else x
  }

  /** internal/server/graphs.go:140-152 and goal_execution.go:47-65 */
  function Inserted(owner: string, project: string, w: Work, created: int, wall: int, deadline: int): Goal {
    var blank := FirstGoal(NewGoal("", owner, project, 0, 0, 0, deadline), created);
    match w
    case OfGraph(attempts, replans) =>
      blank.(state := GRAPH_READY, maxReplans := replans, maxAttempts := AtLeast(1, attempts) * (replans + 1), maxWall := wall)
    case OfJob(tasks, perTask, used) =>
      blank.(state := RUNNING, maxAttempts := AtLeast(used, tasks * AtLeast(1, perTask)), usedAttempts := used, maxWall := AtLeast(1, wall))
  }

  /** The constraints of the table: internal/store/migrations.go:760-777. */
  predicate Storable(g: Goal) {
    g.maxReplans >= 0 && g.maxAttempts >= 1 && g.maxWall >= 1 && g.usedAttempts >= 0
  }

  function Next(db: Db, step: Step): Db {
    match step
    case Create(n, now) => if Creatable(db, n) then db[n.id := FirstGoal(n, now)] else db
    case Reserve(goal) => if goal in db then Put(db, goal, Reserved(db[goal])) else db
    case Register(goal, revision, p) => if goal != "" && goal in db then Put(db, goal, RegisteredPlan(db[goal], revision, p)) else db
    case Guard(r, usage, now) => Guarded(db, r, "", Absent, usage, now).db
    case Publishing(r, approval, fails, writes, usage, now) => Guarded(db, r, approval, Publish(fails, writes), usage, now).db
    case Decide(a, goal, d) => DecidedIn(db, a, goal, d).db
    case Advance(goal, s) => if goal in db then Put(db, goal, Advanced(db[goal], s)) else db
    case Extend(goal, deadline) => if goal in db then Put(db, goal, Extended(db[goal], deadline)) else db
    case Retry(goal) => if goal in db then Put(db, goal, Retried(db[goal])) else db
    case Insert(goal, owner, project, w, created, wall, deadline) =>
      var g := Inserted(owner, project, w, created, wall, deadline);
      if goal !in db && Storable(g) then db[goal := g] else db
  }

  function After(steps: seq<Step>): Db {
    if steps == [] then map[] else Next(After(steps[..|steps| - 1]), steps[|steps| - 1])
  }

  // ---------- what a goal can become ----------

  ghost predicate Raised(from: int, to: int, ceiling: int) {
    from <= to && (to <= ceiling || to == from)
  }

  ghost predicate KeepsDecisions(ds: map<Key, DecisionRow>, es: map<Key, DecisionRow>) {
    forall op :: op in ds ==> op in es && es[op] == ds[op]
  }

  /** Permissions are never withdrawn or restored, and those of revisions before active are settled. */
  ghost predicate KeepsPermissions(ps: Permissions, qs: Permissions, active: int) {
    && (forall op :: op in ps ==> op in qs && qs[op].plan == ps[op].plan && qs[op].graph == ps[op].graph && (ps[op].consumed ==> qs[op].consumed))
    && (forall op :: op in qs && qs[op].plan < active ==> op in ps && ps[op] == qs[op])
  }

  /** Only a pending request can ever be decided again. */
  ghost predicate KeepsRequests(rs: map<Key, RequestRow>, ts: map<Key, RequestRow>) {
    forall e :: e in rs && rs[e].verdict.ruling != Pending ==> e in ts && ts[e] == rs[e]
  }

  /** Nothing but rows that record further refusals or register plans. */
  ghost predicate Frozen(g: Goal, h: Goal) {
    h == g.(plans := h.plans, requests := h.requests)
  }

  /** Terminal and beyond the reach of a manual retry. */
  predicate Final(s: GoalState) {
    s == SUCCEEDED || s == CANCELED
  }

  ghost predicate Later(g: Goal, h: Goal) {
    && g.owner == h.owner && g.project == h.project
    && Raised(g.maxReplans, h.maxReplans, 100)
    && Raised(g.maxAttempts, h.maxAttempts, 100000)
    && g.activePlan <= h.activePlan && g.usedAttempts <= h.usedAttempts && g.version <= h.version
    && g.history <= h.history && g.plans <= h.plans && g.published <= h.published
    && KeepsDecisions(g.decisions, h.decisions)
    && KeepsPermissions(g.permissions, h.permissions, g.activePlan)
    && KeepsRequests(g.requests, h.requests)
    && (Final(g.state) ==> Frozen(g, h))
  }

  lemma LaterTrans(a: Goal, b: Goal, c: Goal)
    requires Later(a, b) && Later(b, c)
    ensures Later(a, c)
  {
    assert KeepsPermissions(a.permissions, c.permissions, a.activePlan);
  }

  lemma LaterSelf(g: Goal)
    ensures Later(g, g)
  {
  }

  lemma RegisteredLater(g: Goal, revision: int, p: Proposal)
    requires RegisteredPlan(g, revision, p).Accepted?
    ensures Later(g, RegisteredPlan(g, revision, p).value)
  {
  }

  lemma DecidedLater(g: Goal, a: Actor, d: DecisionRequest)
    requires Inv(g) && Decidable(g, a, d) && d.operation !in g.decisions
    ensures Later(g, Decided(g, a, d))
  {
    assert d.operation !in g.permissions;
  }

  /** From the goal whose pending request was taken out, as from the goal itself. */
  lemma OpenedLater(g: Goal, e: Key, h: Goal)
    requires e in g.requests ==> g.requests[e].verdict.ruling == Pending
    requires Later(g.(requests := g.requests - {e}), h)
    ensures Later(g, h)
  {
    var open := g.(requests := g.requests - {e});
    assert KeepsRequests(g.requests, h.requests) by {
      forall x | x in g.requests && g.requests[x].verdict.ruling != Pending ensures x in h.requests && h.requests[x] == g.requests[x] {
        assert x in open.requests && open.requests[x] == g.requests[x];
      }
    }
  }

  lemma BumpedLater(g: Goal, r: ReplanRequest, row: RequestRow, ps: Permissions)
    requires !Final(g.state) && r.evaluation !in g.requests && KeepsPermissions(g.permissions, ps, g.activePlan)
    ensures Later(g, Bumped(g.(permissions := ps, requests := g.requests[r.evaluation := row]), r))
  {
    assert KeepsRequests(g.requests, g.requests[r.evaluation := row]);
  }

  lemma WrittenLater(g: Goal, w: Goal, p: Publication)
    requires Later(g, w) && !Final(g.state) && Written(w, p).Accepted?
    ensures Later(g, Written(w, p).value)
  {
  }

  lemma PermittedKeeps(g: Goal, approval: Key, publishing: bool)
    requires Permitted(g, approval, publishing).Accepted?
    ensures KeepsPermissions(g.permissions, Permitted(g, approval, publishing).value.permissions, g.activePlan)
  {
  }

  lemma AllowedLater(g: Goal, r: ReplanRequest, approval: Key, p: Publication, usage: Usage, now: int)
    requires r.evaluation !in g.requests && Ruled(g, r, approval, p, usage, now).Accepted?
    requires Screen(g, r, approval, p.Publish?, usage, now).ruling == Allowed
    ensures Later(g, Ruled(g, r, approval, p, usage, now).value.0)
  {
    var h, row := AllowedForm(g, r, approval, p, usage, now);
    AllowedMeans(g, r, approval, p.Publish?, usage, now);
    PermittedKeeps(g, approval, p.Publish?);
    BumpedLater(g, r, row, h.permissions);
    assert h.(requests := h.requests[r.evaluation := row]) == g.(permissions := h.permissions, requests := g.requests[r.evaluation := row]);
    WrittenLater(g, Bumped(h.(requests := h.requests[r.evaluation := row]), r), p);
  }

  lemma RuledLater(g: Goal, r: ReplanRequest, approval: Key, p: Publication, usage: Usage, now: int)
    requires r.evaluation !in g.requests && Ruled(g, r, approval, p, usage, now).Accepted?
    ensures Later(g, Ruled(g, r, approval, p, usage, now).value.0)
  {
    var v := Screen(g, r, approval, p.Publish?, usage, now);
    if v.ruling == Allowed {
      AllowedLater(g, r, approval, p, usage, now);
    } else {
      assert KeepsRequests(g.requests, g.requests[r.evaluation := RowOf(r, v, 0, 0)]);
    }
  }

  // ---------- one transaction ----------

  ghost predicate AllInv(db: Db) {
    forall id :: id in db ==> Inv(db[id])
  }

  /** Every goal that was there is there, and later. */
  ghost predicate Grows(db: Db, next: Db) {
    forall id :: id in db ==> id in next && Later(db[id], next[id])
  }

  lemma OneGoal(db: Db, goal: Key, g: Goal)
    requires AllInv(db) && Inv(g) && (goal in db ==> Later(db[goal], g))
    ensures AllInv(db[goal := g]) && Grows(db, db[goal := g])
  {
    forall id | id in db ensures Later(db[id], db[goal := g][id]) {
      LaterSelf(db[id]);
    }
  }

  lemma Unchanged(db: Db)
    requires AllInv(db)
    ensures Grows(db, db)
  {
    forall id | id in db ensures Later(db[id], db[id]) {
      LaterSelf(db[id]);
    }
  }

  lemma CreateKeeps(db: Db, n: NewGoal, now: int)
    requires AllInv(db) && Creatable(db, n)
    ensures AllInv(db[n.id := FirstGoal(n, now)]) && Grows(db, db[n.id := FirstGoal(n, now)])
  {
    assert Inv(FirstGoal(n, now));
    OneGoal(db, n.id, FirstGoal(n, now));
  }

  lemma GuardKeeps(db: Db, r: ReplanRequest, approval: Key, p: Publication, usage: Usage, now: int)
    requires AllInv(db)
    ensures AllInv(Guarded(db, r, approval, p, usage, now).db) && Grows(db, Guarded(db, r, approval, p, usage, now).db)
  {
    var next := Guarded(db, r, approval, p, usage, now).db;
    if next == db {
      Unchanged(db);
    } else {
      var open := Opened(db[r.goal], r.evaluation);
      OpenedKeeps(db[r.goal], r, approval, p, usage, now);
      OneGoal(db, r.goal, Ruled(open, r, approval, p, usage, now).value.0);
    }
  }

  function Opened(g: Goal, e: Key): Goal {
    g.(requests := g.requests - {e})
  }

  lemma OpenedKeeps(g: Goal, r: ReplanRequest, approval: Key, p: Publication, usage: Usage, now: int)
    requires Inv(g) && (r.evaluation in g.requests ==> g.requests[r.evaluation].verdict.ruling == Pending)
    requires Ruled(Opened(g, r.evaluation), r, approval, p, usage, now).Accepted?
    ensures Inv(Ruled(Opened(g, r.evaluation), r, approval, p, usage, now).value.0)
    ensures Later(g, Ruled(Opened(g, r.evaluation), r, approval, p, usage, now).value.0)
  {
    var open := Opened(g, r.evaluation);
    OpenInv(g, r.evaluation);
    RuledKeeps(open, r, approval, p, usage, now);
    RuledLater(open, r, approval, p, usage, now);
    OpenedLater(g, r.evaluation, Ruled(open, r, approval, p, usage, now).value.0);
  }

  lemma OpenInv(g: Goal, e: Key)
    requires Inv(g) && (e in g.requests ==> g.requests[e].verdict.ruling == Pending)
    ensures Inv(g.(requests := g.requests - {e}))
  {
    if e in g.requests {
      UnansweredKeeps(g.history, g.requests, e, g.requests[e]);
    } else {
      assert g.requests - {e} == g.requests;
    }
  }

  lemma PlainKeeps(g: Goal, h: Goal)
    requires Inv(g) && !Final(g.state)
    requires h == g.(state := h.state, version := g.version + 1, deadline := h.deadline, maxWall := h.maxWall, usedAttempts := h.usedAttempts)
    requires g.usedAttempts <= h.usedAttempts <= g.maxAttempts
    ensures Inv(h) && Later(g, h)
  {
  }

  lemma PlainStep(db: Db, goal: Key, h: Goal)
    requires AllInv(db) && goal in db && !Final(db[goal].state)
    requires h == db[goal].(state := h.state, version := db[goal].version + 1, deadline := h.deadline, maxWall := h.maxWall, usedAttempts := h.usedAttempts)
    requires db[goal].usedAttempts <= h.usedAttempts <= db[goal].maxAttempts
    ensures AllInv(db[goal := h]) && Grows(db, db[goal := h])
  {
    PlainKeeps(db[goal], h);
    OneGoal(db, goal, h);
  }

  lemma ReserveKeeps(db: Db, goal: Key)
    requires AllInv(db) && goal in db && Reserved(db[goal]).Accepted?
    ensures AllInv(Put(db, goal, Reserved(db[goal]))) && Grows(db, Put(db, goal, Reserved(db[goal])))
  {
    PlainStep(db, goal, Reserved(db[goal]).value);
  }

  lemma AdvanceKeeps(db: Db, goal: Key, s: GoalState)
    requires AllInv(db) && goal in db && Advanced(db[goal], s).Accepted?
    ensures AllInv(Put(db, goal, Advanced(db[goal], s))) && Grows(db, Put(db, goal, Advanced(db[goal], s)))
  {
    assert Inv(db[goal]);
    PlainStep(db, goal, Advanced(db[goal], s).value);
  }

  lemma ExtendKeeps(db: Db, goal: Key, deadline: int)
    requires AllInv(db) && goal in db && Extended(db[goal], deadline).Accepted?
    ensures AllInv(Put(db, goal, Extended(db[goal], deadline))) && Grows(db, Put(db, goal, Extended(db[goal], deadline)))
  {
    assert Inv(db[goal]);
    PlainStep(db, goal, Extended(db[goal], deadline).value);
  }

  lemma RetryKeeps(db: Db, goal: Key)
    requires AllInv(db) && goal in db && Retried(db[goal]).Accepted?
    ensures AllInv(Put(db, goal, Retried(db[goal]))) && Grows(db, Put(db, goal, Retried(db[goal])))
  {
    assert Inv(db[goal]);
    PlainStep(db, goal, Retried(db[goal]).value);
  }

  lemma InsertKeeps(db: Db, goal: Key, g: Goal, owner: string, project: string, w: Work, created: int, wall: int, deadline: int)
    requires AllInv(db) && goal !in db && Storable(g) && g == Inserted(owner, project, w, created, wall, deadline)
    ensures AllInv(db[goal := g]) && Grows(db, db[goal := g])
  {
    assert Inv(g);
    OneGoal(db, goal, g);
  }

  lemma DecideKeeps(db: Db, a: Actor, goal: Key, d: DecisionRequest)
    requires AllInv(db) && DecidedIn(db, a, goal, d).db != db
    ensures AllInv(DecidedIn(db, a, goal, d).db) && Grows(db, DecidedIn(db, a, goal, d).db)
  {
    DecidedKeeps(db[goal], a, d);
    DecidedLater(db[goal], a, d);
    OneGoal(db, goal, Decided(db[goal], a, d));
  }

  lemma RegisterKeeps(db: Db, goal: Key, revision: int, p: Proposal)
    requires AllInv(db) && goal in db && RegisteredPlan(db[goal], revision, p).Accepted?
    ensures var next := db[goal := RegisteredPlan(db[goal], revision, p).value]; AllInv(next) && Grows(db, next)
  {
    RegisteredKeeps(db[goal], revision, p);
    RegisteredLater(db[goal], revision, p);
    OneGoal(db, goal, RegisteredPlan(db[goal], revision, p).value);
  }

  lemma StepKeeps(db: Db, step: Step)
    requires AllInv(db)
    ensures AllInv(Next(db, step)) && Grows(db, Next(db, step))
  {
    if Next(db, step) == db {
      Unchanged(db);
    } else if step.Guard? {
      GuardKeeps(db, step.request, "", Absent, step.usage, step.now);
    } else if step.Publishing? {
      GuardKeeps(db, step.request, step.approval, Publish(step.fails, step.writes), step.usage, step.now);
    } else if step.Decide? {
      DecideKeeps(db, step.actor, step.goal, step.decision);
    } else {
      MoveKeeps(db, step);
    }
  }

  lemma MoveKeeps(db: Db, step: Step)
    requires AllInv(db) && Next(db, step) != db
    requires !step.Guard? && !step.Publishing? && !step.Decide?
    ensures AllInv(Next(db, step)) && Grows(db, Next(db, step))
  {
    match step
    case Create(n, now) =>
      CreateKeeps(db, n, now);
    case Reserve(goal) =>
      ReserveKeeps(db, goal);
    case Register(goal, revision, p) =>
      RegisterKeeps(db, goal, revision, p);
    case Advance(goal, s) =>
      AdvanceKeeps(db, goal, s);
    case Extend(goal, deadline) =>
      ExtendKeeps(db, goal, deadline);
    case Retry(goal) =>
      RetryKeeps(db, goal);
    case Insert(goal, owner, project, w, created, wall, deadline) =>
      InsertKeeps(db, goal, Inserted(owner, project, w, created, wall, deadline), owner, project, w, created, wall, deadline);
  }

  /** Only a retry moves a goal that is terminal. */
  lemma TerminalStep(db: Db, step: Step, id: Key)
    requires id in db && Terminal(db[id].state) && step != Retry(id)
    ensures id in Next(db, step) && Frozen(db[id], Next(db, step)[id])
  {
    match step
    case Guard(r, usage, now) =>
      TerminalGuard(db, r, "", Absent, usage, now, id);
    case Publishing(r, approval, fails, writes, usage, now) =>
      TerminalGuard(db, r, approval, Publish(fails, writes), usage, now, id);
    case Decide(a, goal, d) =>
      TerminalDecide(db, a, goal, d, id);
    case Register(goal, revision, p) =>
      if goal in db {
        TerminalRegister(db, goal, revision, p, id);
      }
    case _ =>
  }

  lemma TerminalDecide(db: Db, a: Actor, goal: Key, d: DecisionRequest, id: Key)
    requires id in db && Terminal(db[id].state)
    ensures var next := DecidedIn(db, a, goal, d).db; id in next && next[id] == db[id]
  {
  }

  lemma TerminalRegister(db: Db, goal: Key, revision: int, p: Proposal, id: Key)
    requires id in db && goal in db
    ensures var next := Put(db, goal, RegisteredPlan(db[goal], revision, p)); id in next && Frozen(db[id], next[id])
  {
  }

  lemma TerminalGuard(db: Db, r: ReplanRequest, approval: Key, p: Publication, usage: Usage, now: int, id: Key)
    requires id in db && Terminal(db[id].state)
    ensures var next := Guarded(db, r, approval, p, usage, now).db; id in next && Frozen(db[id], next[id])
  {
    if r.goal in db {
      assert Terminal(Opened(db[r.goal], r.evaluation).state) == Terminal(db[r.goal].state);
    }
  }

  // ---------- every run ----------

  /** Conservation and loop prevention hold of every goal after every run. */
  lemma {:induction false} RunInvariant(steps: seq<Step>)
    ensures AllInv(After(steps))
  {
    if steps != [] {
      RunInvariant(steps[..|steps| - 1]);
      StepKeeps(After(steps[..|steps| - 1]), steps[|steps| - 1]);
    }
  }

  /** Whatever happens next, a goal only moves forward. */
  lemma {:induction false} RunForward(steps: seq<Step>, more: seq<Step>)
    ensures Grows(After(steps), After(steps + more))
    decreases |more|
  {
    if more == [] {
      assert steps + more == steps;
      RunInvariant(steps);
      Unchanged(After(steps));
    } else {
      var n := |more| - 1;
      RunForward(steps, more[..n]);
      assert (steps + more)[..|steps + more| - 1] == steps + more[..n];
      RunInvariant(steps + more[..n]);
      StepKeeps(After(steps + more[..n]), more[n]);
      GrowsTrans(After(steps), After(steps + more[..n]), After(steps + more));
    }
  }

  lemma GrowsTrans(a: Db, b: Db, c: Db)
    requires Grows(a, b) && Grows(b, c)
    ensures Grows(a, c)
  {
    forall id | id in a ensures id in c && Later(a[id], c[id]) {
      LaterTrans(a[id], b[id], c[id]);
    }
  }

  /** The caps only rise: attempts and replans stay within them, replans within 100 or the first cap. */
  lemma Conserved(steps: seq<Step>, more: seq<Step>, id: Key)
    requires id in After(steps)
    ensures id in After(steps + more)
    ensures var g, h := After(steps)[id], After(steps + more)[id];
      && h.activePlan == h.activeGraph == 1 + h.usedReplans == 1 + |h.history|
      && h.usedReplans <= h.maxReplans && h.usedAttempts <= h.maxAttempts
      && g.maxReplans <= h.maxReplans && g.maxAttempts <= h.maxAttempts
      && h.maxReplans <= (if g.maxReplans > 100 then g.maxReplans else 100)
      && (Final(g.state) ==> Frozen(g, h))
      && (g.state == FAILED ==> (Frozen(g, h) <==> Retry(id) !in more))
  {
    RunInvariant(steps + more);
    RunForward(steps, more);
    if After(steps)[id].state == FAILED {
      if Retry(id) in more {
        RetryMoves(steps, more, id);
      } else {
        TerminalStays(steps, more, id);
      }
    }
  }

  lemma LastStep(steps: seq<Step>, more: seq<Step>) returns (db: Db)
    requires more != []
    ensures db == After(steps + more[..|more| - 1]) && After(steps + more) == Next(db, more[|more| - 1])
  {
    db := After(steps + more[..|more| - 1]);
    assert (steps + more)[..|steps + more| - 1] == steps + more[..|more| - 1];
  }

  lemma {:induction false} TerminalStays(steps: seq<Step>, more: seq<Step>, id: Key)
    requires id in After(steps) && Terminal(After(steps)[id].state) && Retry(id) !in more
    ensures id in After(steps + more) && Frozen(After(steps)[id], After(steps + more)[id])
    decreases |more|
  {
    if more == [] {
      assert steps + more == steps;
    } else {
      TerminalStays(steps, more[..|more| - 1], id);
      var db := LastStep(steps, more);
      TerminalStep(db, more[|more| - 1], id);
    }
  }

  lemma VersionStays(db: Db, step: Step, id: Key)
    requires AllInv(db) && id in db
    ensures id in Next(db, step) && db[id].version <= Next(db, step)[id].version
  {
    StepKeeps(db, step);
  }

  lemma RetryRuns(db: Db, id: Key)
    requires id in db && db[id].state == FAILED
    ensures Next(db, Retry(id)) == db[id := db[id].(state := RUNNING, version := db[id].version + 1)]
  {
  }

  /** The first retry finds the goal still FAILED, and what follows never takes its version back. */
  lemma {:induction false} RetryMoves(steps: seq<Step>, more: seq<Step>, id: Key)
    requires id in After(steps) && After(steps)[id].state == FAILED && Retry(id) in more
    ensures id in After(steps + more) && After(steps)[id].version < After(steps + more)[id].version
    decreases |more|
  {
    var init, last := more[..|more| - 1], more[|more| - 1];
    var db := LastStep(steps, more);
    if Retry(id) in init {
      RetryMoves(steps, init, id);
      RunInvariant(steps + init);
      VersionStays(db, last, id);
    } else {
      TerminalStays(steps, init, id);
      RetryRuns(db, id);
    }
  }

  lemma AfterOne(steps: seq<Step>, step: Step)
    ensures After(steps + [step]) == Next(After(steps), step)
  {
    assert (steps + [step])[..|steps + [step]| - 1] == steps;
  }

  /** A goal the server inserts allows each task its attempts once per replan, or, for a job, as many as its tasks
      may take and at least those already used. */
  lemma InsertExact(db: Db, goal: Key, owner: string, project: string, w: Work, created: int, wall: int, deadline: int)
    requires goal !in db && goal in Next(db, Insert(goal, owner, project, w, created, wall, deadline))
    ensures var g := Next(db, Insert(goal, owner, project, w, created, wall, deadline))[goal];
      && g.owner == owner && g.project == project && g.created == created && g.deadline == deadline && g.activePlan == g.activeGraph == 1
      && g.usedReplans == 0 && g.plans == [] && g.history == [] && g.version == 1
      && (w.OfGraph? ==> g.state == GRAPH_READY && g.maxReplans == w.replans && g.usedAttempts == 0 && g.maxWall == wall)
      && (w.OfGraph? ==> g.maxAttempts == (if w.attempts > 1 then w.attempts else 1) * (w.replans + 1))
      && (w.OfJob? ==> g.state == RUNNING && g.maxReplans == 0 && g.usedAttempts == w.used && g.maxWall == (if wall > 1 then wall else 1))
      && (w.OfJob? ==> var most := w.tasks * (if w.perTask > 1 then w.perTask else 1); g.maxAttempts == if w.used > most then w.used else most)
  {
  }

  /** A deadline moves the wall limit with it and nothing else; a move of the server changes the state only. */
  lemma MoveExact(db: Db, goal: Key, state: GoalState, deadline: int)
    requires goal in db
    ensures var g, over := db[goal], db[goal].state in {SUCCEEDED, FAILED, CANCELED};
      && Next(db, Advance(goal, state)) == (if over then db else db[goal := g.(state := state, version := g.version + 1)])
      && Next(db, Extend(goal, deadline)) == if over || deadline <= g.created then db
           else db[goal := g.(deadline := deadline, maxWall := deadline - g.created, version := g.version + 1)]
  {
  }

  /** A human decision to reject a waiting goal leaves it FAILED. */
  lemma RejectFails(db: Db, id: Key, a: Actor, d: DecisionRequest)
    requires id in db && db[id].state == NEEDS_APPROVAL && d.action == REJECT && d.operation !in db[id].decisions
    requires Authorised(a) && ValidDecision(d) && db[id].owner == a.owner && db[id].project in a.projects && Decidable(db[id], a, d)
    ensures Next(db, Decide(a, id, d)) == db[id := Decided(db[id], a, d)] && Decided(db[id], a, d).state == FAILED
  {
  }

  /** A goal that a human rejected, and that runs again after a manual retry. */
  lemma RejectedRunsAgain() returns (steps: seq<Step>)
    ensures "g" in After(steps) && After(steps)["g"].state == FAILED
    ensures exists op :: op in After(steps)["g"].decisions && After(steps)["g"].decisions[op].request.action == REJECT
    ensures "g" in After(steps + [Retry("g")]) && After(steps + [Retry("g")])["g"].state == RUNNING
    ensures !Frozen(After(steps)["g"], After(steps + [Retry("g")])["g"])
  {
    var a := Actor("h", true, "o", ["p"], ["goals:approve"]);
    var d := DecisionRequest("d", 2, 1, 1, REJECT, "r", Change(None, None, None, None, "", ""));
    var n := NewGoal("g", "o", "p", 0, 1, 1_000_000, 0);
    var waiting := FirstGoal(n, 0).(state := NEEDS_APPROVAL, version := 2);
    AfterOne([], Create(n, 0));
    AfterOne([] + [Create(n, 0)], Advance("g", NEEDS_APPROVAL));
    var before := [] + [Create(n, 0)] + [Advance("g", NEEDS_APPROVAL)];
    assert After(before)["g"] == waiting;
    assert Authorised(a) && ValidDecision(d) by {
      assert a.scopes[0] == "goals:approve";
    }
    assert "p" in a.projects by {
      assert a.projects[0] == "p";
    }
    RejectFails(After(before), "g", a, d);
    steps := before + [Decide(a, "g", d)];
    AfterOne(before, Decide(a, "g", d));
    AfterOne(steps, Retry("g"));
    RetryRuns(After(steps), "g");
    assert d.operation in After(steps)["g"].decisions;
  }

  /** A revision made without a human permission brings a strategy unlike those of the six revisions
      before it, does not answer a third failure of one class in a row, and follows or makes progress. */
  lemma LoopPrevention(steps: seq<Step>, id: Key, i: nat)
    requires id in After(steps) && i < |After(steps)[id].history|
    requires !Approved(After(steps)[id].permissions, After(steps)[id].history[i].plan)
    ensures var h := After(steps)[id].history;
      && (forall j :: 0 <= j < i && i - j <= CYCLE_WINDOW ==> h[j].signature != h[i].signature)
      && (i >= 2 ==> !(h[i].failure == h[i - 1].failure == h[i - 2].failure))
      && (i >= 1 ==> ImprovedOver(h[i].progress, h[i - 1].progress) || i == 1 || ImprovedOver(h[i - 1].progress, h[i - 2].progress))
    ensures exists k :: 0 <= k < |After(steps)[id].plans| && After(steps)[id].plans[k].revision == i + 2 && NewStrategy(After(steps)[id].plans, k)
  {
    RunInvariant(steps);
    var g := After(steps)[id];
    var k := PlanOf(g, i);
    forall j | 0 <= j < i && i - j <= CYCLE_WINDOW ensures g.history[j].signature != g.history[i].signature {
      EarlierDiffers(g, j, i, k);
    }
    assert Honest(g.history, i);
    assert i >= 1 ==> Honest(g.history, i - 1);
  }

  lemma EarlierDiffers(g: Goal, j: nat, i: nat, k: nat)
    requires Inv(g) && j < i < |g.history| && i - j <= CYCLE_WINDOW
    requires k < |g.plans| && g.plans[k] == PlanRow(i + 2, g.history[i].fingerprint, g.history[i].signature)
    requires !Approved(g.permissions, i + 2)
    ensures g.history[j].signature != g.history[i].signature
  {
    var l := PlanOf(g, j);
    assert NewStrategy(g.plans, k);
    assert l < k;
  }

  lemma PlanOf(g: Goal, i: nat) returns (k: nat)
    requires Inv(g) && i < |g.history|
    ensures k < |g.plans| && g.plans[k] == PlanRow(i + 2, g.history[i].fingerprint, g.history[i].signature)
  {
    assert HasPlan(g.plans, g.history[i]);
    k :| 0 <= k < |g.plans| && g.plans[k] == PlanRow(g.history[i].plan, g.history[i].fingerprint, g.history[i].signature);
  }

  ghost predicate Spent(db: Db, id: Key, op: Key) {
    id in db && op in db[id].permissions && db[id].permissions[op].consumed
  }

  /** A permission is spent only by publishing a replan: it was granted by a recorded approval for the
      very revision and generation then active, and spending it commits with the bump and the
      publication. */
  lemma SpentWithBump(steps: seq<Step>, step: Step, id: Key, op: Key)
    requires !Spent(After(steps), id, op) && Spent(Next(After(steps), step), id, op)
    ensures step.Publishing? && step.request.goal == id && step.approval == op && id in After(steps)
    ensures var g, h := After(steps)[id], Next(After(steps), step)[id];
      && g.state == NEEDS_APPROVAL
      && op in g.permissions && g.permissions[op] == Permission(g.activePlan, g.activeGraph, false)
      && op in g.decisions && g.decisions[op].request.action == APPROVE_NEXT_REPLAN
      && g.decisions[op].request.plan == g.activePlan && g.decisions[op].request.graph == g.activeGraph
      && SpentBy(g, h)
  {
    var db := After(steps);
    RunInvariant(steps);
    if id in db {
      assert Inv(db[id]);
      SpenderIs(db, step, id, op);
    }
  }

  lemma SpenderIs(db: Db, step: Step, id: Key, op: Key)
    requires id in db && Inv(db[id])
    requires !Spent(db, id, op) && Spent(Next(db, step), id, op)
    ensures step.Publishing? && step.request.goal == id && step.approval == op
    ensures op in db[id].permissions && Consumed(db[id], op).Accepted?
    ensures SpentBy(db[id], Next(db, step)[id])
  {
    match step
    case Guard(r, usage, now) =>
      GuardSpends(db, r, "", Absent, usage, now, id, op);
    case Publishing(r, approval, fails, writes, usage, now) =>
      GuardSpends(db, r, approval, Publish(fails, writes), usage, now, id, op);
    case Decide(_, _, _) =>
    case _ =>
  }

  ghost predicate SpentBy(g: Goal, h: Goal) {
    && h.activePlan == g.activePlan + 1 && h.activeGraph == g.activeGraph + 1
    && (h.activePlan, h.activeGraph) in h.published
    && |h.history| == |g.history| + 1 && h.history[|g.history|].plan == h.activePlan
  }

  lemma GuardSpends(db: Db, r: ReplanRequest, approval: Key, p: Publication, usage: Usage, now: int, id: Key, op: Key)
    requires id in db && !Spent(db, id, op) && Spent(Guarded(db, r, approval, p, usage, now).db, id, op)
    ensures p.Publish? && r.goal == id && approval == op
    ensures op in db[id].permissions && Consumed(db[id], op).Accepted?
    ensures SpentBy(db[id], Guarded(db, r, approval, p, usage, now).db[id])
  {
    var open := db[r.goal].(requests := db[r.goal].requests - {r.evaluation});
    assert r.goal == id;
    RulingSpends(open, r, approval, p, usage, now, op);
  }

  lemma RulingSpends(g: Goal, r: ReplanRequest, approval: Key, p: Publication, usage: Usage, now: int, op: Key)
    requires Ruled(g, r, approval, p, usage, now).Accepted?
    requires var ps := Ruled(g, r, approval, p, usage, now).value.0.permissions;
      op in ps && ps[op].consumed && !(op in g.permissions && g.permissions[op].consumed)
    ensures p.Publish? && approval == op && Consumed(g, op).Accepted?
    ensures SpentBy(g, Ruled(g, r, approval, p, usage, now).value.0)
  {
    if Screen(g, r, approval, p.Publish?, usage, now).ruling == Allowed {
      var h, row := AllowedForm(g, r, approval, p, usage, now);
    }
  }

  /** At most one permission is ever spent per revision. */
  lemma OnePermissionPerRevision(steps: seq<Step>, id: Key, a: Key, b: Key)
    requires Spent(After(steps), id, a) && Spent(After(steps), id, b)
    requires After(steps)[id].permissions[a].plan == After(steps)[id].permissions[b].plan
    ensures a == b
  {
    RunInvariant(steps);
    assert Inv(After(steps)[id]);
  }

  /** Once the revision has moved on, a permission left unused is never spent. */
  lemma UnusedLapses(steps: seq<Step>, more: seq<Step>, id: Key, op: Key)
    requires id in After(steps) && op in After(steps)[id].permissions && !Spent(After(steps), id, op)
    requires After(steps)[id].permissions[op].plan < After(steps)[id].activePlan
    ensures !Spent(After(steps + more), id, op)
  {
    RunForward(steps, more);
  }

  // ---------- idempotent replay ----------

  /** A new answer is on record the moment it is given. */
  lemma AnswerRecorded(db: Db, r: ReplanRequest, approval: Key, p: Publication, usage: Usage, now: int)
    requires var x := Guarded(db, r, approval, p, usage, now).answer; x.Accepted? && !x.value.existing
    ensures var x := Guarded(db, r, approval, p, usage, now);
      && r.goal in x.db && WellFormedRequest(r)
      && r.evaluation in x.db[r.goal].requests
      && x.db[r.goal].requests[r.evaluation] == RowOf(r, x.answer.value.verdict, x.answer.value.nextPlan, x.answer.value.nextGraph)
      && (p.Publish? && x.answer.value.verdict.ruling == Allowed ==>
            (x.answer.value.nextPlan, x.answer.value.nextGraph) in x.db[r.goal].published)
  {
    var open := Opened(db[r.goal], r.evaluation);
    RulingRecorded(open, r, approval, p, usage, now);
  }

  lemma WrittenRecords(h: Goal, r: ReplanRequest, row: RequestRow, p: Publication)
    requires Written(Bumped(h.(requests := h.requests[r.evaluation := row]), r), p).Accepted?
    ensures var w := Written(Bumped(h.(requests := h.requests[r.evaluation := row]), r), p).value;
      && r.evaluation in w.requests && w.requests[r.evaluation] == row
      && (p.Publish? ==> (h.activePlan + 1, h.activeGraph + 1) in w.published)
  {
  }

  lemma RulingRecorded(g: Goal, r: ReplanRequest, approval: Key, p: Publication, usage: Usage, now: int)
    requires Ruled(g, r, approval, p, usage, now).Accepted?
    ensures var (w, d) := Ruled(g, r, approval, p, usage, now).value;
      && r.evaluation in w.requests
      && w.requests[r.evaluation] == RowOf(r, d.verdict, d.nextPlan, d.nextGraph)
      && (p.Publish? && d.verdict.ruling == Allowed ==> (d.nextPlan, d.nextGraph) in w.published)
  {
    if Screen(g, r, approval, p.Publish?, usage, now).ruling == Allowed {
      var h, row := AllowedForm(g, r, approval, p, usage, now);
      WrittenRecords(h, r, row, p);
    }
  }

  /** A final answer is for good: whatever has happened since, asking again changes nothing and
      returns the same decision. A guard-only retry may carry another delivery id. */
  lemma FinalAnswerReplays(steps: seq<Step>, first: Step, more: seq<Step>, approval: Key, retry: ReplanRequest, again: Publication, usage: Usage, now: int)
    requires first.Publishing? || (first.Guard? && again.Absent?)
    requires var x := Answer(After(steps), first); x.Accepted? && !x.value.existing && x.value.verdict.ruling != Pending
    requires retry == first.request || (again.Absent? && retry == first.request.(id := retry.id) && retry.id != "")
    ensures var db := After(steps + [first] + more);
      Guarded(db, retry, approval, again, usage, now) == Result(db, Accepted(Answer(After(steps), first).value.(existing := true)))
  {
    FirstRecorded(After(steps), first);
    assert (steps + [first])[..|steps + [first]| - 1] == steps;
    RunForward(steps + [first], more);
    var x := Answer(After(steps), first).value;
    RowReplays(After(steps + [first] + more), retry, approval, again, usage, now, RowOf(first.request, x.verdict, x.nextPlan, x.nextGraph));
  }

  lemma FirstRecorded(db: Db, first: Step)
    requires first.Guard? || first.Publishing?
    requires var x := Answer(db, first); x.Accepted? && !x.value.existing
    ensures var x, goal, next := Answer(db, first).value, first.request.goal, Next(db, first);
      && WellFormedRequest(first.request) && goal in next && first.request.evaluation in next[goal].requests
      && next[goal].requests[first.request.evaluation] == RowOf(first.request, x.verdict, x.nextPlan, x.nextGraph)
      && (first.Publishing? && x.verdict.ruling == Allowed ==> (x.nextPlan, x.nextGraph) in next[goal].published)
  {
    if first.Guard? {
      AnswerRecorded(db, first.request, "", Absent, first.usage, first.now);
    } else {
      AnswerRecorded(db, first.request, first.approval, Publish(first.fails, first.writes), first.usage, first.now);
    }
  }

  lemma RowReplays(db: Db, r: ReplanRequest, approval: Key, p: Publication, usage: Usage, now: int, row: RequestRow)
    requires WellFormedRequest(r) && r.goal in db && r.evaluation in db[r.goal].requests && db[r.goal].requests[r.evaluation] == row
    requires row.verdict.ruling != Pending && SameProposal(row, r, p.Publish?)
    requires p.Publish? && row.verdict.ruling == Allowed ==> (row.nextPlan, row.nextGraph) in db[r.goal].published
    ensures Guarded(db, r, approval, p, usage, now) == Result(db, Accepted(Decision(row.verdict, row.nextPlan, row.nextGraph, true)))
  {
  }

  function Answer(db: Db, step: Step): Outcome<Decision>
    requires step.Guard? || step.Publishing?
  {
    if step.Guard? then Guarded(db, step.request, "", Absent, step.usage, step.now).answer
    else Guarded(db, step.request, step.approval, Publish(step.fails, step.writes), step.usage, step.now).answer
  }

  /** So is a human decision. */
  lemma DecisionReplays(steps: seq<Step>, a: Actor, goal: Key, d: DecisionRequest, more: seq<Step>)
    requires DecidedIn(After(steps), a, goal, d).answer.Accepted?
    ensures var db := After(steps + [Decide(a, goal, d)] + more);
      DecidedIn(db, a, goal, d) == Result(db, Accepted(Receipt(DecidedIn(After(steps), a, goal, d).answer.value.version, true)))
  {
    var first := Decide(a, goal, d);
    assert (steps + [first])[..|steps + [first]| - 1] == steps;
    RunForward(steps + [first], more);
    var row := DecisionHeld(After(steps), a, goal, d);
    HeldReplays(After(steps + [first] + more), a, goal, d, row);
  }

  lemma DecisionHeld(db: Db, a: Actor, goal: Key, d: DecisionRequest) returns (row: DecisionRow)
    requires DecidedIn(db, a, goal, d).answer.Accepted?
    ensures Authorised(a) && ValidDecision(d)
    ensures var next := DecidedIn(db, a, goal, d);
      && goal in next.db && next.db[goal].owner == a.owner && next.db[goal].project in a.projects
      && d.operation in next.db[goal].decisions && next.db[goal].decisions[d.operation] == row
      && row == DecisionRow(a.id, d, next.answer.value.version)
  {
    row := DecidedIn(db, a, goal, d).db[goal].decisions[d.operation];
  }

  lemma HeldReplays(db: Db, a: Actor, goal: Key, d: DecisionRequest, row: DecisionRow)
    requires Authorised(a) && ValidDecision(d)
    requires goal in db && db[goal].owner == a.owner && db[goal].project in a.projects
    requires d.operation in db[goal].decisions && db[goal].decisions[d.operation] == row
    requires row.actor == a.id && row.request == d
    ensures DecidedIn(db, a, goal, d) == Result(db, Accepted(Receipt(row.resulting, true)))
  {
  }
}

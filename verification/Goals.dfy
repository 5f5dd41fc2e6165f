/** internal/goal/replan_guard.go and internal/governance/governance.go: every exported operation is
    one transaction over the tables of a goal; a refusal leaves them as they were. */
module Goals {
  import opened Keys
  import opened Fingerprints
  import opened Outcomes

  datatype GoalState = CREATED | PLANNING | PLANNED | GRAPH_READY | RUNNING | EVALUATING | REPLAN_GUARDING
    | REPLANNING | NEEDS_APPROVAL | SUCCEEDED | FAILED | CANCELED

  predicate Terminal(s: GoalState) {
    s == SUCCEEDED || s == FAILED || s == CANCELED
  }

  datatype Ruling = Allowed | Rejected | Pending

  datatype Code = OK | TERMINAL | STALE | USAGE_UNKNOWN | USAGE_EXHAUSTED | ATTEMPTS | REPLANS | WALL_TIME | DEADLINE
    | NO_NEW_EVIDENCE | DUPLICATE_PLAN | LOOP | REPEATED_FAILURE | NO_PROGRESS

  datatype Verdict = Verdict(ruling: Ruling, code: Code)

  /** A row of replan_requests; (goal, evaluation) is its key. */
  datatype RequestRow = RequestRow(
    id: Key,
    reason: string,
    expectedPlan: int,
    expectedGraph: int,
    evidence: EvidencePrint,
    plan: Proposal,
    signature: Signature,
    delta: StrategyDelta,
    progress: Progress,
    verdict: Verdict,
    nextPlan: int,
    nextGraph: int)

  datatype PlanRow = PlanRow(revision: int, fingerprint: Proposal, signature: Signature)

  datatype HistoryRow = HistoryRow(
    evaluation: Key,
    plan: int,
    graph: int,
    failure: string,
    fingerprint: Proposal,
    signature: Signature,
    progress: Progress,
    progressed: bool)

  datatype ActionKind = APPROVE_NEXT_REPLAN | INCREASE_BUDGET | PROVIDE_EVIDENCE | CHANGE_CONSTRAINT | REJECT | ABORT

  datatype Change = Change(
    maxAttempts: Option<int>,
    maxReplans: Option<int>,
    maxTokens: Option<int>,
    maxCost: Option<int>,
    evidence: string,
    constraint: string)

  datatype DecisionRequest = DecisionRequest(
    operation: Key,
    version: int,
    plan: int,
    graph: int,
    action: ActionKind,
    reason: string,
    change: Change)

  datatype DecisionRow = DecisionRow(actor: string, request: DecisionRequest, resulting: int)

  datatype Permission = Permission(plan: int, graph: int, consumed: bool)

  /** The goal row together with the rows of the other tables that carry its identity. plans lists
      the fingerprint rows in the order they were inserted; history is ordered by ordinal. */
  datatype Goal = Goal(
    owner: string,
    project: string,
    state: GoalState,
    activePlan: int,
    activeGraph: int,
    maxReplans: int,
    maxAttempts: int,
    maxWall: int,
    usedReplans: int,
    usedAttempts: int,
    created: int,
    deadline: int,
    version: int,
    requests: map<Key, RequestRow>,
    evidence: set<EvidencePrint>,
    plans: seq<PlanRow>,
    history: seq<HistoryRow>,
    decisions: map<Key, DecisionRow>,
    permissions: map<Key, Permission>,
    maxTokens: Option<int>,
    maxCost: Option<int>,
    published: set<(int, int)>)

  type Db = map<Key, Goal>

  const CYCLE_WINDOW := 6

  // ---------- Create, ReserveAttempt, RegisterPlanFingerprint ----------

  /** maxWall in nanoseconds, as a Go duration. */
  datatype NewGoal = NewGoal(id: Key, owner: string, project: string, maxReplans: int, maxAttempts: int, maxWall: int, deadline: int)

  predicate Creatable(db: Db, n: NewGoal) {
    && n.id != "" && n.owner != "" && n.project != ""
    && n.maxReplans >= 0 && n.maxAttempts >= 1 && n.maxWall > 0
    && n.maxWall / 1_000_000 >= 1
    && n.id !in db
  }

  function FirstGoal(n: NewGoal, now: int): Goal {
    Goal(n.owner, n.project, CREATED, 1, 1, n.maxReplans, n.maxAttempts, n.maxWall / 1_000_000, 0, 0, now, n.deadline, 1,
         map[], {}, [], [], map[], map[], None, None, {})
  }

  function Reserved(g: Goal): Outcome<Goal> {
    if !Terminal(g.state) && g.usedAttempts < g.maxAttempts
    then Accepted(g.(usedAttempts := g.usedAttempts + 1, version := g.version + 1))
    else Refused
  }

  predicate Insertable(plans: seq<PlanRow>, revision: int, fingerprint: Proposal) {
    forall k :: 0 <= k < |plans| ==> plans[k].revision != revision && plans[k].fingerprint != fingerprint
  }

  function RegisteredPlan(g: Goal, revision: int, p: Proposal): Outcome<Goal> {
    if revision >= 1 && ValidProposal(p) && Insertable(g.plans, revision, PlanFingerprint(p))
    then Accepted(g.(plans := g.plans + [PlanRow(revision, PlanFingerprint(p), StrategySignature(p))]))
    else Refused
  }

  // ---------- guardReplan ----------

  datatype ReplanRequest = ReplanRequest(
    id: Key,
    goal: Key,
    evaluation: Key,
    expectedPlan: int,
    expectedGraph: int,
    reason: string,
    evidence: Evidence,
    proposal: Proposal,
    delta: StrategyDelta,
    progress: Progress)

  datatype Decision = Decision(verdict: Verdict, nextPlan: int, nextGraph: int, existing: bool)

  /** The verdict of governance.CheckUsageTx; Broken is any other error. */
  datatype Usage = Within | Unknown | Exhausted | Broken

  /** The caller's publication: absent for GuardReplan, else whether it returns an error and whether it
      leaves a Plan and Job bound to the new revision. */
  datatype Publication = Absent | Publish(fails: bool, writes: bool)

  predicate WellFormedRequest(r: ReplanRequest) {
    && r.id != "" && r.goal != "" && r.evaluation != ""
    && ValidEvidence(r.evidence) && ValidProposal(r.proposal) && ValidDelta(r.delta) && ValidProgress(r.progress)
  }

  function RowOf(r: ReplanRequest, v: Verdict, nextPlan: int, nextGraph: int): RequestRow {
    RequestRow(r.id, r.reason, r.expectedPlan, r.expectedGraph, EvidenceFingerprint(r.evidence), PlanFingerprint(r.proposal),
               StrategySignature(r.proposal), r.delta, r.progress, v, nextPlan, nextGraph)
  }

  /** The stored row is this very proposal; only a guard-only retry may carry another delivery id. */
  predicate SameProposal(row: RequestRow, r: ReplanRequest, publishing: bool) {
    && (publishing ==> row.id == r.id)
    && row == RowOf(r, row.verdict, row.nextPlan, row.nextGraph).(id := row.id)
  }

  /** The signature was recorded for one of the last six revisions (or a later one). */
  predicate LoopsBack(g: Goal, s: Signature) {
    exists k :: 0 <= k < |g.plans| && g.plans[k].revision >= Oldest(g) && g.plans[k].signature == s
  }

  function Oldest(g: Goal): int {
    if g.activePlan - CYCLE_WINDOW + 1 < 1 then 1 else g.activePlan - CYCLE_WINDOW + 1
  }

  predicate RepeatsFailure(h: seq<HistoryRow>, failure: string) {
    |h| >= 2 && h[|h| - 1].failure == failure && h[|h| - 2].failure == failure
  }

  predicate Improves(h: seq<HistoryRow>, p: Progress) {
    h == [] || ImprovedOver(p, h[|h| - 1].progress)
  }

  predicate Stalls(h: seq<HistoryRow>, p: Progress) {
    !Improves(h, p) && !h[|h| - 1].progressed
  }

  predicate SeenPlan(g: Goal, p: Proposal) {
    exists k :: 0 <= k < |g.plans| && g.plans[k].fingerprint == p
  }

  predicate OverTime(g: Goal, now: int) {
    g.maxWall > 0 && now - g.created >= g.maxWall
  }

  predicate PastDeadline(g: Goal, now: int) {
    g.deadline > 0 && now >= g.deadline
  }

  /** A refusal that no approval can turn into a publication is final when publishing. */
  function Unpublishable(publishing: bool): Ruling {
    if publishing then Rejected else Pending
  }

  /** replan_guard.go:305-351 */
  function Screen(g: Goal, r: ReplanRequest, approval: Key, publishing: bool, usage: Usage, now: int): Verdict {
    var approved := g.state == NEEDS_APPROVAL && approval != "" && publishing;
    if Terminal(g.state) then Verdict(Rejected, TERMINAL)
    else if g.activePlan != r.expectedPlan || g.activeGraph != r.expectedGraph then Verdict(Rejected, STALE)
    else if usage == Unknown then Verdict(Pending, USAGE_UNKNOWN)
    else if usage == Exhausted then Verdict(Pending, USAGE_EXHAUSTED)
    else if g.usedAttempts >= g.maxAttempts then Verdict(Pending, ATTEMPTS)
    else if g.usedReplans >= g.maxReplans then Verdict(Pending, REPLANS)
    else if OverTime(g, now) then Verdict(Pending, WALL_TIME)
    else if PastDeadline(g, now) then Verdict(Pending, DEADLINE)
    else if EvidenceFingerprint(r.evidence) in g.evidence then Verdict(Unpublishable(publishing), NO_NEW_EVIDENCE)
    else if SeenPlan(g, PlanFingerprint(r.proposal)) then Verdict(Unpublishable(publishing), DUPLICATE_PLAN)
    else if LoopsBack(g, StrategySignature(r.proposal)) && !approved then Verdict(Pending, LOOP)
    else if RepeatsFailure(g.history, r.evidence.failure) && !approved then Verdict(Pending, REPEATED_FAILURE)
    else if Stalls(g.history, r.progress) && !approved then Verdict(Pending, NO_PROGRESS)
    else Verdict(Allowed, OK)
  }

  /** job.ValidKey */
  predicate ValidKey(s: string) {
    1 <= |s| <= 128 && forall i :: 0 <= i < |s| ==> 33 <= s[i] as int <= 126
  }

  /** governance.go:185-210 */
  function Consumed(g: Goal, op: Key): Outcome<Goal> {
    if && ValidKey(op) && g.activePlan >= 1 && g.activeGraph >= 1
       && op in g.permissions && g.permissions[op] == Permission(g.activePlan, g.activeGraph, false)
       && g.state == NEEDS_APPROVAL
       && op in g.decisions && g.decisions[op].request.action == APPROVE_NEXT_REPLAN
    then Accepted(g.(permissions := g.permissions[op := Permission(g.activePlan, g.activeGraph, true)]))
    else Refused
  }

  /** replan_guard.go:352-360 */
  function Permitted(g: Goal, approval: Key, publishing: bool): Outcome<Goal> {
    if !publishing then Accepted(g)
    else if g.state == NEEDS_APPROVAL then Consumed(g, approval)
    else if approval != "" then Refused
    else Accepted(g)
  }

  function Recorded(g: Goal, r: ReplanRequest): HistoryRow {
    HistoryRow(r.evaluation, g.activePlan + 1, g.activeGraph + 1, r.evidence.failure, PlanFingerprint(r.proposal),
               StrategySignature(r.proposal), r.progress, Improves(g.history, r.progress))
  }

  /** replan_guard.go:370-411: evidence, plan, history and the revision bump go in together. */
  function Bumped(g: Goal, r: ReplanRequest): Goal {
    g.(evidence := g.evidence + {EvidenceFingerprint(r.evidence)},
       plans := g.plans + [PlanRow(g.activePlan + 1, PlanFingerprint(r.proposal), StrategySignature(r.proposal))],
       history := g.history + [Recorded(g, r)],
       state := REPLANNING, usedReplans := g.usedReplans + 1,
       activePlan := g.activePlan + 1, activeGraph := g.activeGraph + 1, version := g.version + 1)
  }

  /** What the primary keys of plan_fingerprints and replan_history still have to allow. */
  predicate Bumpable(g: Goal, r: ReplanRequest) {
    && Insertable(g.plans, g.activePlan + 1, PlanFingerprint(r.proposal))
    && forall k :: 0 <= k < |g.history| ==> g.history[k].evaluation != r.evaluation
  }

  function Written(g: Goal, p: Publication): Outcome<Goal> {
    if p.Absent? then Accepted(g)
    else
      var done := if p.writes then g.published + {(g.activePlan, g.activeGraph)} else g.published;
      if p.fails || (g.activePlan, g.activeGraph) !in done then Refused else Accepted(g.(published := done))
  }

  predicate RequestIdTaken(db: Db, id: Key) {
    exists g, e :: g in db && e in db[g].requests && db[g].requests[e].id == id
  }

  /** Everything after the idempotency check, on the goal as that check left it. */
  function Ruled(g: Goal, r: ReplanRequest, approval: Key, p: Publication, usage: Usage, now: int): Outcome<(Goal, Decision)> {
    if usage == Broken then Refused else
      var v := Screen(g, r, approval, p.Publish?, usage, now);
      var next := if v.ruling == Allowed then (g.activePlan + 1, g.activeGraph + 1) else (0, 0);
      var d := Decision(v, next.0, next.1, false);
      var row := RowOf(r, v, next.0, next.1);
      match v.ruling
      case Rejected => Accepted((g.(requests := g.requests[r.evaluation := row]), d))
      case Pending => Accepted((g.(requests := g.requests[r.evaluation := row], state := NEEDS_APPROVAL, version := g.version + 1), d))
      case Allowed =>
        match Permitted(g, approval, p.Publish?)
        case Refused => Refused
        case Accepted(h) =>
          if !Bumpable(h, r) then Refused else
            match Written(Bumped(h.(requests := h.requests[r.evaluation := row]), r), p)
            case Refused => Refused
            case Accepted(w) => Accepted((w, d))
  }

  /** The stored answer, if this evaluation was already decided and is not to be decided again. */
  predicate Reopens(row: RequestRow, approval: Key, p: Publication) {
    row.verdict.ruling == Pending && p.Publish? && approval != ""
  }

  function Replayed(g: Goal, row: RequestRow, p: Publication): Outcome<Decision> {
    if row.verdict.ruling == Allowed && p.Publish? && (row.nextPlan, row.nextGraph) !in g.published then Refused
    else Accepted(Decision(row.verdict, row.nextPlan, row.nextGraph, true))
  }

  datatype Result<T> = Result(db: Db, answer: Outcome<T>)

  function Fresh(db: Db, r: ReplanRequest, approval: Key, p: Publication, usage: Usage, now: int): Outcome<(Goal, Decision)>
    requires r.goal in db
  {
    match Ruled(db[r.goal], r, approval, p, usage, now)
    case Refused => Refused
    case Accepted(x) => if RequestIdTaken(db, r.id) then Refused else Accepted(x)
  }

  function Guarded(db: Db, r: ReplanRequest, approval: Key, p: Publication, usage: Usage, now: int): Result<Decision> {
    if !WellFormedRequest(r) || r.goal !in db then Result(db, Refused) else
      var g := db[r.goal];
      var found := r.evaluation in g.requests;
      if found && !SameProposal(g.requests[r.evaluation], r, p.Publish?) then Result(db, Refused)
      else if found && !Reopens(g.requests[r.evaluation], approval, p) then
        Result(db, Replayed(g, g.requests[r.evaluation], p))
      else
        var open := g.(requests := g.requests - {r.evaluation});
        match Fresh(db[r.goal := open], r, approval, p, usage, now)
        case Refused => Result(db, Refused)
        case Accepted(x) => Result(db[r.goal := x.0], Accepted(x.1))
  }

  // ---------- DecideTx ----------

  datatype Actor = Actor(id: string, human: bool, owner: string, projects: seq<string>, scopes: seq<string>)

  datatype Receipt = Receipt(version: int, existing: bool)

  predicate Authorised(a: Actor) {
    a.human && !Blank(a.id) && "goals:approve" in a.scopes
  }

  predicate ValidDecision(d: DecisionRequest) {
    && ValidKey(d.operation) && !Blank(d.reason) && |d.reason| <= 2048
    && d.version >= 1 && d.plan >= 1 && d.graph >= 1
    && |d.change.evidence| <= 4096 && |d.change.constraint| <= 4096
  }

  predicate ChangesBudget(c: Change) {
    c.maxAttempts.Some? || c.maxReplans.Some? || c.maxTokens.Some? || c.maxCost.Some?
  }

  predicate Raises(old_: Option<int>, new_: Option<int>, low: int, high: int) {
    new_.Some? ==> low <= new_.value <= high && (old_.Some? ==> new_.value > old_.value)
  }

  predicate ValidIncrease(g: Goal, c: Change) {
    && Raises(Some(g.maxAttempts), c.maxAttempts, g.maxAttempts, 100000)
    && Raises(Some(g.maxReplans), c.maxReplans, g.maxReplans, 100)
    && Raises(g.maxTokens, c.maxTokens, 1, 1_000_000_000_000)
    && Raises(g.maxCost, c.maxCost, 1, 1_000_000_000_000)
  }

  /** governance.go:99-168 */
  predicate Decidable(g: Goal, a: Actor, d: DecisionRequest) {
    && !Terminal(g.state)
    && g.version == d.version && g.activePlan == d.plan && g.activeGraph == d.graph
    && (d.action != INCREASE_BUDGET && d.action != ABORT ==> g.state == NEEDS_APPROVAL)
    && (d.action != INCREASE_BUDGET ==> !ChangesBudget(d.change))
    && (d.action != PROVIDE_EVIDENCE ==> d.change.evidence == "")
    && (d.action != CHANGE_CONSTRAINT ==> d.change.constraint == "")
    && (match d.action
        case INCREASE_BUDGET => "goals:budget" in a.scopes && ChangesBudget(d.change) && ValidIncrease(g, d.change)
        case PROVIDE_EVIDENCE => !Blank(d.change.evidence)
        case CHANGE_CONSTRAINT => "goals:constraints" in a.scopes && !Blank(d.change.constraint)
        case _ => true)
  }

  function Else(o: Option<int>, x: int): int {
    if o.Some? then o.value else x
  }

  function Decided(g: Goal, a: Actor, d: DecisionRequest): Goal {
    g.(state := if d.action == REJECT then FAILED else if d.action == ABORT then CANCELED else g.state,
       version := g.version + 1,
       maxAttempts := Else(d.change.maxAttempts, g.maxAttempts),
       maxReplans := Else(d.change.maxReplans, g.maxReplans),
       maxTokens := if d.change.maxTokens.Some? then d.change.maxTokens else g.maxTokens,
       maxCost := if d.change.maxCost.Some? then d.change.maxCost else g.maxCost,
       decisions := g.decisions[d.operation := DecisionRow(a.id, d, g.version + 1)],
       permissions := if d.action == APPROVE_NEXT_REPLAN
                      then g.permissions[d.operation := Permission(g.activePlan, g.activeGraph, false)]
                      else g.permissions)
  }

  function DecidedIn(db: Db, a: Actor, goal: Key, d: DecisionRequest): Result<Receipt> {
    if !Authorised(a) || !ValidDecision(d) || goal !in db then Result(db, Refused)
    else if db[goal].owner != a.owner || db[goal].project !in a.projects then Result(db, Refused)
    else if d.operation in db[goal].decisions then
      var row := db[goal].decisions[d.operation];
      Result(db, if row.actor == a.id && row.request == d then Accepted(Receipt(row.resulting, true)) else Refused)
    else if (d.action == APPROVE_NEXT_REPLAN && d.operation in db[goal].permissions) || !Decidable(db[goal], a, d) then Result(db, Refused)
    else Result(db[goal := Decided(db[goal], a, d)], Accepted(Receipt(db[goal].version + 1, false)))
  }

  // ---------- the store ----------

  class GoalStore {
    var goals: Db

    constructor ()
      ensures goals == map[]
    {
      goals := map[];
    }

    /** replan_guard.go:69-83 */
    method Create(n: NewGoal, now: int) returns (ok: bool)
      modifies this
      ensures ok == Creatable(old(goals), n)
      ensures goals == if ok then old(goals)[n.id := FirstGoal(n, now)] else old(goals)
      ensures ok <==> n.id !in old(goals) && n.id != "" && n.owner != "" && n.project != "" && n.maxReplans >= 0 && n.maxAttempts >= 1 && n.maxWall >= 1_000_000
      ensures ok ==> n.id in goals && goals[n.id].owner == n.owner && goals[n.id].project == n.project && goals[n.id].state == CREATED
      ensures ok ==> goals[n.id].maxReplans == n.maxReplans && goals[n.id].maxAttempts == n.maxAttempts && goals[n.id].maxWall == n.maxWall / 1_000_000
      ensures ok ==> goals[n.id].created == now && goals[n.id].deadline == n.deadline && goals[n.id].activePlan == goals[n.id].activeGraph == 1
      ensures ok ==> goals[n.id].usedReplans == goals[n.id].usedAttempts == 0 && goals[n.id].plans == [] && goals[n.id].history == []
    {
      if n.id == "" || n.owner == "" || n.project == "" || n.maxReplans < 0 || n.maxAttempts < 1 || n.maxWall <= 0 {
        return false;
      }
      var wall := n.maxWall / 1_000_000;
      if wall < 1 || n.id in goals {
        return false;
      }
      goals := goals[n.id := FirstGoal(n, now)];
      return true;
    }

    /** replan_guard.go:85-115 */
    method ReserveAttempt(goal: Key) returns (ok: bool)
      modifies this
      ensures ok == (goal in old(goals) && Reserved(old(goals)[goal]).Accepted?)
      ensures goals == if ok then old(goals)[goal := Reserved(old(goals)[goal]).value] else old(goals)
      ensures ok <==> goal in old(goals) && old(goals)[goal].state !in {SUCCEEDED, FAILED, CANCELED} && old(goals)[goal].usedAttempts < old(goals)[goal].maxAttempts
      ensures ok ==> goals[goal] == old(goals)[goal].(usedAttempts := old(goals)[goal].usedAttempts + 1, version := old(goals)[goal].version + 1)
    {
      if goal !in goals {
        return false;
      }
      var g := goals[goal];
      if Terminal(g.state) || g.usedAttempts >= g.maxAttempts {
        return false;
      }
      goals := goals[goal := g.(usedAttempts := g.usedAttempts + 1, version := g.version + 1)];
      return true;
    }

    /** replan_guard.go:117-128 */
    method RegisterPlanFingerprint(goal: Key, revision: int, p: Proposal) returns (ok: bool)
      modifies this
      ensures ok == (goal != "" && goal in old(goals) && RegisteredPlan(old(goals)[goal], revision, p).Accepted?)
      ensures goals == if ok then old(goals)[goal := RegisteredPlan(old(goals)[goal], revision, p).value] else old(goals)
      ensures ok ==> goal in goals && goals[goal] == old(goals)[goal].(plans := old(goals)[goal].plans + [PlanRow(revision, PlanFingerprint(p), StrategySignature(p))])
      ensures ok ==> revision >= 1 && forall k :: 0 <= k < |old(goals)[goal].plans| ==>
        old(goals)[goal].plans[k].revision != revision && old(goals)[goal].plans[k].fingerprint != PlanFingerprint(p)
    {
      if goal == "" || revision < 1 || !ValidProposal(p) || goal !in goals {
        return false;
      }
      var g := goals[goal];
      if !Insertable(g.plans, revision, PlanFingerprint(p)) {
        return false;
      }
      goals := goals[goal := g.(plans := g.plans + [PlanRow(revision, PlanFingerprint(p), StrategySignature(p))])];
      return true;
    }

    /** replan_guard.go:257-281: the newest rows first, stopping at another failure class. */
    method CountFailures(h: seq<HistoryRow>, failure: string) returns (repeated: bool)
      ensures repeated == RepeatsFailure(h, failure)
    {
      var next := |h|;
      while next > 0 && |h| - next < 2 && h[next - 1].failure == failure
        invariant 0 <= next <= |h| && |h| - next <= 2
        invariant forall k :: next <= k < |h| ==> h[k].failure == failure
      {
        next := next - 1;
      }
      repeated := |h| - next >= 2;
    }

    /** replan_guard.go:231-351 */
    method Judge(g: Goal, r: ReplanRequest, approval: Key, publishing: bool, usage: Usage, now: int) returns (v: Verdict)
      requires usage != Broken
      ensures v == Screen(g, r, approval, publishing, usage, now)
    {
      var seenEvidence := EvidenceFingerprint(r.evidence) in g.evidence;
      var plan, signature := PlanFingerprint(r.proposal), StrategySignature(r.proposal);
      var minRevision := g.activePlan - CYCLE_WINDOW + 1;
      if minRevision < 1 {
        minRevision := 1;
      }
      var seenPlan, seenStrategy := 0, 0;
      var k := 0;
      while k < |g.plans|
        invariant 0 <= k <= |g.plans| && seenPlan >= 0 && seenStrategy >= 0
        invariant seenPlan > 0 <==> exists n :: 0 <= n < k && g.plans[n].fingerprint == plan
        invariant seenStrategy > 0 <==> exists n :: 0 <= n < k && g.plans[n].revision >= minRevision && g.plans[n].signature == signature
      {
        if g.plans[k].fingerprint == plan {
          seenPlan := seenPlan + 1;
        }
        if g.plans[k].revision >= minRevision && g.plans[k].signature == signature {
          seenStrategy := seenStrategy + 1;
        }
        k := k + 1;
      }
      var repeated := CountFailures(g.history, r.evidence.failure);
      var improved, stuck := true, false;
      if g.history != [] {
        var previous := g.history[|g.history| - 1];
        improved := ImprovedOver(r.progress, previous.progress);
        stuck := !previous.progressed;
      }
      var approved := g.state == NEEDS_APPROVAL && approval != "" && publishing;
      if Terminal(g.state) {
        v := Verdict(Rejected, TERMINAL);
      } else if g.activePlan != r.expectedPlan || g.activeGraph != r.expectedGraph {
        v := Verdict(Rejected, STALE);
      } else if usage != Within {
        v := Verdict(Pending, if usage == Unknown then USAGE_UNKNOWN else USAGE_EXHAUSTED);
      } else if g.usedAttempts >= g.maxAttempts {
        v := Verdict(Pending, ATTEMPTS);
      } else if g.usedReplans >= g.maxReplans {
        v := Verdict(Pending, REPLANS);
      } else if g.maxWall > 0 && now - g.created >= g.maxWall {
        v := Verdict(Pending, WALL_TIME);
      } else if g.deadline > 0 && now >= g.deadline {
        v := Verdict(Pending, DEADLINE);
      } else if seenEvidence {
        v := Verdict(if publishing then Rejected else Pending, NO_NEW_EVIDENCE);
      } else if seenPlan != 0 {
        v := Verdict(if publishing then Rejected else Pending, DUPLICATE_PLAN);
      } else if seenStrategy != 0 && !approved {
        v := Verdict(Pending, LOOP);
      } else if repeated && !approved {
        v := Verdict(Pending, REPEATED_FAILURE);
      } else if !improved && stuck && !approved {
        v := Verdict(Pending, NO_PROGRESS);
      } else {
        v := Verdict(Allowed, OK);
      }
    }

    /** replan_guard.go:220-437: decide on the goal and write every table, or nothing. */
    method Rule(g: Goal, r: ReplanRequest, approval: Key, p: Publication, usage: Usage, now: int) returns (out: Outcome<(Goal, Decision)>)
      ensures out == Ruled(g, r, approval, p, usage, now)
    {
      if usage == Broken {
        return Refused;
      }
      var v := Judge(g, r, approval, p.Publish?, usage, now);
      if v.ruling == Allowed {
        var row := RowOf(r, v, g.activePlan + 1, g.activeGraph + 1);
        var w := Commit(g, r, row, approval, p);
        if w.Refused? {
          return Refused;
        }
        return Accepted((w.value, Decision(v, g.activePlan + 1, g.activeGraph + 1, false)));
      }
      var w := g.(requests := g.requests[r.evaluation := RowOf(r, v, 0, 0)]);
      if v.ruling == Pending {
        w := w.(state := NEEDS_APPROVAL, version := w.version + 1);
      }
      out := Accepted((w, Decision(v, 0, 0, false)));
    }

    /** replan_guard.go:352-436: permission, request row, bump and publication, in this order. */
    method Commit(g: Goal, r: ReplanRequest, row: RequestRow, approval: Key, p: Publication) returns (out: Outcome<Goal>)
      ensures out == match Permitted(g, approval, p.Publish?)
        case Refused => Refused
        case Accepted(h) =>
          if !Bumpable(h, r) then Refused else Written(Bumped(h.(requests := h.requests[r.evaluation := row]), r), p)
    {
      var w := g;
      if p.Publish? {
        if g.state == NEEDS_APPROVAL {
          var consumed := Consumed(g, approval);
          if consumed.Refused? {
            return Refused;
          }
          w := consumed.value;
        } else if approval != "" {
          return Refused;
        }
      }
      if !Bumpable(w, r) {
        return Refused;
      }
      w := Bumped(w.(requests := w.requests[r.evaluation := row]), r);
      out := Written(w, p);
    }

    /** replan_guard.go:146-440 */
    method Guard(r: ReplanRequest, approval: Key, p: Publication, usage: Usage, now: int) returns (out: Outcome<Decision>)
      modifies this
      ensures goals == Guarded(old(goals), r, approval, p, usage, now).db
      ensures out == Guarded(old(goals), r, approval, p, usage, now).answer
    {
      if !WellFormedRequest(r) || r.goal !in goals {
        return Refused;
      }
      var g := goals[r.goal];
      if r.evaluation in g.requests {
        var row := g.requests[r.evaluation];
        if !SameProposal(row, r, p.Publish?) {
          return Refused;
        }
        if !Reopens(row, approval, p) {
          return Replayed(g, row, p);
        }
      }
      var open := g.(requests := g.requests - {r.evaluation});
      var ruled := Rule(open, r, approval, p, usage, now);
      var others := goals[r.goal := open];
      if ruled.Refused? || RequestIdTaken(others, r.id) {
        return Refused;
      }
      goals := goals[r.goal := ruled.value.0];
      out := Accepted(ruled.value.1);
    }

    /** replan_guard.go:130-132 */
    method GuardReplan(r: ReplanRequest, usage: Usage, now: int) returns (out: Outcome<Decision>)
      modifies this
      ensures goals == Guarded(old(goals), r, "", Absent, usage, now).db
      ensures out == Guarded(old(goals), r, "", Absent, usage, now).answer
    {
      out := Guard(r, "", Absent, usage, now);
    }

    /** replan_guard.go:139-144 */
    method GuardAndPublishReplan(r: ReplanRequest, approval: Key, p: Publication, usage: Usage, now: int) returns (out: Outcome<Decision>)
      modifies this
      ensures goals == if p.Absent? then old(goals) else Guarded(old(goals), r, approval, p, usage, now).db
      ensures out == if p.Absent? then Refused else Guarded(old(goals), r, approval, p, usage, now).answer
    {
      if p.Absent? {
        return Refused;
      }
      out := Guard(r, approval, p, usage, now);
    }

    /** governance.go:59-180 */
    method Decide(a: Actor, goal: Key, d: DecisionRequest) returns (out: Outcome<Receipt>)
      modifies this
      ensures goals == DecidedIn(old(goals), a, goal, d).db
      ensures out == DecidedIn(old(goals), a, goal, d).answer
    {
      if !Authorised(a) || !ValidDecision(d) || goal !in goals {
        return Refused;
      }
      var g := goals[goal];
      if g.owner != a.owner || g.project !in a.projects {
        return Refused;
      }
      if d.operation in g.decisions {
        var row := g.decisions[d.operation];
        if row.actor != a.id || row.request != d {
          return Refused;
        }
        return Accepted(Receipt(row.resulting, true));
      }
      if !Decidable(g, a, d) {
        return Refused;
      }
      var next := g.(version := g.version + 1);
      if d.action == REJECT {
        next := next.(state := FAILED);
      } else if d.action == ABORT {
        next := next.(state := CANCELED);
      } else if d.action == INCREASE_BUDGET {
        if d.change.maxAttempts.Some? {
          next := next.(maxAttempts := d.change.maxAttempts.value);
        }
        if d.change.maxReplans.Some? {
          next := next.(maxReplans := d.change.maxReplans.value);
        }
        if d.change.maxTokens.Some? {
          next := next.(maxTokens := d.change.maxTokens);
        }
        if d.change.maxCost.Some? {
          next := next.(maxCost := d.change.maxCost);
        }
      }
      next := next.(decisions := next.decisions[d.operation := DecisionRow(a.id, d, g.version + 1)]);
      if d.action == APPROVE_NEXT_REPLAN {
        if d.operation in g.permissions {
          return Refused;
        }
        next := next.(permissions := next.permissions[d.operation := Permission(g.activePlan, g.activeGraph, false)]);
      }
      goals := goals[goal := next];
      out := Accepted(Receipt(next.version, false));
    }
  }
}

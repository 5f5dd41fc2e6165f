/** What the re-plan guard answers, as a list of hindrances in order: internal/goal/replan_guard.go:220-437. */
module GuardLaws {
  import opened Keys
  import opened Outcomes
  import opened Fingerprints
  import opened Goals
  import opened GoalRuns
  import DecisionLaws

  /** One call of the guard. */
  datatype Ask = Ask(request: ReplanRequest, approval: Key, publication: Publication, usage: Usage, now: int)

  /** The order in which hindrances are looked for. */
  const HINDRANCES: seq<Code> := [TERMINAL, STALE, USAGE_UNKNOWN, USAGE_EXHAUSTED, ATTEMPTS, REPLANS, WALL_TIME, DEADLINE,
    NO_NEW_EVIDENCE, DUPLICATE_PLAN, LOOP, REPEATED_FAILURE, NO_PROGRESS]

  /** No measure moved the right way. */
  ghost predicate NoBetter(p: Progress, prev: Progress) {
    && p.accepted <= prev.accepted && p.failed >= prev.failed && p.unknown >= prev.unknown
    && p.resolved <= prev.resolved && p.blockers >= prev.blockers
  }

  ghost predicate Overridden(g: Goal, a: Ask) {
    g.state == NEEDS_APPROVAL && a.publication.Publish? && a.approval != ""
  }

  /** The active revision and the five before it, or a later one. */
  ghost predicate Recent(row: PlanRow, g: Goal) {
    row.revision >= 1 && row.revision + 5 >= g.activePlan
  }

  /** What each code complains about. */
  ghost predicate Hinders(code: Code, g: Goal, a: Ask) {
    var r, h := a.request, g.history;
    match code
    case OK => false
    case TERMINAL => g.state == SUCCEEDED || g.state == FAILED || g.state == CANCELED
    case STALE => r.expectedPlan != g.activePlan || r.expectedGraph != g.activeGraph
    case USAGE_UNKNOWN => a.usage == Unknown
    case USAGE_EXHAUSTED => a.usage == Exhausted
    case ATTEMPTS => g.maxAttempts <= g.usedAttempts
    case REPLANS => g.maxReplans <= g.usedReplans
    case WALL_TIME => 0 < g.maxWall <= a.now - g.created
    case DEADLINE => 0 < g.deadline <= a.now
    case NO_NEW_EVIDENCE => EvidenceFingerprint(r.evidence) in g.evidence
    case DUPLICATE_PLAN => exists k :: 0 <= k < |g.plans| && g.plans[k].fingerprint == PlanFingerprint(r.proposal)
    case LOOP => !Overridden(g, a) && exists k :: 0 <= k < |g.plans| && Recent(g.plans[k], g) && g.plans[k].signature == StrategySignature(r.proposal)
    case REPEATED_FAILURE => !Overridden(g, a) && |h| >= 2 && h[|h| - 2].failure == h[|h| - 1].failure == r.evidence.failure
    case NO_PROGRESS => !Overridden(g, a) && |h| >= 1 && NoBetter(r.progress, h[|h| - 1].progress) && !h[|h| - 1].progressed
  }

  ghost predicate Unhindered(g: Goal, a: Ask) {
    forall i :: 0 <= i < |HINDRANCES| ==> !Hinders(HINDRANCES[i], g, a)
  }

  /** The first hindrance, or OK where there is none. */
  ghost predicate First(code: Code, g: Goal, a: Ask) {
    if code == OK then Unhindered(g, a)
    else Hinders(code, g, a) && exists i :: 0 <= i < |HINDRANCES| && HINDRANCES[i] == code && NoneBefore(i, g, a)
  }

  ghost predicate NoneBefore(i: int, g: Goal, a: Ask) {
    forall j :: 0 <= j < i <= |HINDRANCES| ==> !Hinders(HINDRANCES[j], g, a)
  }

  /** Final are the answers that waiting or a human cannot change. */
  ghost predicate Ruling(v: Verdict, publishing: bool) {
    && (v.ruling == Allowed <==> v.code == OK)
    && (v.ruling == Rejected <==> v.code in {TERMINAL, STALE} || (publishing && v.code in {NO_NEW_EVIDENCE, DUPLICATE_PLAN}))
  }

  function Answered(db: Db, a: Ask): Result<Decision> {
    Guarded(db, a.request, a.approval, a.publication, a.usage, a.now)
  }

  // ---------- the screen finds the first hindrance ----------

  function Place(code: Code): int {
    match code
    case TERMINAL => 0
    case STALE => 1
    case USAGE_UNKNOWN => 2
    case USAGE_EXHAUSTED => 3
    case ATTEMPTS => 4
    case REPLANS => 5
    case WALL_TIME => 6
    case DEADLINE => 7
    case NO_NEW_EVIDENCE => 8
    case DUPLICATE_PLAN => 9
    case LOOP => 10
    case REPEATED_FAILURE => 11
    case NO_PROGRESS => 12
    case OK => 13
  }

  lemma Placed(code: Code)
    ensures |HINDRANCES| == 13 && (code != OK ==> 0 <= Place(code) < 13 && HINDRANCES[Place(code)] == code)
  {
  }

  lemma PlaceOf(j: int)
    requires 0 <= j < 13
    ensures |HINDRANCES| == 13 && Place(HINDRANCES[j]) == j
  {
  }

  ghost function Screened(g: Goal, a: Ask): Verdict {
    Screen(g, a.request, a.approval, a.publication.Publish?, a.usage, a.now)
  }

  lemma LoopMeans(g: Goal, a: Ask)
    ensures Hinders(LOOP, g, a) <==> !Overridden(g, a) && LoopsBack(g, StrategySignature(a.request.proposal))
  {
    assert forall k :: 0 <= k < |g.plans| ==> (Recent(g.plans[k], g) <==> g.plans[k].revision >= Oldest(g));
  }

  lemma PlanMeans(g: Goal, a: Ask)
    ensures Hinders(DUPLICATE_PLAN, g, a) <==> SeenPlan(g, PlanFingerprint(a.request.proposal))
  {
  }

  lemma FailureMeans(g: Goal, a: Ask)
    ensures Hinders(REPEATED_FAILURE, g, a) <==> !Overridden(g, a) && RepeatsFailure(g.history, a.request.evidence.failure)
  {
  }

  lemma StallMeans(g: Goal, a: Ask)
    ensures Hinders(NO_PROGRESS, g, a) <==> !Overridden(g, a) && Stalls(g.history, a.request.progress)
  {
    if g.history != [] {
      BetterMeans(a.request.progress, g.history[|g.history| - 1].progress);
    }
  }

  /** The first eight look at the goal row, the clock and the usage only. */
  lemma RowHindrances(g: Goal, a: Ask, code: Code)
    requires a.usage != Broken && Place(code) < 8
    ensures Place(code) < Place(Screened(g, a).code) ==> !Hinders(code, g, a)
    ensures code == Screened(g, a).code ==> Hinders(code, g, a)
  {
  }

  lemma IndexHindrances(g: Goal, a: Ask, code: Code)
    requires a.usage != Broken && (code == NO_NEW_EVIDENCE || code == DUPLICATE_PLAN)
    ensures Place(code) < Place(Screened(g, a).code) ==> !Hinders(code, g, a)
    ensures code == Screened(g, a).code ==> Hinders(code, g, a)
  {
    PlanMeans(g, a);
  }

  lemma HistoryHindrances(g: Goal, a: Ask, code: Code)
    requires a.usage != Broken && (code == LOOP || code == REPEATED_FAILURE || code == NO_PROGRESS)
    ensures Place(code) < Place(Screened(g, a).code) ==> !Hinders(code, g, a)
    ensures code == Screened(g, a).code ==> Hinders(code, g, a)
  {
    LoopMeans(g, a);
    FailureMeans(g, a);
    StallMeans(g, a);
  }

  lemma InTurn(g: Goal, a: Ask, code: Code)
    requires a.usage != Broken && code != OK
    ensures Place(code) < Place(Screened(g, a).code) ==> !Hinders(code, g, a)
    ensures code == Screened(g, a).code ==> Hinders(code, g, a)
  {
    if Place(code) < 8 {
      RowHindrances(g, a, code);
    } else if Place(code) < 10 {
      IndexHindrances(g, a, code);
    } else {
      HistoryHindrances(g, a, code);
    }
  }

  lemma RulingFits(g: Goal, a: Ask)
    requires a.usage != Broken
    ensures Ruling(Screened(g, a), a.publication.Publish?)
  {
  }

  lemma ScreenIsFirst(g: Goal, a: Ask)
    requires a.usage != Broken
    ensures First(Screened(g, a).code, g, a) && Ruling(Screened(g, a), a.publication.Publish?)
  {
    var code := Screened(g, a).code;
    if code != OK {
      InTurn(g, a, code);
    }
    RulingFits(g, a);
    Placed(code);
    forall j | 0 <= j < Place(code) && j < 13 ensures !Hinders(HINDRANCES[j], g, a) {
      PlaceOf(j);
      InTurn(g, a, HINDRANCES[j]);
    }
    assert NoneBefore(Place(code), g, a);
  }

  // ---------- what an answer does to the goal ----------

  /** The history row of the new revision. */
  ghost predicate Entered(row: HistoryRow, g: Goal, r: ReplanRequest) {
    && row.evaluation == r.evaluation && row.plan == g.activePlan + 1 && row.graph == g.activeGraph + 1
    && row.failure == r.evidence.failure && row.progress == r.progress
    && row.fingerprint == PlanFingerprint(r.proposal) && row.signature == StrategySignature(r.proposal)
    && (row.progressed <==> g.history == [] || !NoBetter(r.progress, g.history[|g.history| - 1].progress))
  }

  /** The permission named in the call is spent exactly where the goal waited for one. */
  ghost predicate Spends(g: Goal, h: Goal, a: Ask) {
    if a.publication.Publish? && g.state == NEEDS_APPROVAL
    then a.approval in g.permissions && h.permissions == g.permissions[a.approval := g.permissions[a.approval].(consumed := true)]
    else h.permissions == g.permissions
  }

  ghost predicate Revised(g: Goal, h: Goal, a: Ask) {
    var r, n := a.request, |g.history|;
    && h.state == REPLANNING && h.version == g.version + 1
    && h.activePlan == g.activePlan + 1 && h.activeGraph == g.activeGraph + 1 && h.usedReplans == g.usedReplans + 1
    && h.evidence == g.evidence + {EvidenceFingerprint(r.evidence)}
    && h.plans == g.plans + [PlanRow(g.activePlan + 1, PlanFingerprint(r.proposal), StrategySignature(r.proposal))]
    && |h.history| == n + 1 && h.history[..n] == g.history && Entered(h.history[n], g, r)
    && Spends(g, h, a)
    && g.published <= h.published <= g.published + {(g.activePlan + 1, g.activeGraph + 1)}
    && (a.publication.Publish? ==> (g.activePlan + 1, g.activeGraph + 1) in h.published)
  }

  /** Everything else about the goal. */
  ghost predicate SameTerms(g: Goal, h: Goal) {
    && h.owner == g.owner && h.project == g.project && h.created == g.created && h.deadline == g.deadline
    && h.maxReplans == g.maxReplans && h.maxAttempts == g.maxAttempts && h.maxWall == g.maxWall
    && h.maxTokens == g.maxTokens && h.maxCost == g.maxCost && h.usedAttempts == g.usedAttempts && h.decisions == g.decisions
  }

  /** One row is written for the request, whatever the answer. */
  ghost predicate Filed(g: Goal, h: Goal, a: Ask, d: Decision) {
    var r := a.request;
    && r.evaluation in h.requests && h.requests == g.requests[r.evaluation := h.requests[r.evaluation]]
    && h.requests[r.evaluation].id == r.id && h.requests[r.evaluation].reason == r.reason
    && h.requests[r.evaluation].verdict == d.verdict
    && h.requests[r.evaluation].nextPlan == d.nextPlan && h.requests[r.evaluation].nextGraph == d.nextGraph
  }

  ghost predicate Carried(g: Goal, h: Goal, a: Ask, d: Decision) {
    && Filed(g, h, a, d)
    && match d.verdict.ruling
       case Rejected => h == g.(requests := h.requests) && d.nextPlan == d.nextGraph == 0
       case Pending => h == g.(requests := h.requests, state := NEEDS_APPROVAL, version := g.version + 1) && d.nextPlan == d.nextGraph == 0
       case Allowed => Revised(g, h, a) && SameTerms(g, h) && d.nextPlan == g.activePlan + 1 && d.nextGraph == g.activeGraph + 1
  }

  lemma BetterMeans(p: Progress, prev: Progress)
    ensures ImprovedOver(p, prev) <==> !NoBetter(p, prev)
  {
  }

  lemma BumpEnters(g: Goal, r: ReplanRequest)
    ensures var b, n := Bumped(g, r), |g.history|;
      && |b.history| == n + 1 && b.history[..n] == g.history && Entered(b.history[n], g, r)
  {
    if g.history != [] {
      BetterMeans(r.progress, g.history[|g.history| - 1].progress);
    }
  }

  lemma PermittedSpends(g: Goal, h: Goal, a: Ask)
    requires Permitted(g, a.approval, a.publication.Publish?) == Accepted(h)
    ensures h == g.(permissions := h.permissions) && Spends(g, h, a)
  {
  }

  lemma AllowedRevises(g: Goal, h: Goal, a: Ask, row: RequestRow, w: Goal)
    requires h == g.(permissions := h.permissions) && Spends(g, h, a)
    requires Written(Bumped(h.(requests := h.requests[a.request.evaluation := row]), a.request), a.publication) == Accepted(w)
    ensures Revised(g, w, a) && SameTerms(g, w) && w.requests == g.requests[a.request.evaluation := row]
  {
    BumpEnters(h.(requests := h.requests[a.request.evaluation := row]), a.request);
  }

  lemma AllowedCarries(g: Goal, a: Ask, w: Goal, d: Decision)
    requires Ruled(g, a.request, a.approval, a.publication, a.usage, a.now) == Accepted((w, d)) && Screened(g, a).ruling == Allowed
    ensures Carried(g, w, a, d)
  {
    var h, row := GoalLaws.AllowedForm(g, a.request, a.approval, a.publication, a.usage, a.now);
    PermittedSpends(g, h, a);
    AllowedRevises(g, h, a, row, w);
  }

  lemma RuledCarries(g: Goal, a: Ask, w: Goal, d: Decision)
    requires Ruled(g, a.request, a.approval, a.publication, a.usage, a.now) == Accepted((w, d))
    ensures Carried(g, w, a, d) && !d.existing && First(d.verdict.code, g, a) && Ruling(d.verdict, a.publication.Publish?)
  {
    ScreenIsFirst(g, a);
    if Screened(g, a).ruling == Allowed {
      AllowedCarries(g, a, w, d);
    }
  }

  ghost function Reopened(g: Goal, e: Key): Goal {
    g.(requests := g.requests - {e})
  }

  lemma SameHindrance(code: Code, g: Goal, e: Key, a: Ask)
    ensures Hinders(code, g, a) <==> Hinders(code, Reopened(g, e), a)
  {
    assert forall k :: 0 <= k < |g.plans| ==> (Recent(g.plans[k], g) <==> Recent(g.plans[k], Reopened(g, e)));
  }

  lemma SameFirst(code: Code, g: Goal, e: Key, a: Ask)
    requires First(code, Reopened(g, e), a)
    ensures First(code, g, a)
  {
    forall c ensures Hinders(c, g, a) <==> Hinders(c, Reopened(g, e), a) {
      SameHindrance(c, g, e, a);
    }
    if code != OK {
      var i :| 0 <= i < |HINDRANCES| && HINDRANCES[i] == code && NoneBefore(i, Reopened(g, e), a);
      assert NoneBefore(i, g, a);
    }
  }

  lemma SameCarried(g: Goal, h: Goal, a: Ask, d: Decision)
    requires Carried(Reopened(g, a.request.evaluation), h, a, d)
    ensures Carried(g, h, a, d)
  {
    var e := a.request.evaluation;
    assert g.requests[e := h.requests[e]] == Reopened(g, e).requests[e := h.requests[e]];
    if d.verdict.ruling == Allowed {
      assert Entered(h.history[|g.history|], g, a.request);
    }
  }

  /** A new answer names the first hindrance, and what it does to the goal is all it does. */
  lemma AnswerExplained(db: Db, a: Ask)
    requires Answered(db, a).answer.Accepted? && !Answered(db, a).answer.value.existing
    ensures var goal, x := a.request.goal, Answered(db, a);
      && goal in db && goal in x.db && x.db == db[goal := x.db[goal]] && a.usage != Broken
      && First(x.answer.value.verdict.code, db[goal], a) && Ruling(x.answer.value.verdict, a.publication.Publish?)
      && Carried(db[goal], x.db[goal], a, x.answer.value)
  {
    var r := a.request;
    var open := Reopened(db[r.goal], r.evaluation);
    var (w, d) := Ruled(open, r, a.approval, a.publication, a.usage, a.now).value;
    RuledCarries(open, a, w, d);
    SameCarried(db[r.goal], w, a, d);
    SameFirst(d.verdict.code, db[r.goal], r.evaluation, a);
  }

  // ---------- when a replan is allowed ----------

  /** A goal that waits for approval needs an unspent permission for the active revision, any other none. */
  ghost predicate Granted(g: Goal, a: Ask) {
    var op := a.approval;
    a.publication.Publish? ==>
      if g.state == NEEDS_APPROVAL then
        && 1 <= |op| <= 128 && (forall i :: 0 <= i < |op| ==> '!' <= op[i] <= '~')
        && g.activePlan >= 1 && g.activeGraph >= 1
        && op in g.permissions && !g.permissions[op].consumed
        && g.permissions[op].plan == g.activePlan && g.permissions[op].graph == g.activeGraph
        && op in g.decisions && g.decisions[op].request.action == APPROVE_NEXT_REPLAN
      else op == ""
  }

  /** The tables have no row yet under the keys of the new revision. */
  ghost predicate Vacant(g: Goal, r: ReplanRequest) {
    && (forall k :: 0 <= k < |g.plans| ==> g.plans[k].revision != g.activePlan + 1)
    && (forall k :: 0 <= k < |g.history| ==> g.history[k].evaluation != r.evaluation)
  }

  /** A publication succeeds and leaves a plan and a job bound to the new revision. */
  ghost predicate Publishes(g: Goal, p: Publication) {
    p.Publish? ==> !p.fails && (p.writes || (g.activePlan + 1, g.activeGraph + 1) in g.published)
  }

  ghost predicate NewId(db: Db, id: Key) {
    forall goal, e :: goal in db && e in db[goal].requests ==> db[goal].requests[e].id != id
  }

  ghost predicate Free(g: Goal, a: Ask) {
    Granted(g, a) && Vacant(g, a.request) && Publishes(g, a.publication)
  }

  lemma UnhinderedScreen(g: Goal, a: Ask)
    requires a.usage != Broken
    ensures Screened(g, a).ruling == Allowed <==> Unhindered(g, a)
  {
    ScreenIsFirst(g, a);
    var code := Screened(g, a).code;
    if code != OK && Unhindered(g, a) {
      Placed(code);
    }
  }

  lemma GrantedMeans(g: Goal, a: Ask)
    ensures Granted(g, a) <==> Permitted(g, a.approval, a.publication.Publish?).Accepted?
  {
    assert forall i :: 0 <= i < |a.approval| ==> ('!' <= a.approval[i] <= '~' <==> 33 <= a.approval[i] as int <= 126);
  }

  lemma NoDuplicate(g: Goal, a: Ask)
    requires Unhindered(g, a)
    ensures forall k :: 0 <= k < |g.plans| ==> g.plans[k].fingerprint != PlanFingerprint(a.request.proposal)
  {
    Placed(DUPLICATE_PLAN);
  }

  lemma RuledExactly(g: Goal, a: Ask)
    ensures var x := Ruled(g, a.request, a.approval, a.publication, a.usage, a.now);
      && (x.Accepted? <==> a.usage != Broken && (Unhindered(g, a) ==> Free(g, a)))
      && (x.Accepted? ==> (x.value.1.verdict.ruling == Allowed <==> Unhindered(g, a)))
  {
    if a.usage != Broken {
      UnhinderedScreen(g, a);
      RuledForm(g, a, Screened(g, a));
      if Unhindered(g, a) {
        FreeMeans(g, a, Screened(g, a));
      }
    }
  }

  /** An allowed request goes through when permission, keys and publication do. */
  ghost predicate GoesThrough(g: Goal, a: Ask, v: Verdict) {
    var r, x := a.request, Permitted(g, a.approval, a.publication.Publish?);
    && x.Accepted? && Bumpable(x.value, r)
    && var row := RowOf(r, v, g.activePlan + 1, g.activeGraph + 1);
       Written(Bumped(x.value.(requests := x.value.requests[r.evaluation := row]), r), a.publication).Accepted?
  }

  lemma RuledForm(g: Goal, a: Ask, v: Verdict)
    requires a.usage != Broken && v == Screened(g, a)
    ensures var x := Ruled(g, a.request, a.approval, a.publication, a.usage, a.now);
      && (x.Accepted? <==> (v.ruling == Allowed ==> GoesThrough(g, a, v)))
      && (x.Accepted? ==> x.value.1.verdict == v)
  {
  }

  lemma FreeMeans(g: Goal, a: Ask, v: Verdict)
    requires Unhindered(g, a)
    ensures GoesThrough(g, a, v) <==> Free(g, a)
  {
    GrantedMeans(g, a);
    NoDuplicate(g, a);
    if Granted(g, a) {
      var h := Permitted(g, a.approval, a.publication.Publish?).value;
      PermittedSpends(g, h, a);
      VacantMeans(g, h, a.request);
      PublishesMeans(g, h, a.request, RowOf(a.request, v, g.activePlan + 1, g.activeGraph + 1), a.publication);
    }
  }

  lemma VacantMeans(g: Goal, h: Goal, r: ReplanRequest)
    requires h == g.(permissions := h.permissions)
    requires forall k :: 0 <= k < |g.plans| ==> g.plans[k].fingerprint != PlanFingerprint(r.proposal)
    ensures Bumpable(h, r) <==> Vacant(g, r)
  {
  }

  lemma PublishesMeans(g: Goal, h: Goal, r: ReplanRequest, row: RequestRow, p: Publication)
    requires h == g.(permissions := h.permissions)
    ensures Written(Bumped(h.(requests := h.requests[r.evaluation := row]), r), p).Accepted? <==> Publishes(g, p)
  {
  }

  /** A well-formed request made for the first time is answered unless its identity is taken or something
      stands in the way of carrying out an allowed one, and allowed exactly where nothing hinders it. */
  lemma AnsweredExactly(db: Db, a: Ask)
    requires WellFormedRequest(a.request) && a.request.goal in db && a.request.evaluation !in db[a.request.goal].requests
    ensures var g, x := db[a.request.goal], Answered(db, a).answer;
      && (x.Accepted? <==> a.usage != Broken && NewId(db, a.request.id) && (Unhindered(g, a) ==> Free(g, a)))
      && (x.Accepted? ==> !x.value.existing && (x.value.verdict.ruling == Allowed <==> Unhindered(g, a)))
  {
    var r := a.request;
    var g := db[r.goal];
    assert g.(requests := g.requests - {r.evaluation}) == g;
    assert db[r.goal := g] == db;
    RuledExactly(g, a);
    assert RequestIdTaken(db, r.id) <==> !NewId(db, r.id);
  }

  // ---------- what a request has to be ----------

  ghost predicate Says(text: string, most: int) {
    DecisionLaws.Says(text) && |text| <= most
  }

  ghost predicate EvidenceForm(e: Evidence) {
    && e.failure in {"TEST_FAILURE", "MISSING_CAPABILITY", "PERMISSION_DENIED", "ARCHITECTURE_CONFLICT", "DEPENDENCY_UNAVAILABLE",
                     "POLICY_REJECTED", "TIMEOUT", "RESOURCE_EXHAUSTED", "INVALID_ASSUMPTION", "UNKNOWN"}
    && 1 <= |e.items| <= 32
    && forall i :: 0 <= i < |e.items| ==> Says(e.items[i].kind, 64) && Says(e.items[i].fact, 4096) && |e.items[i].artifact| <= 128
  }

  ghost predicate ProposalForm(p: Proposal) {
    && Says(p.strategy, 4096) && Says(p.class_, 128) && Says(p.dependencies, 4096)
    && |p.evaluation| <= 1024 && |p.sideEffects| <= 128 && |p.capabilities| <= 64 && |p.assumptions| <= 64
    && (p.jobSpecHash == "" || JobHash(p.jobSpecHash))
  }

  ghost predicate ChangeForm(d: StrategyDelta, p: Progress) {
    && Says(d.summary, 2048) && 1 <= |d.dimensions| <= 16 && (forall i :: 0 <= i < |d.dimensions| ==> Says(d.dimensions[i], 64))
    && p.accepted >= 0 && p.failed >= 0 && p.unknown >= 0 && p.resolved >= 0 && p.blockers >= 0
  }

  lemma BlankSays()
    ensures forall s: string :: Blank(s) <==> !DecisionLaws.Says(s)
  {
    forall s: string ensures Blank(s) <==> !DecisionLaws.Says(s) {
      DecisionLaws.BlankMeans(s);
    }
  }

  /** A request is looked at exactly when it is named and its evidence, proposal, change and progress have the
      form and the limits of the contract. */
  lemma RequestForm(r: ReplanRequest)
    ensures WellFormedRequest(r) <==>
      && r.id != "" && r.goal != "" && r.evaluation != ""
      && EvidenceForm(r.evidence) && ProposalForm(r.proposal) && ChangeForm(r.delta, r.progress)
  {
    BlankSays();
    assert forall i :: 0 <= i < |r.evidence.items| ==>
      (ValidItem(r.evidence.items[i]) <==> Says(r.evidence.items[i].kind, 64) && Says(r.evidence.items[i].fact, 4096) && |r.evidence.items[i].artifact| <= 128);
    assert ValidEvidence(r.evidence) <==> EvidenceForm(r.evidence);
    assert ValidProposal(r.proposal) <==> ProposalForm(r.proposal);
  }

  // ---------- asking again ----------

  /** The request on record is this one in every part; a guard without publication may be asked under
      another identity. */
  ghost predicate OnRecord(row: RequestRow, a: Ask) {
    var r := a.request;
    && (a.publication.Publish? ==> row.id == r.id)
    && row.reason == r.reason && row.expectedPlan == r.expectedPlan && row.expectedGraph == r.expectedGraph
    && row.evidence == EvidenceFingerprint(r.evidence) && row.plan == PlanFingerprint(r.proposal)
    && row.signature == StrategySignature(r.proposal) && row.delta == r.delta && row.progress == r.progress
  }

  /** Asking again about a recorded evaluation changes nothing, unless a publication brings an approval for
      a pending request; another request under its name is refused, and so is an allowed one whose
      publication is missing. */
  lemma AskedAgain(db: Db, a: Ask)
    requires WellFormedRequest(a.request) && a.request.goal in db && a.request.evaluation in db[a.request.goal].requests
    ensures var row := db[a.request.goal].requests[a.request.evaluation];
      var published := a.publication.Publish? && row.verdict.ruling == Allowed ==> (row.nextPlan, row.nextGraph) in db[a.request.goal].published;
      if !OnRecord(row, a) then Answered(db, a) == Result(db, Refused)
      else if a.publication.Publish? && a.approval != "" && row.verdict.ruling == Pending then
        Answered(db, a).answer.Accepted? ==> !Answered(db, a).answer.value.existing
      else Answered(db, a) == Result(db, if published then Accepted(Decision(row.verdict, row.nextPlan, row.nextGraph, true)) else Refused)
  {
    var row := db[a.request.goal].requests[a.request.evaluation];
    assert SameProposal(row, a.request, a.publication.Publish?) <==> OnRecord(row, a);
  }

  // ---------- every revision was earned ----------

  ghost function AskOf(step: Step): Ask
    requires step.Guard? || step.Publishing?
  {
    if step.Guard? then Ask(step.request, "", Absent, step.usage, step.now)
    else Ask(step.request, step.approval, Publish(step.fails, step.writes), step.usage, step.now)
  }

  /** Within every budget and before every deadline, at the revision it expected, with new evidence and a
      new plan. */
  ghost predicate Earned(g: Goal, a: Ask) {
    var r := a.request;
    && g.state != SUCCEEDED && g.state != FAILED && g.state != CANCELED
    && r.expectedPlan == g.activePlan && r.expectedGraph == g.activeGraph
    && a.usage == Within && g.usedAttempts < g.maxAttempts && g.usedReplans < g.maxReplans
    && (g.maxWall <= 0 || a.now - g.created < g.maxWall) && (g.deadline <= 0 || a.now < g.deadline)
    && EvidenceFingerprint(r.evidence) !in g.evidence
    && forall k :: 0 <= k < |g.plans| ==> g.plans[k].fingerprint != PlanFingerprint(r.proposal)
  }

  lemma UnhinderedEarned(g: Goal, a: Ask)
    requires Unhindered(g, a) && a.usage != Broken
    ensures Earned(g, a)
  {
    Placed(TERMINAL);
    Placed(STALE);
    Placed(USAGE_UNKNOWN);
    Placed(USAGE_EXHAUSTED);
    Placed(ATTEMPTS);
    Placed(REPLANS);
    Placed(WALL_TIME);
    Placed(DEADLINE);
    Placed(NO_NEW_EVIDENCE);
    NoDuplicate(g, a);
  }

  ghost predicate Raises(db: Db, step: Step, id: Key) {
    && (step.Guard? || step.Publishing?) && step.request.goal == id && id in db && id in Next(db, step)
    && Earned(db[id], AskOf(step)) && Revised(db[id], Next(db, step)[id], AskOf(step))
  }

  lemma AskRaises(db: Db, a: Ask, id: Key)
    requires id in db && id in Answered(db, a).db && Answered(db, a).db[id].activePlan != db[id].activePlan
    ensures a.request.goal == id && Earned(db[id], a) && Revised(db[id], Answered(db, a).db[id], a)
  {
    assert Answered(db, a).answer.Accepted? && !Answered(db, a).answer.value.existing;
    AnswerExplained(db, a);
    UnhinderedEarned(db[id], a);
  }

  lemma GuardRaises(db: Db, step: Step, id: Key)
    requires (step.Guard? || step.Publishing?) && id in db && id in Next(db, step) && Next(db, step)[id].activePlan != db[id].activePlan
    ensures Raises(db, step, id)
  {
    assert Next(db, step) == Answered(db, AskOf(step)).db;
    AskRaises(db, AskOf(step), id);
  }

  /** Nothing but an allowed request moves the revision of a goal. */
  lemma OnlyEarned(db: Db, step: Step, id: Key)
    requires id in db && id in Next(db, step) && Next(db, step)[id].activePlan != db[id].activePlan
    ensures Raises(db, step, id)
  {
    match step
    case Guard(_, _, _) =>
      GuardRaises(db, step, id);
    case Publishing(_, _, _, _, _, _) =>
      GuardRaises(db, step, id);
    case Decide(_, _, _) =>
      assert false;
    case _ =>
      assert false;
  }

  /** In every run, every revision of a goal was made by an allowed request, in the state before it, within
      every budget and before every deadline. */
  lemma {:induction false} EveryRevisionEarned(steps: seq<Step>, id: Key, n: int) returns (i: nat)
    requires id in After(steps) && 2 <= n <= After(steps)[id].activePlan
    ensures i < |steps| && Raises(After(steps[..i]), steps[i], id)
    ensures After(steps[..i])[id].activePlan == n - 1
  {
    var last := |steps| - 1;
    var db := After(steps[..last]);
    assert After(steps) == Next(db, steps[last]);
    StartsAtOne(db, steps[last], id);
    if n <= db[id].activePlan {
      i := EveryRevisionEarned(steps[..last], id, n);
      assert steps[..last][..i] == steps[..i];
    } else {
      OnlyEarned(db, steps[last], id);
      i := last;
    }
  }

  lemma StartsAtOne(db: Db, step: Step, id: Key)
    requires id in Next(db, step) && Next(db, step)[id].activePlan >= 2
    ensures id in db
  {
  }
}

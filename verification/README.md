# ComputeCloud coordination core: a verified model

ComputeCloud coordinates agents that work on a goal through a compiled graph of nodes. This project
models the logic that decides what those agents may rely on, and proves what it promises:

- **Memory views** (`Graphs`, `Memory`, `Projection`, `Invalidation`, `Merging`, `MergeLaws`, `Deltas`,
  `DeltaLaws`, `Importing`, `TransportLaws`, `Contexts`, `Lineage`, `Candidates`, `Provenance`). Immutable views
  of records with dependency edges, sources and conflict candidates. Records are admitted, applied, merged,
  imported, verified and invalidated. The two fixpoint loops are proved to compute exact closures, and whole
  runs are proved to keep lineage and provenance.
- **Re-plan guard and governance** (`Fingerprints`, `Goals`, `GoalLaws`, `GoalRuns`, `GuardLaws`,
  `DecisionLaws`). Each exported operation is one transaction over the tables of a goal. Every interleaving of
  transactions is proved to keep conservation, loop prevention, one-use permissions and idempotent replay, and
  every revision and decision on record is traced to the step that earned it.
- **Plan compiler, evidence and recovery** (`Ordering`, `Spans`, `Coverage`, `CoverageLaws`, `Planner`,
  `PlannerLaws`, `PortLaws`, `RequestSizes`, `Recovery`). Kahn's traversal with canonical sorting, port by port
  wiring, the request limit, the interval sweep, the coverage preflight, and the recovery relation with its
  termination measure.
- **Run controller and polling client** (`Markers`, `Polling`). At-most-once launch with durable markers
  under restarts and power loss, and exactly-once delivery of paged events.
- **Orders verifier** (`OrderTotals`, `OrderOracle`, `OrderSources`, `OrderChecks`, `OrderVerifier`). The
  overflow-checked total, its agreement with the independent oracle, and what each verdict means.
- **Streams and amounts** (`Lines`, `Micros`). Frames cut from a byte stream in arbitrary pieces, and
  dollar amounts rounded up to micro-dollars.

`Keys`, `Outcomes` and `Texts` hold the string order, the sorts, the result type and the white-space rules that
the others share.

How the code is rendered: objects whose fields are updated become classes, loops stay loops and are proved
against a specification function, Go maps are visited in an arbitrary order, and a refusal is a value.
SHA-256 and canonical JSON are idealised: a digest is the content it was computed from, or an injective
function. Clocks, the disk, the network, publication callbacks and JSON decoders are parameters.

## Where a promise does not hold as stated

Each of these keeps the code's behaviour, gives an input, and states the exact condition.

- `ApplyDelta` does not check the size of the view it returns. Its result is a valid view exactly when the
  delta is empty or the view it was applied to has at most 1024 records (`DeltaLaws.ApplySound`; a view of
  1025 is `DeltaLaws.BeyondTheBound`). Over whole runs only a raw application can leave such a view
  (`Lineage.ReachableSound`).
- A record that supersedes another reads what it supersedes, so it becomes INVALID with it
  (`DeltaLaws.SupersederFalls`; `DeltaLaws.ReplacementFalls` is such an application, to the view and record of
  `DeltaLaws.LoneReplaced`). An added record ends
  VALID exactly when the delta supersedes nothing and everything in the view is VALID (`DeltaLaws.AddedValid`).
- An event that names a source strikes every record exposed to it, but not every conflict candidate: a
  candidate falls exactly when its identity leads to a listed one through the records, whatever its own
  dependencies are (`Candidates.CandidateExact`, `Candidates.ExposedCandidate`; such a merge is
  `Candidates.MergeLetsEscape`).
- A terminal goal is not final. SUCCEEDED and CANCELED goals stay as they are, but a manual retry runs a
  FAILED goal again, also one a human rejected: it stays exactly when no retry of it follows
  (`GoalRuns.Conserved`; such a run is `GoalRuns.RejectedRunsAgain`).
- The spec of a compiled plan carries the digests of its sources and may therefore exceed the request limit
  its original met. It compiles again exactly when the original leaves room for the digests it lacks
  (`PlannerLaws.CompileTwice`, `RequestSizes.RecompilesExactly`); a one-node spec that just fits, and whose
  plan does not compile again, is `RequestSizes.DigestsOutgrow`.
- The comment on the release handler says a stopped attempt can never replay. A release is also
  acknowledged over a marker some earlier request left unsynced, and after a power loss the run can then be
  launched. That is possible exactly when the marker is visible but not durable
  (`Markers.AcknowledgedRelease`, `Markers.UnfencedRelease`).
- Evidence fingerprints sort kinds untrimmed, so outer white space on a kind can make old evidence look new
  (`Fingerprints.PaddedKindLooksNew`). It goes unnoticed exactly when trimming turns no two items around
  (`Fingerprints.PaddingUnnoticed`), and among such evidence the fingerprint is exactly the meaning
  (`Fingerprints.FingerprintExact`).
- A required span without bytes is covered or not depending on unrelated spans: selecting more never hurts
  exactly for spans with bytes (`Spans.CoverageMonotone`; any other span fails by
  `Spans.EmptySpanNotMonotone`). Spans are read, and refused when they hold no bytes, before they are required
  or selected, except in `ValidateRecovery`, which compares the spans of a prior spec it does not compile
  (internal/graph/recovery.go:46-55).
- The verifier's total can differ from the oracle's when an exception excludes a special order
  (`OrderOracle.ExceptionMatters`). It is never less, and they agree exactly when leaving out the special
  orders changes no customer's discount (`OrderOracle.VerifierAgrees`).
- A passing identity check says nothing about the fields of an order (`OrderVerifier.IdentityIsNotContent`);
  what each check does say is `OrderVerifier.PassReproduces`.
- The exponent bound of an amount is a bound on its spelling: `0e1001` is refused although it is zero
  (`Micros.ZeroRefused`); what is refused, exactly, is part of `Micros.ParseUSDMicros`.

## Model

| member | source | states |
|---|---|---|
| Graphs.DependencyWalk.Visit | internal/graph/memory.go:90-113 | the recursive visit fails only on a missing dependency or a cycle, and otherwise extends a dependencies-first order |
| Graphs.CheckDependencies | internal/graph/memory.go:90-119 | visiting every identity in any order accepts exactly the closed acyclic relations |
| Memory.ValidateView | internal/graph/memory.go:69-120 | accepts exactly sealed views with valid origins, unique identities, valid records and a closed acyclic dependency relation |
| Memory.PermutedView | internal/graph/memory.go:45-59 | the order in which records are handed over leaves no trace in a valid view |
| Memory.NormalTwice | internal/graph/memory.go:52-56 | normalising a record is idempotent |
| Projection.ProjectValidity | internal/graph/memory.go:228-245 | the in-place fixpoint loop leaves each record with the worst validity among itself and everything it transitively depends on |
| Projection.ProjectedConsistent | internal/graph/memory.go:228-245 | after the projection no record is judged better than one it depends on, and no body changed |
| Projection.ConsistentUpstream | internal/graph/memory.go:228-245 | in a consistent list nothing transitively upstream is judged worse |
| Projection.ConsistentFixed | internal/graph/memory.go:228-245 | a consistent list is a fixpoint of the projection |
| Invalidation.Spread | internal/graph/memory.go:320-331 | sweeping until nothing changes computes the roots and all their transitive dependents |
| Invalidation.Invalidate | internal/graph/memory.go:301-345 | refuses an invalid view or an unknown identity; otherwise the view with the closure struck, in records and candidates |
| Invalidation.InvalidateExact | internal/graph/memory.go:301-345 | exactly the given identities and their transitive dependents become INVALID, and every other judgement and every body is kept |
| Invalidation.InvalidateUnion | internal/graph/memory.go:301-345 | two invalidations in a row are one invalidation of the union |
| Invalidation.InvalidateConsistent | internal/graph/memory.go:301-345 | invalidation keeps a consistent view consistent |
| Invalidation.ProjectInvalidation | internal/graph/validity.go:43-75 | an audit-only event changes nothing; any other strikes every identity of which a record or candidate is listed or names a target source |
| Provenance.EventExplained | internal/graph/validity.go:43-75 | an audit-only event changes nothing; any other strikes exactly the records resting on an identity with a version that is listed or names a target source, and keeps every other judgement |
| Invalidation.EventIdempotent | internal/graph/validity.go:43-75 | applying an event twice is applying it once |
| Invalidation.EventsCommute | internal/graph/validity.go:43-75 | the order in which events arrive leaves no trace |
| Merging.Assemble | internal/graph/memory.go:269-294 | built in any map order, the merged view is one function of the variants of each identity |
| Merging.CollectVariants | internal/graph/memory.go:249-268 | the two-level map holds exactly the records and candidates of all views |
| Merging.MergeViews | internal/graph/memory.go:248-299 | the result depends only on the set of records and candidates across the views |
| Merging.MergeSetOnly | internal/graph/memory.go:248-299 | permuting or repeating views changes nothing |
| Merging.MergeKeepsVariants | internal/graph/memory.go:272-292 | every variant of a contested identity survives verbatim as a candidate, and the representative is neither VALID nor verified |
| MergeLaws.MergeExplained | internal/graph/memory.go:269-299 | a merged record has the text of the version with the least canonical text and its validation where uncontested; it is INVALID exactly when it reaches an uncontested INVALID version and VALID exactly when all it reaches is uncontested and VALID |
| MergeLaws.ConflictsExact | internal/graph/memory.go:276-296 | exactly the identities with several versions are conflicts, each listing all of them in canonical order |
| Deltas.ValidateDelta | internal/graph/memory.go:160-203 | admits exactly encoded deltas within 64 KiB of well-formed new records over a valid view, and makes each record depend on the whole read set |
| Deltas.BindDeltaSources | internal/graph/source_lineage.go:10-47 | refuses a malformed or contradictory presentation; otherwise every record names every presented source besides its own |
| Deltas.BoundSources | internal/graph/source_lineage.go:21-45 | no presented source is dropped and none the record claimed is lost |
| Deltas.BuildOutput | internal/graph/execution.go:58-66 | binds the sources of everything presented, then admits the delta |
| Deltas.StrikeSuperseded | internal/graph/memory.go:216-223 | one invalidation per superseding record amounts to one invalidation of everything superseded |
| Deltas.ApplyDelta | internal/graph/memory.go:205-226 | the admitted records joined to the view, what they supersede struck with its dependents, then projected |
| DeltaLaws.ApplySucceeds | internal/graph/memory.go:205-226 | goes through exactly when the delta fits 64 KiB when encoded, is admissible and, if it supersedes anything, the view has at most 1024 records |
| DeltaLaws.ApplySound | internal/graph/memory.go:205-226 | the result is consistent, has the identities of view and delta, and is a valid view exactly within the record bound |
| DeltaLaws.SupersederFalls | internal/graph/memory.go:193-222 | a delta that supersedes anything leaves every record it added INVALID |
| DeltaLaws.AddedValid | internal/graph/memory.go:193-224 | a record the delta added ends VALID exactly when the delta supersedes nothing and every record of the view is VALID |
| DeltaLaws.ReplacementFalls | internal/graph/memory.go:205-226 | in a view of one record the record that supersedes it is applied and both end INVALID |
| DeltaLaws.LoneReplaced | internal/graph/memory.go:45-59 | two observations that depend on nothing make such a view and replacement |
| DeltaLaws.BeyondTheBound | internal/graph/memory.go:122-226 | a view of 1025 records to which a delta applies and leaves an invalid view |
| Provenance.AppliesExactly | internal/graph/memory.go:121-226 | a delta is applied exactly when it fits 64 KiB, was made for this valid view in a named context, proposes at most 32 new records within the limits that refer to the view only, and supersedes nothing or the view has at most 1024 records |
| Provenance.NewRecord | internal/graph/memory.go:184-226 | a record new in the view has the delta's context as its input, rests on every record read, and keeps identity, kind, payload, sources and supersedes of its claim |
| Provenance.OldRecord | internal/graph/memory.go:205-226 | any other record was in the view before and differs at most by a worse judgement |
| Provenance.NewProduct | internal/graph/execution.go:58-66 | a produced record names the context it was produced in and exactly the sources it claimed or that context showed |
| Importing.ImportView | internal/graph/import.go:11-69 | accepts exactly a closed selection of VALID uncontested records whose renamed image is a valid view, and returns that image |
| Importing.ImportSound | internal/graph/import.go:11-69 | an import yields a valid, consistent view of VALID, unchecked records with an origin |
| TransportLaws.ImportAccepted | internal/graph/import.go:13-45 | an import is accepted exactly for a valid view, identity and name space and a selection named once each, present, VALID, uncontested and closed, whose image is a valid view |
| TransportLaws.ImportExplained | internal/graph/import.go:46-68 | each imported record is the image of a selected one: renamed with all its references, unchecked, one origin link longer, and otherwise the same |
| TransportLaws.OriginsDescend | internal/graph/origin.go:26-41 | back along its origins a record stays within one goal and comes from ever older generations, over at most eight imports |
| TransportLaws.VersionTells | internal/graph/memory.go:60-68 | the version of a valid view says whether anything in it was imported |
| Importing.ProjectVerifiedScope | internal/graph/verification.go:172-214 | accepts exactly distinct, present, uncontested VALID identities and marks them and nothing else verified |
| Importing.VerifySound | internal/graph/verification.go:172-214 | only validation changes: bodies and validities are kept, and verified records are the named VALID ones |
| TransportLaws.ScopeExplained | internal/graph/verification.go:172-214 | exactly the named records are verified, candidates never, and nothing else changes |
| Contexts.ProjectInvalidationWithContexts | internal/graph/source_lineage.go:51-91 | records with an unknown producer context fall into doubt, and contexts that showed a target source are struck |
| Contexts.FailClosed | internal/graph/source_lineage.go:51-91 | a record is VALID afterwards exactly when it and everything it depends on was VALID, has a known context, and has no variant listed, sourced or exposed; no validity improves |
| Provenance.StruckExactly | internal/graph/source_lineage.go:51-91 | after an event a record is INVALID exactly when it, or something it rests on, was INVALID or has a version that is listed, names a target source or was produced in a context showing one |
| Provenance.CandidateJudged | internal/graph/source_lineage.go:51-91 | a candidate falls with its identity, comes into doubt when its own context is unknown, and is kept otherwise |
| Lineage.ReachableSound | internal/graph/memory.go:69-120 | every view any run reaches is consistent with every candidate under a present identity, and is valid exactly unless its last step was an oversized raw application |
| Lineage.NothingValidOnDoubt | internal/graph/memory.go:228-245 | in every reachable view no VALID record transitively rests on one that is not |
| Lineage.ExposureTraced | internal/graph/source_lineage.go:10-47 | exposure to a source, however indirect through reads, merges and imports, leaves a body naming the source at or below the exposed record |
| Lineage.LineageSound | internal/graph/validity.go:43-75 | in every reachable valid view an event naming a source leaves INVALID every record that was exposed to it in any way during the run |
| Provenance.ContextKept | internal/graph/memory.go:199 | in every run, through merges, imports and invalidations, a record carries the context that produced it |
| Provenance.ContextsCatch | internal/graph/source_lineage.go:51-91 | in every reachable valid view an event naming a source leaves INVALID each record produced in a known context that showed it, whatever the record says of its sources |
| Candidates.CandidateExact | internal/graph/memory.go:320-343 | in every reachable valid view an event strikes a candidate exactly when its identity reaches a listed one through the edges of records, and otherwise keeps it to the letter |
| Candidates.ExposedCandidate | internal/graph/memory.go:320-343 | an exposed candidate survives exactly when no such path exists, and then one of its own dependencies names the source |
| Candidates.MergeLetsEscape | internal/graph/memory.go:248-343 | two views whose merge holds a candidate that rests on a struck record and is left as it was |
| Fingerprints.EvidenceOrderFree | internal/goal/evaluator_contract.go:56-81 | the order of evidence items never makes evidence new |
| Fingerprints.FingerprintSeparates | internal/goal/evaluator_contract.go:56-81 | different facts never share a fingerprint |
| Fingerprints.PaddingUnnoticed | internal/goal/evaluator_contract.go:56-81 | the fingerprint equals that with trimmed kinds exactly when trimming turns no two items around |
| Fingerprints.FingerprintExact | internal/goal/evaluator_contract.go:56-81 | beside evidence whose order trimming keeps, exactly the evidence of the same meaning that keeps its order too has the same fingerprint |
| Fingerprints.TrimmedKeepOrder | internal/goal/evaluator_contract.go:56-81 | kinds without outer white space are among those trimming keeps in order |
| Fingerprints.PaddedKindLooksNew | internal/goal/evaluator_contract.go:56-81 | two valid evidence lists of one meaning whose fingerprints differ by white space on a kind |
| Fingerprints.SamePlanSameSignature | internal/goal/evaluator_contract.go:119-186 | plans with one fingerprint have one strategy signature and the same capabilities and assumptions |
| Fingerprints.PlanFingerprintExact | internal/goal/evaluator_contract.go:119-141 | plans share a fingerprint exactly when their texts agree and they list the same capabilities and assumptions in any order |
| Fingerprints.SignatureExact | internal/goal/evaluator_contract.go:174-186 | strategies share a signature exactly when class, dependencies and side effects agree but for outer white space |
| Goals.GoalStore.Create | internal/goal/replan_guard.go:69-83 | inserts a new goal at revision and generation 1, or changes nothing |
| Goals.GoalStore.ReserveAttempt | internal/goal/replan_guard.go:85-115 | counts one attempt of a goal that is not terminal and below its cap, or changes nothing |
| Goals.GoalStore.RegisterPlanFingerprint | internal/goal/replan_guard.go:117-128 | adds a plan row unless revision or fingerprint is taken |
| Goals.GoalStore.CountFailures | internal/goal/replan_guard.go:257-281 | the scan of the newest rows decides whether the last two share the failure class |
| Goals.GoalStore.Judge | internal/goal/replan_guard.go:231-351 | the screen of the request in the order of the source's cases |
| Goals.GoalStore.Guard | internal/goal/replan_guard.go:146-440 | the whole transaction: replayed, re-opened, refused, pending or allowed, with every table written or none |
| Goals.GoalStore.GuardReplan | internal/goal/replan_guard.go:130-132 | the guard without publication |
| Goals.GoalStore.GuardAndPublishReplan | internal/goal/replan_guard.go:139-144 | the guard with publication, refused without one |
| Goals.GoalStore.Decide | internal/governance/governance.go:59-173 | a human decision is recorded once, with its budget, state and permission changes, or nothing changes |
| GoalLaws.BumpKeeps | internal/goal/replan_guard.go:370-411 | adding a revision keeps balance, loop freedom, warranted permissions and answered requests |
| GoalLaws.RuledKeeps | internal/goal/replan_guard.go:220-437 | every ruling of the guard keeps the goal invariant |
| GuardLaws.AnswerExplained | internal/goal/replan_guard.go:305-437 | a new answer names the first of thirteen hindrances in order, is final exactly for those no approval can lift, and writes the one row, park or revision that goes with it |
| GuardLaws.AnsweredExactly | internal/goal/replan_guard.go:220-437 | a well-formed first request is allowed exactly where nothing hinders it and permission, keys and publication go through |
| GuardLaws.AskedAgain | internal/goal/replan_guard.go:172-218 | asking again changes nothing unless a publication brings an approval; any other request under the name is refused |
| GuardLaws.RequestForm | internal/goal/replan_guard.go:146-164 | a request is looked at exactly when it is named and its evidence, proposal, change and progress have the form and limits of the contract |
| GoalLaws.DecidedKeeps | internal/governance/governance.go:99-170 | every human decision keeps the goal invariant |
| DecisionLaws.DecisionExact | internal/governance/governance.go:59-173 | a decision is taken exactly when a named human with the scopes for it decides on a goal of theirs as it now is, and does just what its action says |
| GoalRuns.RunInvariant | internal/goal/replan_guard.go:146-440 | after every run of transactions every goal satisfies the invariant, goals the server inserts with attempts already used and retried goals included |
| GoalRuns.RunForward | internal/goal/replan_guard.go:146-440 | a goal only moves forward: tables grow, caps rise, settled permissions and final requests stay, and SUCCEEDED and CANCELED goals are left alone |
| GoalRuns.Conserved | internal/goal/replan_guard.go:362-411 | revision = generation = 1 + replans = 1 + history length, use stays within caps that only rise, replans within 100 or the first cap; SUCCEEDED and CANCELED goals stay, and a FAILED goal stays exactly when no manual retry of it follows |
| GoalRuns.RejectedRunsAgain | internal/server/manual_retry.go:200-202 | a goal that a human rejected and that runs again |
| GoalRuns.InsertExact | internal/server/goal_execution.go:47-65 | which caps, state and used attempts a goal gets that the server inserts for a graph or a job |
| GoalRuns.MoveExact | internal/server/long_running.go:74 | an extended deadline moves the wall limit with it, a move of the server the state, and a terminal goal stays |
| GoalRuns.LoopPrevention | internal/goal/replan_guard.go:247-299 | a revision made without a permission differs in strategy from the six before it, is no third failure of one class in a row, and is no second entry without progress |
| GuardLaws.OnlyEarned | internal/goal/replan_guard.go:305-411 | nothing but an allowed request moves the revision of a goal, within usage, attempts, replans, wall time and deadline |
| GuardLaws.EveryRevisionEarned | internal/goal/replan_guard.go:305-411 | in every run every revision was made by such a request in the state before it |
| GoalRuns.SpentWithBump | internal/governance/governance.go:179-210 | a permission is spent only by publishing a replan at the approved revision and generation, together with the bump and the publication |
| DecisionLaws.EveryDecisionMade | internal/governance/governance.go:59-173 | in every run every decision on record was made by such a human on the goal as it then was |
| DecisionLaws.SpentByHuman | internal/governance/governance.go:59-210 | every spent permission was granted by a human of the goal's owner, for that revision, while the goal waited |
| GoalRuns.OnePermissionPerRevision | internal/governance/governance.go:179-210 | at most one permission is ever spent per revision |
| GoalRuns.UnusedLapses | internal/governance/governance.go:179-210 | a permission left unused when the revision moves on is never spent |
| GoalRuns.FinalAnswerReplays | internal/goal/replan_guard.go:172-218 | whatever happened since, asking again after a final answer changes nothing and returns the same decision |
| GoalRuns.DecisionReplays | internal/governance/governance.go:83-98 | repeating a human decision changes nothing and returns the same version |
| Ordering.TakeOut | internal/graph/spec.go:541-543 | each indegree falls by the number of edges from the taken node |
| Ordering.Traverse | internal/graph/spec.go:526-544 | the loop over indegrees computes the traversal that always takes the least ready node |
| Ordering.KahnTopological | internal/graph/spec.go:526-544 | what comes out is a topological order of all nodes |
| Ordering.KahnLeast | internal/graph/spec.go:526-544 | any graph with a topological order is traversed, and no topological order is lexicographically smaller |
| Ordering.KahnExact | internal/graph/spec.go:526-544 | the traversal goes through exactly when the relation is acyclic |
| Spans.Sweep | internal/graph/token.go:97-110 | the sweep over sorted spans decides coverage, a gap being a byte no span holds |
| Spans.RequiredEvidenceCovered | internal/graph/token.go:89-111 | true exactly when every byte of a span with bytes lies in a selected span of the same source and digest, with the exact rule for spans without bytes |
| Spans.CoverageMonotone | internal/graph/token.go:89-111 | whether a required span stays covered however much more is selected: exactly when it has bytes |
| Spans.CoverageTransitive | internal/graph/token.go:89-111 | what is covered by covered spans is covered |
| Spans.EmptySpanNotMonotone | internal/graph/token.go:89-111 | every span without bytes is covered by an empty selection and uncovered by some larger one |
| Coverage.ReconstructSource | internal/graph/context.go:127-153 | rebuilds the text of a source exactly when a declared digest is that of the text and readable spans cover all of it |
| Coverage.CoverageRequiredSpans | internal/graph/coverage.go:149-165 | the obligation spans of a node, in order |
| Coverage.CoverageContextPolicy | internal/graph/coverage.go:166-187 | the node's policy extended by its distinct obligation spans, or a refusal |
| CoverageLaws.PolicyExplained | internal/graph/coverage.go:166-187 | the policy of a node asks for what the node declared and what it owes, each once, under its own limit on bytes |
| Coverage.CheckCoverage | internal/graph/coverage.go:50-138 | refuses exactly malformed catalogs and otherwise reports exactly the obligation spans a bound node does not load |
| CoverageLaws.GapsExplained | internal/graph/coverage.go:111-125 | a gap names the obligation, node, source, start and end of a span the node does not load, and there is one for each such span |
| CoverageLaws.CatalogExplained | internal/graph/coverage.go:58-138 | in an accepted catalog every obligation has a check, running nodes and readable spans, and every check an obligation and outputs of the graph |
| Coverage.ValidateCoverage | internal/graph/coverage.go:139-148 | accepts exactly specs whose every obligation span is loaded |
| Coverage.CheckEvidence | internal/graph/context.go:71-86 | the run-time check passes exactly when the policy is valid and each required span readable and covered |
| Coverage.PreflightSuffices | internal/graph/coverage.go:98-131 | after a complete preflight the run-time check never misses an obligation span, only evidence the node declared itself |
| Planner.BindEdges | internal/graph/spec.go:457-513 | accepts exactly well-bound edges and counts indegrees and successors |
| Planner.Wire | internal/graph/spec.go:457-525 | adds the verdict branches and the bound inputs |
| Planner.Unrepeated | internal/graph/spec.go:545-558 | the loop over a seen map accepts exactly lists without a repeated key |
| Planner.CheckReuse | internal/graph/spec.go:430-440 | accepts exactly bindings to replayable nodes with distinct nodes and grants, and hands on the grants |
| Planner.CheckImports | internal/graph/spec.go:442-455 | accepts exactly bindings to distinct present nodes whose grants are new among imports and reuse |
| Planner.Compile | internal/graph/spec.go:250-575 | refuses an oversized, malformed or cyclic graph, otherwise the canonical plan |
| Planner.CompileExact | internal/graph/spec.go:526-544 | a declared graph compiles exactly when it fits the request limit and is acyclic, and its order is the lexicographically least topological order |
| PortLaws.CompilesExactly | internal/graph/spec.go:457-562 | given well-formed declarations and coverage a graph compiles exactly when it fits a request, every edge matches output and input under one schema, every input is supplied once, every condition has all branches, and no node waits for itself |
| PortLaws.SchemasDiffer | internal/graph/spec.go:486-491 | an edge between ports of different schemas is refused |
| PortLaws.PlanPorts | internal/graph/spec.go:486-525 | in every plan exactly one edge enters each declared input, from a node earlier in the order whose operator declares that output with the same schema |
| PortLaws.PlanDeclares | internal/graph/spec.go:264-423 | operators, nodes, outputs, sources and spans of a compiled spec are declared and run within its limits |
| PortLaws.PlanGrants | internal/graph/spec.go:424-455 | what a plan brings in from other runs is bound to declared nodes, replayable ones for reuse, under a grant of its own |
| PortLaws.PlanShape | internal/graph/spec.go:441-575 | a plan lists what was declared in order with every digest filled in, and runs serially exactly under a cost limit |
| PortLaws.PlanCovers | internal/graph/coverage.go:98-131 | in a compiled version 5 spec every obligation span is loaded by every node it is bound to, and that node runs an agent or a command |
| PlannerLaws.CompilePermuted | internal/graph/spec.go:250-575 | permuting any declared list gives the same plan or the same refusal, the size limit included |
| PlannerLaws.CompileTwice | internal/graph/spec.go:250-575 | the spec of a plan compiles to that very plan exactly when the request fits with the digests of its sources filled in, and is refused otherwise |
| RequestSizes.LengthWithDigests | internal/graph/spec.go:250-298 | filling in digests lengthens a request by a fixed margin for each source that lacks one |
| RequestSizes.RecompilesExactly | internal/graph/spec.go:250-298 | the spec of a plan compiles to that very plan exactly when the length of the original plus that margin for each missing digest is within the limit, and is refused otherwise |
| RequestSizes.SinglePlanned | internal/graph/spec.go:250-575 | a spec of one command and one source of any length passes every check but the limit |
| RequestSizes.DigestsOutgrow | internal/graph/spec.go:250-298 | in every encoding that leaves room for the smallest such spec, some length of that source gives a spec that compiles and a plan whose spec is refused |
| RequestSizes.PlainLengthsServe | internal/graph/spec.go:41-47 | lengths like those of canonical JSON, where a digest adds 76 bytes, are such an encoding |
| PlannerLaws.PlanEvidence | internal/graph/context.go:71-86 | for each node of a compiled version 5 spec the run-time evidence check passes exactly when the node covers its own evidence |
| Recovery.ValidateRecovery | internal/graph/recovery.go:25-69 | accepts exactly specs that extend nodes of the prior one by instructions and evidence, change nothing else, and compile |
| Recovery.RecoveryExact | internal/graph/recovery.go:25-69 | accepted exactly when every node is the prior one in its place with at most 8 KiB more instructions and no byte lost, some node gained, nothing else differs, and the spec compiles |
| Recovery.RecoveryGrows | internal/graph/recovery.go:33-61 | each step keeps every visible byte and every instruction prefix, and strictly adds weight |
| Recovery.ChainsEnd | internal/graph/recovery.go:25-69 | a chain of recoveries is no longer than the instructions and source bytes its nodes could ever show |
| Markers.Controller.WriteMarker | internal/agenthttp/server.go:449-482 | a marker is created, synced and made durable, or the write fails at one of these |
| Markers.Controller.Create | internal/agenthttp/server.go:437-488 | a run is launched only after its marker is durable; otherwise the reply and the unchanged runs |
| Markers.Controller.ReleaseEnvironment | internal/agenthttp/server.go:310-355 | a release fences the identity with a marker unless one is visible |
| Markers.RunFenced | internal/agenthttp/server.go:310-488 | in every run a durable marker stands for every launch, and markers and launches are never undone |
| Markers.AtMostOnce | internal/agenthttp/server.go:437-488 | under any requests, restarts and power losses no identity is launched twice |
| Markers.LaunchedAnswers | internal/agenthttp/server.go:437-454 | a launched identity is answered as existing to the same request while remembered, and as a conflict otherwise |
| Markers.Remembers | internal/agenthttp/server.go:437-488 | what was launched is remembered until a restart or power loss |
| Markers.DurableFences | internal/agenthttp/server.go:437-488 | an identity with a durable marker is never launched again |
| Markers.ReleaseFences | internal/agenthttp/server.go:310-355 | a release that wrote its marker ends the identity |
| Markers.AcknowledgedRelease | internal/agenthttp/server.go:310-355 | after an acknowledged release a launch is possible exactly when its marker was visible but not durable |
| Markers.UnfencedRelease | internal/agenthttp/server.go:310-355 | one request with a failing sync reaches such a state |
| Polling.RunItem.Append | internal/agenthttp/server.go:500-511 | appends the next numbered event while it is valid and the buffer has room |
| Polling.BufferBounded | internal/agenthttp/server.go:505-511 | a run counts the bytes it buffers and never buffers more than 16 MiB |
| Polling.EmissionExact | internal/agenthttp/server.go:500-511 | an event of a running run with a kind, a valid payload and room is appended as it is under the next number, any other changes nothing |
| Polling.EveryEventEmitted | internal/agenthttp/server.go:500-511 | every buffered event was emitted during the run |
| Polling.RunItem.Fill | internal/agenthttp/server.go:659-672 | the loop takes the unseen events that fit the page |
| Polling.RunItem.Inspect | internal/agenthttp/server.go:636-678 | the status and the page after the cursor, or UNKNOWN once the run is forgotten |
| Polling.PageIsLongest | internal/agenthttp/server.go:659-672 | a page is the longest run of unseen events within the byte limit, and at least one of them |
| Polling.Consume | internal/adapter/http_runtime.go:281-294 | the loop over one page emits events in sequence and stops at a malformed or refused one |
| Polling.Serve | internal/adapter/http_runtime.go:267-314 | polls until something ends it, in step with the run |
| Polling.ExactlyOnce | internal/adapter/http_runtime.go:267-314 | for every interleaving what is emitted is the first events of the run, once each and in order; nothing is taken for malformed; a normal end means all were emitted |
| Polling.NothingFollows | internal/agenthttp/server.go:536-547 | after a normal end no later step of the run adds an event |
| Polling.PollProgresses | internal/agenthttp/server.go:659-674 | an answered poll with something unseen emits an event or meets a refusing callback |
| Polling.PollsEnd | internal/adapter/http_runtime.go:295-313 | from an exited run, answered polls end the client after at most as many as there are unseen events |
| Polling.NumberedWhateverIsAnswered | internal/adapter/http_runtime.go:281-294 | whatever a server answers, the callback sees well-formed events numbered from 1 without gap or withdrawal |
| OrderTotals.AddUp | internal/graph/coverage_verifier.go:166-181 | in any map order the gross sum and the customers' sums, refused exactly when the gross sum does not fit 64 bits |
| OrderTotals.Discounted | internal/graph/coverage_verifier.go:182-190 | in any map order one capped discount per customer at the threshold, without overflow |
| OrderTotals.Total | internal/graph/coverage_verifier.go:166-190 | the sum over distinct orders less min(discount, eligible sum) per customer reaching the threshold |
| OrderTotals.NetBounded | internal/graph/coverage_verifier.go:182-190 | the total lies between zero and the gross sum |
| OrderTotals.GroupsAddUp | internal/graph/coverage_verifier.go:174-179 | the customers' sums add up to what the counted orders cost |
| OrderOracle.Expected | internal/iuexperiment/experiment.go:86-116 | accepts exactly plausible consistent orders and, without overflow, returns the sum of each customer's reduced amount |
| OrderOracle.OracleIsNet | internal/iuexperiment/experiment.go:105-115 | adding up reduced amounts and taking all discounts off the price is the same |
| OrderOracle.VerifierAgrees | internal/graph/coverage_verifier.go:166-190 | the verifier's total is never below the oracle's, and equals it exactly when for every customer the discount on the eligible orders is that on all orders |
| OrderOracle.OrdinaryAgrees | internal/graph/coverage_verifier.go:166-190 | verifier and oracle agree whenever no special order is excluded |
| OrderOracle.ExceptionMatters | internal/graph/coverage_verifier.go:174-179 | one special order for which they differ |
| OrderSources.ReadOrders | internal/graph/coverage_verifier.go:140-150 | reads distinct unused sources as valid orders that agree by identity, or refuses |
| OrderSources.ReadHeader | internal/graph/coverage_verifier.go:92-130 | sources, goal and check bindings, refused only if nothing can be read |
| OrderSources.ReadFacts | internal/graph/coverage_verifier.go:131-165 | what orders, rule and exceptions say, refused only if nothing fits |
| OrderSources.ReadsUnique | internal/graph/coverage_verifier.go:92-165 | the sources say one thing |
| OrderChecks.RunCheck | internal/graph/coverage_verifier.go:191-242 | the nested loops compute the verdict: refuted, undecided, complete or incomplete |
| OrderVerifier.RunCoverageVerifier | internal/graph/coverage_verifier.go:80-257 | judges the one case the sources decide, or answers unknown throughout |
| OrderVerifier.CaseUnique | internal/graph/coverage_verifier.go:80-190 | the result depends on the inputs and not on map order |
| OrderVerifier.CaseFounded | internal/graph/coverage_verifier.go:80-165 | a decided case rests on a sealed catalog for the profile, one goal with the digest it names and of the supported form, complete orders, a rule that applies once from a threshold of at least 1, and exceptions of the one known kind |
| OrderVerifier.EverySourceClassified | internal/graph/coverage_verifier.go:131-165 | a verdict other than unknown is given only when every source plays exactly one part: the goal, an order, the rule or an exception |
| OrderVerifier.JudgedExactly | internal/graph/coverage_verifier.go:191-245 | a check fails exactly when something shown is wrong or all is clear and an original is missing, and stays unknown exactly when nothing is wrong and something is unclear |
| OrderVerifier.FieldChecksReproduce | internal/graph/coverage_verifier.go:213-237 | the field checks pass exactly outputs that show the original orders, all of them and nothing else |
| OrderVerifier.PassReproduces | internal/graph/coverage_verifier.go:80-257 | the answer is an overall pass exactly when the sources decide a case in time and the outputs bound to each check carry what it is about: the original orders or their identities, the total, the currency and unit |
| OrderVerifier.OutputOrderIrrelevant | internal/graph/coverage_verifier.go:119-250 | listing the checks of a catalog or their outputs in another order leaves the decided case and the answer as they were |
| OrderVerifier.IdentityIsNotContent | internal/graph/coverage_verifier.go:213-237 | an order with another price passes a check that compares identities only |
| Lines.LineReader.Write | internal/adapter/adapter.go:433-460 | feeds a piece to the frame reader and reports its length, or 0 after a fault |
| Lines.LineReader.Flush | internal/adapter/adapter.go:461-472 | delivers a non-empty rest and reports its fault without alarm |
| Lines.SplitJoins | internal/adapter/adapter.go:440-458 | frames and tail joined by newlines are the stream, and none of them holds a newline |
| Lines.CuttingIrrelevant | internal/adapter/adapter.go:433-472 | however the bytes are cut into writes, frames, fault and alarms are the same |
| Lines.DeliversFrames | internal/adapter/adapter.go:433-479 | every writing of a stream delivers the text between its newlines, up to and as decided by the first frame that is too long or refused |
| Micros.MatchExact | internal/adapter/budget.go:17-31 | the pattern accepts exactly the non-negative number grammar of section 6 of RFC 8259, each text in one way |
| Micros.ParseUSDMicros | internal/adapter/budget.go:26-65 | reports exactly the ceiling of a million times the number, or refuses exactly when text, exponent or range do not fit |
| Micros.Scaled | internal/adapter/budget.go:40-60 | multiplying or dividing with remainder by the power of ten gives that ceiling |
| Micros.SpellingIrrelevant | internal/adapter/budget.go:26-65 | equal amounts in different spellings are reported alike, larger ones never as less |
| Micros.ReportUnique | internal/adapter/budget.go:26-65 | there is one report per text |
| Micros.ZeroRefused | internal/adapter/budget.go:32-39 | a zero whose spelling is refused |
| Micros.RoundTrip | internal/adapter/budget.go:19-24 | every budget that can be formatted reads back as itself |

## Left out

- `internal/store`, `internal/server` and SQL: every exported guard or governance operation is one atomic step, and publication is a callback that may fail or write nothing. Of the server, the steps of a run are the statements that insert a goal or change its state, deadline or attempts; which request issues them, and what else it checks first, is not modelled, so a run may take them in any order.
- SHA-256, canonical JSON, the JSON and JSON Schema grammars and regular expressions other than the key, digest, reference and number patterns: idealised or parameters.
- HTTP routing, tokens, TLS, Docker commands, credential files and process control: they decide only whether a step of the model happens.
- `internal/governance/budget.go`: the usage check is an input of the guard with four outcomes.
- `Lower` in `internal/graph/spec.go`, which rests on job validation.
- Encodings: of an encoded delta or request only its length is used. The length of a request is that of its parts plus a frame that depends on the header and the lengths of the lists; a nil and an empty list are not told apart. Bytes that encoding changes are idealised away: encoding a delta compacts a raw payload and escapes `<`, `>` and `&`, so the source's payload bound meets the re-encoded payload, and the encoding at the start of `Compile` (internal/graph/spec.go:252-261) replaces invalid UTF-8 before the test for it (line 287) could refuse it.
- Memory flow through artifact inputs of a context: exposure is to spans and memory views.
- OrderVerifier.RunCoverageVerifier: does not model evidence hashes and the reason strings of unknown results; it states the overall verdict and the verdict of every check.
- `internal/graph/context.go` beyond the evidence check and source reconstruction, `schema.go`, `reuse.go`, the experiment harness, calibration and percentiles, `scripts/`, `cmd/` and `clients/`: nothing modelled here calls them, and what they pass on (a spec, a view, an output) is an arbitrary input of the operations above.
- Parser.Line in `internal/adapter/adapter.go`: which event a runtime line becomes; the frame reader treats it as a callback that accepts or refuses.
- Deltas.BuildOutput: does not model the size, port and schema checks on the output values (internal/graph/execution.go:37-57) and the limit on the whole encoded output (internal/graph/execution.go:68-70), which only refuse; the records of an output that passes them are modelled.
- OrderOracle.Expected: the value is stated for orders whose sum fits 64 bits; beyond that the source wraps, and so does the model, but nothing is claimed of the result.
- Polling.ExactlyOnce: a lost or oversized reply is a failed poll, so the decode limit needs no assumption; that the payload a client sees is the encoded and decoded form of the one appended is a parameter.

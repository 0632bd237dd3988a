# Verified model of the tender platform's core logic

This project models six parts of the platform in Dafny and proves what they promise together:
the policy-graph validator and the replay engine that walks validated graphs, the durable jobs
with their leased workers, the resumable BOM import, the migration runner, the BOQ matching
pipeline up to bid readiness, and the shadow comparison with the policy lifecycle.

Modules follow the program's files.

| module | models |
|---|---|
| `Common`, `Graphs` | `sorted` over a set; walks, reachability and acyclic graphs |
| `Tarjan`, `SccSearch` | the component search: its invariant and steps on snapshots, then the mutable search itself |
| `PolicyModel`, `PolicyValidator`, `FindingOrder`, `BranchCoverage` | nodes, edges, the four structural checks, the order of their findings, and branch coverage |
| `Simulation`, `ReplayMeaning`, `CleanGraphs` | the replay engine; what a replay does in terms of the listed edges and test cases; what a clean validation guarantees about every replay |
| `Jobs`, `LeaseSafety`, `RetryOverlap` | the job table, one statement at a time; what every run of statements keeps; when the two statements of `fail_retry` behave as one |
| `WorkerProtocol`, `WorkerLoop` | workers as interleaved transactions, and the worker's own loops and exception handler |
| `BomImport`, `BomJobs` | page cursor, quarantine and completeness ledger; several jobs on one ledger, overlapping ones included |
| `Migrations` | the ledger and sequences of `apply_all` calls |
| `Matching`, `RankingMeaning` | candidates, light and ranking; what they report in terms of the offers |
| `BidReadiness`, `SummaryMeaning` | money summary, lottery verdict and critical lines; what they report in terms of the lines |
| `ShadowComparison`, `DiscrepancyMeaning` | the classified difference of two snapshots; what each discrepancy says and which bucket it is in |
| `PolicyStore`, `PolicyGates`, `PolicyOverlap` | version content, status, transition log and activation; what the gates guarantee over whole runs; what is left of it when transactions overlap |

How to read it. Code that updates state step by step is a method or a class; its postcondition
equates the new state with a function of the old one (`Apply`, `Follow`, `Advance`, `Execute`, ...),
or states the promise outright. The theorems are lemmas about those functions, over every input,
every run or every interleaving; the `...Meaning` modules say what the functions compute without naming them.
An exception is a result value; a transaction block is one step
that commits whole or leaves the state alone. Where a transaction reads without a lock and later writes by id
alone, it is two steps with any transactions of others in between: the worker's page transaction, `fail_retry`,
the ledger update of a BOM page, and every policy operation (in `PolicyOverlap`).

Texts used as keys or codes (node keys, labels, currencies, record ids, field names, vendors) are natural
numbers: the code only compares them for equality and by `sorted`, and any finite set of texts
can be numbered in its own order. Node keys are unique per version (migrations/0018_algoritm_policy_graph.sql:113);
where the code builds a dictionary from a list, the model keeps its rule that the last entry wins.
Clocks are parameters of each step.

Where the program does less than its prose, the model follows the code: a lemma shows the gap with a
concrete input, and another says exactly when the code does what is promised.

- `fail_retry` selects the attempt count of a row it owns and then updates the row by id alone, so a claim can
  commit in between. The late update then takes a running worker's lease (`RetryOverlap.LateWriteStealsALease`),
  makes a completed job claimable again (`LateWriteRevivesAJob`) or records two failures as one
  (`LateWriteLosesAFailure`). `LeaseSafety` says exactly when the promises hold: handover is safe when no such
  update hits a lease held by another worker (`HandoverIff`), a worker without the lease is powerless when it is not
  inside a `fail_retry` (`StaleWorkerIsPowerless`), `attempt` counts the failures when each update finds the attempt
  it read (`AttemptsCountIff`), and a terminal job stays dead when no unfinished `fail_retry` is about to put it
  back (`TerminalStaysDead`). The guard a caller can check is to commit by the expiry that was read
  (`RetryOverlap.WriteStillOwnedIff`); runs in which every `fail_retry` does so keep all of it (`TimelyRunsAreSafe`).
  The exactly-once effect of a paged job survives in every run (`WorkerProtocol.ExactlyOnce`).
- Cancelling a job is not terminal (`LeaseSafety.CancelledCanRunAgain`): `complete` and `fail_retry` test only
  the owner. It is final exactly when nobody owns the job at the time of the cancel and no unfinished `fail_retry`
  has read it (`CancelIsFinalIff`).
- The migration runner's documentation says a failed postflight halts further migrations. It does not
  (`Migrations.PostflightFailureDoesNotHalt`): the next call goes on, and only a failure in the last file
  halts the runner (`PostflightFailureHaltsIff`). `CurrentIsEndIff` says when `current_version` is the last
  migration applied.
- A BOM import can be `complete` with a page missing when several jobs work on one row
  (`BomJobs.SecondJobCountsAgain`). When it is complete, no page is missing exactly when as many pages were
  counted as have a checksum (`CompleteAcrossJobsIff`); the unique index on the stored lines ensures that as long
  as a page fetched again keeps one of its lines (`LinesKeepJobsHonest`), even for overlapping jobs.
- Overlapping page transactions lose updates of the ledger (`BomJobs.OverlapLosesAnUpdate`); none is lost exactly
  when each commit still finds the ledger it read (`NothingLostIff`).
- A complete import can hold fewer lines than reported (`BomImport.CompleteWithARowShort`): the ledger sums the
  `itemsInPage` a page claims. `BomJobs.CompleteRows` says, page by page, when it holds all of them.
- The stall accounting fails without an expected page (`BomImport.StallNeedsAPage`) and holds from one page up.
- One more offer can lower a light (`Matching.ConflictingReputationLowersTheLight`), exactly when it is its
  vendor's new last word and takes away the only good reputation among the last words (`OfferLowersIff`).
- The gates of the policy lifecycle can be gone around by a bare `transition_version_status`, which the
  transition route passes on for any status (apps/api_tender/routers/algoritm.py:349-363): `PolicyGates.UngatedRun`
  reaches an active version that was never validated and was activated by the author of its financial impact.
  `ApprovalIff` and `SelfActivationIff` say exactly which calls do that; without them every version in use went
  through the gate (`ApprovedThroughGate`) and two persons stand behind each financial impact (`TwoPersons`).
- Validated content can change before it is active again (`PolicyGates.GrownRun`): a suspended version takes new
  nodes and edges. Otherwise it stays as the gate saw it (`ApprovedThroughGate`, `ActiveIsClean`). The guard on
  content reads the first item of a list alone, so a list with items for several versions gets past it
  (`MixedListReaches`; `FrozenContentIff` says exactly when). Both routes build lists for one version
  (apps/api_tender/routers/algoritm.py:241, 285); only a direct call to the store gets there.
- Status and log are written from a status that was read without a lock. Two requests at once can log a version as
  approved and then as rejected from risk review (`PolicyOverlap.ApprovedAndRejected`), and an edge whose guard was
  read before the approval can land after it (`LateContent`). The log replays exactly when each update finds the
  status it read (`LogReplaysIff`), and a run whose transactions all end on what they read is a run of whole
  operations, for which everything in `PolicyStore` and `PolicyGates` holds (`SerialWhenFresh`). That no graph has
  two active versions holds however transactions overlap (`OverlapKeepsOneActive`).
- The shadow comparison raises instead of reporting when it has to order a naive and a zoned timestamp;
  `ShadowComparison.CompareSnapshots` says exactly when.

## Model

| member | source | states |
|---|---|---|
| SccSearch.TarjanSccs | packages/algorithm/policy_validator.py:147-185 | the emitted components cover exactly the nodes; each is non-empty, duplicate-free and strongly connected; no node is in two; no edge leads to a component emitted later |
| SccSearch.SccFinder.StrongConnect | packages/algorithm/policy_validator.py:158-180 | one recursive call keeps the invariant of the running search, loses nothing visited, stacked or emitted, and returns a lowlink that names a stacked node `v` reaches and below which no edge leads |
| SccSearch.SccFinder.ScanSuccessor | packages/algorithm/policy_validator.py:165-170 | each of the three cases (tree edge, back edge, emitted successor) advances the loop invariant by one successor and touches no other lowlink |
| SccSearch.SccFinder.PopComponent | packages/algorithm/policy_validator.py:173-180 | the pop loop removes exactly the stack from `v` upward, returns those nodes, each once, and keeps `on_stack` equal to membership |
| Tarjan.PopConnected | packages/algorithm/policy_validator.py:172-180 | when lowlink equals index, the nodes from `v` upward all reach each other |
| Tarjan.PopClosed | packages/algorithm/policy_validator.py:172-180 | when lowlink equals index, no edge leaves the emitted nodes together with the popped ones |
| Tarjan.CallStep | packages/algorithm/policy_validator.py:166-168 | after a recursive call the smaller lowlink still names a stacked node that `v` reaches and bounds every edge from above `v` |
| Tarjan.SameComponentIffMutual | packages/algorithm/policy_validator.py:147-185 | two nodes share a component exactly when each reaches the other |
| Tarjan.LaterUnreachable | packages/algorithm/policy_validator.py:147-185 | nothing in a component reaches a component emitted later |
| Tarjan.EdgesGoBack | packages/algorithm/policy_validator.py:147-185 | an edge leads into its own component or one emitted earlier |
| PolicyValidator.DanglingReferenceIssues | packages/algorithm/policy_validator.py:41-71 | the findings in order: the unresolved ends of each edge, then the nodes with an unresolved fallback; a key is among them exactly when it dangles, and silence means every reference resolves |
| PolicyModel.ShapeEdge | packages/algorithm/policy_validator.py:74-93 | an edge of the graph's shape is an explicit edge or a fallback between known nodes, and the incoming lists mirror it |
| PolicyValidator.BuildAdjacency | packages/algorithm/policy_validator.py:74-93 | both dictionaries list, in order, the explicit edges and then the resolvable fallbacks |
| PolicyValidator.Explore | packages/algorithm/policy_validator.py:122-129 | the frontier loop ends with exactly the nodes a start node reaches |
| PolicyValidator.ReachabilityIssues | packages/algorithm/policy_validator.py:96-144 | the findings, in order, are those of the list that `ReachabilityMeaning` and `ReachabilityList` describe |
| PolicyValidator.ReachabilityMeaning | packages/algorithm/policy_validator.py:102-144 | over nodes and edges: `empty_graph` exactly without nodes; with two keys or more, `no_start_node` exactly when every key with an edge or fallback out of it has one into it, `unreachable_node` exactly for the isolated keys and, where there is a start, for those no chain from one reaches, `no_reachable_terminal` exactly when every key reached from a start leads on |
| PolicyValidator.ReachabilityList | packages/algorithm/policy_validator.py:102-144 | the list holds the isolated keys, then the unreached ones, each sorted, and then at most one finding on the whole graph |
| PolicyValidator.ReachabilityExact | packages/algorithm/policy_validator.py:109-144 | with two nodes and a start, `unreachable_node` names exactly the isolated or unreached nodes, and `no_reachable_terminal` fires exactly when every reached node has an outgoing edge |
| PolicyValidator.AcyclicReachesTerminal | packages/algorithm/policy_validator.py:136-143 | `no_reachable_terminal` never fires on an acyclic graph |
| PolicyValidator.IsCycleIffReachPlus | packages/algorithm/policy_validator.py:194-196 | a component passes the cycle test exactly when its nodes get back to themselves by at least one edge |
| PolicyValidator.HasValidExit | packages/algorithm/policy_validator.py:198-209 | the exit loop succeeds exactly when some node is human or retries with a positive bound and falls back outside the component |
| PolicyValidator.CycleIssues | packages/algorithm/policy_validator.py:188-218 | the findings, in the order the components were emitted and none twice, are exactly the mutual-reachability classes of nodes on a cycle that offers no exit; none means there is no such node |
| PolicyValidator.IoTypeMismatchIssues | packages/algorithm/policy_validator.py:221-239 | the findings edge by edge with fields sorted; one exists exactly for each resolved edge and shared field whose two contracts differ |
| PolicyValidator.ValidateGraphStructure | packages/algorithm/policy_validator.py:242-252 | the whole list; a finding is on it exactly when it is due of nodes and edges, and the list is empty exactly for a graph whose references resolve, which is accessible from start nodes, has no cycle without an exit and no contract mismatch |
| FindingOrder.ChecksInOrder | packages/algorithm/policy_validator.py:242-252 | the four checks report one after the other |
| FindingOrder.DanglingListed | packages/algorithm/policy_validator.py:41-71 | dangling references are listed edge by edge, source before target, and then node by node, each dangling site once |
| FindingOrder.MismatchesListed | packages/algorithm/policy_validator.py:221-239 | mismatches are listed edge by edge with the fields sorted, each one once |
| BranchCoverage.CheckBranchCoverage | packages/algorithm/policy_validator.py:255-287 | the findings node by node with the labels sorted; there is none exactly when every rule with branches has test cases and one for each labelled branch |
| BranchCoverage.CoverageIff | packages/algorithm/policy_validator.py:255-287 | `no_test_cases` exactly for rules with branches and no test case, `uncovered_branch` exactly for each labelled branch none of the rule's test cases covers |
| BranchCoverage.ValidateGraph | packages/algorithm/policy_validator.py:290-295 | the structural findings and the coverage findings; there is none exactly for a structurally clean and covered graph |
| CleanGraphs.CleanLeadsOut | packages/algorithm/policy_validator.py:188-218 | in a clean graph every node has a path to a terminal or to a human node |
| CleanGraphs.CleanHasStart | packages/algorithm/simulation_engine.py:90-110 | a clean graph with two keys or more has a node nothing points at |
| CleanGraphs.CleanIsAcyclic | packages/algorithm/policy_validator.py:198-217 | a clean graph without human nodes and bounded retries is acyclic |
| CleanGraphs.CleanRunsAreSafe | packages/algorithm/simulation_engine.py:169-226 | on a clean graph with one start, no person and no retry, every replay returns a trace along explicit edges that revisits no node, never meets the step cap, never waits, and completes only at a node without outgoing edges |
| CleanGraphs.FollowTrail | packages/algorithm/simulation_engine.py:177-226 | a replay raises on no resolved graph, extends its path along explicit edges, meets the cap only after all steps, and completes only where no edge leaves |
| CleanGraphs.ResumeHumanStop | packages/algorithm/simulation_engine.py:144-166 | rerunning a case that stopped at a person, with the person's answer added, keeps the old path as a proper prefix and goes on from it in the old final state |
| Simulation.FindStartNode | packages/algorithm/simulation_engine.py:90-110 | a start is returned exactly when one node alone has no incoming edge or fallback |
| Simulation.BuildOutAdjacency | packages/algorithm/simulation_engine.py:83-87 | each list holds the edges out of that key, in list order, known node or not |
| Simulation.NothingIsGuessed | packages/algorithm/simulation_engine.py:139-166 | the first edge with a declared ground (only edge, person's answer, unanimous test cases) is taken; the walk stops exactly where no edge has one |
| Simulation.RunCase | packages/algorithm/simulation_engine.py:169-226 | a replay raises unless there is one start, and otherwise is the bounded walk from it that `ReplayIs` describes |
| ReplayMeaning.ReplayIs | packages/algorithm/simulation_engine.py:113-226 | every result of a replay: each step goes along the lone unconditional edge, the first edge with the person's answer, or the first edge with the condition all met test cases agree on; each field of each state, the final one included, is that of the last applied expected output that has it, else the input's; the replay raises exactly at an unknown key, completes exactly where no edge leaves, stops for exactly the reason that holds, and is cut off after twice as many steps as there are nodes |
| ReplayMeaning.OneWayOn | packages/algorithm/simulation_engine.py:128-166 | at a node and in a state there is at most one edge to take with one output to apply (the only met test case's on a lone edge, none after an answer, else the first met one's), or one reason to stop, never both |
| ReplayMeaning.OneState | packages/algorithm/simulation_engine.py:210-211 | the inputs and the applied outputs determine the state |
| Jobs.JobStore.ClaimJob | packages/platform/jobs.py:120-158 | nothing is claimed exactly when no unlocked row is claimable; else the oldest such row, and only it, changes |
| Jobs.JobStore.HeartbeatJob | packages/platform/jobs.py:160-173 | raises exactly without the lease, and then changes nothing; else moves only the expiry |
| Jobs.JobStore.CheckpointJob | packages/platform/jobs.py:175-191 | raises exactly without the lease, and then changes nothing; else sets only the checkpoint |
| Jobs.JobStore.CompleteJob | packages/platform/jobs.py:193-206 | raises exactly when not the owner, whatever the status |
| Jobs.JobStore.SelectAttempt | packages/platform/jobs.py:211-222 | the read of fail_retry raises exactly when not the owner, and else returns the attempt and limit of the row |
| Jobs.JobStore.UpdateRetry | packages/platform/jobs.py:224-252 | the update of fail_retry writes the attempt that was read plus one into the row, whoever owns it by now, gives it back to the queue with the pause or marks it failed, and returns the status it stored |
| Jobs.BackoffMonotone | packages/platform/jobs.py:60-64 | later attempts never wait less, and every wait is between 2 and 300 seconds |
| Jobs.BackoffDoubles | packages/platform/jobs.py:60-64 | the first waits are two seconds, and from the first attempt on each is the double of the one before, up to 300 |
| LeaseSafety.ExpiryIsLastGrant | packages/platform/jobs.py:138-173 | in any run of statements: while a worker owns a job, the row's expiry is the one its latest claim or heartbeat set |
| LeaseSafety.HandoverIsSafe | packages/platform/jobs.py:120-252 | in any run of statements, a job leaves a worker by its own complete or fail_retry, by a claim strictly after the last expiry it had set, or by the late update of another worker's fail_retry |
| LeaseSafety.HandoverIff | packages/platform/jobs.py:208-252 | every job of a run changes hands safely exactly when no late update hits a lease another worker holds |
| LeaseSafety.StaleWorkerIsPowerless | packages/platform/jobs.py:160-252 | whatever a worker without the lease does on the job raises and changes nothing until it claims again, over every later run, exactly when it is not inside a fail_retry that has read the job |
| LeaseSafety.RetryBound | packages/platform/jobs.py:208-252 | whatever overlaps: with positive limits a held job always has an attempt left and no attempt exceeds the limit |
| LeaseSafety.AttemptsCountIff | packages/platform/jobs.py:208-252 | all along a run `attempt` counts the failures exactly when each update finds the attempt it read; then no job fails more often than its limit |
| LeaseSafety.FailsExactlyOnTheLast | packages/platform/jobs.py:224-252 | the update stores `failed` exactly when it uses up the last attempt, and `pending` otherwise |
| LeaseSafety.RetryWaits | packages/platform/jobs.py:120-134 | after a failure that leaves an attempt the job can be claimed exactly from the end of the pause on, and until a claim at such a time nobody owns it |
| LeaseSafety.TerminalStaysDead | packages/platform/jobs.py:120-252 | a completed or failed job stays dead over every later run, cancels included, exactly when no unfinished fail_retry is about to put it back |
| LeaseSafety.CancelledCanRunAgain | packages/platform/jobs.py:254-258 | a run in which a cancelled job goes back to the queue |
| LeaseSafety.CancelIsFinalIff | packages/platform/jobs.py:193-258 | a cancel is final over every later run of statements exactly when nobody owned the job and no unfinished fail_retry had read it |
| RetryOverlap.WriteStillOwnedIff | packages/platform/jobs.py:211-252 | whatever others commit with clocks up to a time, the update finds the row its own exactly when that time is no later than the row's expiry (or the row is cancelled) and no other fail_retry on the row is unfinished |
| RetryOverlap.TimelyRunsAreSafe | packages/platform/jobs.py:208-252 | where no claim passes the expiry an unfinished fail_retry has read, every job changes hands safely, `attempt` counts the failures, and terminal jobs stay dead |
| RetryOverlap.LateWriteStealsALease | packages/platform/jobs.py:226-238 | a run in which a worker loses an unexpired lease it did not release and the job is claimable again |
| RetryOverlap.LateWriteRevivesAJob | packages/platform/jobs.py:226-238 | a run in which a completed job is claimable again |
| RetryOverlap.LateWriteLosesAFailure | packages/platform/jobs.py:224-238 | a run in which two failures are recorded as one |
| WorkerProtocol.StepGood | apps/worker/main.py:69-147 | every read, commit, crash, exception and statement of fail_retry of any worker keeps a job's outbox pages equal to 1..checkpoint.page, and what each lease holder has read or done equal to the row |
| WorkerProtocol.NoStaleCommit | apps/worker/main.py:73-77 | in any run, a page transaction that commits does so on the very checkpoint it read, though the read takes no lock |
| WorkerProtocol.ExactlyOnce | apps/worker/example_job.py:19-38 | over any interleaving with crashes, expiry, reclaim and retries, late updates of fail_retry included, the committed events of a paged job are pages 1..checkpoint.page in order, each once; a completed job has max(1, total_pages) of them |
| WorkerLoop.Database.CommitPage | apps/worker/main.py:76-78 | the outbox row and the checkpoint commit together, or the lease was lost and neither does |
| WorkerLoop.PagedLoop | apps/worker/main.py:71-78 | with others' transactions in between, the loop ends, is a legal run of the protocol, and leaves either an exception or a finished job; while the worker leads the job undisturbed it raises exactly when an exception strikes one of the transactions of the missing pages |
| WorkerLoop.CheckBranch | apps/worker/main.py:88-112 | the worker's own transactions are one heartbeat per beat and the final checkpoint, any of which may find the lease gone or be preceded by an exception; while it leads the job undisturbed it raises exactly when one strikes |
| WorkerLoop.HandleException | apps/worker/main.py:119-136 | the handler never raises and the worker is free again; a worker that still leads the job gives it back with the attempt one higher, to the queue after the backoff or as failed |
| WorkerLoop.ProcessClaimedJob | apps/worker/main.py:62-136 | processing ends, is a legal run, keeps the exactly-once invariant and frees the worker; while the worker leads the job and nobody claims or cancels it, the job ends completed, a paged one with all its pages in the outbox, exactly when no exception strikes its transactions, and otherwise is given back with the attempt one higher |
| WorkerLoop.RunOnce | apps/worker/main.py:139-147 | one job is processed exactly when an unlocked claimable row exists: the oldest such row, which then ends completed or given back as in `ProcessClaimedJob`; nothing changes otherwise |
| BomImport.BoqImport.RecordPageFetched | packages/tender/boq_completeness.py:88-147 | the new ledger row: both counters up, the checksum of the page, and the status `source_exhausted_unverified` exactly when a total is missing, `complete` exactly when both totals are met |
| BomImport.BoqImport.StoreBoqLines | packages/tender/boq_lines_store.py:20-63 | all lines are inserted, or one is stored already or repeated and the insert raises |
| BomImport.BoqImport.ProcessBomLinesPage | packages/tender/bom_lines_job.py:52-118 | a failed fetch or a refused line raises and changes nothing; drift quarantines the page and skips it; a page is versioned, counted, stored and passed; the cursor is done exactly when the response reported no more pages than the one just passed |
| BomImport.RunReconciles | packages/tender/bom_lines_job.py:52-118 | at any point of a job on a fresh row, each page before the cursor was accepted or quarantined, exactly once, in order, and the ledger counts exactly the accepted ones |
| BomImport.CompleteMeansComplete | packages/tender/boq_completeness.py:103-114 | the status is `complete` exactly when every page 1..T has its checksum and the claimed lines sum to N |
| BomImport.LastPageDecides | packages/tender/boq_completeness.py:103-114 | over any responses, whatever they report: the status is unverified exactly when the last accepted page left out a total, and complete exactly when it reported both and the accepted pages and claimed lines meet them |
| BomImport.NothingAccepted | packages/tender/boq_completeness.py:61-84 | without an accepted page the row is as it was created |
| BomImport.StallNeedsTotals | packages/tender/boq_completeness.py:167-175 | giving up makes the import incomplete exactly when its last accepted page reported both totals and it is not complete |
| BomImport.BoqImport.MarkImportStalled | packages/tender/boq_completeness.py:159-196 | the row after stalling, untouched where it is complete, unverified or has no expected pages |
| BomImport.StallListsTheMissing | packages/tender/boq_completeness.py:172-196 | stopping short lists, in order, exactly the pages that drifted or were never reached, and they and the fetched pages make T |
| BomImport.StallNeedsAPage | packages/tender/boq_completeness.py:172-196 | with T below one nothing is missing and the accounting identity fails |
| BomJobs.CompleteRows | packages/tender/bom_lines_job.py:88-107 | over any jobs on the row that lost no update, when no page carries more lines than it claims: a complete import holds N lines exactly when every accepted page carries all it claims |
| BomImport.CompleteWithARowShort | packages/tender/bom_lines_job.py:88-107 | a complete import with one line fewer than the reported total |
| BomJobs.CompleteAcrossJobsIff | packages/tender/boq_completeness.py:103-114 | for any number of interleaved or overlapping jobs on one row: when it is complete, every page 1..T has its checksum exactly when `fetched_pages` equals the number of checksums |
| BomJobs.CountsAgreeIff | packages/tender/boq_completeness.py:103-107 | those two counts agree exactly when no two surviving updates are of the same page |
| BomJobs.NothingLostIff | packages/tender/boq_completeness.py:103-147 | all along a run the ledger counts every accepted version exactly when each commit still finds the ledger it read |
| BomJobs.CountsAgreeWhenNothingLost | packages/tender/boq_completeness.py:103-107 | and then the two counts agree exactly when no page was accepted twice |
| BomJobs.OverlapLosesAnUpdate | packages/tender/boq_completeness.py:103-147 | two overlapping transactions of one page: six lines stored, three counted, and the counts agree |
| BomJobs.LinesKeepJobsHonest | migrations/0007_boq_lines.sql:29-29 | no line is stored twice; so while a page fetched again keeps one of its lines, `complete` means complete for any number of jobs, overlapping or not |
| BomJobs.SecondJobCountsAgain | packages/tender/boq_completeness.py:103-107 | a second job, after the source replaced the lines of page 1, makes the row complete with page 2 missing |
| Migrations.MigrationRunner.CurrentVersion | packages/platform/migrations_runner.py:102-121 | the greatest version whose two checks did not fail, none exactly when there is no such row |
| Migrations.MigrationRunner.Pending | packages/platform/migrations_runner.py:123-145 | raises exactly when a recorded file was edited, naming the first; else lists exactly the unrecorded files in order |
| Migrations.MigrationRunner.ApplyAll | packages/platform/migrations_runner.py:147-216 | a mismatch changes nothing; else the pending files are tried in order up to the first failure, with the ledger and the SQL of each as its hooks and SQL decide, a failure after the commit included |
| Migrations.CallReports | packages/platform/migrations_runner.py:147-216 | a call puts the pending migrations through in order up to the first whose hooks or SQL do not let it; it returns exactly their versions when all go through, and otherwise names the one it stopped at, with the ledger row and the commit that tell how far it got |
| Migrations.NotBootstrapPicked | packages/platform/migrations_runner.py:123-145 | the files considered are exactly the discovered ones but the bootstrap, in order |
| Migrations.UnrecordedPicked | packages/platform/migrations_runner.py:123-145 | pending are exactly those without a row or with a failed preflight, in order |
| Migrations.ExecutedIsPrefix | packages/platform/migrations_runner.py:147-216 | after any calls on files that are only appended to, the executed migrations are a prefix of the discovered ones, each once, and exactly those whose row says preflight passed |
| Migrations.NoMismatch | packages/platform/migrations_runner.py:136-145 | such calls never meet a checksum mismatch |
| Migrations.SecondCallIsNoOp | packages/platform/migrations_runner.py:123-145 | a call after a normal return applies nothing and changes nothing |
| Migrations.CurrentIsEndIff | packages/platform/migrations_runner.py:116-118 | `current_version` is the end of the executed prefix exactly when the last executed migration passed its postflight |
| Migrations.CurrentIsLastExecuted | packages/platform/migrations_runner.py:116-118 | if no postflight ever fails, `current_version` is the last executed migration after any calls |
| Migrations.HaltedIff | packages/platform/migrations_runner.py:123-145 | no hooks and SQL can make the next call commit anything exactly when every discovered migration has been committed |
| Migrations.PostflightFailureHaltsIff | packages/platform/migrations_runner.py:186-212 | after any calls, a failed postflight halts the runner exactly when it was that of the last file |
| Migrations.PostflightFailureDoesNotHalt | packages/platform/migrations_runner.py:186-212 | two calls in which the second moves past a failed postflight |
| Matching.StrongVendorDelivers | packages/decision/matching.py:130-196 | a vendor is a strong source exactly when one of its offers could be delivered in full: material, unit, stock, validity, claim and no adverse case |
| Matching.LightMeaning | packages/decision/matching.py:199-206 | red exactly when every source is insufficient; green exactly with two strong vendors and a strong candidate of positive reputation, whatever the order |
| Matching.GreenMeansDeliverable | packages/decision/matching.py:224-233 | the green light in terms of the offers alone |
| RankingMeaning.RedMeansShort | packages/decision/matching.py:224-233 | the red light in terms of the offers alone: every offer of the material merely lacks stock |
| RankingMeaning.CandidatesListed | packages/decision/matching.py:120-196 | the candidates are exactly the offers with the line's material, in their order, each telling its volume status, freshness, minimum quantity and its net price with the VAT percentage on top |
| Matching.MoreOffersNeverLowerTheLight | packages/decision/matching.py:199-233 | with reputation a function of the vendor, more offers never lower a line's light |
| Matching.OfferLowersIff | packages/decision/matching.py:199-233 | one more offer lowers a line's light exactly when the line was green, the offer could be delivered in full without positive reputation, and no other vendor's last such offer has it |
| Matching.CandidateLowersIff | packages/decision/matching.py:199-206 | the same for one more candidate and the last strong candidate of each vendor |
| Matching.ConflictingReputationLowersTheLight | packages/decision/matching.py:203-205 | three offers of which the last turns the line from green to yellow |
| Matching.ReferenceCurrency | packages/decision/matching.py:215-218 | the plurality currency, ties to the smallest code |
| Matching.SortIsStable | packages/decision/matching.py:220-220 | the sort is a price-ordered permutation that keeps the order of equal prices |
| Matching.RankExecutableByTco | packages/decision/matching.py:209-221 | counting currencies in a dictionary and taking the minimum gives the specified ranking |
| Matching.RankingIs | packages/decision/matching.py:209-221 | the ranking is the price-sorted, stable permutation of the strong candidates in the reference currency, and is non-empty exactly when a strong one exists |
| RankingMeaning.RankingOfOffers | packages/decision/matching.py:209-221 | the ranking lists exactly the offers that could be delivered in full in the currency most of them have, ties to the smallest code, by gross price and then in the order of the offers |
| BidReadiness.SummarizeBoqMatches | packages/decision/boq_summary.py:41-77 | raises exactly when a normal line has no match; else the amounts and counts of the lines by light and kind |
| BidReadiness.MoneyIsConserved | packages/decision/boq_summary.py:57-59 | the three amounts sum to the money of all priced normal lines |
| BidReadiness.CoverageIs | packages/decision/boq_summary.py:59-77 | green and yellow percentages add up to the covered share of the priced money |
| SummaryMeaning.SummaryIs | packages/decision/boq_summary.py:41-77 | each amount is the money of exactly the lines that show its light; the percentages are their shares of the total, none without a total; the counts are those of the unpriced and of the other lines, and the other money is the rest of all money |
| SummaryMeaning.LotteryMeaning | packages/decision/bid_readiness.py:76-84 | a bid is a lottery without priced money, and otherwise exactly when the covered money is short of 85 hundredths of it |
| BidReadiness.CriticalMeaning | packages/decision/bid_readiness.py:51-65 | a line is critical exactly when one vendor is its only strong source, and that vendor is named |
| SummaryMeaning.CriticalListed | packages/decision/bid_readiness.py:51-65 | the critical lines are exactly those with a sole strong vendor, in the order of the matches, each naming its first strong source |
| SummaryMeaning.OrderOfKeys | packages/decision/bid_readiness.py:76-76 | the matches stand in the order in which the ids of normal lines first come up |
| SummaryMeaning.LastLineMatches | packages/decision/bid_readiness.py:76-76 | the match of an id is that of the last normal line with it |
| BidReadiness.CriticalLinesAreYellow | packages/decision/bid_readiness.py:51-65 | every critical line is yellow |
| BidReadiness.BuildBidReadiness | packages/decision/bid_readiness.py:68-85 | never raises; lottery exactly below 85 percent of covered money; critical lines in the order of the matches |
| BidReadiness.OrderFree | packages/decision/bid_readiness.py:76-84 | reordering or repeating offers changes no light and no critical pair of line and vendor |
| BidReadiness.MoreOffersNeverHurt | packages/decision/bid_readiness.py:76-84 | more offers never lower a light or the covered money, leave the total alone, and never turn a bid into a lottery |
| ShadowComparison.IndexById | packages/tender/shadow_comparison.py:125-134 | the index of first records and the list of further ids |
| ShadowComparison.IndexHoldsFirst | packages/tender/shadow_comparison.py:125-134 | the index holds the first record of every id that occurs |
| ShadowComparison.IndexConserves | packages/tender/shadow_comparison.py:125-134 | each record is indexed or counted as a duplicate |
| ShadowComparison.CompareSnapshots | packages/tender/shadow_comparison.py:264-447 | raises exactly when some id has a status or a shared detail that differs, is not an expected difference, and has a naive timestamp on one side and a zoned one on the other; else the report holds the discrepancies that `ReportedIff` and `ReportedInOrder` describe, the counts of both sides, and for each bucket the number of its discrepancies |
| DiscrepancyMeaning.ReportedIff | packages/tender/shadow_comparison.py:146-429 | for every id a discrepancy is reported exactly when the first records differ as it says, in kind, field and both shown values, and with the bucket, one of four or none, for which records and evidence meet the stated condition |
| DiscrepancyMeaning.ReportedInOrder | packages/tender/shadow_comparison.py:285-429 | missing from v2, missing from v1, then the shared ids; ids and fields sorted; of one record status, shared, v1-only and v2-only details, bill; nothing twice |
| ShadowComparison.ReportIsComplete | packages/tender/shadow_comparison.py:288-429 | there is no discrepancy exactly when the ids match and the first records of each id agree on status, details, BOQ presence and completeness |
| ShadowComparison.RecordsAreConserved | packages/tender/shadow_comparison.py:279-316 | each side's count is matched plus missing on the other side plus duplicates |
| ShadowComparison.BucketsAddUp | packages/tender/shadow_comparison.py:431-437 | the five counts add up to the number of discrepancies |
| ShadowComparison.MoreEvidenceNeverConfuses | packages/tender/shadow_comparison.py:154-228 | supplying evidence where there was none keeps the sequence of discrepancies, keeps the resolved ones resolved, never raises the unresolved count, and scope sets change only unresolved ones |
| ShadowComparison.MoreEvidenceNeverRaises | packages/tender/shadow_comparison.py:146-216 | supplying evidence never makes the comparison raise, and it never raises where there is nothing to report |
| PolicyStore.Store.TransitionVersionStatus | packages/algorithm/policy_store.py:260-284 | status and log move together along an allowed edge, or it raises and neither moves |
| PolicyStore.Store.ActivateVersion | packages/algorithm/policy_store.py:352-398 | the two-person test for financial impact, then the graph's other active version is suspended, then this one is activated |
| PolicyStore.Store.KillSwitchVersion | packages/algorithm/policy_store.py:401-414 | suspends an active version given a reason; every other input raises without a write |
| PolicyStore.Store.SubmitVersion | packages/algorithm/policy_store.py:331-349 | approves only a valid graph whose roles exist, with an approved dossier where there is financial impact, and along an allowed edge; nothing is written otherwise |
| PolicyStore.GateFindsIssues | packages/algorithm/policy_store.py:287-345 | the four checks find something exactly when the graph is not valid, a required role does not exist, or financial impact has no approved dossier |
| PolicyStore.Store.AddNodesTo | packages/algorithm/policy_store.py:126-174 | a list whose first item is for an approved or active version is refused, and so is a taken key or an unknown version; else every item is inserted for its own version |
| PolicyStore.ContentGrows | packages/algorithm/policy_store.py:118-196 | adding content loses none, touches no status and no log, and with a list for one version leaves approved and active content alone |
| PolicyStore.SupersededClearsTheWay | packages/algorithm/policy_store.py:381-394 | after the courtesy suspension the unique index cannot be violated |
| PolicyStore.ActivateRaisesOnly | packages/algorithm/policy_store.py:352-398 | activation succeeds exactly for an approved or suspended version whose nodes have no financial impact or is activated by another person than its author |
| PolicyStore.ActivationDoes | packages/algorithm/policy_store.py:381-398 | an activation that commits makes the version active, suspends the one version of its graph that was, touches no other, and logs just these moves |
| PolicyStore.RunKeepsOneActive | packages/algorithm/policy_store.py:381-398 | over any operations, no graph has two active versions |
| PolicyStore.LogIsHistory | packages/algorithm/policy_store.py:266-284 | over any whole operations: replaying a version's log from `draft` follows allowed edges, each entry from the status the last one left, and ends in its current status |
| PolicyStore.EverActive | packages/algorithm/policy_lifecycle.py:23-37 | over any whole operations: an ever-active version passed simulation, business review, risk review and approval once each, in order, and was never rejected |
| PolicyStore.TerminalIsLast | packages/algorithm/policy_lifecycle.py:31-32 | over any whole operations: a rejected or retired version has no later entry |
| PolicyGates.ApprovalIff | packages/algorithm/policy_store.py:331-349 | a version becomes approved exactly by the gate with clean content or by a bare transition, from risk review |
| PolicyGates.ApprovedThroughGate | packages/algorithm/policy_store.py:331-349 | over any run without a bare approval, a version approved, active, suspended or retired passed the gate with a valid graph and kept it; while in use its content is what the gate saw exactly unless something was added while in use |
| PolicyGates.GatedChecks | packages/algorithm/policy_store.py:287-345 | the gate that approved a version found a valid graph, existing roles, and an approved dossier where a node has financial impact |
| PolicyGates.GrowsOnlySuspended | packages/algorithm/policy_store.py:118-123 | where every list of items is for one version, something is added while in use exactly when something is added while suspended |
| PolicyGates.ActiveIsClean | packages/algorithm/policy_store.py:331-398 | over any run without a bare approval, an active version is valid unless something was added while it was in use |
| PolicyGates.GrownRun | packages/algorithm/policy_store.py:118-196 | a run through the gate that ends with an active version and a dangling edge |
| PolicyGates.FrozenContentIff | packages/algorithm/policy_store.py:126-130 | approved or active content changes exactly when an accepted list holds an item for the version, which needs a list for several versions |
| PolicyGates.MixedListReaches | packages/algorithm/policy_store.py:177-181 | a list for a draft and then an active version puts an edge into the active one |
| PolicyGates.SelfActivationIff | packages/algorithm/policy_store.py:374-379 | a version with financial impact comes to be activated by its own author exactly by a bare transition, or when a list for several versions brings the impact into the version it had activated |
| PolicyGates.TwoPersons | packages/algorithm/policy_store.py:374-398 | over any run without bare activations of the version, it is not active with financial impact by its author's hand, unless the impact came while it was active; that never happens where every list is for one version |
| PolicyGates.UngatedRun | apps/api_tender/routers/algoritm.py:349-363 | a run of bare transitions to an active version that was never validated and was activated by the author of its financial impact |
| PolicyOverlap.OverlapKeepsOneActive | packages/algorithm/policy_store.py:381-398 | however transactions overlap, no graph has two active versions |
| PolicyOverlap.SerialWhenFresh | packages/algorithm/policy_store.py:260-284 | a run whose transactions all end on what they have read leaves the tables of the same operations run whole, in the order of their commits |
| PolicyOverlap.LogReplaysIff | packages/algorithm/policy_store.py:260-284 | all along a run of overlapping transactions every version's log replays exactly when each update still finds the status it read |
| PolicyOverlap.HistoriesSurvive | packages/algorithm/policy_lifecycle.py:23-37 | and then an ever-active version passed every review once and in order, and nothing follows a rejection or retirement |
| PolicyOverlap.ApprovedAndRejected | packages/algorithm/policy_store.py:263-284 | two overlapping decisions after which the log no longer replays |
| PolicyOverlap.LateContentIff | packages/algorithm/policy_store.py:118-174 | with lists for one version, content frozen by now changes exactly when the guard of a list for it was read while it could still change |
| PolicyOverlap.LateContent | packages/algorithm/policy_store.py:118-123 | an overlapping insert after which a version approved through the gate is not valid |

## Left out

- SQL text, drivers, JSON columns, HTTP routes, user interface, scripts, logging: I/O around the modelled logic.
- Messages and reason texts of findings and discrepancies: only codes, keys, fields, values and buckets are kept.
- `run_simulation`, `compare_versions` and the run aggregates: concatenations and maps over the modelled functions.
- The recursion depth limit of Python inside `strongconnect`.
- Boolean `max_attempts` values, which Python counts as integers, are the integers 0 and 1.
- Jobs.JobStore.ClaimJob: among equally old claimable rows any may be taken, as SQL leaves it open; rows locked by other transactions are a parameter.
- Job identity, `last_error`, outbox publishing, dead-letter listing: carried along, never decided on.
- `fail_retry` under one worker id: a worker inside it makes no other call, as one process runs one job at a time.
- `run_forever`, `enqueue_due_tender_checks` and the body of the tender check: a check job is its heartbeats, its final checkpoint and a possible exception before each of them and before the completion.
- WorkerLoop.ProcessClaimedJob: the "vanished" assertions cannot fire, since the store never deletes a row.
- BomImport.BoqImport.ProcessBomLinesPage: raw snapshots, normalized contents and the line parser are reduced to the page, the claimed count and the line ids; a response that raises for another reason, such as a missing count, counts as a failed fetch.
- BomImport.RunReconciles: assumes one reported page and item total for the whole job, on a fresh ledger row; the results on several jobs assume it for all of them.
- The first page of a bill inserts the ledger row: the ledger is given as an empty row, so losing the race to insert it is an aborted page. A page transaction reads the ledger when it begins.
- `discover`: the directory listing is a parameter; the prefix theorem assumes it is in version order, as zero-padded names give.
- Migrations.MigrationRunner.ApplyAll: what the SQL does to the schema is reduced to whether it committed.
- `canonicalize_unit`: a unit is already canonical or unmapped; materials and descriptions are already stripped and lower-cased.
- Realm, watermark, raw executable status and negative reputation of a candidate, and the fixed status of the price estimate: carried along, never decided on.
- BidReadiness.BuildBidReadiness: percentages are exact reals; rounding of binary floats at the 85 percent line is not modelled.
- ShadowComparison.CompareSnapshots: one loop over the three id lists in turn stands for the three loops; which text parses as a timestamp is a parameter.
- `fork_new_draft_version`, reading functions and version numbers: a fork is a draft followed by added content.
- In `PolicyOverlap` a transaction takes all its reads together, before any of its writes; creating a draft is one step.
- PolicyStore.Store.AddNodesTo: after an exception it leaves the items written so far to the caller's rollback.
- PolicyStore.Store.ActivateVersion: after an exception it leaves the tables to the caller's rollback, which `ActivateInTransaction` performs.

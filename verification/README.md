# Verified model of the media platform's backend logic

A Dafny model of the parts of the Django backend whose behaviour is decided by
state, ordering and arithmetic rather than by plumbing, with proofs of what
those parts promise. `dafny verify dfyconfig.toml` checks all of it.

| module | models |
|---|---|
| `GenerationOutputs` | the request for generation outputs, and the steps it skips |
| `WorkflowEngine`, `WorkflowRuns`, `SideCommits`, `RunOutcomes`, `CommitMemory`, `PauseTransparency`, `ApprovalTransparency` | the agent's resumable step machine and its approval gate; what every history of a run keeps; what commits beside the steps change; what became of every executed step; which commits a run remembers; when pausing for a confirmation or an approval is invisible |
| `JsonExtract` | the bracket scanner that finds a JSON block in a model's answer, against a syntax tree and printer of RFC 8259 (sections 2 to 7) |
| `Graphs`, `CycleSearch`, `TreeValidator`, `TreeCommit` | the decision-tree validator, its depth-first search, and the transaction that stores a tree |
| `TriggerService` | rate limit, deduplication and conditions of workflow triggers |
| `LoginSecurity`, `LoginHistories`, `LoginThresholds` | expiring counters, backoff and lockout of the login, over timed histories; how many attempts it takes to meet them |
| `BoardText`, `BoardColumns`, `BoardLayout`, `BoardGeometry` | the in-place layout of a board's frames; where things then stand, in numbers |
| `AssetLifecycle`, `AssetHistories`, `ScanHistories` | asset review, versions and the audit log; virus scans that run while versions change |
| `ColumnRegistry`, `SpreadsheetNormalizer` | column detection with learned templates, and the renaming of spreadsheet columns |
| `StepReorder`, `TenantBackfill` | two-phase reordering under a uniqueness constraint; copying rows into tenant schemas |

What the source changes in place is a class whose methods are proved against
functions of the old state; the theorems are about those functions, over every
input and every history. Executors, model answers, scan verdicts and query
results are arbitrary parameters.

## Where the code and its promises part

All but the last two of these are theorems: the exact condition, and inputs at
which the promise fails. One promise that looks as if it could fail does not: two
rows wanted under one slug would make a dry run of the backfill announce more than
the real run copies, but public slugs are unique, so its report is always exact.

- Pausing a workflow is invisible exactly when every executor hands on the
  `generation_outputs` entry; `call_llm` does not, so after a pause behind it
  everything counts as requested.
- Waiting for an approval is invisible exactly when the executor adds nothing to
  the commit's output and that output carries the run's request. It is for
  boards and custom calls. For tasks and decisions it is not: a run that commits
  at once hands on the created ids, an approved run does not. The two differ in
  nothing else if no executor looks at the ids.
- Side effects are also committed beside the steps: decisions and tasks from the
  stored analysis, messages forwarded from the chat, a board generated on
  request. The order of the steps and one commit per approval survive all of
  them. A completed run has handled its steps exactly as long as tasks are not
  committed at once while steps are left. A run waits for its pending records
  exactly as long as none is parked beside the steps, tasks are not committed
  at once while it waits, and no board is generated while a step waits for one.
  In the last case no request but an unguarded resume ever executes a step of
  the run again.
- The guard against creating the tasks of an analysis twice holds exactly when
  they need no approval; an approval beside the steps leaves no mark on the run.
- `confirm_columns` and the fallbacks of `create_decisions` and `create_tasks`
  resume a run whatever its status. Steps stay in order exactly when the first
  step to execute lies beyond the last one executed; a completed run repeats
  its steps.
- The JSON extractor is documented to return the first complete block of either
  kind. It tries objects first, so an array of objects yields its first object;
  an array is returned exactly when no object block is found.
- A validated decision tree is stored exactly when no node lists a parent twice;
  otherwise the edge table's unique constraint rolls everything back.
- The trigger limit of 100 per window allows 199 starts in some half-open hour,
  and never 200. Deduplication remembers one context: a check
  passes exactly when every passed check of its context in the last five minutes
  has been followed by one of another context, so checks whose neighbours differ
  all pass, at any pace.
- The `retry_after_seconds` of a lockout is truncated: waiting it out is enough
  exactly when a whole number of seconds was left. That of a backoff always is.
- Matching headers against the template learned from them gives the detection
  back exactly when no header is shadowed, that is, claimed through the
  canonical name of a later column.
- Renaming columns and renaming back restores a spreadsheet exactly when no
  column that is itself called "unknown" was renamed.
- Reordering succeeds exactly when the ids are distinct active steps and no
  unlisted active step holds one of the orders 1..n.
- A public row that the backfill calls already copied has a copy in its schema
  exactly when the copy was there before or its slug was free. A row made in the
  schema itself under the slug keeps the public row out for good.
- A clean mark means that a scan of the version's present content answered
  clean exactly as long as no clean verdict is recorded on content other than the
  scan has read. A scan marks the copy of the version it loaded, so nothing
  checks this: content uploaded while a scan is running gets that scan's verdict
  and can be finalized without ever having been scanned.
- Finalized versions stay clean exactly as long as no other verdict is recorded
  on one. A scan overtaken by an upload and a second scan can do that, even in a
  review. If no version gets new content and no scan is given up while the
  version is being scanned, every finalized version was found clean by a scan of
  its present content, and a review leaves its marks alone.
- The comments at `backend/asset/models.py:396` and `556` say that a clean scan
  is no longer required to finalize a version. The code requires it, and so
  does the model.
- `cleanup_failed_scans` filters on a field `updated_at` that a version does not
  have. The result of the query is therefore a parameter of the model.

## Model

| member | source | states |
|---|---|---|
| GenerationOutputs.NormalizeGenerationOutputs | backend/agent/generation_registry.py:112-139 | the parser agrees with the specification on every value, including which error is raised first |
| GenerationOutputs.NormalizedSelects | backend/agent/generation_registry.py:124-139 | an array is accepted exactly when it is non-empty and holds only allowed keys; the result has each selected key once |
| GenerationOutputs.NormalizedWellFormed | backend/agent/generation_registry.py:112-139 | every accepted request, from any form, is a non-empty repetition-free list of allowed keys |
| GenerationOutputs.NormalizedIdempotent | backend/agent/generation_registry.py:112-139 | normalising the stored form of a request again gives the same request |
| GenerationOutputs.SkipsSeparateRequests | backend/agent/generation_registry.py:411-418 | two different requests always skip different step types |
| GenerationOutputs.SkippedExactlyWhen | backend/agent/generation_registry.py:411-418 | tasks are skipped exactly if the list does not name the tasks, decisions if not the tree, the board steps if not the board, and nothing else ever |
| GenerationOutputs.NothingSkippedUnasked | backend/agent/generation_registry.py:112-118 | without a request no step type is skipped |
| WorkflowEngine.From | backend/agent/services.py:2250-2252 | the first step whose order is at least the current one |
| WorkflowEngine.LastSucceeded | backend/agent/services.py:2448-2450 | the completed execution of highest order, if there is one |
| WorkflowEngine.WorkflowRun.Start | backend/agent/services.py:2155-2181 | a new run is the empty history on its data; an invalid request leaves nothing behind |
| WorkflowEngine.WorkflowRun.Run | backend/agent/services.py:2244-2277 | executing a run reaches the state of the step-by-step specification |
| WorkflowEngine.WorkflowRun.RunFrom | backend/agent/services.py:2279-2398 | the loop over the steps is the recursive execution of the specification, halting where it halts |
| WorkflowEngine.WorkflowRun.RunStep | backend/agent/services.py:2280-2388 | one turn of the loop: log row, progress, status, position, data and approvals in every outcome |
| WorkflowEngine.WorkflowRun.RequestExternalCommit | backend/agent/approval_gate.py:410-485 | with approval required nothing is committed and one pending record is made, for the step's execution or for none; otherwise the commit happens at once |
| WorkflowEngine.WorkflowRun.CommitStep | backend/agent/executors.py:335-362 | a step's executor waits for its approval, fails with its commit, or records the result and hands on the commit's output with its own additions |
| WorkflowEngine.WorkflowRun.RecordOutcome | backend/agent/services.py:2315-2388 | what a turn writes for each outcome of its executor |
| WorkflowEngine.WorkflowRun.ResumeWorkflow | backend/agent/services.py:1108-1126 | the resume is guarded by status and starts from the stored output merged with the user's values |
| WorkflowEngine.WorkflowRun.ResumeUnguarded | backend/agent/services.py:1079-1143 | the fallbacks resume a run in any status |
| WorkflowEngine.WorkflowRun.ResolveExternalApproval | backend/agent/services.py:945-1022 | approving commits once and continues after the step if the record is one of a step, rejecting fails the run, and decided or unknown records change nothing |
| WorkflowEngine.WorkflowRun.ResolvePending | backend/agent/approval_gate.py:488-543 | only a pending record is resolved, by a rejection or by a commit that does not raise |
| WorkflowEngine.WorkflowRun.ContinueRun | backend/agent/services.py:996-1022 | the approved step is completed with what the commit returned, and the run continues behind it on that; a record of no step continues nothing and is not put on the run |
| WorkflowEngine.WorkflowRun.HandleCreateDecisions | backend/agent/services.py:1068-1087 | decisions are made from the analysis unless the run has some; an analysis without nodes resumes the run |
| WorkflowEngine.WorkflowRun.HandleCreateTasks | backend/agent/services.py:1993-2067 | tasks are made from a cleared analysis unless the run has some, and committing them at once completes the run; an analysis without tasks resumes it |
| WorkflowEngine.WorkflowRun.HandleForward | backend/agent/services.py:2574-2585 | the chat of a paused run forwards through the gate, in a record of no step |
| WorkflowEngine.WorkflowRun.HandleGenerateBoard | backend/agent/services.py:747-793 | a board on request is made once, and approves every record that waits for one |
| WorkflowRuns.TurnTurns | backend/agent/services.py:2279-2388 | every turn handles exactly its step, adds at most one log row for it and keeps the commit ledger balanced |
| WorkflowRuns.ExecuteKeeps | backend/agent/services.py:2244-2398 | executing from a sound position reaches a sound run at rest, for every executor |
| WorkflowRuns.StoredIsConfirmation | backend/agent/services.py:2448-2452 | in a run awaiting confirmation the highest completed execution is the confirmation step itself |
| WorkflowRuns.DataFlows | backend/agent/services.py:2258-2358 | between two pauses every step is run on exactly what the step run before it left: its output, or its input if the output is missing or empty |
| WorkflowRuns.PendingIsLast | backend/agent/approval_gate.py:456-466 | a step's pending record is the only one, belongs to the last execution, which awaits it, and the run waits, is completed or has failed |
| WorkflowRuns.HistoryKeeps | backend/agent/services.py:945-1148 | the invariant holds after any sequence of guarded resumes, approvals, rejections, changes of the approval setting and commits beside the steps |
| WorkflowRuns.EveryStepOnceInOrder | backend/agent/services.py:2250-2398 | in every such history log orders strictly increase and match the steps that were run, and steps are run or skipped in order without a gap |
| WorkflowRuns.OneCommitPerApproval | backend/agent/approval_gate.py:488-543 | in every such history a record's side effect has been committed once if approved and never otherwise, and at most one step's record is pending, that of the last execution |
| WorkflowRuns.ApplyExtends | backend/agent/approval_gate.py:505-543 | one request only extends the records, and with approval required it commits only what it approves or a board it generates |
| WorkflowRuns.DecisionsAreFinal | backend/agent/approval_gate.py:505-506 | no continuation changes a decided record, takes back a commit or rewrites a log row's step and input |
| WorkflowRuns.NoCommitWithoutApproval | backend/agent/approval_gate.py:410-485 | with approval required throughout, every commit of a history belongs to a record that the history approved, or is a board that was asked for by name |
| SideCommits.RequestCompletes | backend/agent/services.py:2062-2067 | of all requests only tasks committed from the analysis complete a run that has steps to handle |
| SideCommits.CompletedIsHandledExactlyWhen | backend/agent/services.py:2062-2067 | throughout a history a completed run has handled every step of order at least 1 once, if and only if tasks are never committed at once from the analysis of a run with steps left |
| SideCommits.CompletedTooSoon | backend/agent/services.py:1088-1098 | a run paused before its second step that creating the tasks completes |
| SideCommits.RequestWaits | backend/agent/approval_gate.py:456-466 | where a run waits for each of its pending records, a request keeps that unless it disturbs it, and then it does not |
| SideCommits.WaitedExactlyWhen | backend/agent/services.py:1947-2067 | throughout a history a run waits for an approval exactly while the record of its last execution, and no other, is pending, if and only if no request parks a record beside the steps, ends a waiting run or settles its record by a board |
| SideCommits.TwoTasksPending | backend/agent/services.py:2049-2060 | asking twice for the tasks leaves two pending records that no step waits for |
| SideCommits.NothingRunsAgain | backend/agent/services.py:945-1148 | a run that is at no confirmation and has no step's record pending executes and skips nothing any more, whatever is requested short of an unguarded resume |
| SideCommits.StuckRun | backend/agent/services.py:787-791 | a run whose board is generated on request while its step awaits the approval: nothing is pending, and no request short of an unguarded resume gets it on |
| SideCommits.OnceBeside | backend/agent/services.py:1951-2008 | without approvals, tasks, decisions and the board are made beside the steps at most once in any history |
| SideCommits.TasksRememberedExactlyWhen | backend/agent/services.py:996-1008 | once tasks were committed from the analysis they are on the run's record, and not committed again, if and only if they needed no approval |
| SideCommits.RejectionFails | backend/agent/services.py:984-993 | rejecting any pending record fails the run, even one that no step waits for, and commits nothing |
| SideCommits.DecidedExactlyWhen | backend/agent/approval_gate.py:488-543 | a pending record is approved by its own approval or, if it waits for a board, by a board on request, rejected by its own rejection, and left pending by every other request |
| SideCommits.UnclearedChangeNothing | backend/agent/services.py:2013-2033 | requests for tasks while anomalies are unreviewed, or all excluded, can be left out of every history |
| RunOutcomes.RowsTellOutcomes | backend/agent/services.py:2315-2388 | over every history a row is skipped if and only if its executor gave up on its input, has failed if and only if the executor failed, its direct commit raised or its record was rejected, and is completed with the output whenever the executor was done |
| RunOutcomes.FailureIsTheEnd | backend/agent/services.py:2377-2388 | a failed row is the last one, its run has failed, and no later request runs or skips a step |
| RunOutcomes.GivingUpGoesOn | backend/agent/services.py:2352-2376 | behind a step that gave up the next step has been run or skipped |
| RunOutcomes.FailureHalts | backend/agent/services.py:2352-2388 | a failing step halts the loop and fails the run, one that gives up hands its input on |
| RunOutcomes.OneFailure | backend/agent/services.py:2377-2388 | a run whose only step fails ends failed with one failed row |
| CommitMemory.MadeExactlyWhen | backend/agent/services.py:1000-1013 | over every history tasks, decisions or a board are on the run's record if and only if a step committed them, at once or approved, or they were made beside the steps without an approval |
| CommitMemory.NotMadeAgain | backend/agent/services.py:1951-2008 | so what a step has made is not made again on request |
| PauseTransparency.TurnsAgree | backend/agent/services.py:2334-2358 | a turn with and without the user's input in hand differs only at a confirmation, where one pauses and the other goes on |
| PauseTransparency.ResumeContinues | backend/agent/services.py:2442-2455 | resuming a run paused at a confirmation continues behind it, on the confirmation's data and the user's |
| PauseTransparency.PausesPassThrough | backend/agent/services.py:2244-2455 | pausing and resuming at each confirmation ends like one uninterrupted pass, from every reachable position |
| PauseTransparency.TransparentExactlyWhenKept | backend/agent/services.py:2259-2261 | over all workflows, data and pauses: pausing is invisible if and only if every executor that runs keeps the request |
| PauseTransparency.CallLlmKeepsExactlyWhen | backend/agent/executors.py:202-217 | what `call_llm` hands on, whatever the analysis and the spreadsheet, keeps the run's request if and only if everything was requested |
| PauseTransparency.CallLlmLosesRequest | backend/agent/executors.py:194-217 | an engine in which `call_llm` succeeds even once in a run that asked for less than everything is not transparent |
| PauseTransparency.BoardAlone | backend/agent/generation_registry.py:112-139 | such runs exist: those that ask for the board alone |
| PauseTransparency.UnguardedResumeIsSafeWhen | backend/agent/services.py:1079-1143 | an unguarded resume keeps the log in order if and only if the next step to execute lies beyond the last one executed |
| PauseTransparency.UnguardedResumeRepeats | backend/agent/services.py:1099-1102 | a completed run of a pass-through step that a fallback resume executes again |
| ApprovalTransparency.FlowsAlike | backend/agent/services.py:2279-2398 | executions that start alike but for some keys which no executor looks at stay alike but for them to the end |
| ApprovalTransparency.ApprovedGoesOn | backend/agent/services.py:996-1022 | an approved run goes on behind its step on what the commit function returned, with the request read from that |
| ApprovalTransparency.DirectGoesOn | backend/agent/executors.py:351-362 | a run that commits at once goes on on the commit's output with the executor's additions, and with the request it had |
| ApprovalTransparency.ApprovalIsTransparentExactlyWhen | backend/agent/services.py:1000-1022 | over all workflows behind the step, approving gives the executions, data and end of committing at once if and only if the executor adds nothing to the output and the output carries the request |
| ApprovalTransparency.DifferenceShows | backend/agent/services.py:1000-1022 | otherwise there is a workflow of at most two steps on which the two runs differ |
| ApprovalTransparency.DiffersOnlyInAdded | backend/agent/executors.py:276-281 | if no executor looks at the added keys the two runs differ in nothing else, over every workflow behind the step |
| ApprovalTransparency.BoardAndApiAreTransparent | backend/agent/approval_gate.py:253-386 | for boards and custom calls approving is invisible |
| ApprovalTransparency.IdsAreLostUnless | backend/agent/executors.py:276-281 | for tasks and decisions it is invisible if and only if the data held the very ids before; otherwise only the ids differ, if no executor looks at them |
| ApprovalTransparency.IdsReachNext | backend/agent/executors.py:357-362 | the step behind gets the ids if nobody was asked and does not get them after an approval |
| ApprovalTransparency.TaskIdsLost | backend/agent/executors.py:357-362 | a run of `create_tasks` and one more step whose data differ |
| JsonExtract.ExtractBlock | backend/agent/gemini_client.py:161-185 | the character loop finds exactly the block of the recursive scan, for either kind of bracket |
| JsonExtract.ExtractJsonBlock | backend/agent/gemini_client.py:159-186 | objects are tried before arrays, and text without a block comes back whole |
| JsonExtract.ValueReads | backend/agent/gemini_client.py:168-185 | a complete JSON value, with any nesting, strings and escapes, leaves the scanner's state as it was and closes nothing |
| JsonExtract.BlockFound | backend/agent/gemini_client.py:161-185 | a bracketed text whose inside reads as nothing is found whole, whatever surrounds it |
| JsonExtract.BlockIsPiece | backend/agent/gemini_client.py:162-185 | a block found is a piece of the text from the first opening bracket to a closing one |
| JsonExtract.ObjectExtracted | backend/agent/gemini_client.py:159-186 | every RFC 8259 object after text without an opening brace is returned exactly, whatever follows |
| JsonExtract.ArrayExtracted | backend/agent/gemini_client.py:159-186 | every RFC 8259 array after text without an opening square bracket is returned exactly if the whole text holds no opening brace |
| JsonExtract.ArrayExtractedExactlyWhen | backend/agent/gemini_client.py:160-161 | an array after text without an opening square bracket is returned if and only if no object block is found in the whole text |
| JsonExtract.ArrayOfObjectsLosesArray | backend/agent/gemini_client.py:160-161 | an array that starts with an object yields that object instead |
| JsonExtract.WithoutBlockWhole | backend/agent/gemini_client.py:159-186 | a text in which neither kind of bracket is both opened and closed comes back whole |
| CycleSearch.Search.HasCycleFrom | backend/agent/generation_registry.py:320-331 | the search from one node ends; it reports only real cycles, and otherwise leaves the node explored |
| CycleSearch.Search.AnyParentHasCycle | backend/agent/generation_registry.py:326-328 | the loop over a node's parents leaves all of them explored or reports a real cycle |
| CycleSearch.ContainsCycle | backend/agent/generation_registry.py:317-337 | over all start nodes with shared sets: a cycle is reported if and only if the graph has one |
| CycleSearch.HasPath | backend/decision/services.py:135-153 | the stack search answers reachability, both ways |
| TreeValidator.ValidateTree | backend/agent/generation_registry.py:228-339 | accepts exactly the valid trees, names the first malformed node or the first out of layer, and never rejects in the cycle search |
| TreeValidator.CheckNodes | backend/agent/generation_registry.py:243-287 | the first pass reads all nodes or names the first that is malformed or repeats a ref |
| TreeValidator.CheckLayers | backend/agent/generation_registry.py:289-314 | the second pass accepts exactly when every node is above all its parents and parentless nodes are at layer 0 |
| TreeValidator.CheckLayer | backend/agent/generation_registry.py:290-314 | one node's layer check, with its redundant second comparison |
| TreeValidator.CheckCycles | backend/agent/generation_registry.py:316-337 | the cycle search after the layer checks never finds anything |
| TreeValidator.AcceptedFields | backend/agent/generation_registry.py:243-287 | what the fields of an accepted node hold |
| TreeValidator.PlainNodeAccepted | backend/agent/generation_registry.py:243-273 | a node with non-blank texts, a layer and non-blank parents other than itself is accepted |
| TreeValidator.OptionalAcceptedExactlyWhen | backend/agent/generation_registry.py:274-286 | an optional field keeps an accepted node accepted exactly if its value is a permitted one |
| TreeValidator.BlankExactlyWhen | backend/agent/generation_registry.py:254-268 | a text is refused as blank exactly if it is all white space, by code point |
| TreeValidator.LayersImplyAcyclic | backend/agent/generation_registry.py:289-314 | the layer checks alone rule out cycles |
| TreeValidator.ChainsAreShort | backend/agent/generation_registry.py:305-309 | a chain of parent references is no longer than the layer it starts at |
| TreeValidator.EveryNodeHasRoot | backend/agent/generation_registry.py:293-298 | every node leads up to a parentless node at layer 0 |
| TreeCommit.SortedSorts | backend/agent/decision_tree_service.py:30 | sorting by layer and ref gives an ordered permutation |
| TreeCommit.SortIsTopological | backend/agent/decision_tree_service.py:30 | in a valid tree every parent comes before its children, with an id already assigned |
| TreeCommit.FirstDifferenceDecides | backend/agent/decision_tree_service.py:30 | refs of one layer are ordered by their first differing character, a prefix first |
| TreeCommit.DecisionStore.Commit | backend/agent/decision_tree_service.py:10-86 | a validated tree is stored if and only if no node repeats a parent; otherwise decisions and edges are unchanged; no lookup fails and no edge closes a cycle |
| TreeCommit.DecisionStore.CommitSorted | backend/agent/decision_tree_service.py:34-80 | the transaction over the sorted nodes: all decisions and edges, or none |
| TreeCommit.DecisionStore.CreateDecisions | backend/agent/decision_tree_service.py:40-68 | one decision per node in order, titles cut to 255 characters, each ref mapped to its decision |
| TreeCommit.TitleIsCut | backend/agent/decision_tree_service.py:41 | a stored title is the given one, or its first 255 characters |
| TreeCommit.DecisionStore.CreateEdges | backend/agent/decision_tree_service.py:70-80 | all listed edges are added exactly when no node repeats a parent |
| TreeCommit.DecisionStore.LinkNode | backend/agent/decision_tree_service.py:70-80 | one turn of the second loop: the edges into the i-th node are added to those before, exactly when it names no parent twice |
| TreeCommit.DecisionStore.LinkChild | backend/agent/decision_tree_service.py:71-80 | the edges into one node, refused exactly at a repeated parent |
| TreeCommit.DecisionStore.CreateEdge | backend/decision/services.py:156-160 | an edge to a later id is never refused as a cycle, only as a duplicate |
| TreeCommit.EdgesAreListed | backend/agent/decision_tree_service.py:70-80 | the edges written are exactly the listed parent-to-child pairs |
| TreeCommit.NoWayDown | backend/decision/services.py:159-160 | from a later decision no path leads back to an earlier one |
| TreeCommit.NewEdgesCloseNoCycle | backend/agent/decision_tree_service.py:70-80 | adding the tree to any acyclic store leaves it acyclic |
| TreeCommit.CommittedTree | backend/agent/decision_tree_service.py:30-80 | a stored tree is a permutation of the nodes with parents first and no cycle in the whole store |
| TreeCommit.ParentNamedTwice | backend/decision/models.py:256-259 | a valid tree of two nodes that cannot be stored, because one names its parent twice |
| TriggerService.WorkflowTriggers.CheckRateLimit | backend/agent/trigger_service.py:162-180 | the check admits and counts as the window specification does, and a refused attempt changes nothing |
| TriggerService.WorkflowTriggers.IsDuplicateTrigger | backend/agent/trigger_service.py:183-215 | a duplicate leaves the stored state alone, anything else replaces it |
| TriggerService.WorkflowTriggers.Execute | backend/agent/trigger_service.py:36-159 | a run starts exactly when every applicable check passes and creating it does not fail; the rate slot is used even if a later check or the creation fails; every trigger is logged once, as triggered, skipped or failed |
| TriggerService.WorkflowTriggers.Checked | backend/agent/trigger_service.py:68-94 | the order of the checks and what each of them uses up |
| TriggerService.AttemptTracks | backend/agent/trigger_service.py:169-179 | one attempt keeps the stored count equal to the size of the open window |
| TriggerService.WindowsTrack | backend/agent/trigger_service.py:161-180 | over nondecreasing times: at most 100 per window, each within its hour, windows opened at least an hour apart, the counter equal to the open window |
| TriggerService.WindowsCount | backend/agent/trigger_service.py:161-180 | every admitted attempt lies in exactly one window |
| TriggerService.RateLimitBound | backend/agent/trigger_service.py:161-180 | at most 199 attempts are admitted in any half-open hour |
| TriggerService.RateLimitBoundIsSharp | backend/agent/trigger_service.py:161-180 | 199 is reached |
| TriggerService.RefusedExactlyWhen | backend/agent/trigger_service.py:162-180 | an attempt is refused exactly if the last window is under an hour old and has admitted 100 |
| TriggerService.ConditionsMean | backend/agent/trigger_service.py:218-298 | which contexts meet the conditions of each kind of trigger: a polled event is one of four, an instant trigger has all its filters matched |
| TriggerService.WorkflowTriggers.RunsPerHour | backend/agent/trigger_service.py:36-159 | over any history of triggers at most 199 runs start in any half-open hour |
| TriggerService.WorkflowTriggers.PassedChecksAreSpaced | backend/agent/trigger_service.py:183-215 | over any history of triggers the same spacing holds for the checks that the workflow's triggers passed |
| TriggerService.RepeatsAreSpaced | backend/agent/trigger_service.py:202-213 | two checks in a row that pass with one context are at least five minutes apart |
| TriggerService.AlternatingPasses | backend/agent/trigger_service.py:202-213 | every sequence of checks whose neighbours differ in context passes entirely, at any times |
| TriggerService.RepeatPassesExactlyWhen | backend/agent/trigger_service.py:202-213 | over nondecreasing times a check passes if and only if every passed check of its context in the last five minutes was followed by a passed check of another context |
| TriggerService.CloseRepeatsAreInterrupted | backend/agent/trigger_service.py:202-213 | two passed checks of one context lie less than five minutes apart only with a passed check of another context between them |
| LoginSecurity.LoginSecurityService.ActiveLockoutResponse | backend/authentication/login_security.py:169-186 | None exactly when no row of the identifiers is active; otherwise the end of an active row that no other active row outlasts, with the whole seconds left of it |
| LoginSecurity.LoginSecurityService.RecordAbuseAndLockout | backend/authentication/login_security.py:123-166 | identifiers are counted up to the first that reaches the threshold, whose lock is created or prolonged |
| LoginSecurity.LoginSecurityService.CheckRequestAllowed | backend/authentication/login_security.py:60-85 | lock first, then backoff; a blocked check counts as abuse |
| LoginSecurity.LoginSecurityService.RecordFailedLogin | backend/authentication/login_security.py:88-113 | failures are counted for all identifiers, then abuse, then the backoff is set |
| LoginSecurity.LoginSecurityService.ClearSuccessfulLogin | backend/authentication/login_security.py:116-120 | a success clears all three counters of every identifier and no lock |
| LoginSecurity.LoginSecurityService.Login | backend/authentication/views.py:243-325 | one login attempt: check, then failure, an account without a password (which neither counts nor clears), or clearing |
| LoginHistories.LocksNeverShorten | backend/authentication/login_security.py:153-164 | over every history a row's end never moves back and is 300 seconds after its last attempt |
| LoginHistories.CountersAlwaysEnd | backend/authentication/login_security.py:129-166 | while a lock is on, its identifier's abuse counter expires no later than the lock |
| LoginHistories.LockEndsCountingAfresh | backend/authentication/login_security.py:129-166 | when a lock ends, its identifier's abuse count is zero |
| LoginHistories.TenAttemptsLock | backend/authentication/login_security.py:60-166 | of ten counted attempts for the first identifier, each within 300s of the last and none let in, one is answered with a lock, from any state |
| LoginHistories.TenthAttemptLocksItself | backend/authentication/login_security.py:129-165 | from any state, after ten attempts led by one identifier, dense as above, none let in and none stopped by a lock already on, the identifier itself has an unresolved row that runs until the tenth attempt plus 300 seconds |
| LoginHistories.FifthFailureBacksOff | backend/authentication/login_security.py:98-111 | the fifth failure within the window is answered with a lock or a 60-second backoff, and the backoff stops every attempt of the next 59 seconds |
| LoginHistories.LoginForgets | backend/authentication/login_security.py:116-120 | a login that is not stopped clears the failures, abuse and backoff of its identifiers, of no others, and leaves every lock |
| LoginHistories.BackoffWaitSuffices | backend/authentication/login_security.py:66-85 | after any history, waiting what a backoff response says is always enough |
| LoginHistories.LockWaitSufficesWhen | backend/authentication/models.py:40-42 | waiting what a lockout response says is enough if and only if a whole number of seconds was left |
| LoginHistories.FractionOfASecond | backend/authentication/models.py:40-42 | with half a second of a lock left the response says zero seconds, and the lock is still on after them |
| LoginThresholds.LockNeedsTen | backend/authentication/login_security.py:123-166 | over every timed history an attempt that opens a lock is at least the tenth in a row for one of its identifiers, each within 300 seconds of the one before and none cleared by a login, and locks it for 300 seconds |
| LoginThresholds.FewerThanTenNeverLock | backend/authentication/login_security.py:123-135 | with fewer than ten attempts for each of its identifiers no attempt is answered with a lock |
| LoginThresholds.FailureIsAnswered | backend/authentication/login_security.py:88-113 | a wrong password that is looked at gets a lock, or a backoff of 60 seconds exactly if it is at least the fifth failure in a row for one of its identifiers, and is otherwise denied |
| LoginThresholds.FewerThanFiveAreOnlyDenied | backend/authentication/login_security.py:60-113 | with fewer than five attempts every attempt gets its plain answer |
| LoginThresholds.HistoryCountsFailures | backend/authentication/login_security.py:88-97 | the failure counter is exactly the number of failures in a row |
| LoginThresholds.HistoryBoundsAbuses | backend/authentication/login_security.py:129-132 | the abuse counter never holds more than the attempts in a row |
| BoardText.CountWrappedLines | backend/agent/miro_generation.py:257-267 | the loop counts the lines of the specification |
| BoardText.WrapLine | backend/agent/miro_generation.py:261-266 | the lines one raw line takes, blank or not |
| BoardText.TextHasRoom | backend/agent/miro_generation.py:257-267 | the counted lines have room for all the text and for every line break |
| BoardText.TextIsTall | backend/agent/miro_generation.py:270-295 | an item of text is at least as tall as its padding unless its font size is negative |
| BoardGeometry.CharactersFit | backend/agent/miro_generation.py:257-259 | a line of more than eight characters holds as many as fit its width at 0.58 of the font size, and no more |
| BoardGeometry.StripTakesSpace | backend/agent/miro_generation.py:262 | only white space is taken off a line, and all of it at both ends |
| BoardGeometry.HeightHoldsLines | backend/agent/miro_generation.py:270-295 | an item is as tall as it was or as its lines, at 1.45 or 1.35 times the font size, with the margin, rounded up |
| BoardColumns.ClusterFrameColumns | backend/agent/miro_generation.py:298-321 | the clustering loop with its early exit joins each item to the first column near enough |
| BoardColumns.SortSorts | backend/agent/miro_generation.py:302-319 | both sorts give an ordered rearrangement that loses and doubles nothing |
| BoardColumns.ClusterPartitions | backend/agent/miro_generation.py:298-321 | the columns partition the items exactly, none is empty, and each is ordered from top to bottom |
| BoardGeometry.JoinsFirstNear | backend/agent/miro_generation.py:304-316 | an item joins the first column whose mean is at most 120 away, and opens a column if there is none |
| BoardGeometry.ColumnsAreChained | backend/agent/miro_generation.py:304-316 | so every item of a column is within 120 of the mean of those before it |
| BoardGeometry.ColumnsFromLeft | backend/agent/miro_generation.py:302 | columns are made from left to right |
| BoardGeometry.GapsSeparate | backend/agent/miro_generation.py:298-321 | no column reaches across a horizontal gap of more than 120 |
| BoardGeometry.CloseItemsShareColumn | backend/agent/miro_generation.py:298-321 | items within 120 of one another are one column |
| BoardGeometry.WideColumn | backend/agent/miro_generation.py:304-316 | items of which the last is 170 away from the first and which still are one column |
| BoardLayout.LayoutColumn | backend/agent/miro_generation.py:355-382 | stacking one column in place: each item where the specification puts it, all others untouched |
| BoardLayout.LayoutColumns | backend/agent/miro_generation.py:354-382 | the same over all columns, with the lowest bottom of all |
| BoardLayout.LayoutFrame | backend/agent/miro_generation.py:340-386 | one frame: its items laid out, the frame grown if needed, nothing else touched |
| BoardLayout.CollectChildren | backend/agent/miro_generation.py:332-344 | every frame's items in board order; other kinds and unknown parents are left out |
| BoardLayout.CollectFrames | backend/agent/miro_generation.py:325-331 | the frames by id, the last of equal ids counting |
| BoardLayout.NormalizeLayout | backend/agent/miro_generation.py:324-389 | every frame ends as if laid out alone on the original board, and items in no frame are untouched |
| BoardLayout.StackedApart | backend/agent/miro_generation.py:365-381 | items of a column keep a gap of 24 and never rise above the padding |
| BoardLayout.ColumnsLineUp | backend/agent/miro_generation.py:359-374 | items no wider than the first of their column line up with it, if the first fits into the frame |
| BoardLayout.FrameIsTidy | backend/agent/miro_generation.py:346-386 | every item lies inside the padding (horizontally if not too wide), in exactly one column, in its original order and without overlap; neither frame nor item shrinks; only positions and heights change |
| BoardGeometry.ColumnStaysPut | backend/agent/miro_generation.py:359-378 | the first item of a column keeps its x inside the padding of 24 and otherwise goes to the nearest x inside; the others go nearest to it |
| BoardGeometry.ColumnsKeepDistance | backend/agent/miro_generation.py:359-378 | columns whose first items are inside the padding keep their horizontal distance |
| BoardGeometry.ColumnsStand | backend/agent/miro_generation.py:354-382 | both hold of every column of a laid-out frame |
| BoardGeometry.ColumnIsStacked | backend/agent/miro_generation.py:357-381 | a column starts 72 below the top of its frame, and items follow 24 apart |
| BoardGeometry.FrameGrowsAsNeeded | backend/agent/miro_generation.py:383-387 | a frame keeps its height if that holds its content with 24 to spare, and otherwise gets the least whole height that does |
| BoardLayout.EveryItemFindsItsFrame | backend/agent/miro_generation.py:324-389 | on the laid-out board every item put into a frame lies inside the last frame of that id |
| AssetLifecycle.Latest | backend/asset/models.py:217-224 | the version with the highest number |
| AssetLifecycle.AssetRecord.Transit | backend/asset/models.py:61-160 | a transition happens and is logged exactly from its source states |
| AssetLifecycle.AssetRecord.Review | backend/asset/views.py:393-554 | an action is carried out exactly when its guard holds, and then the state machine agrees |
| AssetLifecycle.AssetRecord.AddVersion | backend/asset/views.py:138-151 | a new draft with the next number exactly when the asset may take one |
| AssetLifecycle.AssetRecord.UpdateWithFile | backend/asset/models.py:334-361 | a draft gets new content and a pending scan; unchanged content and finalized versions are refused |
| AssetLifecycle.AssetRecord.Delete | backend/asset/models.py:387-389 | only drafts are deleted |
| AssetLifecycle.AssetRecord.PublishVersion | backend/asset/views.py:674-690 | a draft is finalized exactly when its scan is clean |
| AssetLifecycle.AssetRecord.BeginScan | backend/asset/models.py:420-438 | a scan starts only from pending, and reads the content the version has then |
| AssetLifecycle.AssetRecord.UpdateScanStatus | backend/asset/tasks.py:91-116 | a scan's first verdict is put on its version whatever the stored row has become, as long as there is one |
| AssetLifecycle.AssetRecord.MarkFailed | backend/asset/tasks.py:229-242 | without a scan behind it an error is marked only from pending or scanning |
| AssetLifecycle.AssetRecord.Perform | backend/asset/views.py:87-704 | whatever else happens to the asset is one of the events |
| AssetLifecycle.AssetRecord.ScanVersion | backend/asset/tasks.py:145-176 | a whole scan is a start, whatever else happens meanwhile, and the verdict; or nothing if it cannot start |
| AssetLifecycle.AssetRecord.CleanupFailedScans | backend/asset/tasks.py:310-324 | exactly the failed scans that the query returned are pending again |
| AssetLifecycle.ReviewDesk.BulkReview | backend/asset/views.py:576-663 | every entry succeeds or fails by itself, and the summary adds up |
| AssetHistories.EventKeepsVersions | backend/asset/models.py:226-404 | every event keeps the version invariant |
| AssetHistories.ReachableVersions | backend/asset/models.py:164-236 | in every reachable asset versions are numbered 1..n, only the highest may be a draft, and an asset in review, approved or archived has a version and no draft |
| AssetHistories.LogReplays | backend/asset/models.py:61-160 | in every history the audit log is a path from NotSubmitted that replays to the status and is only ever appended to |
| AssetHistories.ApprovalsWereReviewed | backend/asset/models.py:61-112 | every approval in a log directly follows a review start and a submission out of an editing state |
| AssetHistories.ArchivedWasApproved | backend/asset/models.py:146-160 | in every log an asset is archived by Archive alone, directly behind an approval |
| AssetHistories.ReviewPath | backend/asset/models.py:61-160 | submit, start review, approve and archive pass exactly PendingReview, UnderReview, Approved and Archived, and are so logged |
| AssetHistories.ActionsNeed | backend/asset/models.py:164-224 | the state in which each action is carried out, and for a submission only finalized versions of which the last is clean |
| AssetHistories.RejectedIsEditable | backend/asset/models.py:114-144 | a rejected asset asks for a revision, accepts a new version, and is as if never submitted once the rejection is acknowledged |
| AssetHistories.RejectedCanReturn | backend/asset/models.py:114-181 | a rejected asset with a new version that is scanned clean and finalized can be submitted again |
| AssetHistories.ReviewFreezes | backend/asset/models.py:164-236 | no event touches the contents of an asset in review, nor the status and log of an archived one |
| AssetHistories.FrozenExactlyWhenSettled | backend/asset/tasks.py:91-116 | in a review no event changes a mark if and only if no scan is running or called for |
| AssetHistories.ApprovedIsSubmitted | backend/asset/models.py:164-236 | from submission on, as long as the asset is not sent back, its versions have the submitted contents, and the same marks if no scan was running or called for |
| AssetHistories.ArchivedIsFinal | backend/asset/models.py:146-160 | an archived asset keeps status, log and contents, and all it has if no scan was running or called for |
| AssetHistories.BulkIsSingleActions | backend/asset/views.py:576-646 | a bulk review does to each asset what its own actions, one after another, would do |
| AssetHistories.CleanupIsResets | backend/asset/tasks.py:318-324 | the clean-up is a history of single resets |
| AssetHistories.CleanupKeeps | backend/asset/tasks.py:318-324 | so it keeps every invariant of reachable assets |
| ScanHistories.ScanWasStarted | backend/asset/tasks.py:161-170 | every scan was started by an event, and reads the content the version had then |
| ScanHistories.CleanIsScannedExactlyWhen | backend/asset/tasks.py:91-116 | throughout a history a clean mark means that a scan of the present content answered clean, if and only if no clean verdict is recorded on content other than its scan has read |
| ScanHistories.UploadDuringScan | backend/asset/tasks.py:161-173 | a history of five events in which content uploaded during a scan is finalized unscanned |
| ScanHistories.StaleMeansUpload | backend/asset/models.py:334-361 | a verdict is recorded on other content only if new content was uploaded between the scan's start and the verdict |
| ScanHistories.StaleExactlyWhen | backend/asset/tasks.py:161-173 | whatever was uploaded in between, a recorded clean verdict is on other content if and only if the content differs from that at the scan's start |
| ScanHistories.StaleAfterOneUpload | backend/asset/models.py:334-361 | so with at most one upload in between it is if and only if there is one |
| ScanHistories.FinalizedStaysCleanExactlyWhen | backend/asset/models.py:393-416 | throughout a history finalized versions are clean if and only if no other verdict is recorded on one of them |
| ScanHistories.SoursMeansDisplaced | backend/asset/tasks.py:91-116 | that takes a version which got new content, or whose scan was given up, while it was being scanned |
| ScanHistories.SouredInReview | backend/asset/tasks.py:145-173 | a history of eight events at whose end a version under review is marked infected by a scan of content it no longer has |
| ScanHistories.FinalizedWasScanned | backend/asset/models.py:393-416 | if no version gets new content and no scan is given up during a scan, every finalized version is clean and was found so by a scan of its present content |
| ScanHistories.SubmittedIsSettled | backend/asset/models.py:164-181 | and every submitted version is clean, with no scan running or called for |
| ColumnRegistry.ParseLlmResponse | backend/agent/column_registry.py:612-651 | each header gets the name of the last entry for its normalised text, or unknown |
| ColumnRegistry.EntryIsLast | backend/agent/column_registry.py:612-651 | what the reply says of a header is what its last entry for the text says |
| ColumnRegistry.BuildAliasIndex | backend/agent/column_registry.py:130-139 | the index gives the canonical name of the last column that claims a text |
| ColumnRegistry.LastClaimIsLast | backend/agent/column_registry.py:130-139 | a text belongs to the last column that has it as alias or name |
| ColumnRegistry.MatchTemplate | backend/agent/column_registry.py:141-157 | mappings, unrecognised headers and the recognised fraction of a template |
| ColumnRegistry.MatchedMeans | backend/agent/column_registry.py:141-157 | a header gets the name of its column, and is unknown and unrecognised exactly if it has none or one without a name |
| ColumnRegistry.TryTemplates | backend/agent/column_registry.py:121-172 | the first template of maximal confidence among those over their threshold, or none exactly if none qualifies |
| ColumnRegistry.ApplyAutoCategorization | backend/agent/column_registry.py:755-784 | the mapping stays, and a header is struck from the unrecognised exactly if its category can be inferred |
| ColumnRegistry.JudgedByName | backend/agent/column_registry.py:755-784 | an unrecognised header stays so exactly if no category is inferred for its mapped name, or for itself if that is unknown |
| ColumnRegistry.LearnableExactlyWhen | backend/agent/column_registry.py:722-743 | a reply is learned if and only if it is at least 0.6 confident, names the format and recognises a header |
| ColumnRegistry.SavedIs | backend/agent/column_registry.py:726-743 | learning replaces the columns of the template of that name, or adds one with threshold 0.5, and changes no other |
| ColumnRegistry.Registry.DetectColumns | backend/agent/column_registry.py:671-752 | the pipeline: a qualifying template decides, else the rules if they match, else the model if it answers, else every header is unknown; only a learnable reply changes the store, and every result passes through the category inference |
| ColumnRegistry.LastClaimIs | backend/agent/column_registry.py:726-736 | what learned columns claim is decided by the last header that teaches a claiming column |
| ColumnRegistry.LearnedAgreesExactlyWhen | backend/agent/column_registry.py:726-743 | matching the same headers against the learned template gives the detection back if and only if no header is shadowed |
| ColumnRegistry.NoCollisionNoShadow | backend/agent/column_registry.py:130-148 | in particular when no header normalises to another column's canonical name |
| ColumnRegistry.LearnedIsFound | backend/agent/column_registry.py:105-172 | once learned, the template matches the same headers with the same detection, and qualifies when the recognised fraction reaches its threshold |
| ColumnRegistry.LearnedIsBest | backend/agent/column_registry.py:121-172 | where no stored template qualified before, the search then finds the learned one |
| ColumnRegistry.DetectTwice | backend/agent/column_registry.py:679-681 | end to end, from the inputs: where no template qualified and no rule matched, a learnable reply without shadowed headers is used and stored, and a second detection on the same headers comes from the store and is the same, whatever the rules and the model would say |
| ColumnRegistry.HeaderShadowed | backend/agent/column_registry.py:133-139 | headers and a reply for which the learned template gives a header another name than the detection did |
| SpreadsheetNormalizer.NormalizeSpreadsheet | backend/agent/column_registry.py:787-832 | every sheet is renamed, and an empty mapping changes nothing |
| SpreadsheetNormalizer.NormalizeSheet | backend/agent/column_registry.py:806-830 | columns and row keys of one sheet are renamed in their places |
| SpreadsheetNormalizer.RenameColumns | backend/agent/column_registry.py:807-816 | columns mapped to unknown or not at all keep their names |
| SpreadsheetNormalizer.RenameKeys | backend/agent/column_registry.py:819-824 | only row keys that are columns are renamed, in the order of the row |
| SpreadsheetNormalizer.ColumnsRenamed | backend/agent/column_registry.py:807-816 | every column gets its mapped name, unless that is unknown or missing |
| SpreadsheetNormalizer.EntriesRenamed | backend/agent/column_registry.py:819-824 | every row entry keeps place and value and gets the name of its column |
| SpreadsheetNormalizer.LastEntryWins | backend/agent/column_registry.py:819-824 | where entries of a row get one key, the value of the last one is kept under it, once |
| SpreadsheetNormalizer.CellsKept | backend/agent/column_registry.py:806-830 | if the names of a sheet stay apart, every cell, row and column keeps its position and value |
| SpreadsheetNormalizer.RoundTripExactlyWhen | backend/agent/column_registry.py:812-816 | normalising and normalising back restores the spreadsheet if and only if no column called unknown was renamed |
| SpreadsheetNormalizer.UnknownStaysRenamed | backend/agent/column_registry.py:812-816 | a spreadsheet with a column called unknown that does not come back |
| StepReorder.CountCheckIsExact | backend/agent/views.py:960-967 | the count check accepts exactly the lists of distinct active steps of the workflow |
| StepReorder.StepTable.Update | backend/agent/models.py:501-507 | one update is refused exactly when another active step of the workflow holds the order |
| StepReorder.StepTable.MaxOrder | backend/agent/views.py:974-976 | the greatest order of the workflow's steps, deleted or not: none is higher, and it is attained unless zero |
| StepReorder.StepTable.Reorder | backend/agent/views.py:959-984 | the exact outcome of every request: invalid, refused by the constraint and rolled back, or the listed steps at 1..n and all else unchanged |
| StepReorder.PartialListBlocked | backend/agent/views.py:982-984 | a valid list of one of two steps that is refused |
| StepReorder.StepTable.Park | backend/agent/views.py:978-981 | phase one is never refused, and orders stay unique after every update |
| StepReorder.StepTable.Assign | backend/agent/views.py:982-984 | phase two is refused exactly when an unlisted active step holds one of the orders |
| StepReorder.FullListIsOneToN | backend/agent/views.py:959-984 | a list of all active steps is never refused and leaves exactly the orders 1..n in the requested sequence |
| TenantBackfill.Tenants.Backfill | backend/ad_copy_variation/tenant_backfill.py:145-182 | the loop with its memo of missing tables equals judging every row afresh |
| TenantBackfill.EveryRowIsCounted | backend/ad_copy_variation/tenant_backfill.py:43-50 | copied and skipped add up to the rows, and the reasons to the skipped |
| TenantBackfill.ReasonsMean | backend/ad_copy_variation/tenant_backfill.py:153-176 | the exact meaning of each of the six reasons and of a copy, in their order |
| TenantBackfill.SchemaNameIs | backend/core/services/tenant.py:24-36 | a schema is called org_ and the slug, with underscores for all but letters and digits |
| TenantBackfill.RunAdds | backend/ad_copy_variation/tenant_backfill.py:153-180 | after a real run a schema has the slugs it had and those of the rows wanted there, and nothing else has changed |
| TenantBackfill.CopiesComeFromRows | backend/ad_copy_variation/tenant_backfill.py:170-180 | every row a run adds to a schema is the copy of a public row wanted there, for the project its slug names in that schema |
| TenantBackfill.AlreadyCopiedMeans | backend/ad_copy_variation/tenant_backfill.py:174-176 | a row with a place is reported as already copied after a run, and then has its copy if and only if it had one before or no row had taken its slug |
| TenantBackfill.TakenSlugKeepsOut | backend/ad_copy_variation/tenant_backfill.py:174-176 | a slug taken by another row keeps the public row out of the schema over any number of runs |
| TenantBackfill.SecondRunCopiesNothing | backend/ad_copy_variation/tenant_backfill.py:174-176 | a second run over any of the same rows copies nothing and changes nothing |
| TenantBackfill.DryAgainstReal | backend/ad_copy_variation/tenant_backfill.py:178-180 | a real run never copies more than the dry run announced, and less exactly on a clash |
| TenantBackfill.DryRunIsExactWhen | backend/ad_copy_variation/tenant_backfill.py:178-180 | over any rows at all, a dry run's report equals the real run's if and only if no two rows are wanted under one slug in one schema |
| TenantBackfill.DryRunIsExact | backend/core/slug_mixins.py:11 | over the rows of the public table, whose slugs are unique, it always does |
| TenantBackfill.UniqueSlugsNeeded | backend/core/slug_mixins.py:11 | the constraint is needed: of two rows with one slug the dry run would announce two copies and the real run make one |

## Left out

- Concurrency: requests on one run, asset, login or workflow are atomic and one after another, and each acts on the stored row.
- Time is read once per request; the source reads the clock several times within one call.
- Executors, commits and model calls return a value or a failure; exceptions raised inside an executor, retries, quotas and streamed events are not modelled.
- The step list and its order are fixed during a run, and a workflow definition is present.
- The calendar suggestions after an analysis step, calendar events (their records belong to no run), the review of anomalies, and the legacy flows without a workflow.
- Of the tasks, decisions and board that a commit patches into a run, the model keeps whether there are any. What the commit functions create is not modelled; a commit is one atomic side effect.
- What the stored analysis offers, and whether its anomalies are reviewed, are parameters of the requests that read it. The flags of the follow-up chat are not modelled, so a paused run may forward any number of times.
- A board on request is generated in the background; in the model the request and its background task are one step, which may fail.
- Unguarded resumes are not among the requests of a history; PauseTransparency says when one keeps the log in order.
- Floating point: board geometry and confidences are exact reals, and a model's confidence is taken as already rounded.
- Board items with missing or non-numeric fields, and items that are not objects.
- Characters outside the basic plane written as surrogate pairs; a text is a sequence of characters.
- The stripping of code fences and the parsing of the extracted block; only finding the block is modelled.
- Topics and the other descriptive fields of decisions; `infer_decision_topic` has no influence on order or edges.
- The hash of a trigger context is taken to be injective, and the two timestamp fields are taken to be removed already; triggers of a workflow that does not exist and failures within the checks are not modelled.
- Schedules (`croniter`), polling of external services and the usage counters of triggers.
- Header normalisation is an arbitrary function; the rule registry's result and the keyword rules are parameters; column categories and per-column confidences are absent.
- Replies of the model without the `original` entry of a column, failures of the template store, soft-deleted templates and the project a template belongs to.
- Versions without a file; a version's content stands for its checksum. A verdict that is not recorded leaves no trace, so a model history may deliver it again. The log of version and scan transitions is not kept.
- Bulk requests whose entries are not objects, which end the request after earlier entries were carried out.
- The age limit of `cleanup_failed_scans`: its query result is arbitrary.
- Reordering of system workflows and the permission checks before it.
- The org filter of the backfill query and the columns it copies; a copied row keeps its slug, project and origin.
- HTTP views, serializers, WebSocket consumers, admin pages, prompts, redaction tables and the frontend.

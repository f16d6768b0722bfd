/**
  The agent workflow engine: a resumable machine that runs the ordered steps of
  a workflow, threads data from one to the next, logs every execution, pauses
  for a confirmation or for an external approval, and continues from what it
  stored (backend/agent/services.py, backend/agent/approval_gate.py).
 */
module WorkflowEngine {
  import opened Common
  import opened GenerationOutputs

  datatype Step = Step(id: nat, order: nat, kind: StepType)

  datatype CommitKind = TasksKind | DecisionsKind | BoardKind | ApiKind | ForwardKind

  /**
    What committing an external side effect comes to: what the commit function
    returns, and what the step's executor adds to that if it may go on at once.
   */
  datatype CommitResult = Committed(output: Data, added: Data) | CommitRaised

  /** What a step's executor returns; NeedsCommit is a request to the approval gate. */
  datatype Outcome =
    | Done(output: Option<Data>)
    | NeedsCommit(kind: CommitKind, commit: CommitResult)
    | GaveUp                          // retries exhausted, step is to be skipped
    | Failure

  type Executor = (Step, Data) -> Outcome

  datatype RunStatus = Analyzing | AwaitingUser | AwaitingApproval | Completed | Failed
  datatype ExecutionStatus = Running | Awaiting | Succeeded | Skipped | Broken
  datatype Execution = Execution(order: nat, kind: StepType, status: ExecutionStatus, input: Data, output: Option<Data>)

  /** The progress events sent to the client. */
  datatype Progress = Ran(order: nat) | SkippedByRequest(order: nat) | SkippedAfterRetries(order: nat)

  datatype ApprovalStatus = Pending | Approved | Rejected

  /** A record made for a step belongs to its execution; the others were made beside the steps. */
  datatype Approval = Approval(execution: Option<nat>, kind: CommitKind, status: ApprovalStatus)

  /** A committed side effect, and what led to it. */
  datatype Commit =
    | Direct(execution: nat)
    | Beside(kind: CommitKind)
    | ForApproval(id: nat)
    | Generated(settled: set<nat>)   // a board made on request, with the records that this settled

  datatype RunState = RunState(
    approvalRequired: bool,
    status: RunStatus,
    current: nat,
    log: seq<Execution>,
    progress: seq<Progress>,
    approvals: seq<Approval>,
    commits: seq<Commit>,
    made: set<CommitKind>)   // whether the run's tasks, decisions and board are on record

  function NewRun(approvalRequired: bool): RunState {
    RunState(approvalRequired, Analyzing, 1, [], [], [], [], {})
  }

  /** The active steps in execution order: orders are distinct by the database constraint. */
  ghost predicate Sorted(steps: seq<Step>) {
    forall i, j :: 0 <= i < j < |steps| ==> steps[i].order < steps[j].order
  }

  /** Index of the first step whose order is at least `order`. */
  function From(steps: seq<Step>, order: nat): (i: nat)
    ensures i <= |steps|
    ensures forall j :: 0 <= j < i ==> steps[j].order < order
    ensures i < |steps| ==> order <= steps[i].order
  {
    if steps == [] || order <= steps[0].order then 0 else 1 + From(steps[1..], order)
  }

  // ---- one step ----

  /** Confirmation steps hand their input on; every other step is up to its executor. */
  function Execute(exec: Executor, step: Step, data: Data): Outcome {
    if step.kind.AwaitConfirmation? then Done(Some(data)) else exec(step, data)
  }

  /** `result.output_data or current_data`: a missing or empty output keeps the data. */
  function OrElse(output: Option<Data>, data: Data): Data {
    match output
    case None => data
    case Some(d) => if d == map[] then data else d
  }

  /** What an executor hands on after a commit that did not have to wait: the commit's output and its own additions. */
  function DirectOutput(data: Data, output: Data, added: Data): Data {
    OrElse(Some(output), data) + added
  }

  /** What is on the run's record after a commit of the given kind. */
  function Made(made: set<CommitKind>, kind: CommitKind): set<CommitKind> {
    if kind.TasksKind? || kind.DecisionsKind? || kind.BoardKind? then made + {kind} else made
  }

  function Row(step: Step, status: ExecutionStatus, data: Data, output: Option<Data>): Execution {
    Execution(step.order, step.kind, status, data, output)
  }

  /** Where the loop over the steps stands after one step. */
  datatype Turn = Turn(st: RunState, data: Data, halt: bool, extras: seq<Data>)

  /**
    One turn of the loop. `extras` are the inputs the user has in hand for the
    confirmations to come: with none left a confirmation pauses the run, and
    the engine itself always starts with none.
   */
  function TakeStep(exec: Executor, st: RunState, step: Step, data: Data, requested: set<string>,
      extras: seq<Data>): Turn {
    if ShouldSkip(step.kind, requested) then
      var st1 := st.(progress := st.progress + [SkippedByRequest(step.order)], current := step.order + 1);
      Turn(st1, data, false, extras)
    else
      var st1 := st.(progress := st.progress + [Ran(step.order)]);
      match Execute(exec, step, data)
      case Done(output) => Succeed(st1, step, data, output, extras)
      case NeedsCommit(kind, commit) =>
        if st.approvalRequired then
          Turn(st1.(log := st1.log + [Row(step, Awaiting, data, None)],
                    approvals := st1.approvals + [Approval(Some(|st.log|), kind, Pending)],
                    status := AwaitingApproval), data, true, extras)
        else (match commit
              case Committed(output, added) =>
                var st2 := st1.(commits := st1.commits + [Direct(|st.log|)], made := Made(st1.made, kind));
                Succeed(st2, step, data, Some(DirectOutput(data, output, added)), extras)
              case CommitRaised => Break(st1, step, data, extras))
      case GaveUp =>
        Turn(st1.(log := st1.log + [Row(step, Skipped, data, None)],
                  progress := st1.progress + [SkippedAfterRetries(step.order)],
                  current := step.order + 1), data, false, extras)
      case Failure => Break(st1, step, data, extras)
  }

  function Succeed(st: RunState, step: Step, data: Data, output: Option<Data>, extras: seq<Data>): Turn {
    var st1 := st.(log := st.log + [Row(step, Succeeded, data, output)]);
    if !step.kind.AwaitConfirmation? then Turn(st1, OrElse(output, data), false, extras)
    else if extras == [] then Turn(st1.(status := AwaitingUser, current := step.order + 1), data, true, extras)
    else Turn(st1, data + extras[0], false, extras[1..])
  }

  function Break(st: RunState, step: Step, data: Data, extras: seq<Data>): Turn {
    Turn(st.(log := st.log + [Row(step, Broken, data, None)], status := Failed), data, true, extras)
  }

  // ---- runs of steps ----

  function ExecuteFrom(exec: Executor, steps: seq<Step>, st: RunState, i: nat, data: Data,
                       requested: set<string>, extras: seq<Data>): RunState
    requires i <= |steps|
    decreases |steps| - i
  {
    if i == |steps| then st.(status := Completed)
    else
      var turn := TakeStep(exec, st, steps[i], data, requested, extras);
      if turn.halt then turn.st
      else ExecuteFrom(exec, steps, turn.st, i + 1, turn.data, requested, turn.extras)
  }

  /** `_execute_steps`; a request that cannot be normalised raises before anything is written. */
  function ExecuteSteps(exec: Executor, steps: seq<Step>, st: RunState, data: Data, extras: seq<Data>): RunState {
    match Requested(data)
    case Err(_) => st
    case Ok(requested) => ExecuteFrom(exec, steps, st, From(steps, st.current), data, requested, extras)
  }

  /** Index of the succeeded execution of highest order, or |log| if there is none. */
  function LastSucceeded(log: seq<Execution>): (k: nat)
    ensures k <= |log|
    ensures k < |log| ==> log[k].status.Succeeded?
    ensures k < |log| ==> forall i :: 0 <= i < |log| && log[i].status.Succeeded? ==> log[i].order <= log[k].order
    ensures k == |log| ==> forall i :: 0 <= i < |log| ==> !log[i].status.Succeeded?
  {
    if log == [] then 0
    else
      var n := |log| - 1;
      var k := LastSucceeded(log[..n]);
      if log[n].status.Succeeded? && (k == n || log[k].order <= log[n].order) then n
      else if k == n then |log|
      else k
  }

  /** The data a resume starts from; None stands for the error on a stored null. */
  function Stored(log: seq<Execution>): Option<Data> {
    var k := LastSucceeded(log);
    if k == |log| then Some(map[]) else log[k].output
  }

  /** `_resume_workflow` as the engine would run it on a run in any status. */
  function ResumeAnyway(exec: Executor, steps: seq<Step>, st: RunState, extra: Data): RunState {
    match Stored(st.log)
    case None => st
    case Some(data) => ExecuteSteps(exec, steps, st, data + extra, [])
  }

  /** The guarded resume: the run is looked up by status. */
  function Resume(exec: Executor, steps: seq<Step>, st: RunState, extra: Data): RunState {
    if st.status.AwaitingUser? then ResumeAnyway(exec, steps, st, extra) else st
  }

  /** The record was made for a step of the run. */
  predicate OfStep(record: Approval, log: seq<Execution>) {
    record.execution.Some? && record.execution.value < |log|
  }

  /** Behind an approved step the run goes on, on what the commit function returned. */
  function Continue(exec: Executor, steps: seq<Step>, st: RunState, record: Approval, output: Data): RunState {
    if !OfStep(record, st.log) then st
    else
      var k := record.execution.value;
      var row := st.log[k].(status := Succeeded, output := Some(output));
      var st1 := st.(log := st.log[k := row], status := Analyzing, current := row.order + 1,
                     made := Made(st.made, record.kind));
      ExecuteSteps(exec, steps, st1, output, [])
  }

  /** Approving a pending record: commit, mark it approved, continue if it is a step's. */
  function Approve(exec: Executor, steps: seq<Step>, st: RunState, id: nat, commit: CommitResult): RunState {
    if id >= |st.approvals| || !st.approvals[id].status.Pending? || commit.CommitRaised? then st
    else
      var record := st.approvals[id].(status := Approved);
      var st1 := st.(approvals := st.approvals[id := record], commits := st.commits + [ForApproval(id)]);
      Continue(exec, steps, st1, record, commit.output)
  }

  /** Rejecting any record fails the run. */
  function Reject(st: RunState, id: nat): RunState {
    if id >= |st.approvals| || !st.approvals[id].status.Pending? then st
    else
      var record := st.approvals[id].(status := Rejected);
      var st1 := st.(approvals := st.approvals[id := record], status := Failed);
      if !OfStep(record, st.log) then st1
      else
        var k := record.execution.value;
        st1.(log := st.log[k := st.log[k].(status := Broken)])
  }

  // ---- side effects beside the steps ----

  /** Parked in a record that belongs to no execution, or committed at once. */
  function CommitBeside(st: RunState, kind: CommitKind, commit: CommitResult): RunState {
    if st.approvalRequired then st.(approvals := st.approvals + [Approval(None, kind, Pending)])
    else if commit.CommitRaised? then st
    else st.(commits := st.commits + [Beside(kind)], made := Made(st.made, kind))
  }

  /** `create_decisions_from_analysis`, on an analysis that has decision nodes. */
  function DecisionsFromAnalysis(st: RunState, commit: CommitResult): RunState {
    if DecisionsKind in st.made then st else CommitBeside(st, DecisionsKind, commit)
  }

  /** What the analysis says about its anomalies. */
  datatype Review = NoAnomalies | Unreviewed | AllExcluded | SomeIncluded

  predicate Cleared(review: Review) {
    review.NoAnomalies? || review.SomeIncluded?
  }

  /** `create_tasks_from_analysis`, on an analysis that recommends tasks: committing at once completes the run. */
  function TasksFromAnalysis(st: RunState, review: Review, commit: CommitResult): RunState {
    if TasksKind in st.made || !Cleared(review) then st
    else
      var st1 := CommitBeside(st, TasksKind, commit);
      if st.approvalRequired || commit.CommitRaised? then st1 else st1.(status := Completed)
  }

  /** Messages that the follow-up chat of a paused run forwards. */
  function ForwardFromChat(st: RunState, commit: CommitResult): RunState {
    if st.status.AwaitingUser? then CommitBeside(st, ForwardKind, commit) else st
  }

  /** The record waits for a board. */
  predicate WaitsForBoard(record: Approval) {
    record.kind.BoardKind? && record.status.Pending?
  }

  function PendingBoards(approvals: seq<Approval>): set<nat> {
    set id | 0 <= id < |approvals| && WaitsForBoard(approvals[id])
  }

  function SettleBoards(approvals: seq<Approval>): seq<Approval> {
    seq(|approvals|, i requires 0 <= i < |approvals| =>
      if WaitsForBoard(approvals[i]) then approvals[i].(status := Approved) else approvals[i])
  }

  /** A board generated on request counts as the approval of every record that waits for one. */
  function BoardOnRequest(st: RunState, generated: bool): RunState {
    if BoardKind in st.made || !generated then st
    else st.(approvals := SettleBoards(st.approvals), made := st.made + {BoardKind},
             commits := st.commits + [Generated(PendingBoards(st.approvals))])
  }

  // ---- requests ----

  datatype Request =
    | ResumeRequest(extra: Data)
    | ApproveRequest(id: nat, commit: CommitResult)
    | RejectRequest(id: nat)
    | SetApprovalRequired(on: bool)
    | DecisionsRequest(commit: CommitResult)
    | TasksRequest(review: Review, commit: CommitResult)
    | ForwardRequest(commit: CommitResult)
    | BoardRequest(generated: bool)

  function Apply(exec: Executor, steps: seq<Step>, st: RunState, r: Request): RunState {
    match r
    case ResumeRequest(extra) => Resume(exec, steps, st, extra)
    case ApproveRequest(id, commit) => Approve(exec, steps, st, id, commit)
    case RejectRequest(id) => Reject(st, id)
    case SetApprovalRequired(on) => st.(approvalRequired := on)
    case DecisionsRequest(commit) => DecisionsFromAnalysis(st, commit)
    case TasksRequest(review, commit) => TasksFromAnalysis(st, review, commit)
    case ForwardRequest(commit) => ForwardFromChat(st, commit)
    case BoardRequest(generated) => BoardOnRequest(st, generated)
  }

  function ApplyAll(exec: Executor, steps: seq<Step>, st: RunState, rs: seq<Request>): RunState
    decreases |rs|
  {
    if rs == [] then st else ApplyAll(exec, steps, Apply(exec, steps, st, rs[0]), rs[1..])
  }

  /** A whole history: a new run executed on `data`, then any requests at all. */
  function History(exec: Executor, steps: seq<Step>, approvalRequired: bool, data: Data, rs: seq<Request>): RunState {
    ApplyAll(exec, steps, ExecuteSteps(exec, steps, NewRun(approvalRequired), data, []), rs)
  }

  // ---- the engine itself ----

  /** A run record with its execution log, pending approvals and committed side effects. */
  class WorkflowRun {
    const steps: seq<Step>
    const exec: Executor
    var approvalRequired: bool
    var status: RunStatus
    var current: nat
    var log: seq<Execution>
    var progress: seq<Progress>
    var approvals: seq<Approval>
    var commits: seq<Commit>
    var made: set<CommitKind>

    ghost function View(): RunState
      reads this
    {
      RunState(approvalRequired, status, current, log, progress, approvals, commits, made)
    }

    constructor (steps: seq<Step>, exec: Executor, approvalRequired: bool)
      ensures this.steps == steps && this.exec == exec
      ensures View() == NewRun(approvalRequired)
    {
      this.steps, this.exec, this.approvalRequired := steps, exec, approvalRequired;
      status, current, log, progress, approvals, commits, made := Analyzing, 1, [], [], [], [], {};
    }

    /** Create the run's data from the request and execute; an invalid request raises before the run exists. */
    method Start(raw: Value, input: Data)
      requires View() == NewRun(approvalRequired)
      modifies this
      ensures View() ==
        match Normalized(raw)
        case Err(_) => old(View())
        case Ok(keys) => History(exec, steps, old(approvalRequired), input[OUTPUTS_FIELD := AsValue(keys)], [])
    {
      var keys := NormalizeGenerationOutputs(raw);
      if keys.Ok? {
        Run(input[OUTPUTS_FIELD := AsValue(keys.value)]);
      }
    }

    method Run(input: Data)
      modifies this
      ensures View() == ExecuteSteps(exec, steps, old(View()), input, [])
    {
      var keys := NormalizeGenerationOutputs(RawRequest(input));
      if keys.Err? {
        return;
      }
      RunFrom(From(steps, current), input, KeySet(keys.value));
    }

    /** The loop over the steps. */
    method RunFrom(first: nat, input: Data, requested: set<string>)
      requires first <= |steps|
      modifies this
      ensures View() == ExecuteFrom(exec, steps, old(View()), first, input, requested, [])
    {
      var i, data := first, input;
      while i < |steps|
        invariant i <= |steps|
        invariant ExecuteFrom(exec, steps, View(), i, data, requested, [])
               == ExecuteFrom(exec, steps, old(View()), first, input, requested, [])
      {
        ghost var turn := TakeStep(exec, View(), steps[i], data, requested, []);
        var halt;
        data, halt := RunStep(steps[i], data, requested);
        assert Turn(View(), data, halt, []) == turn;
        if halt {
          return;
        }
        i := i + 1;
      }
      status := Completed;
    }

    /** The body of the loop over the steps. */
    method RunStep(step: Step, data: Data, requested: set<string>) returns (next: Data, halt: bool)
      modifies this
      ensures Turn(View(), next, halt, []) == TakeStep(exec, old(View()), step, data, requested, [])
    {
      next, halt := data, false;
      if ShouldSkip(step.kind, requested) {
        progress := progress + [SkippedByRequest(step.order)];
        current := step.order + 1;
        return;
      }
      var k := |log|;
      progress := progress + [Ran(step.order)];
      var outcome := Execute(exec, step, data);
      log := log + [Row(step, Running, data, None)];
      if outcome.NeedsCommit? {
        outcome := CommitStep(k, data, outcome.kind, outcome.commit);
      }
      next, halt := RecordOutcome(step, data, outcome);
    }

    /** What a turn writes once the outcome is known: the row of the execution, and where the run stands. */
    method RecordOutcome(step: Step, data: Data, outcome: Outcome) returns (next: Data, halt: bool)
      requires log != []
      modifies this`log, this`status, this`current, this`progress
      ensures
        var before := old(View()).(log := old(log)[..|old(log)| - 1]);
        Turn(View(), next, halt, []) ==
          match outcome
          case NeedsCommit(_, _) =>
            Turn(before.(log := before.log + [Row(step, Awaiting, data, None)], status := AwaitingApproval),
                 data, true, [])
          case Done(output) => Succeed(before, step, data, output, [])
          case GaveUp =>
            Turn(before.(log := before.log + [Row(step, Skipped, data, None)], current := step.order + 1,
                         progress := before.progress + [SkippedAfterRetries(step.order)]), data, false, [])
          case Failure => Break(before, step, data, [])
    {
      next, halt := data, false;
      var k := |log| - 1;
      match outcome {
        case NeedsCommit(_, _) =>
          log := log[k := Row(step, Awaiting, data, None)];
          status := AwaitingApproval;
          halt := true;
        case Done(output) =>
          log := log[k := Row(step, Succeeded, data, output)];
          if step.kind.AwaitConfirmation? {
            status := AwaitingUser;
            current := step.order + 1;
            halt := true;
          } else {
            next := OrElse(output, data);
          }
        case GaveUp =>
          log := log[k := Row(step, Skipped, data, None)];
          progress := progress + [SkippedAfterRetries(step.order)];
          current := step.order + 1;
        case Failure =>
          log := log[k := Row(step, Broken, data, None)];
          status := Failed;
          halt := true;
      }
    }

    /**
      The approval gate: with approval required the commit is parked in a
      pending record, otherwise it happens now.
     */
    method RequestExternalCommit(execution: Option<nat>, kind: CommitKind, commit: CommitResult) returns (paused: bool)
      modifies this`approvals, this`commits
      ensures paused == approvalRequired
      ensures approvals == old(approvals) + if paused then [Approval(execution, kind, Pending)] else []
      ensures commits == old(commits) +
        if paused || commit.CommitRaised? then []
        else [if execution.Some? then Direct(execution.value) else Beside(kind)]
    {
      if approvalRequired {
        approvals := approvals + [Approval(execution, kind, Pending)];
        return true;
      }
      if commit.Committed? {
        commits := commits + [if execution.Some? then Direct(execution.value) else Beside(kind)];
      }
      return false;
    }

    /** The executor of execution k commits. Unless it has to wait, it records the result and adds to the output. */
    method CommitStep(k: nat, data: Data, kind: CommitKind, commit: CommitResult) returns (outcome: Outcome)
      modifies this`approvals, this`commits, this`made
      ensures approvalRequired ==>
        && outcome == NeedsCommit(kind, commit) && commits == old(commits) && made == old(made)
        && approvals == old(approvals) + [Approval(Some(k), kind, Pending)]
      ensures !approvalRequired ==> approvals == old(approvals)
      ensures !approvalRequired && commit.CommitRaised? ==>
        outcome == Failure && commits == old(commits) && made == old(made)
      ensures !approvalRequired && commit.Committed? ==>
        && outcome == Done(Some(DirectOutput(data, commit.output, commit.added)))
        && commits == old(commits) + [Direct(k)] && made == Made(old(made), kind)
    {
      var paused := RequestExternalCommit(Some(k), kind, commit);
      if paused {
        return NeedsCommit(kind, commit);
      }
      if commit.CommitRaised? {
        return Failure;
      }
      made := Made(made, kind);
      var out := if commit.output == map[] then data else commit.output;
      return Done(Some(out + commit.added));
    }

    /** The user continues a paused run, possibly with values of their own. */
    method ResumeWorkflow(extra: Data)
      modifies this
      ensures View() == Resume(exec, steps, old(View()), extra)
    {
      if status.AwaitingUser? {
        ResumeUnguarded(extra);
      }
    }

    /** The resume that `confirm_columns` and the fallbacks of two other actions reach in any status. */
    method ResumeUnguarded(extra: Data)
      modifies this
      ensures View() == ResumeAnyway(exec, steps, old(View()), extra)
    {
      var k := LastSucceeded(log);
      if k == |log| {
        Run(map[] + extra);
      } else if log[k].output.Some? {
        Run(log[k].output.value + extra);
      }
    }

    /** The gate's part of a decision: a pending record is rejected, or committed and approved. */
    method ResolvePending(id: nat, reject: bool, commit: CommitResult) returns (resolved: bool)
      modifies this`approvals, this`commits
      ensures resolved == (id < |old(approvals)| && old(approvals)[id].status.Pending? && (reject || commit.Committed?))
      ensures approvals ==
        if resolved then old(approvals)[id := old(approvals)[id].(status := if reject then Rejected else Approved)]
        else old(approvals)
      ensures commits == old(commits) + if resolved && !reject then [ForApproval(id)] else []
    {
      if id >= |approvals| || !approvals[id].status.Pending? {
        return false;
      }
      if reject {
        approvals := approvals[id := approvals[id].(status := Rejected)];
        return true;
      }
      if commit.CommitRaised? {
        return false;
      }
      commits := commits + [ForApproval(id)];
      approvals := approvals[id := approvals[id].(status := Approved)];
      return true;
    }

    /** The engine's part: the record's execution, the run, and the steps behind. */
    method ResolveExternalApproval(id: nat, reject: bool, commit: CommitResult)
      modifies this
      ensures View() == if reject then Reject(old(View()), id) else Approve(exec, steps, old(View()), id, commit)
    {
      var resolved := ResolvePending(id, reject, commit);
      if !resolved {
        return;
      }
      if reject {
        FailRun(approvals[id]);
      } else {
        ContinueRun(approvals[id], commit.output);
      }
    }

    method FailRun(record: Approval)
      modifies this
      ensures
        var was := old(View()).(status := Failed);
        View() == if !OfStep(record, was.log) then was
                  else var k := record.execution.value;
                       was.(log := was.log[k := was.log[k].(status := Broken)])
    {
      status := Failed;
      if OfStep(record, log) {
        var k := record.execution.value;
        log := log[k := log[k].(status := Broken)];
      }
    }

    method ContinueRun(record: Approval, output: Data)
      modifies this
      ensures View() == Continue(exec, steps, old(View()), record, output)
    {
      if OfStep(record, log) {
        var k := record.execution.value;
        var row := log[k].(status := Succeeded, output := Some(output));
        log, status, current, made := log[k := row], Analyzing, row.order + 1, Made(made, record.kind);
        assert View() == old(View()).(log := log, status := status, current := current, made := made);
        Run(output);
      }
    }

    /** The action `create_decisions`: without decision nodes in the analysis it resumes the run instead. */
    method HandleCreateDecisions(hasNodes: bool, commit: CommitResult)
      modifies this
      ensures View() ==
        if hasNodes then DecisionsFromAnalysis(old(View()), commit) else ResumeAnyway(exec, steps, old(View()), map[])
    {
      if !hasNodes {
        ResumeUnguarded(map[]);
        return;
      }
      if DecisionsKind in made {
        return;
      }
      var paused := RequestExternalCommit(None, DecisionsKind, commit);
      if !paused && commit.Committed? {
        made := made + {DecisionsKind};
      }
    }

    /** The action `create_tasks`: without recommended tasks in the analysis it resumes the run instead. */
    method HandleCreateTasks(hasTasks: bool, review: Review, commit: CommitResult)
      modifies this
      ensures View() ==
        if hasTasks then TasksFromAnalysis(old(View()), review, commit)
        else ResumeAnyway(exec, steps, old(View()), map[])
    {
      if !hasTasks {
        ResumeUnguarded(map[]);
        return;
      }
      if TasksKind in made || review.Unreviewed? || review.AllExcluded? {
        return;
      }
      var paused := RequestExternalCommit(None, TasksKind, commit);
      if !paused && commit.Committed? {
        made := made + {TasksKind};
        status := Completed;
      }
    }

    /** The follow-up chat forwards messages. */
    method HandleForward(commit: CommitResult)
      modifies this
      ensures View() == ForwardFromChat(old(View()), commit)
    {
      if status.AwaitingUser? {
        var _ := RequestExternalCommit(None, ForwardKind, commit);
      }
    }

    /** The action `generate_miro`, down to the end of its background task. */
    method HandleGenerateBoard(generated: bool)
      modifies this
      ensures View() == BoardOnRequest(old(View()), generated)
    {
      if BoardKind in made || !generated {
        return;
      }
      var settled := PendingBoards(approvals);
      ghost var before := approvals;
      for i := 0 to |approvals|
        invariant |approvals| == |before| && View() == old(View()).(approvals := approvals)
        invariant forall j :: 0 <= j < |before| ==>
          approvals[j] == if j < i then SettleBoards(before)[j] else before[j]
      {
        if WaitsForBoard(approvals[i]) {
          approvals := approvals[i := approvals[i].(status := Approved)];
        }
      }
      assert approvals == SettleBoards(before);
      made := made + {BoardKind};
      commits := commits + [Generated(settled)];
    }
  }
}

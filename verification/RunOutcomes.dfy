/**
  What became of every step that a history ran, told from what its executor
  returned and from what was decided about its approval record: when an
  execution is completed, skipped, failed or left waiting, and what a failure
  does to the run (backend/agent/services.py, _execute_steps).
 */
module RunOutcomes {
  import opened Common
  import opened GenerationOutputs
  import opened WorkflowEngine
  import opened WorkflowRuns
  import opened SideCommits

  /** What the executor of a row's step returned on the row's input; None if no step has the row's order. */
  function OutcomeOf(exec: Executor, steps: seq<Step>, row: Execution): Option<Outcome> {
    var i := From(steps, row.order);
    if i < |steps| && steps[i].order == row.order then Some(Execute(exec, steps[i], row.input)) else None
  }

  /** The row of an execution that did not have to wait for an approval. */
  ghost predicate AtOnce(outcome: Outcome, row: Execution) {
    match outcome
    case Done(output) => row.status.Succeeded? && row.output == output
    case NeedsCommit(_, commit) =>
      if commit.CommitRaised? then row.status.Broken?
      else row.status.Succeeded? && row.output == Some(OrElse(Some(commit.output), row.input) + commit.added)
    case GaveUp => row.status.Skipped?
    case Failure => row.status.Broken?
  }

  /** The status of an execution whose commit was parked in the given record. */
  predicate Parks(record: Approval, committed: bool, status: ExecutionStatus) {
    match record.status
    case Pending => status.Awaiting?
    case Rejected => status.Broken?
    case Approved => if committed then status.Succeeded? else status.Awaiting?
  }

  /** Some record belongs to execution k. */
  ghost predicate HasRecord(approvals: seq<Approval>, k: nat) {
    exists id :: 0 <= id < |approvals| && approvals[id].execution == Some(k)
  }

  ghost predicate RowTrue(exec: Executor, steps: seq<Step>, st: RunState, k: nat)
    requires k < |st.log|
  {
    var outcome := OutcomeOf(exec, steps, st.log[k]);
    outcome.Some? && (!HasRecord(st.approvals, k) ==> AtOnce(outcome.value, st.log[k]))
  }

  ghost predicate RecordTrue(exec: Executor, steps: seq<Step>, st: RunState, id: nat)
    requires id < |st.approvals|
  {
    var record := st.approvals[id];
    record.execution.Some? ==>
      && record.execution.value < |st.log|
      && var row := st.log[record.execution.value];
      && OutcomeOf(exec, steps, row).Some? && OutcomeOf(exec, steps, row).value.NeedsCommit?
      && Parks(record, ForApproval(id) in st.commits, row.status)
  }

  ghost predicate UniqueRecords(approvals: seq<Approval>) {
    forall i, j :: 0 <= i < j < |approvals| && approvals[i].execution.Some? ==>
      approvals[i].execution != approvals[j].execution
  }

  /** Every row tells what became of its step, and has one record at most. */
  ghost predicate LogTrue(exec: Executor, steps: seq<Step>, st: RunState) {
    && (forall k :: 0 <= k < |st.log| ==> RowTrue(exec, steps, st, k))
    && (forall id :: 0 <= id < |st.approvals| ==> RecordTrue(exec, steps, st, id))
    && UniqueRecords(st.approvals)
  }

  // ---- one turn ----

  lemma {:induction false} TurnRow(exec: Executor, st: RunState, step: Step, data: Data, requested: set<string>,
      extras: seq<Data>)
    requires !ShouldSkip(step.kind, requested)
    ensures
      var t, n, outcome := TakeStep(exec, st, step, data, requested, extras).st, |st.log|, Execute(exec, step, data);
      && |t.log| == n + 1 && t.log[n].order == step.order && t.log[n].input == data
      && (|| (t.approvals == st.approvals && AtOnce(outcome, t.log[n]))
          || (|t.approvals| == |st.approvals| + 1
              && t.approvals[|st.approvals|].execution == Some(n) && t.approvals[|st.approvals|].status.Pending?
              && outcome.NeedsCommit? && t.log[n].status.Awaiting?))
  {
  }

  /** A turn's commits settle no record. */
  lemma {:induction false} TurnApprovesNothing(exec: Executor, st: RunState, step: Step, data: Data,
      requested: set<string>, extras: seq<Data>, id: nat)
    ensures ForApproval(id) in TakeStep(exec, st, step, data, requested, extras).st.commits <==>
            ForApproval(id) in st.commits
  {
  }

  /** A failing step ends the run, one that gives up does not. */
  lemma {:induction false} FailureHalts(exec: Executor, st: RunState, step: Step, data: Data, requested: set<string>)
    requires !ShouldSkip(step.kind, requested)
    ensures
      var turn, n := TakeStep(exec, st, step, data, requested, []), |st.log|;
      && |turn.st.log| == n + 1
      && (turn.st.log[n].status.Broken? <==> turn.halt && turn.st.status.Failed?)
      && (turn.st.log[n].status.Skipped? ==> !turn.halt && turn.data == data)
      && (turn.halt ==> !turn.st.log[n].status.Skipped?)
      && (!turn.halt ==> turn.st.status == st.status)
  {
  }

  lemma {:induction false} StepOf(exec: Executor, steps: seq<Step>, i: nat, row: Execution)
    requires Sorted(steps) && i < |steps| && row.order == steps[i].order
    ensures OutcomeOf(exec, steps, row) == Some(Execute(exec, steps[i], row.input))
  {
    FromIs(steps, row.order, i);
  }

  /** Records of earlier executions say what they said. */
  lemma {:induction false} EarlierRecords(exec: Executor, steps: seq<Step>, st: RunState, t: RunState)
    requires LogTrue(exec, steps, st) && st.log <= t.log && st.approvals <= t.approvals
    requires forall id: nat :: ForApproval(id) in t.commits <==> ForApproval(id) in st.commits
    ensures forall id :: 0 <= id < |st.approvals| ==> RecordTrue(exec, steps, t, id)
  {
    forall id | 0 <= id < |st.approvals|
      ensures RecordTrue(exec, steps, t, id)
    {
      assert RecordTrue(exec, steps, st, id);
    }
  }

  lemma {:induction false} TurnTellsTruth(exec: Executor, steps: seq<Step>, st: RunState, i: nat, data: Data,
      requested: set<string>, extras: seq<Data>)
    requires i < |steps| && Sorted(steps) && LogTrue(exec, steps, st)
    ensures LogTrue(exec, steps, TakeStep(exec, st, steps[i], data, requested, extras).st)
  {
    var t, n := TakeStep(exec, st, steps[i], data, requested, extras).st, |st.log|;
    forall id: nat
      ensures ForApproval(id) in t.commits <==> ForApproval(id) in st.commits
    {
      TurnApprovesNothing(exec, st, steps[i], data, requested, extras, id);
    }
    TurnGrows(exec, st, steps[i], data, requested, extras);
    EarlierRecords(exec, steps, st, t);
    if ShouldSkip(steps[i].kind, requested) {
      assert t.log == st.log && t.approvals == st.approvals;
      assert forall k :: 0 <= k < n ==> RowTrue(exec, steps, st, k) ==> RowTrue(exec, steps, t, k);
    } else {
      TurnRow(exec, st, steps[i], data, requested, extras);
      StepOf(exec, steps, i, t.log[n]);
      NewRow(exec, steps, st, t);
    }
  }

  /** One more row, with or without a record. */
  lemma {:induction false} NewRow(exec: Executor, steps: seq<Step>, st: RunState, t: RunState)
    requires LogTrue(exec, steps, st) && |t.log| == |st.log| + 1 && st.log <= t.log && st.approvals <= t.approvals
    requires forall id :: 0 <= id < |st.approvals| ==> RecordTrue(exec, steps, t, id)
    requires forall id: nat :: ForApproval(id) in t.commits <==> ForApproval(id) in st.commits
    requires OutcomeOf(exec, steps, t.log[|st.log|]).Some?
    requires
      var outcome, row := OutcomeOf(exec, steps, t.log[|st.log|]).value, t.log[|st.log|];
      || (t.approvals == st.approvals && AtOnce(outcome, row))
      || (|t.approvals| == |st.approvals| + 1
          && t.approvals[|st.approvals|].execution == Some(|st.log|) && t.approvals[|st.approvals|].status.Pending?
          && outcome.NeedsCommit? && row.status.Awaiting?)
    ensures LogTrue(exec, steps, t)
  {
    forall k | 0 <= k < |t.log|
      ensures RowTrue(exec, steps, t, k)
    {
      if k < |st.log| {
        assert RowTrue(exec, steps, st, k);
        SameRecords(st.approvals, t.approvals, k);
      } else if t.approvals != st.approvals {
        assert t.approvals[|st.approvals|].execution == Some(k);
      }
    }
    NewRecord(exec, steps, st, t);
  }

  lemma {:induction false} NewRecord(exec: Executor, steps: seq<Step>, st: RunState, t: RunState)
    requires LogTrue(exec, steps, st) && st.approvals <= t.approvals && |t.approvals| <= |st.approvals| + 1
    requires |t.approvals| > |st.approvals| && t.approvals[|st.approvals|].execution.Some? ==>
      t.approvals[|st.approvals|].execution.value >= |st.log|
    ensures UniqueRecords(t.approvals)
  {
    forall i, j | 0 <= i < j < |t.approvals| && t.approvals[i].execution.Some?
      ensures t.approvals[i].execution != t.approvals[j].execution
    {
      assert RecordTrue(exec, steps, st, i);
    }
  }

  lemma {:induction false} ExecuteTellsTruth(exec: Executor, steps: seq<Step>, st: RunState, i: nat, data: Data,
      requested: set<string>)
    requires i <= |steps| && Sorted(steps) && LogTrue(exec, steps, st)
    ensures LogTrue(exec, steps, ExecuteFrom(exec, steps, st, i, data, requested, []))
    decreases |steps| - i
  {
    if i < |steps| {
      var turn := TakeStep(exec, st, steps[i], data, requested, []);
      TurnTellsTruth(exec, steps, st, i, data, requested, []);
      TurnData(exec, st, steps[i], data, requested);
      if !turn.halt {
        ExecuteTellsTruth(exec, steps, turn.st, i + 1, turn.data, requested);
      }
    } else {
      SameLogTrue(exec, steps, st, st.(status := Completed));
    }
  }

  /** Position, status, progress and other commits make no difference. */
  lemma {:induction false} SameLogTrue(exec: Executor, steps: seq<Step>, st: RunState, t: RunState)
    requires LogTrue(exec, steps, st) && t.log == st.log && t.approvals == st.approvals
    requires forall id: nat :: ForApproval(id) in t.commits <==> ForApproval(id) in st.commits
    ensures LogTrue(exec, steps, t)
  {
    forall k | 0 <= k < |t.log|
      ensures RowTrue(exec, steps, t, k)
    {
      assert RowTrue(exec, steps, st, k);
    }
    EarlierRecords(exec, steps, st, t);
  }

  lemma {:induction false} ExecuteStepsTellsTruth(exec: Executor, steps: seq<Step>, st: RunState, data: Data)
    requires Sorted(steps) && LogTrue(exec, steps, st)
    ensures LogTrue(exec, steps, ExecuteSteps(exec, steps, st, data, []))
  {
    if Requested(data).Ok? {
      ExecuteTellsTruth(exec, steps, st, From(steps, st.current), data, Requested(data).value);
    }
  }

  // ---- decisions on records ----

  ghost predicate SameExecutions(a: seq<Approval>, b: seq<Approval>) {
    |a| == |b| && forall id :: 0 <= id < |a| ==> a[id].execution == b[id].execution
  }

  lemma {:induction false} SameRecords(a: seq<Approval>, b: seq<Approval>, k: nat)
    requires |a| <= |b| && forall id :: 0 <= id < |a| ==> a[id].execution == b[id].execution
    ensures HasRecord(a, k) ==> HasRecord(b, k)
  {
    if HasRecord(a, k) {
      var id :| 0 <= id < |a| && a[id].execution == Some(k);
      assert b[id].execution == Some(k);
    }
  }

  /** Rows without a record that stay as they are still tell what became of their steps. */
  lemma {:induction false} RowsHold(exec: Executor, steps: seq<Step>, st: RunState, t: RunState)
    requires LogTrue(exec, steps, st) && SameExecutions(st.approvals, t.approvals) && |t.log| == |st.log|
    requires forall k :: 0 <= k < |st.log| ==> t.log[k].order == st.log[k].order && t.log[k].input == st.log[k].input
    requires forall k :: 0 <= k < |st.log| ==> t.log[k] == st.log[k] || HasRecord(st.approvals, k)
    ensures forall k :: 0 <= k < |t.log| ==> RowTrue(exec, steps, t, k)
    ensures UniqueRecords(t.approvals)
  {
    forall k | 0 <= k < |t.log|
      ensures RowTrue(exec, steps, t, k)
    {
      assert RowTrue(exec, steps, st, k);
      SameRecords(st.approvals, t.approvals, k);
    }
  }

  /** Nothing but record `id`, and the row of its execution, has changed. */
  ghost predicate OnlyDecides(st: RunState, t: RunState, id: nat) {
    && id < |st.approvals| && SameExecutions(st.approvals, t.approvals) && |t.log| == |st.log|
    && (forall i :: 0 <= i < |st.approvals| && i != id ==> t.approvals[i] == st.approvals[i])
    && (forall i: nat :: i != id ==> (ForApproval(i) in t.commits <==> ForApproval(i) in st.commits))
    && (forall k :: 0 <= k < |st.log| ==> t.log[k].order == st.log[k].order && t.log[k].input == st.log[k].input)
    && (forall k :: 0 <= k < |st.log| && st.approvals[id].execution != Some(k) ==> t.log[k] == st.log[k])
  }

  /** The row of a record is decided with it, and no other row or record changes. */
  lemma {:induction false} Decided(exec: Executor, steps: seq<Step>, st: RunState, t: RunState, id: nat)
    requires LogTrue(exec, steps, st) && OnlyDecides(st, t, id)
    requires st.approvals[id].execution.Some? && st.approvals[id].execution.value < |st.log| ==>
      Parks(t.approvals[id], ForApproval(id) in t.commits, t.log[st.approvals[id].execution.value].status)
    ensures LogTrue(exec, steps, t)
  {
    RowsHold(exec, steps, st, t);
    forall i | 0 <= i < |t.approvals|
      ensures RecordTrue(exec, steps, t, i)
    {
      assert RecordTrue(exec, steps, st, i);
      assert i != id && st.approvals[i].execution.Some? ==> st.approvals[i].execution != st.approvals[id].execution;
    }
  }

  lemma {:induction false} PendingNotCommitted(st: RunState, id: nat)
    requires LedgerOk(st) && id < |st.approvals| && st.approvals[id].status.Pending?
    ensures ForApproval(id) !in st.commits
  {
    assert CommitsFor(st.commits, id) == CommitsDue(st.approvals, id) == 0;
    if ForApproval(id) in st.commits {
      CommitsForIn(st.commits, ForApproval(id), id);
    }
  }

  lemma {:induction false} GrantDecides(st: RunState, id: nat, output: Data)
    requires id < |st.approvals| && StepWaits(st.approvals[id]) && st.approvals[id].execution.value < |st.log|
    ensures
      var t := Granted(st, id, output);
      && OnlyDecides(st, t, id)
      && Parks(t.approvals[id], ForApproval(id) in t.commits, t.log[st.approvals[id].execution.value].status)
  {
  }

  lemma {:induction false} ApproveBesideDecides(exec: Executor, steps: seq<Step>, st: RunState, id: nat,
      commit: CommitResult)
    requires id < |st.approvals| && st.approvals[id].status.Pending? && st.approvals[id].execution.None?
    requires commit.Committed?
    ensures OnlyDecides(st, Approve(exec, steps, st, id, commit), id)
  {
  }

  lemma {:induction false} RejectDecides(st: RunState, id: nat)
    requires id < |st.approvals| && st.approvals[id].status.Pending?
    requires st.approvals[id].execution.Some? ==> st.approvals[id].execution.value < |st.log|
    ensures
      var t := Reject(st, id);
      && OnlyDecides(st, t, id)
      && (st.approvals[id].execution.Some? ==>
            Parks(t.approvals[id], ForApproval(id) in t.commits, t.log[st.approvals[id].execution.value].status))
  {
  }

  lemma {:induction false} ApproveTellsTruth(exec: Executor, steps: seq<Step>, st: RunState, id: nat,
      commit: CommitResult)
    requires Sorted(steps) && LogTrue(exec, steps, st)
    ensures LogTrue(exec, steps, Approve(exec, steps, st, id, commit))
  {
    if id < |st.approvals| && st.approvals[id].status.Pending? && commit.Committed? {
      assert RecordTrue(exec, steps, st, id);
      if st.approvals[id].execution.Some? {
        GrantDecides(st, id, commit.output);
        Decided(exec, steps, st, Granted(st, id, commit.output), id);
        ApproveGrants(exec, steps, st, id, commit);
        ExecuteStepsTellsTruth(exec, steps, Granted(st, id, commit.output), commit.output);
      } else {
        ApproveBesideDecides(exec, steps, st, id, commit);
        Decided(exec, steps, st, Approve(exec, steps, st, id, commit), id);
      }
    }
  }

  lemma {:induction false} RejectTellsTruth(exec: Executor, steps: seq<Step>, st: RunState, id: nat)
    requires LogTrue(exec, steps, st)
    ensures LogTrue(exec, steps, Reject(st, id))
  {
    if id < |st.approvals| && st.approvals[id].status.Pending? {
      assert RecordTrue(exec, steps, st, id);
      RejectDecides(st, id);
      Decided(exec, steps, st, Reject(st, id), id);
    }
  }

  lemma {:induction false} SettledRecord(exec: Executor, steps: seq<Step>, st: RunState, t: RunState, id: nat)
    requires LedgerOk(st) && LogTrue(exec, steps, st) && id < |st.approvals| == |t.approvals| && t.log == st.log
    requires t.approvals[id] == if WaitsForBoard(st.approvals[id]) then st.approvals[id].(status := Approved)
                                else st.approvals[id]
    requires ForApproval(id) in t.commits <==> ForApproval(id) in st.commits
    ensures RecordTrue(exec, steps, t, id)
  {
    assert RecordTrue(exec, steps, st, id);
    if st.approvals[id].status.Pending? {
      PendingNotCommitted(st, id);
    }
  }

  lemma {:induction false} BoardTellsTruth(exec: Executor, steps: seq<Step>, st: RunState)
    requires LedgerOk(st) && LogTrue(exec, steps, st)
    ensures LogTrue(exec, steps, BoardOnRequest(st, true))
  {
    var t := BoardOnRequest(st, true);
    if BoardKind !in st.made {
      RowsHold(exec, steps, st, t);
      forall id | 0 <= id < |t.approvals|
        ensures RecordTrue(exec, steps, t, id)
      {
        SettledRecord(exec, steps, st, t, id);
      }
    }
  }

  lemma {:induction false} CommitBesideTellsTruth(exec: Executor, steps: seq<Step>, st: RunState, kind: CommitKind,
      commit: CommitResult)
    requires LogTrue(exec, steps, st)
    ensures LogTrue(exec, steps, CommitBeside(st, kind, commit))
  {
    var t := CommitBeside(st, kind, commit);
    forall k | 0 <= k < |t.log|
      ensures RowTrue(exec, steps, t, k)
    {
      assert RowTrue(exec, steps, st, k);
      SameRecords(st.approvals, t.approvals, k);
    }
    EarlierRecords(exec, steps, st, t);
    NewRecord(exec, steps, st, t);
  }

  lemma {:induction false} TasksTellTruth(exec: Executor, steps: seq<Step>, st: RunState, review: Review,
      commit: CommitResult)
    requires LogTrue(exec, steps, st)
    ensures LogTrue(exec, steps, TasksFromAnalysis(st, review, commit))
  {
    CommitBesideTellsTruth(exec, steps, st, TasksKind, commit);
    var u := CommitBeside(st, TasksKind, commit);
    SameLogTrue(exec, steps, u, u.(status := Completed));
  }

  lemma {:induction false} RequestTellsTruth(exec: Executor, steps: seq<Step>, st: RunState, r: Request)
    requires Inv(steps, st) && LogTrue(exec, steps, st)
    ensures LogTrue(exec, steps, Apply(exec, steps, st, r))
  {
    match r
    case ResumeRequest(extra) =>
      if st.status.AwaitingUser? && Stored(st.log).Some? {
        ExecuteStepsTellsTruth(exec, steps, st, Stored(st.log).value + extra);
      }
    case ApproveRequest(id, commit) => ApproveTellsTruth(exec, steps, st, id, commit);
    case RejectRequest(id) => RejectTellsTruth(exec, steps, st, id);
    case SetApprovalRequired(on) => SameLogTrue(exec, steps, st, st.(approvalRequired := on));
    case DecisionsRequest(commit) => CommitBesideTellsTruth(exec, steps, st, DecisionsKind, commit);
    case TasksRequest(review, commit) => TasksTellTruth(exec, steps, st, review, commit);
    case ForwardRequest(commit) => CommitBesideTellsTruth(exec, steps, st, ForwardKind, commit);
    case BoardRequest(generated) =>
      if generated {
        BoardTellsTruth(exec, steps, st);
      }
  }

  // ---- what ends a run, and what does not ----

  /** A failed row is the last; the run has failed and runs nothing any more, or tasks beside the steps completed it. */
  ghost predicate FailureEnds(st: RunState, tasks: bool) {
    forall k :: 0 <= k < |st.log| && st.log[k].status.Broken? ==>
      k == |st.log| - 1 && RanOut(st) && (st.status.Failed? || (tasks && st.status.Completed?))
  }

  /** If the last row was skipped after retries, no step is left to handle. */
  ghost predicate SkipGoesOn(steps: seq<Step>, st: RunState) {
    st.log != [] && st.log[|st.log| - 1].status.Skipped? ==> Cut(steps, st) == |steps|
  }

  ghost predicate NoneBroken(log: seq<Execution>) {
    forall k :: 0 <= k < |log| ==> !log[k].status.Broken?
  }

  /** A turn that halts leaves a last row that was not skipped, and one that goes on leaves none failed. */
  lemma {:induction false} TurnEnds(exec: Executor, st: RunState, step: Step, data: Data, requested: set<string>)
    requires NoStepWaits(st) && NoneBroken(st.log)
    ensures
      var turn := TakeStep(exec, st, step, data, requested, []);
      && turn.extras == []
      && (!turn.halt ==> NoneBroken(turn.st.log))
      && (turn.halt ==> FailureEnds(turn.st, false) && |turn.st.log| == |st.log| + 1
                        && !turn.st.log[|st.log|].status.Skipped?)
  {
    var turn := TakeStep(exec, st, step, data, requested, []);
    TurnData(exec, st, step, data, requested);
    TurnGrows(exec, st, step, data, requested, []);
    TurnRests(exec, st, step, data, requested, []);
    if !ShouldSkip(step.kind, requested) {
      FailureHalts(exec, st, step, data, requested);
    }
    if turn.halt {
      HaltEnds(st, turn);
    }
  }

  lemma {:induction false} ExecuteEnds(exec: Executor, steps: seq<Step>, st: RunState, i: nat, data: Data,
      requested: set<string>)
    requires i <= |steps| && Core(steps, st, i) && NoStepWaits(st) && NoneBroken(st.log)
    ensures
      var t := ExecuteFrom(exec, steps, st, i, data, requested, []);
      FailureEnds(t, false) && SkipGoesOn(steps, t)
    decreases |steps| - i
  {
    if i == |steps| {
      CutIs(steps, st, i);
    } else {
      var turn := TakeStep(exec, st, steps[i], data, requested, []);
      TurnEnds(exec, st, steps[i], data, requested);
      if !turn.halt {
        TurnTurns(exec, st, steps[i], data, requested, []);
        TurnKeeps(steps, st, i, turn);
        ExecuteEnds(exec, steps, turn.st, i + 1, turn.data, requested);
      }
    }
  }

  /** A run that halts at a failed row has failed; its other rows have not. */
  lemma {:induction false} HaltEnds(st: RunState, turn: Turn)
    requires NoneBroken(st.log) && NoStepWaits(st) && turn.halt && |turn.st.log| == |st.log| + 1
    requires st.log <= turn.st.log
    requires turn.st.log[|st.log|].status.Broken? ==> turn.st.status.Failed?
    requires turn.st.status.AwaitingApproval? || turn.st.approvals == st.approvals
    ensures FailureEnds(turn.st, false)
  {
  }

  lemma {:induction false} ExecuteStepsEnds(exec: Executor, steps: seq<Step>, st: RunState, data: Data)
    requires Core(steps, st, From(steps, st.current)) && NoStepWaits(st) && NoneBroken(st.log) && SkipGoesOn(steps, st)
    ensures
      var t := ExecuteSteps(exec, steps, st, data, []);
      FailureEnds(t, false) && SkipGoesOn(steps, t)
  {
    if Requested(data).Ok? {
      ExecuteEnds(exec, steps, st, From(steps, st.current), data, Requested(data).value);
    }
  }

  /** In a run that is at a confirmation, or waits for a step's record, nothing has failed. */
  lemma {:induction false} LiveMeansNoneBroken(st: RunState, tasks: bool)
    requires FailureEnds(st, tasks) && !RanOut(st)
    ensures NoneBroken(st.log)
  {
  }

  lemma {:induction false} ResumeEnds(exec: Executor, steps: seq<Step>, st: RunState, extra: Data, tasks: bool)
    requires Inv(steps, st) && FailureEnds(st, tasks) && SkipGoesOn(steps, st)
    ensures
      var t := Resume(exec, steps, st, extra);
      FailureEnds(t, tasks) && SkipGoesOn(steps, t)
  {
    if st.status.AwaitingUser? {
      StoredIsConfirmation(steps, st);
      LiveMeansNoneBroken(st, tasks);
      ExecuteStepsEnds(exec, steps, st, Stored(st.log).value + extra);
      assert Resume(exec, steps, st, extra) == ExecuteSteps(exec, steps, st, Stored(st.log).value + extra, []);
    }
  }

  lemma {:induction false} ApproveEnds(exec: Executor, steps: seq<Step>, st: RunState, id: nat, commit: CommitResult,
      tasks: bool)
    requires Inv(steps, st) && FailureEnds(st, tasks) && SkipGoesOn(steps, st)
    requires id < |st.approvals| && StepWaits(st.approvals[id]) && commit.Committed?
    ensures
      var t := Approve(exec, steps, st, id, commit);
      FailureEnds(t, tasks) && SkipGoesOn(steps, t)
  {
    PendingIsLast(steps, st, id);
    LiveMeansNoneBroken(st, tasks);
    GrantedCore(steps, st, id, commit.output);
    ApproveGrants(exec, steps, st, id, commit);
    ExecuteStepsEnds(exec, steps, Granted(st, id, commit.output), commit.output);
  }

  lemma {:induction false} RejectEnds(steps: seq<Step>, st: RunState, id: nat, tasks: bool)
    requires Inv(steps, st) && FailureEnds(st, tasks) && SkipGoesOn(steps, st)
    requires id < |st.approvals| && StepWaits(st.approvals[id])
    ensures FailureEnds(Reject(st, id), tasks) && SkipGoesOn(steps, Reject(st, id))
  {
    PendingIsLast(steps, st, id);
    LiveMeansNoneBroken(st, tasks);
    assert NoStepWaits(Reject(st, id));
  }

  lemma {:induction false} BesideLeaves(exec: Executor, steps: seq<Step>, st: RunState, r: Request)
    requires !r.ResumeRequest?
    requires (r.ApproveRequest? || r.RejectRequest?) && r.id < |st.approvals| ==> !StepWaits(st.approvals[r.id])
    ensures
      var t := Apply(exec, steps, st, r);
      && t.log == st.log && t.progress == st.progress
      && (t.status == st.status || t.status.Failed? || (r.TasksRequest? && t.status.Completed?))
  {
  }

  lemma {:induction false} LeftEnds(steps: seq<Step>, st: RunState, t: RunState, tasks: bool, more: bool)
    requires FailureEnds(st, tasks) && SkipGoesOn(steps, st) && t.log == st.log && t.progress == st.progress
    requires t.status == st.status || t.status.Failed? || (more && t.status.Completed?)
    requires RanOut(st) ==> RanOut(t)
    ensures FailureEnds(t, tasks || more) && SkipGoesOn(steps, t)
  {
  }

  /** The other requests write no row, and leave a failed run failed, or complete it with tasks. */
  lemma {:induction false} BesideEnds(exec: Executor, steps: seq<Step>, st: RunState, r: Request, tasks: bool)
    requires FailureEnds(st, tasks) && SkipGoesOn(steps, st) && !r.ResumeRequest?
    requires (r.ApproveRequest? || r.RejectRequest?) && r.id < |st.approvals| ==> !StepWaits(st.approvals[r.id])
    ensures
      var t := Apply(exec, steps, st, r);
      FailureEnds(t, tasks || r.TasksRequest?) && SkipGoesOn(steps, t)
  {
    BesideLeaves(exec, steps, st, r);
    if RanOut(st) {
      RequestRunsNothing(exec, steps, st, r);
    }
    LeftEnds(steps, st, Apply(exec, steps, st, r), tasks, r.TasksRequest?);
  }

  lemma {:induction false} RequestEnds(exec: Executor, steps: seq<Step>, st: RunState, r: Request, tasks: bool)
    requires Inv(steps, st) && FailureEnds(st, tasks) && SkipGoesOn(steps, st)
    ensures
      var t := Apply(exec, steps, st, r);
      FailureEnds(t, tasks || r.TasksRequest?) && SkipGoesOn(steps, t)
  {
    if r.ResumeRequest? {
      ResumeEnds(exec, steps, st, r.extra, tasks);
    } else if r.ApproveRequest? && r.id < |st.approvals| && StepWaits(st.approvals[r.id]) {
      if r.commit.Committed? {
        ApproveEnds(exec, steps, st, r.id, r.commit, tasks);
      }
    } else if r.RejectRequest? && r.id < |st.approvals| && StepWaits(st.approvals[r.id]) {
      RejectEnds(steps, st, r.id, tasks);
    } else {
      BesideEnds(exec, steps, st, r, tasks);
    }
  }

  // ---- over whole histories ----

  predicate HasTasksRequest(rs: seq<Request>) {
    exists i :: 0 <= i < |rs| && rs[i].TasksRequest?
  }

  lemma {:induction false} RequestsTell(exec: Executor, steps: seq<Step>, st: RunState, rs: seq<Request>, tasks: bool)
    requires Inv(steps, st) && LogTrue(exec, steps, st) && FailureEnds(st, tasks) && SkipGoesOn(steps, st)
    ensures
      var t := ApplyAll(exec, steps, st, rs);
      LogTrue(exec, steps, t) && FailureEnds(t, tasks || HasTasksRequest(rs)) && SkipGoesOn(steps, t)
    decreases |rs|
  {
    if rs != [] {
      var next := Apply(exec, steps, st, rs[0]);
      ApplyKeeps(exec, steps, st, rs[0]);
      RequestTellsTruth(exec, steps, st, rs[0]);
      RequestEnds(exec, steps, st, rs[0], tasks);
      RequestsTell(exec, steps, next, rs[1..], tasks || rs[0].TasksRequest?);
    }
  }

  lemma {:induction false} HistoryTells(exec: Executor, steps: seq<Step>, approvalRequired: bool, data: Data,
      rs: seq<Request>)
    requires Sorted(steps)
    ensures
      var st := History(exec, steps, approvalRequired, data, rs);
      LogTrue(exec, steps, st) && FailureEnds(st, HasTasksRequest(rs)) && SkipGoesOn(steps, st)
  {
    var blank := NewRun(approvalRequired);
    NewRunCore(steps, approvalRequired);
    HistoryKeeps(exec, steps, approvalRequired, data, []);
    ExecuteStepsTellsTruth(exec, steps, blank, data);
    ExecuteStepsEnds(exec, steps, blank, data);
    RequestsTell(exec, steps, ExecuteSteps(exec, steps, blank, data, []), rs, false);
  }

  /** A record of execution k has the given status. */
  ghost predicate RecordIs(approvals: seq<Approval>, k: nat, status: ApprovalStatus) {
    exists id :: 0 <= id < |approvals| && approvals[id].execution == Some(k) && approvals[id].status == status
  }

  /**
    Over every history, told from what the executor returned for a row's step
    and input: the row is skipped exactly if the executor gave up. It has
    failed exactly if the executor failed, its commit raised with nobody asked,
    or its record was rejected. It is completed, with the executor's output,
    whenever the executor is done.
   */
  lemma {:induction false} RowsTellOutcomes(exec: Executor, steps: seq<Step>, approvalRequired: bool, data: Data,
      rs: seq<Request>, k: nat)
    requires Sorted(steps) && k < |History(exec, steps, approvalRequired, data, rs).log|
    ensures
      var st := History(exec, steps, approvalRequired, data, rs);
      var row := st.log[k];
      && OutcomeOf(exec, steps, row).Some?
      && var outcome := OutcomeOf(exec, steps, row).value;
      && (row.status.Skipped? <==> outcome.GaveUp?)
      && (row.status.Broken? <==>
            || outcome.Failure? || RecordIs(st.approvals, k, Rejected)
            || (outcome.NeedsCommit? && outcome.commit.CommitRaised? && !HasRecord(st.approvals, k)))
      && (outcome.Done? ==> row.status.Succeeded? && row.output == outcome.output)
      && (RecordIs(st.approvals, k, Pending) ==> row.status.Awaiting?)
      && (row.status.Awaiting? ==> RecordIs(st.approvals, k, Pending) || RecordIs(st.approvals, k, Approved))
      && !row.status.Running?
  {
    HistoryTells(exec, steps, approvalRequired, data, rs);
    var st := History(exec, steps, approvalRequired, data, rs);
    assert RowTrue(exec, steps, st, k);
    if HasRecord(st.approvals, k) {
      var id :| 0 <= id < |st.approvals| && st.approvals[id].execution == Some(k);
      assert RecordTrue(exec, steps, st, id);
      assert RecordIs(st.approvals, k, st.approvals[id].status);
      assert forall i :: 0 <= i < |st.approvals| && st.approvals[i].execution == Some(k) ==> i == id;
    }
  }

  /**
    A failed row is the last one. The run has failed, unless tasks created from
    the analysis completed it afterwards, and no later request executes or
    skips a step.
   */
  lemma {:induction false} FailureIsTheEnd(exec: Executor, steps: seq<Step>, approvalRequired: bool, data: Data,
      rs: seq<Request>, k: nat, more: seq<Request>)
    requires Sorted(steps) && k < |History(exec, steps, approvalRequired, data, rs).log|
    requires History(exec, steps, approvalRequired, data, rs).log[k].status.Broken?
    ensures
      var st := History(exec, steps, approvalRequired, data, rs);
      var t := ApplyAll(exec, steps, st, more);
      && k == |st.log| - 1 && t.log == st.log && t.progress == st.progress
      && (st.status.Failed? || (st.status.Completed? && HasTasksRequest(rs)))
  {
    HistoryTells(exec, steps, approvalRequired, data, rs);
    NothingRunsAgain(exec, steps, History(exec, steps, approvalRequired, data, rs), more);
  }

  /** Behind a step that gave up the run goes on: the next step, if there is one, has been run or skipped on request. */
  lemma {:induction false} GivingUpGoesOn(exec: Executor, steps: seq<Step>, approvalRequired: bool, data: Data,
      rs: seq<Request>, k: nat, i: nat)
    requires Sorted(steps) && k < |History(exec, steps, approvalRequired, data, rs).log| && i + 1 < |steps|
    requires
      var row := History(exec, steps, approvalRequired, data, rs).log[k];
      row.status.Skipped? && row.order == steps[i].order
    ensures steps[i + 1].order in Handled(History(exec, steps, approvalRequired, data, rs).progress)
  {
    HistoryTells(exec, steps, approvalRequired, data, rs);
    HistoryKeeps(exec, steps, approvalRequired, data, rs);
    var st := History(exec, steps, approvalRequired, data, rs);
    var first, cut := From(steps, 1), Cut(steps, st);
    assert first <= i + 1 by {
      assert steps[i].order < steps[i + 1].order;
    }
    if k < |st.log| - 1 {
      NextRowIsHandled(exec, steps, st, k, i);
    }
    assert i + 1 < cut;
    assert Handled(st.progress)[i + 1 - first] == steps[i + 1].order;
  }

  lemma {:induction false} NextRowIsHandled(exec: Executor, steps: seq<Step>, st: RunState, k: nat, i: nat)
    requires Inv(steps, st) && LogTrue(exec, steps, st) && k + 1 < |st.log| && i + 1 < |steps|
    requires st.log[k].order == steps[i].order
    ensures i + 1 < Cut(steps, st)
  {
    var cut, m := Cut(steps, st), From(steps, st.log[k + 1].order);
    assert RowTrue(exec, steps, st, k + 1);
    assert m < |steps| && steps[m].order == st.log[k + 1].order;
    assert LogOrders(st.log)[k] < LogOrders(st.log)[k + 1];
    assert i < m;
  }

  /** One failing step: the run fails with it. */
  lemma {:induction false} OneFailure(exec: Executor)
    requires exec(Step(0, 1, AnalyzeData), map[]) == Failure
    ensures
      var step := Step(0, 1, AnalyzeData);
      var st := History(exec, [step], false, map[], []);
      st.status.Failed? && st.log == [Row(step, Broken, map[], None)]
  {
    FromIs([Step(0, 1, AnalyzeData)], 1, 0);
  }
}

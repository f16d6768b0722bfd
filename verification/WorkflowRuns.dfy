/**
  What every history of a workflow run keeps: steps are handled in order and at
  most once, and every side effect that waited for an approval is committed
  exactly when its record is approved.
 */
module WorkflowRuns {
  import opened Common
  import opened GenerationOutputs
  import opened WorkflowEngine

  function Orders(steps: seq<Step>): (s: seq<nat>)
    ensures |s| == |steps| && forall i :: 0 <= i < |steps| ==> s[i] == steps[i].order
  {
    seq(|steps|, i requires 0 <= i < |steps| => steps[i].order)
  }

  function LogOrders(log: seq<Execution>): (s: seq<nat>)
    ensures |s| == |log| && forall i :: 0 <= i < |log| ==> s[i] == log[i].order
  {
    seq(|log|, i requires 0 <= i < |log| => log[i].order)
  }

  /** The orders of the steps that were run or skipped on request, in the order in which that happened. */
  function Handled(progress: seq<Progress>): seq<nat> {
    if progress == [] then []
    else
      var n := |progress| - 1;
      Handled(progress[..n]) + if progress[n].SkippedAfterRetries? then [] else [progress[n].order]
  }

  /** The orders of the steps that were run. */
  function RanOrders(progress: seq<Progress>): seq<nat> {
    if progress == [] then []
    else
      var n := |progress| - 1;
      RanOrders(progress[..n]) + if progress[n].Ran? then [progress[n].order] else []
  }

  ghost predicate Increasing(s: seq<nat>) {
    forall i, j :: 0 <= i < j < |s| ==> s[i] < s[j]
  }

  /** Index of the first step that has not been handled. */
  function Cut(steps: seq<Step>, st: RunState): nat {
    From(steps, 1) + |Handled(st.progress)|
  }

  predicate Settles(c: Commit, id: nat) {
    match c
    case ForApproval(i) => i == id
    case Generated(settled) => id in settled
    case _ => false
  }

  /** How often the side effect of an approval record has been committed. */
  function CommitsFor(commits: seq<Commit>, id: nat): nat {
    if commits == [] then 0
    else
      var n := |commits| - 1;
      CommitsFor(commits[..n], id) + if Settles(commits[n], id) then 1 else 0
  }

  lemma {:induction false} CommitsAppend(commits: seq<Commit>, c: Commit, id: nat)
    ensures CommitsFor(commits + [c], id) == CommitsFor(commits, id) + if Settles(c, id) then 1 else 0
  {
    assert (commits + [c])[..|commits|] == commits;
  }

  /** Once if the record is approved, else never. */
  function CommitsDue(approvals: seq<Approval>, id: nat): nat {
    if id < |approvals| && approvals[id].status.Approved? then 1 else 0
  }

  ghost predicate LedgerOk(st: RunState) {
    && (forall id :: 0 <= id < |st.approvals| && st.approvals[id].execution.Some? ==>
          st.approvals[id].execution.value < |st.log|)
    && (forall id: nat :: CommitsFor(st.commits, id) == CommitsDue(st.approvals, id))
  }

  /** Holds between any two turns of the loop, with `cut` the next step. */
  ghost predicate Core(steps: seq<Step>, st: RunState, cut: nat) {
    && Sorted(steps)
    && From(steps, 1) <= cut <= |steps|
    && Handled(st.progress) == Orders(steps[From(steps, 1)..cut])
    && RanOrders(st.progress) == LogOrders(st.log)
    && Increasing(LogOrders(st.log))
    && (forall i, j :: 0 <= i < |st.log| && cut <= j < |steps| ==> st.log[i].order < steps[j].order)
    && LedgerOk(st)
  }

  /** A step's record waits for a decision. */
  predicate StepWaits(record: Approval) {
    record.execution.Some? && record.status.Pending?
  }

  ghost predicate NoStepWaits(st: RunState) {
    forall id :: 0 <= id < |st.approvals| ==> !StepWaits(st.approvals[id])
  }

  /** The last execution awaits an approval, and `cut` is the step behind it. */
  ghost predicate LastAwaits(steps: seq<Step>, st: RunState, cut: nat) {
    var n := |st.log|;
    n > 0 && st.log[n - 1].status.Awaiting? && From(steps, st.log[n - 1].order + 1) == cut
  }

  /** At most one step's record waits, and it belongs to the last execution. */
  ghost predicate RecordsOk(steps: seq<Step>, st: RunState, cut: nat) {
    && (forall id :: 0 <= id < |st.approvals| && StepWaits(st.approvals[id]) ==>
          st.approvals[id].execution.value == |st.log| - 1 && LastAwaits(steps, st, cut))
    && (forall i, j :: 0 <= i < j < |st.approvals| ==> !StepWaits(st.approvals[i]) || !StepWaits(st.approvals[j]))
  }

  /** What the status of a run at rest says about its records. */
  ghost predicate AtRest(steps: seq<Step>, st: RunState, cut: nat) {
    var n := |st.log|;
    && RecordsOk(steps, st, cut)
    && match st.status
       case AwaitingUser =>
         && NoStepWaits(st) && n > 0 && st.log[n - 1].kind.AwaitConfirmation? && st.log[n - 1].status.Succeeded?
         && st.log[n - 1].output.Some? && st.current == st.log[n - 1].order + 1 && From(steps, st.current) == cut
       case AwaitingApproval => LastAwaits(steps, st, cut)
       case Analyzing => NoStepWaits(st)
       case _ => true
  }

  ghost predicate Inv(steps: seq<Step>, st: RunState) {
    Core(steps, st, Cut(steps, st)) && AtRest(steps, st, Cut(steps, st))
  }

  lemma {:induction false} CutIs(steps: seq<Step>, st: RunState, cut: nat)
    requires Core(steps, st, cut)
    ensures Cut(steps, st) == cut
  {
    assert |Handled(st.progress)| == |steps[From(steps, 1)..cut]|;
  }

  lemma {:induction false} FromIs(steps: seq<Step>, order: nat, i: nat)
    requires Sorted(steps) && i <= |steps|
    requires i > 0 ==> steps[i - 1].order < order
    requires i < |steps| ==> order <= steps[i].order
    ensures From(steps, order) == i
  {
  }

  lemma {:induction false} RecordsAppend(p: seq<Progress>, e: Progress)
    ensures Handled(p + [e]) == Handled(p) + if e.SkippedAfterRetries? then [] else [e.order]
    ensures RanOrders(p + [e]) == RanOrders(p) + if e.Ran? then [e.order] else []
  {
    assert (p + [e])[..|p|] == p;
  }

  lemma {:induction false} TurnEvents(exec: Executor, st: RunState, step: Step, data: Data, requested: set<string>,
      extras: seq<Data>)
    ensures
      var p := TakeStep(exec, st, step, data, requested, extras).st.progress;
      var ran := st.progress + [Ran(step.order)];
      if ShouldSkip(step.kind, requested) then p == st.progress + [SkippedByRequest(step.order)]
      else p == ran || p == ran + [SkippedAfterRetries(step.order)]
  {
  }

  lemma {:induction false} TurnProgress(exec: Executor, st: RunState, step: Step, data: Data, requested: set<string>,
      extras: seq<Data>)
    ensures
      var p := TakeStep(exec, st, step, data, requested, extras).st.progress;
      && Handled(p) == Handled(st.progress) + [step.order]
      && RanOrders(p) == RanOrders(st.progress) + if ShouldSkip(step.kind, requested) then [] else [step.order]
  {
    TurnEvents(exec, st, step, data, requested, extras);
    EventsRecorded(st.progress, step.order);
  }

  lemma {:induction false} EventsRecorded(p: seq<Progress>, order: nat)
    ensures Handled(p + [SkippedByRequest(order)]) == Handled(p) + [order]
    ensures RanOrders(p + [SkippedByRequest(order)]) == RanOrders(p)
    ensures Handled(p + [Ran(order)]) == Handled(p) + [order]
    ensures RanOrders(p + [Ran(order)]) == RanOrders(p) + [order]
    ensures Handled(p + [Ran(order)] + [SkippedAfterRetries(order)]) == Handled(p) + [order]
    ensures RanOrders(p + [Ran(order)] + [SkippedAfterRetries(order)]) == RanOrders(p) + [order]
  {
    RecordsAppend(p, SkippedByRequest(order));
    RecordsAppend(p, Ran(order));
    RecordsAppend(p + [Ran(order)], SkippedAfterRetries(order));
  }

  lemma {:induction false} TurnLog(exec: Executor, st: RunState, step: Step, data: Data, requested: set<string>,
      extras: seq<Data>)
    ensures
      var t := TakeStep(exec, st, step, data, requested, extras).st;
      && (ShouldSkip(step.kind, requested) ==> t.log == st.log)
      && (!ShouldSkip(step.kind, requested) ==>
            |t.log| == |st.log| + 1 && t.log == st.log + [t.log[|st.log|]] && t.log[|st.log|].order == step.order)
  {
  }

  /** New executions, a new pending record and a commit that settles no record leave the ledger in balance. */
  lemma {:induction false} LedgerGrows(st: RunState, t: RunState, commit: Commit, record: Approval)
    requires LedgerOk(st) && |st.log| <= |t.log|
    requires t.commits == st.commits || (t.commits == st.commits + [commit] && (commit.Direct? || commit.Beside?))
    requires t.approvals == st.approvals || t.approvals == st.approvals + [record]
    requires record.status.Pending? && (record.execution.Some? && t.approvals != st.approvals ==>
      record.execution.value < |t.log|)
    ensures LedgerOk(t)
  {
    forall id: nat
      ensures CommitsFor(t.commits, id) == CommitsFor(st.commits, id)
      ensures CommitsDue(t.approvals, id) == CommitsDue(st.approvals, id)
    {
      CommitsAppend(st.commits, commit, id);
    }
  }

  /** What one turn does to the log and the progress events, in terms of the step's order alone. */
  ghost predicate Recorded(st: RunState, order: nat, turn: Turn) {
    var t := turn.st;
    && Handled(t.progress) == Handled(st.progress) + [order]
    && (|| (t.log == st.log && RanOrders(t.progress) == RanOrders(st.progress) && !turn.halt)
        || (|t.log| == |st.log| + 1 && t.log == st.log + [t.log[|st.log|]] && t.log[|st.log|].order == order
            && RanOrders(t.progress) == RanOrders(st.progress) + [order]))
  }

  /** What one turn does to the approvals, and the state in which a halting turn leaves the run. */
  ghost predicate Rested(st: RunState, order: nat, turn: Turn) {
    var t, n := turn.st, |st.log|;
    && (if turn.halt && t.status.AwaitingApproval?
        then Parked(st, t, n) && |t.log| == n + 1 && t.log[n].status.Awaiting?
        else t.approvals == st.approvals)
    && (turn.halt && t.status.AwaitingUser? ==>
          && |t.log| == n + 1 && t.log[n].kind.AwaitConfirmation? && t.log[n].status.Succeeded?
          && t.log[n].output.Some? && t.current == order + 1)
    && (turn.halt ==> !t.status.Completed? && !t.status.Analyzing?)
  }

  /** One more record, pending for execution n. */
  ghost predicate Parked(st: RunState, t: RunState, n: nat) {
    && |t.approvals| == |st.approvals| + 1
    && t.approvals == st.approvals + [t.approvals[|st.approvals|]]
    && t.approvals[|st.approvals|].execution == Some(n) && t.approvals[|st.approvals|].status.Pending?
  }

  ghost predicate Turned(st: RunState, order: nat, turn: Turn) {
    Recorded(st, order, turn) && Rested(st, order, turn) && (LedgerOk(st) ==> LedgerOk(turn.st))
  }

  lemma {:induction false} TurnRecords(exec: Executor, st: RunState, step: Step, data: Data, requested: set<string>,
      extras: seq<Data>)
    ensures Recorded(st, step.order, TakeStep(exec, st, step, data, requested, extras))
  {
    TurnProgress(exec, st, step, data, requested, extras);
    TurnLog(exec, st, step, data, requested, extras);
  }

  lemma {:induction false} TurnRests(exec: Executor, st: RunState, step: Step, data: Data, requested: set<string>,
      extras: seq<Data>)
    ensures Rested(st, step.order, TakeStep(exec, st, step, data, requested, extras))
  {
  }

  lemma {:induction false} TurnLedger(exec: Executor, st: RunState, step: Step, data: Data, requested: set<string>,
      extras: seq<Data>)
    requires LedgerOk(st)
    ensures LedgerOk(TakeStep(exec, st, step, data, requested, extras).st)
  {
    var t := TakeStep(exec, st, step, data, requested, extras).st;
    var kind := if Execute(exec, step, data).NeedsCommit? then Execute(exec, step, data).kind else ApiKind;
    LedgerGrows(st, t, Direct(|st.log|), Approval(Some(|st.log|), kind, Pending));
  }

  lemma {:induction false} TurnTurns(exec: Executor, st: RunState, step: Step, data: Data, requested: set<string>,
      extras: seq<Data>)
    ensures Turned(st, step.order, TakeStep(exec, st, step, data, requested, extras))
  {
    TurnRecords(exec, st, step, data, requested, extras);
    TurnRests(exec, st, step, data, requested, extras);
    if LedgerOk(st) {
      TurnLedger(exec, st, step, data, requested, extras);
    }
  }

  /** A turn's step is the next one handled. */
  lemma {:induction false} TurnedHandled(steps: seq<Step>, st: RunState, i: nat, turn: Turn)
    requires i < |steps| && From(steps, 1) <= i && Handled(st.progress) == Orders(steps[From(steps, 1)..i])
    requires Recorded(st, steps[i].order, turn)
    ensures Handled(turn.st.progress) == Orders(steps[From(steps, 1)..i + 1])
  {
    var first := From(steps, 1);
    assert Orders(steps[first..i + 1]) == Orders(steps[first..i]) + [steps[i].order];
  }

  /** A turn's row, if it makes one, comes after all others and before those of the steps to come. */
  lemma {:induction false} TurnedLog(steps: seq<Step>, st: RunState, i: nat, turn: Turn)
    requires i < |steps| && Sorted(steps) && Increasing(LogOrders(st.log)) && Recorded(st, steps[i].order, turn)
    requires forall k, j :: 0 <= k < |st.log| && i <= j < |steps| ==> st.log[k].order < steps[j].order
    requires RanOrders(st.progress) == LogOrders(st.log)
    ensures RanOrders(turn.st.progress) == LogOrders(turn.st.log) && Increasing(LogOrders(turn.st.log))
    ensures forall k, j :: 0 <= k < |turn.st.log| && i + 1 <= j < |steps| ==> turn.st.log[k].order < steps[j].order
  {
    if turn.st.log != st.log {
      assert LogOrders(turn.st.log) == LogOrders(st.log) + [steps[i].order];
    }
  }

  lemma {:induction false} TurnedCore(steps: seq<Step>, st: RunState, i: nat, turn: Turn)
    requires i < |steps| && Core(steps, st, i) && Turned(st, steps[i].order, turn)
    ensures Core(steps, turn.st, i + 1)
  {
    TurnedHandled(steps, st, i, turn);
    TurnedLog(steps, st, i, turn);
    assert LedgerOk(turn.st);
  }

  lemma {:induction false} TurnKeeps(steps: seq<Step>, st: RunState, i: nat, turn: Turn)
    requires i < |steps| && Core(steps, st, i) && NoStepWaits(st) && Turned(st, steps[i].order, turn)
    ensures Core(steps, turn.st, i + 1)
    ensures turn.halt ==> AtRest(steps, turn.st, i + 1)
    ensures !turn.halt ==> NoStepWaits(turn.st)
  {
    TurnedCore(steps, st, i, turn);
    FromIs(steps, steps[i].order + 1, i + 1);
  }

  lemma {:induction false} ExecuteKeeps(exec: Executor, steps: seq<Step>, st: RunState, i: nat, data: Data,
                                        requested: set<string>, extras: seq<Data>)
    requires i <= |steps| && Core(steps, st, i) && NoStepWaits(st)
    ensures Inv(steps, ExecuteFrom(exec, steps, st, i, data, requested, extras))
    decreases |steps| - i
  {
    if i == |steps| {
      CutIs(steps, st, i);
    } else {
      var turn := TakeStep(exec, st, steps[i], data, requested, extras);
      TurnTurns(exec, st, steps[i], data, requested, extras);
      TurnKeeps(steps, st, i, turn);
      if turn.halt {
        CutIs(steps, turn.st, i + 1);
      } else {
        ExecuteKeeps(exec, steps, turn.st, i + 1, turn.data, requested, turn.extras);
      }
    }
  }

  lemma {:induction false} NewRunCore(steps: seq<Step>, approvalRequired: bool)
    requires Sorted(steps)
    ensures Core(steps, NewRun(approvalRequired), From(steps, 1)) && NoStepWaits(NewRun(approvalRequired))
    ensures Inv(steps, NewRun(approvalRequired))
  {
    assert steps[From(steps, 1)..From(steps, 1)] == [];
    CutIs(steps, NewRun(approvalRequired), From(steps, 1));
  }

  /** In a run at rest before a confirmation, the data stored for the resume is that of the confirmation step. */
  lemma {:induction false} StoredIsConfirmation(steps: seq<Step>, st: RunState)
    requires Inv(steps, st) && st.status.AwaitingUser?
    ensures LastSucceeded(st.log) == |st.log| - 1
    ensures Stored(st.log) == st.log[|st.log| - 1].output
  {
    var k := LastSucceeded(st.log);
    assert LogOrders(st.log)[k] <= LogOrders(st.log)[|st.log| - 1];
  }

  /** The state in which an approved run continues. */
  function Granted(st: RunState, id: nat, output: Data): RunState
    requires id < |st.approvals| && st.approvals[id].execution.Some? && st.approvals[id].execution.value < |st.log|
  {
    var record := st.approvals[id];
    var k := record.execution.value;
    var row := st.log[k].(status := Succeeded, output := Some(output));
    st.(approvals := st.approvals[id := record.(status := Approved)], commits := st.commits + [ForApproval(id)],
        log := st.log[k := row], status := Analyzing, current := row.order + 1, made := Made(st.made, record.kind))
  }

  /** Approving a step's record is granting it and executing on what the commit returned. */
  lemma {:induction false} ApproveGrants(exec: Executor, steps: seq<Step>, st: RunState, id: nat, commit: CommitResult)
    requires id < |st.approvals| && StepWaits(st.approvals[id]) && st.approvals[id].execution.value < |st.log|
    requires commit.Committed?
    ensures Approve(exec, steps, st, id, commit)
         == ExecuteSteps(exec, steps, Granted(st, id, commit.output), commit.output, [])
  {
  }

  lemma {:induction false} PendingIsLast(steps: seq<Step>, st: RunState, id: nat)
    requires Inv(steps, st) && id < |st.approvals| && StepWaits(st.approvals[id])
    ensures st.approvals[id].execution == Some(|st.log| - 1) && st.log[|st.log| - 1].status.Awaiting?
    ensures forall i :: 0 <= i < |st.approvals| && i != id ==> !StepWaits(st.approvals[i])
    ensures st.status.AwaitingApproval? || st.status.Completed? || st.status.Failed?
  {
  }

  /** Deciding a pending record in favour of its commit keeps the ledger in balance. */
  lemma {:induction false} ApprovedLedger(st: RunState, t: RunState, id: nat)
    requires LedgerOk(st) && id < |st.approvals| && st.approvals[id].status.Pending? && |t.log| == |st.log|
    requires t.commits == st.commits + [ForApproval(id)]
    requires t.approvals == st.approvals[id := st.approvals[id].(status := Approved)]
    ensures LedgerOk(t)
  {
    forall i: nat
      ensures CommitsFor(t.commits, i) == CommitsDue(t.approvals, i)
    {
      CommitsAppend(st.commits, ForApproval(id), i);
      assert CommitsFor(st.commits, i) == CommitsDue(st.approvals, i);
    }
  }

  lemma {:induction false} GrantedCore(steps: seq<Step>, st: RunState, id: nat, output: Data)
    requires Inv(steps, st) && id < |st.approvals| && StepWaits(st.approvals[id])
    ensures
      var t := Granted(st, id, output);
      Core(steps, t, Cut(steps, st)) && NoStepWaits(t) && From(steps, t.current) == Cut(steps, st)
  {
    var t := Granted(st, id, output);
    PendingIsLast(steps, st, id);
    ApprovedLedger(st, t, id);
    assert LogOrders(t.log) == LogOrders(st.log);
  }

  /** The steps are where they were; at most, step records have been decided or the run has been ended. */
  ghost predicate StepsUntouched(st: RunState, t: RunState) {
    && t.log == st.log && t.progress == st.progress && t.current == st.current
    && (t.status == st.status || t.status.Completed? || t.status.Failed?)
    && (forall id :: 0 <= id < |t.approvals| && StepWaits(t.approvals[id]) ==>
          id < |st.approvals| && t.approvals[id] == st.approvals[id])
  }

  lemma {:induction false} BesideKeeps(steps: seq<Step>, st: RunState, t: RunState)
    requires Inv(steps, st) && StepsUntouched(st, t) && LedgerOk(t)
    ensures Inv(steps, t) && Cut(steps, t) == Cut(steps, st)
  {
  }

  lemma {:induction false} ExecuteStepsKeeps(exec: Executor, steps: seq<Step>, st: RunState, data: Data)
    requires Core(steps, st, From(steps, st.current)) && NoStepWaits(st) && st.status.Analyzing?
    ensures Inv(steps, ExecuteSteps(exec, steps, st, data, []))
  {
    if Requested(data).Ok? {
      ExecuteKeeps(exec, steps, st, From(steps, st.current), data, Requested(data).value, []);
    } else {
      CutIs(steps, st, From(steps, st.current));
    }
  }

  lemma {:induction false} ApproveKeeps(exec: Executor, steps: seq<Step>, st: RunState, id: nat, commit: CommitResult)
    requires Inv(steps, st)
    ensures Inv(steps, Approve(exec, steps, st, id, commit))
  {
    if id < |st.approvals| && st.approvals[id].status.Pending? && commit.Committed? {
      if st.approvals[id].execution.Some? {
        GrantedCore(steps, st, id, commit.output);
        ApproveGrants(exec, steps, st, id, commit);
        ExecuteStepsKeeps(exec, steps, Granted(st, id, commit.output), commit.output);
      } else {
        ApprovedLedger(st, Approve(exec, steps, st, id, commit), id);
        BesideKeeps(steps, st, Approve(exec, steps, st, id, commit));
      }
    }
  }

  lemma {:induction false} RejectLedger(st: RunState, id: nat)
    requires LedgerOk(st)
    ensures LedgerOk(Reject(st, id))
  {
    var t := Reject(st, id);
    forall i: nat
      ensures CommitsDue(t.approvals, i) == CommitsDue(st.approvals, i)
    {
    }
  }

  lemma {:induction false} RejectedCore(steps: seq<Step>, st: RunState, id: nat)
    requires Inv(steps, st) && id < |st.approvals| && StepWaits(st.approvals[id])
    ensures Core(steps, Reject(st, id), Cut(steps, st)) && Cut(steps, Reject(st, id)) == Cut(steps, st)
  {
    RejectLedger(st, id);
    assert LogOrders(Reject(st, id).log) == LogOrders(st.log);
  }

  lemma {:induction false} RejectStepKeeps(steps: seq<Step>, st: RunState, id: nat)
    requires Inv(steps, st) && id < |st.approvals| && StepWaits(st.approvals[id])
    ensures Inv(steps, Reject(st, id))
  {
    PendingIsLast(steps, st, id);
    RejectedCore(steps, st, id);
    assert NoStepWaits(Reject(st, id));
  }

  lemma {:induction false} RejectKeeps(steps: seq<Step>, st: RunState, id: nat)
    requires Inv(steps, st)
    ensures Inv(steps, Reject(st, id))
  {
    if id < |st.approvals| && st.approvals[id].status.Pending? {
      if st.approvals[id].execution.Some? {
        RejectStepKeeps(steps, st, id);
      } else {
        RejectLedger(st, id);
        BesideKeeps(steps, st, Reject(st, id));
      }
    }
  }

  lemma {:induction false} ResumeKeeps(exec: Executor, steps: seq<Step>, st: RunState, extra: Data)
    requires Inv(steps, st)
    ensures Inv(steps, Resume(exec, steps, st, extra))
  {
    if st.status.AwaitingUser? {
      StoredIsConfirmation(steps, st);
      var data := Stored(st.log).value + extra;
      if Requested(data).Ok? {
        ExecuteKeeps(exec, steps, st, Cut(steps, st), data, Requested(data).value, []);
      }
    }
  }

  lemma {:induction false} CommitBesideKeeps(steps: seq<Step>, st: RunState, kind: CommitKind, commit: CommitResult)
    requires Inv(steps, st)
    ensures Inv(steps, CommitBeside(st, kind, commit)) && StepsUntouched(st, CommitBeside(st, kind, commit))
  {
    LedgerGrows(st, CommitBeside(st, kind, commit), Beside(kind), Approval(None, kind, Pending));
    BesideKeeps(steps, st, CommitBeside(st, kind, commit));
  }

  lemma {:induction false} TasksKeep(steps: seq<Step>, st: RunState, review: Review, commit: CommitResult)
    requires Inv(steps, st)
    ensures Inv(steps, TasksFromAnalysis(st, review, commit))
  {
    var t := TasksFromAnalysis(st, review, commit);
    CommitBesideKeeps(steps, st, TasksKind, commit);
    if t != st {
      var u := CommitBeside(st, TasksKind, commit);
      assert LedgerOk(t) by {
        assert LedgerOk(u) && t.log == u.log && t.approvals == u.approvals && t.commits == u.commits;
      }
      BesideKeeps(steps, st, t);
    }
  }

  lemma {:induction false} SettledDue(approvals: seq<Approval>, id: nat)
    ensures CommitsDue(SettleBoards(approvals), id)
         == CommitsDue(approvals, id) + if id in PendingBoards(approvals) then 1 else 0
  {
    if id < |approvals| {
      assert SettleBoards(approvals)[id].status.Approved? <==>
        approvals[id].status.Approved? || WaitsForBoard(approvals[id]);
    }
  }

  /** The generated board is the one commit of every record that it settles. */
  lemma {:induction false} BoardLedger(st: RunState)
    requires LedgerOk(st)
    ensures LedgerOk(BoardOnRequest(st, true))
  {
    var t := BoardOnRequest(st, true);
    if BoardKind !in st.made {
      forall id: nat
        ensures CommitsFor(t.commits, id) == CommitsDue(t.approvals, id)
      {
        CommitsAppend(st.commits, Generated(PendingBoards(st.approvals)), id);
        SettledDue(st.approvals, id);
        assert CommitsFor(st.commits, id) == CommitsDue(st.approvals, id);
      }
    }
  }

  lemma {:induction false} BoardKeeps(steps: seq<Step>, st: RunState, generated: bool)
    requires Inv(steps, st)
    ensures Inv(steps, BoardOnRequest(st, generated))
  {
    if generated {
      BoardLedger(st);
      BesideKeeps(steps, st, BoardOnRequest(st, generated));
    }
  }

  lemma {:induction false} SetApprovalKeeps(steps: seq<Step>, st: RunState, on: bool)
    requires Inv(steps, st)
    ensures Inv(steps, st.(approvalRequired := on))
  {
    BesideKeeps(steps, st, st.(approvalRequired := on));
  }

  lemma {:induction false} ApplyKeeps(exec: Executor, steps: seq<Step>, st: RunState, r: Request)
    requires Inv(steps, st)
    ensures Inv(steps, Apply(exec, steps, st, r))
  {
    match r
    case ResumeRequest(extra) => ResumeKeeps(exec, steps, st, extra);
    case ApproveRequest(id, commit) => ApproveKeeps(exec, steps, st, id, commit);
    case RejectRequest(id) => RejectKeeps(steps, st, id);
    case SetApprovalRequired(on) => SetApprovalKeeps(steps, st, on);
    case DecisionsRequest(commit) => CommitBesideKeeps(steps, st, DecisionsKind, commit);
    case TasksRequest(review, commit) => TasksKeep(steps, st, review, commit);
    case ForwardRequest(commit) => CommitBesideKeeps(steps, st, ForwardKind, commit);
    case BoardRequest(generated) => BoardKeeps(steps, st, generated);
  }

  lemma {:induction false} ApplyAllKeeps(exec: Executor, steps: seq<Step>, st: RunState, rs: seq<Request>)
    requires Inv(steps, st)
    ensures Inv(steps, ApplyAll(exec, steps, st, rs))
    decreases |rs|
  {
    if rs != [] {
      ApplyKeeps(exec, steps, st, rs[0]);
      ApplyAllKeeps(exec, steps, Apply(exec, steps, st, rs[0]), rs[1..]);
    }
  }

  lemma {:induction false} HistoryKeeps(exec: Executor, steps: seq<Step>, approvalRequired: bool, data: Data,
      rs: seq<Request>)
    requires Sorted(steps)
    ensures Inv(steps, History(exec, steps, approvalRequired, data, rs))
  {
    var st := NewRun(approvalRequired);
    NewRunCore(steps, approvalRequired);
    if Requested(data).Ok? {
      ExecuteKeeps(exec, steps, st, From(steps, 1), data, Requested(data).value, []);
    }
    ApplyAllKeeps(exec, steps, ExecuteSteps(exec, steps, st, data, []), rs);
  }

  /**
    Whatever the executors return and whatever is resumed, approved, rejected
    or committed beside the steps, and in whatever order: no step runs twice,
    and steps are run or skipped in their order without a gap.
   */
  lemma {:induction false} EveryStepOnceInOrder(exec: Executor, steps: seq<Step>, approvalRequired: bool, data: Data,
      rs: seq<Request>)
    requires Sorted(steps)
    ensures
      var st := History(exec, steps, approvalRequired, data, rs);
      && Increasing(LogOrders(st.log))
      && RanOrders(st.progress) == LogOrders(st.log)
      && Handled(st.progress) <= Orders(steps[From(steps, 1)..])
  {
    HistoryKeeps(exec, steps, approvalRequired, data, rs);
    var st := History(exec, steps, approvalRequired, data, rs);
    var first, cut := From(steps, 1), Cut(steps, st);
    assert Orders(steps[first..])[..cut - first] == Orders(steps[first..cut]);
  }

  /**
    The approval gate over whole histories: a record's side effect has been
    committed once if the record is approved and never otherwise. At most one
    record made for a step is pending, it is that of the last execution, and
    that execution awaits it.
   */
  lemma {:induction false} OneCommitPerApproval(exec: Executor, steps: seq<Step>, approvalRequired: bool, data: Data,
      rs: seq<Request>, id: nat)
    requires Sorted(steps)
    ensures
      var st := History(exec, steps, approvalRequired, data, rs);
      && CommitsFor(st.commits, id) == CommitsDue(st.approvals, id)
      && (id < |st.approvals| && StepWaits(st.approvals[id]) ==>
            && st.approvals[id].execution == Some(|st.log| - 1) && st.log[|st.log| - 1].status.Awaiting?
            && forall i :: 0 <= i < |st.approvals| && i != id ==> !StepWaits(st.approvals[i]))
  {
    HistoryKeeps(exec, steps, approvalRequired, data, rs);
  }

  // ---- what later requests leave of the earlier records ----

  /** Later records extend earlier ones: approvals that were decided stay so, commits are never taken back. */
  ghost predicate Extends(a: RunState, b: RunState) {
    && a.commits <= b.commits && a.progress <= b.progress
    && |a.approvals| <= |b.approvals| && |a.log| <= |b.log|
    && (forall id :: 0 <= id < |a.approvals| ==>
          && b.approvals[id].execution == a.approvals[id].execution && b.approvals[id].kind == a.approvals[id].kind
          && (!a.approvals[id].status.Pending? ==> b.approvals[id] == a.approvals[id]))
    && (forall k :: 0 <= k < |a.log| ==> b.log[k].order == a.log[k].order && b.log[k].input == a.log[k].input)
  }

  /** Executing steps only appends records, and with approval required it commits nothing. */
  ghost predicate Grows(a: RunState, b: RunState) {
    && a.log <= b.log && a.progress <= b.progress && a.approvals <= b.approvals && a.commits <= b.commits
    && b.approvalRequired == a.approvalRequired
    && (a.approvalRequired ==> b.commits == a.commits)
  }

  lemma {:induction false} TurnGrows(exec: Executor, st: RunState, step: Step, data: Data, requested: set<string>,
      extras: seq<Data>)
    ensures Grows(st, TakeStep(exec, st, step, data, requested, extras).st)
  {
  }

  lemma {:induction false} ExecuteGrows(exec: Executor, steps: seq<Step>, st: RunState, i: nat, data: Data,
                                          requested: set<string>, extras: seq<Data>)
    requires i <= |steps|
    ensures Grows(st, ExecuteFrom(exec, steps, st, i, data, requested, extras))
    decreases |steps| - i
  {
    if i < |steps| {
      var turn := TakeStep(exec, st, steps[i], data, requested, extras);
      TurnGrows(exec, st, steps[i], data, requested, extras);
      if !turn.halt {
        ExecuteGrows(exec, steps, turn.st, i + 1, turn.data, requested, turn.extras);
      }
    }
  }

  lemma {:induction false} ExecuteStepsGrows(exec: Executor, steps: seq<Step>, st: RunState, data: Data)
    ensures Grows(st, ExecuteSteps(exec, steps, st, data, []))
  {
    if Requested(data).Ok? {
      ExecuteGrows(exec, steps, st, From(steps, st.current), data, Requested(data).value, []);
    }
  }

  /** The data that an execution leaves for the next: its output unless that is missing or empty. */
  function Handed(row: Execution): Data {
    if row.status.Succeeded? && row.output.Some? && row.output.value != map[] then row.output.value else row.input
  }

  lemma {:induction false} TurnData(exec: Executor, st: RunState, step: Step, data: Data, requested: set<string>)
    ensures
      var turn := TakeStep(exec, st, step, data, requested, []);
      && turn.extras == []
      && (ShouldSkip(step.kind, requested) ==> turn.data == data && turn.st.log == st.log && !turn.halt)
      && (!ShouldSkip(step.kind, requested) ==>
            && |turn.st.log| == |st.log| + 1 && turn.st.log[|st.log|].input == data
            && (!turn.halt ==> turn.data == Handed(turn.st.log[|st.log|])))
  {
  }

  /** The rows from index n on thread the data: the first is run on `data`, each other on what the one before left. */
  ghost predicate Threaded(log: seq<Execution>, n: nat, data: Data) {
    && (n < |log| ==> log[n].input == data)
    && (forall k :: n <= k < |log| - 1 ==> log[k + 1].input == Handed(log[k]))
  }

  /** Between two pauses every step is run on exactly what the step run before it left. */
  lemma {:induction false} DataFlows(exec: Executor, steps: seq<Step>, st: RunState, i: nat, data: Data,
      requested: set<string>)
    requires i <= |steps|
    ensures Threaded(ExecuteFrom(exec, steps, st, i, data, requested, []).log, |st.log|, data)
    decreases |steps| - i
  {
    if i < |steps| {
      var turn := TakeStep(exec, st, steps[i], data, requested, []);
      TurnData(exec, st, steps[i], data, requested);
      TurnGrows(exec, st, steps[i], data, requested, []);
      if !turn.halt {
        DataFlows(exec, steps, turn.st, i + 1, turn.data, requested);
        ExecuteGrows(exec, steps, turn.st, i + 1, turn.data, requested, []);
      }
    }
  }

  lemma {:induction false} GrowsExtends(a: RunState, b: RunState, c: RunState)
    requires Extends(a, b) && Grows(b, c)
    ensures Extends(a, c)
  {
    forall id | 0 <= id < |a.approvals|
      ensures c.approvals[id] == b.approvals[id]
    {
    }
  }

  lemma {:induction false} ResumeGrows(exec: Executor, steps: seq<Step>, st: RunState, extra: Data)
    ensures Grows(st, Resume(exec, steps, st, extra))
  {
    if st.status.AwaitingUser? && Stored(st.log).Some? {
      ExecuteStepsGrows(exec, steps, st, Stored(st.log).value + extra);
    }
  }

  lemma {:induction false} ApproveExtends(exec: Executor, steps: seq<Step>, st: RunState, id: nat, commit: CommitResult)
    ensures Extends(st, Approve(exec, steps, st, id, commit))
    ensures
      var t := Approve(exec, steps, st, id, commit);
      st.approvalRequired ==>
        t.commits == st.commits
        || (t.commits == st.commits + [ForApproval(id)]
            && id < |st.approvals| && st.approvals[id].status.Pending? && t.approvals[id].status.Approved?)
  {
    if id < |st.approvals| && st.approvals[id].status.Pending? && commit.Committed?
      && st.approvals[id].execution.Some? && st.approvals[id].execution.value < |st.log| {
      var st2 := Granted(st, id, commit.output);
      ApproveGrants(exec, steps, st, id, commit);
      ExecuteStepsGrows(exec, steps, st2, commit.output);
      GrowsExtends(st, st2, ExecuteSteps(exec, steps, st2, commit.output, []));
    }
  }

  /** With approval required, the only commits of a request: that of a record it approves, or a board it generates. */
  ghost predicate Answers(st: RunState, r: Request, t: RunState) {
    || t.commits == st.commits
    || (r.ApproveRequest? && t.commits == st.commits + [ForApproval(r.id)]
        && r.id < |st.approvals| && st.approvals[r.id].status.Pending?
        && r.id < |t.approvals| && t.approvals[r.id].status.Approved?)
    || (r.BoardRequest? && t.commits == st.commits + [Generated(PendingBoards(st.approvals))])
  }

  /** One request extends the records, and with approval required it commits only what it approves or generates. */
  lemma {:induction false} ApplyExtends(exec: Executor, steps: seq<Step>, st: RunState, r: Request)
    ensures Extends(st, Apply(exec, steps, st, r))
    ensures st.approvalRequired ==> Answers(st, r, Apply(exec, steps, st, r))
  {
    match r
    case ResumeRequest(extra) =>
      ResumeGrows(exec, steps, st, extra);
      GrowsExtends(st, st, Resume(exec, steps, st, extra));
    case ApproveRequest(id, commit) => ApproveExtends(exec, steps, st, id, commit);
    case _ =>
  }

  /** Every record is decided at most once over a whole history: what one history decided, no continuation changes. */
  lemma {:induction false} DecisionsAreFinal(exec: Executor, steps: seq<Step>, st: RunState, rs: seq<Request>)
    ensures Extends(st, ApplyAll(exec, steps, st, rs))
    decreases |rs|
  {
    if rs != [] {
      ApplyExtends(exec, steps, st, rs[0]);
      DecisionsAreFinal(exec, steps, Apply(exec, steps, st, rs[0]), rs[1..]);
    }
  }

  ghost predicate AlwaysRequired(rs: seq<Request>) {
    forall i :: 0 <= i < |rs| && rs[i].SetApprovalRequired? ==> rs[i].on
  }

  lemma {:induction false} RequiredMeansNoDirectCommit(exec: Executor, steps: seq<Step>, st: RunState, rs: seq<Request>)
    requires st.approvalRequired && AlwaysRequired(rs)
    requires forall c :: c in st.commits ==> c.ForApproval? || c.Generated?
    ensures forall c :: c in ApplyAll(exec, steps, st, rs).commits ==> c.ForApproval? || c.Generated?
    decreases |rs|
  {
    if rs != [] {
      var t := Apply(exec, steps, st, rs[0]);
      ApplyExtends(exec, steps, st, rs[0]);
      ApplyKeepsFlag(exec, steps, st, rs[0]);
      RequiredMeansNoDirectCommit(exec, steps, t, rs[1..]);
    }
  }

  lemma {:induction false} ApplyKeepsFlag(exec: Executor, steps: seq<Step>, st: RunState, r: Request)
    ensures Apply(exec, steps, st, r).approvalRequired == if r.SetApprovalRequired? then r.on else st.approvalRequired
  {
    forall s: RunState, data: Data
      ensures ExecuteSteps(exec, steps, s, data, []).approvalRequired == s.approvalRequired
    {
      ExecuteStepsGrows(exec, steps, s, data);
    }
  }

  lemma {:induction false} CommitsForIn(commits: seq<Commit>, c: Commit, id: nat)
    requires c in commits && Settles(c, id)
    ensures CommitsFor(commits, id) > 0
  {
    var n := |commits| - 1;
    if commits[n] != c {
      CommitsForIn(commits[..n], c, id);
    }
  }

  /**
    With approval required throughout, every commit of a history belongs to a
    record that the history approved, or is a board that was asked for by name.
   */
  lemma {:induction false} NoCommitWithoutApproval(exec: Executor, steps: seq<Step>, data: Data, rs: seq<Request>)
    requires Sorted(steps) && AlwaysRequired(rs)
    ensures
      var st := History(exec, steps, true, data, rs);
      forall c :: c in st.commits ==>
        c.Generated? || (c.ForApproval? && c.id < |st.approvals| && st.approvals[c.id].status.Approved?)
  {
    var blank := NewRun(true);
    var st0 := ExecuteSteps(exec, steps, blank, data, []);
    ExecuteStepsGrows(exec, steps, blank, data);
    RequiredMeansNoDirectCommit(exec, steps, st0, rs);
    var st := History(exec, steps, true, data, rs);
    forall c | c in st.commits && !c.Generated?
      ensures c.ForApproval? && c.id < |st.approvals| && st.approvals[c.id].status.Approved?
    {
      OneCommitPerApproval(exec, steps, true, data, rs, c.id);
      CommitsForIn(st.commits, c, c.id);
    }
  }
}

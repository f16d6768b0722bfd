/**
  What the commits beside the steps change for a run: tasks and decisions
  created from the stored analysis, messages forwarded from the chat, a board
  generated on request (backend/agent/services.py). They keep what
  WorkflowRuns proves, but not that a completed run has handled its steps, nor
  that a run waits for each of its pending records.
 */
module SideCommits {
  import opened Common
  import opened GenerationOutputs
  import opened WorkflowEngine
  import opened WorkflowRuns

  /** The run after the first n requests of a history. */
  function At(exec: Executor, steps: seq<Step>, approvalRequired: bool, data: Data, rs: seq<Request>, n: nat): RunState
    requires n <= |rs|
  {
    History(exec, steps, approvalRequired, data, rs[..n])
  }

  lemma {:induction false} ApplyAllAppend(exec: Executor, steps: seq<Step>, st: RunState, rs: seq<Request>, r: Request)
    ensures ApplyAll(exec, steps, st, rs + [r]) == Apply(exec, steps, ApplyAll(exec, steps, st, rs), r)
    decreases |rs|
  {
    if rs == [] {
      assert [] + [r] == [r] && [r][1..] == [];
    } else {
      assert (rs + [r])[1..] == rs[1..] + [r];
      ApplyAllAppend(exec, steps, Apply(exec, steps, st, rs[0]), rs[1..], r);
    }
  }

  lemma {:induction false} HistoryNext(exec: Executor, steps: seq<Step>, approvalRequired: bool, data: Data,
      rs: seq<Request>, n: nat)
    requires n < |rs|
    ensures At(exec, steps, approvalRequired, data, rs, n + 1)
         == Apply(exec, steps, At(exec, steps, approvalRequired, data, rs, n), rs[n])
  {
    assert rs[..n + 1] == rs[..n] + [rs[n]];
    ApplyAllAppend(exec, steps, ExecuteSteps(exec, steps, NewRun(approvalRequired), data, []), rs[..n], rs[n]);
  }

  lemma {:induction false} AtStart(exec: Executor, steps: seq<Step>, approvalRequired: bool, data: Data,
      rs: seq<Request>)
    ensures At(exec, steps, approvalRequired, data, rs, 0)
         == ExecuteSteps(exec, steps, NewRun(approvalRequired), data, [])
  {
    assert rs[..0] == [];
  }

  // ---- completed runs ----

  /** If the run is completed, every step of order at least 1 has been run or skipped, each once. */
  ghost predicate CompletedIsHandled(steps: seq<Step>, st: RunState) {
    st.status.Completed? ==> Handled(st.progress) == Orders(steps[From(steps, 1)..])
  }

  lemma {:induction false} HandledAll(steps: seq<Step>, st: RunState)
    requires Inv(steps, st)
    ensures Handled(st.progress) == Orders(steps[From(steps, 1)..]) <==> Cut(steps, st) == |steps|
  {
    var first, cut := From(steps, 1), Cut(steps, st);
    assert |Orders(steps[first..])| == |steps| - first;
    if cut == |steps| {
      assert steps[first..cut] == steps[first..];
    }
  }

  /** The request completes the run although some step has not been handled. */
  ghost predicate EndsEarly(steps: seq<Step>, st: RunState, r: Request) {
    && r.TasksRequest? && Cleared(r.review) && r.commit.Committed?
    && TasksKind !in st.made && !st.approvalRequired
    && Handled(st.progress) != Orders(steps[From(steps, 1)..])
  }

  lemma {:induction false} ExecuteCompletes(exec: Executor, steps: seq<Step>, st: RunState, i: nat, data: Data,
      requested: set<string>)
    requires i <= |steps| && Core(steps, st, i) && NoStepWaits(st)
    ensures
      var t := ExecuteFrom(exec, steps, st, i, data, requested, []);
      Inv(steps, t) && CompletedIsHandled(steps, t)
    decreases |steps| - i
  {
    ExecuteKeeps(exec, steps, st, i, data, requested, []);
    var t := ExecuteFrom(exec, steps, st, i, data, requested, []);
    if i == |steps| {
      CutIs(steps, t, i);
      HandledAll(steps, t);
    } else {
      var turn := TakeStep(exec, st, steps[i], data, requested, []);
      TurnTurns(exec, st, steps[i], data, requested, []);
      TurnKeeps(steps, st, i, turn);
      TurnData(exec, st, steps[i], data, requested);
      if !turn.halt {
        ExecuteCompletes(exec, steps, turn.st, i + 1, turn.data, requested);
      }
    }
  }

  lemma {:induction false} ExecuteStepsCompletes(exec: Executor, steps: seq<Step>, st: RunState, data: Data)
    requires Core(steps, st, From(steps, st.current)) && NoStepWaits(st) && CompletedIsHandled(steps, st)
    ensures CompletedIsHandled(steps, ExecuteSteps(exec, steps, st, data, []))
  {
    if Requested(data).Ok? {
      ExecuteCompletes(exec, steps, st, From(steps, st.current), data, Requested(data).value);
    }
  }

  lemma {:induction false} ResumeCompletes(exec: Executor, steps: seq<Step>, st: RunState, extra: Data)
    requires Inv(steps, st) && CompletedIsHandled(steps, st)
    ensures CompletedIsHandled(steps, Resume(exec, steps, st, extra))
  {
    if st.status.AwaitingUser? {
      StoredIsConfirmation(steps, st);
      ExecuteStepsCompletes(exec, steps, st, Stored(st.log).value + extra);
    }
  }

  lemma {:induction false} ApproveCompletes(exec: Executor, steps: seq<Step>, st: RunState, id: nat,
      commit: CommitResult)
    requires Inv(steps, st) && CompletedIsHandled(steps, st)
    ensures CompletedIsHandled(steps, Approve(exec, steps, st, id, commit))
  {
    if id < |st.approvals| && StepWaits(st.approvals[id]) && commit.Committed? {
      GrantedCore(steps, st, id, commit.output);
      ApproveGrants(exec, steps, st, id, commit);
      ExecuteStepsCompletes(exec, steps, Granted(st, id, commit.output), commit.output);
    }
  }

  /** Among all requests, only tasks from the analysis complete a run before its time. */
  lemma {:induction false} RequestCompletes(exec: Executor, steps: seq<Step>, st: RunState, r: Request)
    requires Inv(steps, st) && CompletedIsHandled(steps, st)
    ensures CompletedIsHandled(steps, Apply(exec, steps, st, r)) <==> !EndsEarly(steps, st, r)
  {
    match r
    case ResumeRequest(extra) => ResumeCompletes(exec, steps, st, extra);
    case ApproveRequest(id, commit) => ApproveCompletes(exec, steps, st, id, commit);
    case _ =>
  }

  /**
    Throughout a history a completed run has handled all its steps, if and only
    if tasks are never committed from the analysis of a run that still has
    steps to handle.
   */
  lemma {:induction false} CompletedIsHandledExactlyWhen(exec: Executor, steps: seq<Step>, approvalRequired: bool,
      data: Data, rs: seq<Request>)
    requires Sorted(steps)
    ensures
      (forall n :: 0 <= n <= |rs| ==> CompletedIsHandled(steps, At(exec, steps, approvalRequired, data, rs, n)))
      <==>
      (forall n :: 0 <= n < |rs| ==> !EndsEarly(steps, At(exec, steps, approvalRequired, data, rs, n), rs[n]))
  {
    if forall n :: 0 <= n < |rs| ==> !EndsEarly(steps, At(exec, steps, approvalRequired, data, rs, n), rs[n]) {
      forall n | 0 <= n <= |rs|
        ensures CompletedIsHandled(steps, At(exec, steps, approvalRequired, data, rs, n))
      {
        StaysHandled(exec, steps, approvalRequired, data, rs, n);
      }
    } else {
      var n :| 0 <= n < |rs| && EndsEarly(steps, At(exec, steps, approvalRequired, data, rs, n), rs[n]);
      NextCompletes(exec, steps, approvalRequired, data, rs, n);
      assert !CompletedIsHandled(steps, At(exec, steps, approvalRequired, data, rs, n))
        || !CompletedIsHandled(steps, At(exec, steps, approvalRequired, data, rs, n + 1));
    }
  }

  lemma {:induction false} NextCompletes(exec: Executor, steps: seq<Step>, approvalRequired: bool, data: Data,
      rs: seq<Request>, n: nat)
    requires Sorted(steps) && n < |rs|
    ensures CompletedIsHandled(steps, At(exec, steps, approvalRequired, data, rs, n)) ==>
      (CompletedIsHandled(steps, At(exec, steps, approvalRequired, data, rs, n + 1)) <==>
         !EndsEarly(steps, At(exec, steps, approvalRequired, data, rs, n), rs[n]))
  {
    var st := At(exec, steps, approvalRequired, data, rs, n);
    HistoryKeeps(exec, steps, approvalRequired, data, rs[..n]);
    HistoryNext(exec, steps, approvalRequired, data, rs, n);
    if CompletedIsHandled(steps, st) {
      RequestCompletes(exec, steps, st, rs[n]);
    }
  }

  lemma {:induction false} StaysHandled(exec: Executor, steps: seq<Step>, approvalRequired: bool, data: Data,
      rs: seq<Request>, n: nat)
    requires Sorted(steps) && n <= |rs|
    requires forall m :: 0 <= m < |rs| ==> !EndsEarly(steps, At(exec, steps, approvalRequired, data, rs, m), rs[m])
    ensures CompletedIsHandled(steps, At(exec, steps, approvalRequired, data, rs, n))
  {
    if n == 0 {
      NewRunCore(steps, approvalRequired);
      ExecuteStepsCompletes(exec, steps, NewRun(approvalRequired), data);
      AtStart(exec, steps, approvalRequired, data, rs);
    } else {
      StaysHandled(exec, steps, approvalRequired, data, rs, n - 1);
      NextCompletes(exec, steps, approvalRequired, data, rs, n - 1);
    }
  }

  const PAUSING: seq<Step> := [Step(0, 1, AwaitConfirmation), Step(0, 2, Merge)]

  lemma {:induction false} PausedFirst(exec: Executor)
    ensures
      var st := ExecuteSteps(exec, PAUSING, NewRun(false), map[], []);
      st.status.AwaitingUser? && st.log == [Row(PAUSING[0], Succeeded, map[], Some(map[]))] && st.progress == [Ran(1)]
      && !st.approvalRequired && st.made == {}
  {
    FromIs(PAUSING, 1, 0);
  }

  /** A run paused before its second step, which creating the tasks completes. */
  lemma {:induction false} CompletedTooSoon(exec: Executor)
    ensures
      var st := History(exec, PAUSING, false, map[], [TasksRequest(NoAnomalies, Committed(map[], map[]))]);
      && st.status.Completed? && LogOrders(st.log) == Handled(st.progress) == [1]
      && Orders(PAUSING[From(PAUSING, 1)..]) == [1, 2]
  {
    PausedFirst(exec);
    FromIs(PAUSING, 1, 0);
    RecordsAppend([], Ran(1));
    assert [] + [Ran(1)] == [Ran(1)];
    var paused := ExecuteSteps(exec, PAUSING, NewRun(false), map[], []);
    var r := TasksRequest(NoAnomalies, Committed(map[], map[]));
    assert ApplyAll(exec, PAUSING, paused, [r]) == Apply(exec, PAUSING, paused, r);
  }

  // ---- pending records ----

  ghost predicate NothingPending(st: RunState) {
    forall id :: 0 <= id < |st.approvals| ==> !st.approvals[id].status.Pending?
  }

  /** The run waits for an approval exactly while a record is pending, and that record is for its last execution. */
  ghost predicate Waited(st: RunState) {
    && (forall id :: 0 <= id < |st.approvals| && st.approvals[id].status.Pending? ==>
          st.status.AwaitingApproval? && st.approvals[id].execution == Some(|st.log| - 1))
    && (st.status.AwaitingApproval? ==> !NothingPending(st))
  }

  /**
    The request parks a record that no step waits for, ends a run that is
    waiting, or settles the record that it waits for without continuing it.
   */
  predicate Disturbs(st: RunState, r: Request) {
    match r
    case DecisionsRequest(_) => DecisionsKind !in st.made && st.approvalRequired
    case TasksRequest(review, commit) =>
      && TasksKind !in st.made && Cleared(review)
      && (st.approvalRequired || (commit.Committed? && st.status.AwaitingApproval?))
    case ForwardRequest(_) => st.status.AwaitingUser? && st.approvalRequired
    case BoardRequest(generated) => BoardKind !in st.made && generated && PendingBoards(st.approvals) != {}
    case _ => false
  }

  lemma {:induction false} ExecuteWaits(exec: Executor, steps: seq<Step>, st: RunState, i: nat, data: Data,
      requested: set<string>)
    requires i <= |steps| && NothingPending(st)
    ensures Waited(ExecuteFrom(exec, steps, st, i, data, requested, []))
    decreases |steps| - i
  {
    if i < |steps| {
      var turn := TakeStep(exec, st, steps[i], data, requested, []);
      TurnRests(exec, st, steps[i], data, requested, []);
      TurnData(exec, st, steps[i], data, requested);
      if !turn.halt {
        ExecuteWaits(exec, steps, turn.st, i + 1, turn.data, requested);
      } else if turn.st.status.AwaitingApproval? {
        assert turn.st.approvals[|st.approvals|].status.Pending?;
      }
    }
  }

  lemma {:induction false} ExecuteStepsWaits(exec: Executor, steps: seq<Step>, st: RunState, data: Data)
    requires NothingPending(st) && !st.status.AwaitingApproval?
    ensures Waited(ExecuteSteps(exec, steps, st, data, []))
  {
    if Requested(data).Ok? {
      ExecuteWaits(exec, steps, st, From(steps, st.current), data, Requested(data).value);
    }
  }

  /** Where the run waits for each of its records, the one granted was the only one pending. */
  lemma {:induction false} GrantedAlone(steps: seq<Step>, st: RunState, id: nat, output: Data)
    requires Inv(steps, st) && Waited(st) && id < |st.approvals| && st.approvals[id].status.Pending?
    ensures StepWaits(st.approvals[id]) && st.approvals[id].execution.value < |st.log|
    ensures NothingPending(Granted(st, id, output))
  {
    PendingIsLast(steps, st, id);
  }

  lemma {:induction false} ApproveWaits(exec: Executor, steps: seq<Step>, st: RunState, id: nat, commit: CommitResult)
    requires Inv(steps, st) && Waited(st)
    ensures Waited(Approve(exec, steps, st, id, commit))
  {
    if id < |st.approvals| && st.approvals[id].status.Pending? && commit.Committed? {
      GrantedAlone(steps, st, id, commit.output);
      ApproveGrants(exec, steps, st, id, commit);
      ExecuteStepsWaits(exec, steps, Granted(st, id, commit.output), commit.output);
    }
  }

  lemma {:induction false} RejectWaits(steps: seq<Step>, st: RunState, id: nat)
    requires Inv(steps, st) && Waited(st)
    ensures Waited(Reject(st, id))
  {
    if id < |st.approvals| && st.approvals[id].status.Pending? {
      PendingIsLast(steps, st, id);
      assert NothingPending(Reject(st, id));
    }
  }

  lemma {:induction false} ResumeWaits(exec: Executor, steps: seq<Step>, st: RunState, extra: Data)
    requires Inv(steps, st) && Waited(st)
    ensures Waited(Resume(exec, steps, st, extra))
  {
    if st.status.AwaitingUser? {
      StoredIsConfirmation(steps, st);
      ExecuteStepsWaits(exec, steps, st, Stored(st.log).value + extra);
    }
  }

  /** A record for nothing but its kind is parked, or a commit is made that changes no record. */
  lemma {:induction false} CommitBesideWaits(st: RunState, kind: CommitKind, commit: CommitResult)
    requires Waited(st)
    ensures Waited(CommitBeside(st, kind, commit)) <==> !st.approvalRequired
  {
    var t := CommitBeside(st, kind, commit);
    if st.approvalRequired {
      assert t.approvals[|st.approvals|].status.Pending?;
    } else {
      assert t.approvals == st.approvals;
    }
  }

  lemma {:induction false} TasksWait(exec: Executor, steps: seq<Step>, st: RunState, review: Review,
      commit: CommitResult)
    requires Waited(st)
    ensures Waited(TasksFromAnalysis(st, review, commit)) <==> !Disturbs(st, TasksRequest(review, commit))
  {
    CommitBesideWaits(st, TasksKind, commit);
    var t := TasksFromAnalysis(st, review, commit);
    if t.approvals == st.approvals && st.status.AwaitingApproval? {
      var id :| 0 <= id < |st.approvals| && st.approvals[id].status.Pending?;
      assert t.approvals[id].status.Pending?;
    }
  }

  lemma {:induction false} BoardWaits(steps: seq<Step>, st: RunState, generated: bool)
    requires Inv(steps, st) && Waited(st)
    ensures Waited(BoardOnRequest(st, generated)) <==> !Disturbs(st, BoardRequest(generated))
  {
    var t := BoardOnRequest(st, generated);
    if PendingBoards(st.approvals) == {} {
      forall id | 0 <= id < |st.approvals|
        ensures SettleBoards(st.approvals)[id] == st.approvals[id]
      {
        assert id !in PendingBoards(st.approvals);
      }
      assert SettleBoards(st.approvals) == st.approvals;
    } else {
      var id :| id in PendingBoards(st.approvals);
      PendingIsLast(steps, st, id);
      assert t != st ==> NothingPending(t);
    }
  }

  lemma {:induction false} RequestWaits(exec: Executor, steps: seq<Step>, st: RunState, r: Request)
    requires Inv(steps, st) && Waited(st)
    ensures Waited(Apply(exec, steps, st, r)) <==> !Disturbs(st, r)
  {
    match r
    case ResumeRequest(extra) => ResumeWaits(exec, steps, st, extra);
    case ApproveRequest(id, commit) => ApproveWaits(exec, steps, st, id, commit);
    case RejectRequest(id) => RejectWaits(steps, st, id);
    case SetApprovalRequired(on) =>
      assert NothingPending(st.(approvalRequired := on)) == NothingPending(st);
    case DecisionsRequest(commit) => CommitBesideWaits(st, DecisionsKind, commit);
    case TasksRequest(review, commit) => TasksWait(exec, steps, st, review, commit);
    case ForwardRequest(commit) => CommitBesideWaits(st, ForwardKind, commit);
    case BoardRequest(generated) => BoardWaits(steps, st, generated);
  }

  lemma {:induction false} NextWaits(exec: Executor, steps: seq<Step>, approvalRequired: bool, data: Data,
      rs: seq<Request>, n: nat)
    requires Sorted(steps) && n < |rs|
    ensures Waited(At(exec, steps, approvalRequired, data, rs, n)) ==>
      (Waited(At(exec, steps, approvalRequired, data, rs, n + 1)) <==>
         !Disturbs(At(exec, steps, approvalRequired, data, rs, n), rs[n]))
  {
    var st := At(exec, steps, approvalRequired, data, rs, n);
    HistoryKeeps(exec, steps, approvalRequired, data, rs[..n]);
    HistoryNext(exec, steps, approvalRequired, data, rs, n);
    if Waited(st) {
      RequestWaits(exec, steps, st, rs[n]);
    }
  }

  lemma {:induction false} StaysWaited(exec: Executor, steps: seq<Step>, approvalRequired: bool, data: Data,
      rs: seq<Request>, n: nat)
    requires Sorted(steps) && n <= |rs|
    requires forall m :: 0 <= m < |rs| ==> !Disturbs(At(exec, steps, approvalRequired, data, rs, m), rs[m])
    ensures Waited(At(exec, steps, approvalRequired, data, rs, n))
  {
    if n == 0 {
      ExecuteStepsWaits(exec, steps, NewRun(approvalRequired), data);
      AtStart(exec, steps, approvalRequired, data, rs);
    } else {
      StaysWaited(exec, steps, approvalRequired, data, rs, n - 1);
      NextWaits(exec, steps, approvalRequired, data, rs, n - 1);
    }
  }

  /**
    Throughout a history a run waits for an approval exactly while a record is
    pending, which is then the one of its last execution, if and only if no
    request of the history disturbs that.
   */
  lemma {:induction false} WaitedExactlyWhen(exec: Executor, steps: seq<Step>, approvalRequired: bool, data: Data,
      rs: seq<Request>)
    requires Sorted(steps)
    ensures
      (forall n :: 0 <= n <= |rs| ==> Waited(At(exec, steps, approvalRequired, data, rs, n)))
      <==>
      (forall n :: 0 <= n < |rs| ==> !Disturbs(At(exec, steps, approvalRequired, data, rs, n), rs[n]))
  {
    if forall n :: 0 <= n < |rs| ==> !Disturbs(At(exec, steps, approvalRequired, data, rs, n), rs[n]) {
      forall n | 0 <= n <= |rs|
        ensures Waited(At(exec, steps, approvalRequired, data, rs, n))
      {
        StaysWaited(exec, steps, approvalRequired, data, rs, n);
      }
    } else {
      var n :| 0 <= n < |rs| && Disturbs(At(exec, steps, approvalRequired, data, rs, n), rs[n]);
      NextWaits(exec, steps, approvalRequired, data, rs, n);
      assert !Waited(At(exec, steps, approvalRequired, data, rs, n))
        || !Waited(At(exec, steps, approvalRequired, data, rs, n + 1));
    }
  }

  /** Asking twice for the tasks leaves two pending records, for neither of which the run waits. */
  lemma {:induction false} TwoTasksPending(exec: Executor, steps: seq<Step>, st: RunState, review: Review,
      commit: CommitResult)
    requires st.approvalRequired && TasksKind !in st.made && Cleared(review)
    ensures
      var t := ApplyAll(exec, steps, st, [TasksRequest(review, commit), TasksRequest(review, commit)]);
      t == st.(approvals := st.approvals + [Approval(None, TasksKind, Pending), Approval(None, TasksKind, Pending)])
  {
    var r, parked := TasksRequest(review, commit), Approval(None, TasksKind, Pending);
    var once := Apply(exec, steps, st, r);
    assert [r, r][1..] == [r] && [r][1..] == [];
    assert Apply(exec, steps, once, r).approvals == st.approvals + [parked, parked];
    assert ApplyAll(exec, steps, once, [r]) == Apply(exec, steps, once, r);
  }

  // ---- runs that cannot go on ----

  /** No confirmation is asked for, and no step's record waits. */
  ghost predicate RanOut(st: RunState) {
    NoStepWaits(st) && !st.status.AwaitingUser?
  }

  lemma {:induction false} RequestRunsNothing(exec: Executor, steps: seq<Step>, st: RunState, r: Request)
    requires RanOut(st)
    ensures
      var t := Apply(exec, steps, st, r);
      RanOut(t) && t.log == st.log && t.progress == st.progress
  {
  }

  /** Such a run executes and skips nothing any more, whatever is requested short of an unguarded resume. */
  lemma {:induction false} NothingRunsAgain(exec: Executor, steps: seq<Step>, st: RunState, rs: seq<Request>)
    requires RanOut(st)
    ensures
      var t := ApplyAll(exec, steps, st, rs);
      RanOut(t) && t.log == st.log && t.progress == st.progress
    decreases |rs|
  {
    if rs != [] {
      RequestRunsNothing(exec, steps, st, rs[0]);
      NothingRunsAgain(exec, steps, Apply(exec, steps, st, rs[0]), rs[1..]);
    }
  }

  /**
    A run that waits for the approval of its board, when the board is generated
    on request: nothing is pending, and no such request changes its log any more.
   */
  lemma {:induction false} StuckRun(exec: Executor, step: Step, data: Data, rs: seq<Request>)
    requires step.kind.CreateMiroBoard? && step.order >= 1
    requires Requested(data).Ok? && BOARD in Requested(data).value
    requires exec(step, data).NeedsCommit? && exec(step, data).kind.BoardKind?
    ensures
      var st := History(exec, [step], true, data, [BoardRequest(true)]);
      && st.status.AwaitingApproval? && NothingPending(st)
      && ApplyAll(exec, [step], st, rs).log == st.log == [Row(step, Awaiting, data, None)]
  {
    var steps, r := [step], BoardRequest(true);
    FromIs(steps, 1, 0);
    var waiting := ExecuteSteps(exec, steps, NewRun(true), data, []);
    assert waiting == TakeStep(exec, NewRun(true), step, data, Requested(data).value, []).st;
    assert ApplyAll(exec, steps, waiting, [r]) == Apply(exec, steps, waiting, r);
    NothingRunsAgain(exec, steps, Apply(exec, steps, waiting, r), rs);
  }

  /** Rejecting any record that is pending fails the run, even one that no step waits for. */
  lemma {:induction false} RejectionFails(st: RunState, id: nat)
    ensures
      var t := Reject(st, id);
      if id < |st.approvals| && st.approvals[id].status.Pending?
      then t.status.Failed? && t.approvals[id].status.Rejected? && t.commits == st.commits && t.progress == st.progress
      else t == st
  {
  }

  /** What approves a pending record of the id and kind: an approval of its own, or the board it waits for. */
  ghost predicate Approves(st: RunState, r: Request, id: nat, kind: CommitKind) {
    || (r.ApproveRequest? && r.id == id && r.commit.Committed?)
    || (r.BoardRequest? && r.generated && BoardKind !in st.made && kind.BoardKind?)
  }

  /** A pending record is approved or rejected by exactly these requests; every other one leaves it pending. */
  lemma {:induction false} DecidedExactlyWhen(exec: Executor, steps: seq<Step>, st: RunState, r: Request, id: nat)
    requires id < |st.approvals| && st.approvals[id].status.Pending?
    ensures
      var t := Apply(exec, steps, st, r);
      && id < |t.approvals|
      && (t.approvals[id].status.Approved? <==> Approves(st, r, id, st.approvals[id].kind))
      && (t.approvals[id].status.Rejected? <==> r.RejectRequest? && r.id == id)
  {
    match r
    case ResumeRequest(extra) => ResumeGrows(exec, steps, st, extra);
    case ApproveRequest(other, commit) =>
      if other < |st.approvals| && st.approvals[other].status.Pending? && commit.Committed?
        && st.approvals[other].execution.Some? && st.approvals[other].execution.value < |st.log|
      {
        ApproveGrants(exec, steps, st, other, commit);
        ExecuteStepsGrows(exec, steps, Granted(st, other, commit.output), commit.output);
      }
    case _ =>
  }

  // ---- tasks from an analysis with unreviewed anomalies ----

  /** Tasks are asked for although anomalies are unreviewed, or all of them were excluded. */
  predicate Uncleared(r: Request) {
    r.TasksRequest? && (r.review.Unreviewed? || r.review.AllExcluded?)
  }

  function WithoutUncleared(rs: seq<Request>): seq<Request> {
    if rs == [] then []
    else (if Uncleared(rs[0]) then [] else [rs[0]]) + WithoutUncleared(rs[1..])
  }

  /** Such requests can be left out of every history. */
  lemma {:induction false} UnclearedChangeNothing(exec: Executor, steps: seq<Step>, st: RunState, rs: seq<Request>)
    ensures ApplyAll(exec, steps, st, rs) == ApplyAll(exec, steps, st, WithoutUncleared(rs))
    decreases |rs|
  {
    if rs != [] {
      var next := Apply(exec, steps, st, rs[0]);
      UnclearedChangeNothing(exec, steps, next, rs[1..]);
      var rest := WithoutUncleared(rs[1..]);
      if Uncleared(rs[0]) {
        assert next == st && [] + rest == rest;
      } else {
        assert ([rs[0]] + rest)[1..] == rest;
      }
    }
  }

  // ---- how often the same thing is made beside the steps ----

  predicate MadeBeside(c: Commit, kind: CommitKind) {
    c == Beside(kind) || (kind.BoardKind? && c.Generated?)
  }

  /** How often something of the kind was committed beside the steps without an approval. */
  function TimesBeside(commits: seq<Commit>, kind: CommitKind): nat {
    if commits == [] then 0
    else
      var n := |commits| - 1;
      TimesBeside(commits[..n], kind) + if MadeBeside(commits[n], kind) then 1 else 0
  }

  lemma {:induction false} TimesAppend(commits: seq<Commit>, c: Commit, kind: CommitKind)
    ensures TimesBeside(commits + [c], kind) == TimesBeside(commits, kind) + if MadeBeside(c, kind) then 1 else 0
  {
    assert (commits + [c])[..|commits|] == commits;
  }

  ghost predicate AtMostOnce(st: RunState, kind: CommitKind) {
    TimesBeside(st.commits, kind) <= if kind in st.made then 1 else 0
  }

  lemma {:induction false} TurnCommits(exec: Executor, st: RunState, step: Step, data: Data, requested: set<string>)
    ensures
      var turn := TakeStep(exec, st, step, data, requested, []);
      && turn.extras == [] && st.made <= turn.st.made
      && (turn.st.commits == st.commits || turn.st.commits == st.commits + [Direct(|st.log|)])
  {
  }

  lemma {:induction false} TurnOnce(exec: Executor, st: RunState, step: Step, data: Data, requested: set<string>,
      kind: CommitKind)
    requires AtMostOnce(st, kind)
    ensures
      var turn := TakeStep(exec, st, step, data, requested, []);
      AtMostOnce(turn.st, kind) && turn.extras == []
  {
    TurnCommits(exec, st, step, data, requested);
    TimesAppend(st.commits, Direct(|st.log|), kind);
  }

  lemma {:induction false} ExecuteOnce(exec: Executor, steps: seq<Step>, st: RunState, i: nat, data: Data,
      requested: set<string>, kind: CommitKind)
    requires i <= |steps| && AtMostOnce(st, kind)
    ensures AtMostOnce(ExecuteFrom(exec, steps, st, i, data, requested, []), kind)
    decreases |steps| - i
  {
    if i < |steps| {
      var turn := TakeStep(exec, st, steps[i], data, requested, []);
      TurnOnce(exec, st, steps[i], data, requested, kind);
      if !turn.halt {
        ExecuteOnce(exec, steps, turn.st, i + 1, turn.data, requested, kind);
      }
    }
  }

  lemma {:induction false} ExecuteStepsOnce(exec: Executor, steps: seq<Step>, st: RunState, data: Data,
      kind: CommitKind)
    requires AtMostOnce(st, kind)
    ensures AtMostOnce(ExecuteSteps(exec, steps, st, data, []), kind)
  {
    if Requested(data).Ok? {
      ExecuteOnce(exec, steps, st, From(steps, st.current), data, Requested(data).value, kind);
    }
  }

  lemma {:induction false} ApproveOnce(exec: Executor, steps: seq<Step>, st: RunState, id: nat, commit: CommitResult,
      kind: CommitKind)
    requires AtMostOnce(st, kind)
    ensures AtMostOnce(Approve(exec, steps, st, id, commit), kind)
  {
    if id < |st.approvals| && st.approvals[id].status.Pending? && commit.Committed? {
      TimesAppend(st.commits, ForApproval(id), kind);
      if st.approvals[id].execution.Some? && st.approvals[id].execution.value < |st.log| {
        ApproveGrants(exec, steps, st, id, commit);
        ExecuteStepsOnce(exec, steps, Granted(st, id, commit.output), commit.output, kind);
      }
    }
  }

  lemma {:induction false} ResumeOnce(exec: Executor, steps: seq<Step>, st: RunState, extra: Data, kind: CommitKind)
    requires AtMostOnce(st, kind)
    ensures AtMostOnce(Resume(exec, steps, st, extra), kind)
  {
    if st.status.AwaitingUser? && Stored(st.log).Some? {
      ExecuteStepsOnce(exec, steps, st, Stored(st.log).value + extra, kind);
    }
  }

  lemma {:induction false} CommitBesideOnce(st: RunState, made: CommitKind, commit: CommitResult, kind: CommitKind)
    requires AtMostOnce(st, kind) && !made.BoardKind? && (kind == made ==> made !in st.made)
    requires kind.TasksKind? || kind.DecisionsKind? || kind.BoardKind?
    ensures AtMostOnce(CommitBeside(st, made, commit), kind)
  {
    TimesAppend(st.commits, Beside(made), kind);
  }

  lemma {:induction false} RequestOnce(exec: Executor, steps: seq<Step>, st: RunState, r: Request, kind: CommitKind)
    requires AtMostOnce(st, kind) && (kind.TasksKind? || kind.DecisionsKind? || kind.BoardKind?)
    ensures AtMostOnce(Apply(exec, steps, st, r), kind)
  {
    match r
    case ResumeRequest(extra) => ResumeOnce(exec, steps, st, extra, kind);
    case ApproveRequest(id, commit) => ApproveOnce(exec, steps, st, id, commit, kind);
    case DecisionsRequest(commit) =>
      if DecisionsKind !in st.made {
        CommitBesideOnce(st, DecisionsKind, commit, kind);
      }
    case TasksRequest(review, commit) =>
      if TasksKind !in st.made {
        CommitBesideOnce(st, TasksKind, commit, kind);
      }
    case ForwardRequest(commit) => CommitBesideOnce(st, ForwardKind, commit, kind);
    case BoardRequest(generated) => TimesAppend(st.commits, Generated(PendingBoards(st.approvals)), kind);
    case _ =>
  }

  lemma {:induction false} RequestsOnce(exec: Executor, steps: seq<Step>, st: RunState, rs: seq<Request>,
      kind: CommitKind)
    requires AtMostOnce(st, kind) && (kind.TasksKind? || kind.DecisionsKind? || kind.BoardKind?)
    ensures AtMostOnce(ApplyAll(exec, steps, st, rs), kind)
    decreases |rs|
  {
    if rs != [] {
      RequestOnce(exec, steps, st, rs[0], kind);
      RequestsOnce(exec, steps, Apply(exec, steps, st, rs[0]), rs[1..], kind);
    }
  }

  /** Without an approval, tasks, decisions and the board are made beside the steps at most once in any history. */
  lemma {:induction false} OnceBeside(exec: Executor, steps: seq<Step>, approvalRequired: bool, data: Data,
      rs: seq<Request>, kind: CommitKind)
    requires kind.TasksKind? || kind.DecisionsKind? || kind.BoardKind?
    ensures TimesBeside(History(exec, steps, approvalRequired, data, rs).commits, kind) <= 1
  {
    ExecuteStepsOnce(exec, steps, NewRun(approvalRequired), data, kind);
    RequestsOnce(exec, steps, ExecuteSteps(exec, steps, NewRun(approvalRequired), data, []), rs, kind);
  }

  /** Tasks from the analysis, with the approval they need. */
  function TasksMade(exec: Executor, steps: seq<Step>, st: RunState, review: Review, commit: CommitResult): RunState {
    var t := TasksFromAnalysis(st, review, commit);
    if st.approvalRequired then Approve(exec, steps, t, |st.approvals|, commit) else t
  }

  /**
    The guard against creating the tasks again holds if and only if they did
    not need an approval: an approval beside the steps is not put on the run's
    record, so that the same two requests commit the tasks once more.
   */
  lemma {:induction false} TasksRememberedExactlyWhen(exec: Executor, steps: seq<Step>, st: RunState, review: Review,
      commit: CommitResult)
    requires TasksKind !in st.made && (review.NoAnomalies? || review.SomeIncluded?) && commit.Committed?
    ensures
      var once := TasksMade(exec, steps, st, review, commit);
      var twice := TasksMade(exec, steps, once, review, commit);
      && |once.commits| == |st.commits| + 1
      && (TasksKind in once.made <==> !st.approvalRequired)
      && |twice.commits| == |once.commits| + if st.approvalRequired then 1 else 0
  {
  }
}

/**
  Which of its commits a run remembers: what a step committed, at once or after
  an approval, and what was made beside the steps without one is not made again
  on request (backend/agent/services.py).
 */
module CommitMemory {
  import opened Common
  import opened GenerationOutputs
  import opened WorkflowEngine
  import opened WorkflowRuns
  import opened RunOutcomes

  /** Tasks, decisions and boards are kept on the run's record. */
  predicate Kept(kind: CommitKind) {
    kind.TasksKind? || kind.DecisionsKind? || kind.BoardKind?
  }

  /**
    The commit is one of the kind that the run remembers: of an executor that
    asked for the kind, for the approval of a step's record of the kind, beside
    the steps without an approval, or a board on request. An approval of a
    record that belongs to no step is not remembered.
   */
  predicate Makes(exec: Executor, steps: seq<Step>, st: RunState, c: Commit, kind: CommitKind) {
    match c
    case Direct(k) =>
      && k < |st.log|
      && var outcome := OutcomeOf(exec, steps, st.log[k]);
      && outcome.Some? && outcome.value.NeedsCommit? && outcome.value.kind == kind
    case ForApproval(id) => id < |st.approvals| && st.approvals[id].execution.Some? && st.approvals[id].kind == kind
    case Beside(made) => made == kind
    case Generated(_) => kind.BoardKind?
  }

  predicate Refers(st: RunState, c: Commit) {
    && (c.Direct? ==> c.execution < |st.log|)
    && (c.ForApproval? ==> c.id < |st.approvals|)
  }

  ghost predicate SomeMakes(exec: Executor, steps: seq<Step>, st: RunState, kind: CommitKind) {
    exists i :: 0 <= i < |st.commits| && Makes(exec, steps, st, st.commits[i], kind)
  }

  ghost predicate Remembers(exec: Executor, steps: seq<Step>, st: RunState, kind: CommitKind) {
    && (forall i :: 0 <= i < |st.commits| ==> Refers(st, st.commits[i]))
    && (kind in st.made <==> SomeMakes(exec, steps, st, kind))
  }

  lemma {:induction false} StaysMade(exec: Executor, steps: seq<Step>, a: RunState, b: RunState, c: Commit,
      kind: CommitKind)
    requires Extends(a, b) && Refers(a, c)
    ensures Refers(b, c) && (Makes(exec, steps, b, c, kind) <==> Makes(exec, steps, a, c, kind))
  {
  }

  /** At most one more commit, remembered exactly if it makes something of the kind. */
  ghost predicate OneMore(exec: Executor, steps: seq<Step>, a: RunState, b: RunState, kind: CommitKind) {
    || (b.commits == a.commits && (kind in b.made <==> kind in a.made))
    || (|b.commits| == |a.commits| + 1
        && Refers(b, b.commits[|a.commits|])
        && (kind in b.made <==> kind in a.made || Makes(exec, steps, b, b.commits[|a.commits|], kind)))
  }

  lemma {:induction false} OneMoreRemembered(exec: Executor, steps: seq<Step>, a: RunState, b: RunState,
      kind: CommitKind)
    requires Extends(a, b) && Remembers(exec, steps, a, kind) && OneMore(exec, steps, a, b, kind)
    ensures Remembers(exec, steps, b, kind)
  {
    var n := |a.commits|;
    forall i | 0 <= i < n
      ensures Refers(b, b.commits[i])
      ensures Makes(exec, steps, b, b.commits[i], kind) <==> Makes(exec, steps, a, a.commits[i], kind)
    {
      assert b.commits[i] == a.commits[i];
      StaysMade(exec, steps, a, b, a.commits[i], kind);
    }
    if SomeMakes(exec, steps, a, kind) {
      var i :| 0 <= i < n && Makes(exec, steps, a, a.commits[i], kind);
      assert Makes(exec, steps, b, b.commits[i], kind);
    }
  }

  lemma {:induction false} TurnRemembers(exec: Executor, steps: seq<Step>, st: RunState, i: nat, data: Data,
      requested: set<string>, kind: CommitKind)
    requires i < |steps| && Sorted(steps) && Kept(kind) && Remembers(exec, steps, st, kind)
    ensures Remembers(exec, steps, TakeStep(exec, st, steps[i], data, requested, []).st, kind)
  {
    var t := TakeStep(exec, st, steps[i], data, requested, []).st;
    TurnGrows(exec, st, steps[i], data, requested, []);
    GrowsExtends(st, st, t);
    if t.commits != st.commits {
      TurnRow(exec, st, steps[i], data, requested, []);
      StepOf(exec, steps, i, t.log[|st.log|]);
      assert t.commits == st.commits + [Direct(|st.log|)];
    }
    OneMoreRemembered(exec, steps, st, t, kind);
  }

  lemma {:induction false} ExecuteRemembers(exec: Executor, steps: seq<Step>, st: RunState, i: nat, data: Data,
      requested: set<string>, kind: CommitKind)
    requires i <= |steps| && Sorted(steps) && Kept(kind) && Remembers(exec, steps, st, kind)
    ensures Remembers(exec, steps, ExecuteFrom(exec, steps, st, i, data, requested, []), kind)
    decreases |steps| - i
  {
    if i < |steps| {
      var turn := TakeStep(exec, st, steps[i], data, requested, []);
      TurnRemembers(exec, steps, st, i, data, requested, kind);
      TurnData(exec, st, steps[i], data, requested);
      if !turn.halt {
        ExecuteRemembers(exec, steps, turn.st, i + 1, turn.data, requested, kind);
      }
    } else {
      OneMoreRemembered(exec, steps, st, st.(status := Completed), kind);
    }
  }

  lemma {:induction false} ExecuteStepsRemembers(exec: Executor, steps: seq<Step>, st: RunState, data: Data,
      kind: CommitKind)
    requires Sorted(steps) && Kept(kind) && Remembers(exec, steps, st, kind)
    ensures Remembers(exec, steps, ExecuteSteps(exec, steps, st, data, []), kind)
  {
    if Requested(data).Ok? {
      ExecuteRemembers(exec, steps, st, From(steps, st.current), data, Requested(data).value, kind);
    }
  }

  lemma {:induction false} GrantedRemembers(exec: Executor, steps: seq<Step>, st: RunState, id: nat, output: Data,
      kind: CommitKind)
    requires id < |st.approvals| && StepWaits(st.approvals[id]) && st.approvals[id].execution.value < |st.log|
    requires Kept(kind) && Remembers(exec, steps, st, kind)
    ensures Remembers(exec, steps, Granted(st, id, output), kind)
  {
    var t := Granted(st, id, output);
    assert Extends(st, t);
    assert t.commits[|st.commits|] == ForApproval(id);
    OneMoreRemembered(exec, steps, st, t, kind);
  }

  lemma {:induction false} ApprovedBeside(exec: Executor, steps: seq<Step>, st: RunState, t: RunState, id: nat,
      kind: CommitKind)
    requires id < |st.approvals| && st.approvals[id].status.Pending? && st.approvals[id].execution.None?
    requires t == st.(approvals := st.approvals[id := st.approvals[id].(status := Approved)],
                      commits := st.commits + [ForApproval(id)])
    requires Remembers(exec, steps, st, kind)
    ensures Remembers(exec, steps, t, kind)
  {
    assert Extends(st, t);
    assert t.commits[|st.commits|] == ForApproval(id);
    OneMoreRemembered(exec, steps, st, t, kind);
  }

  lemma {:induction false} ApproveRemembers(exec: Executor, steps: seq<Step>, st: RunState, id: nat,
      commit: CommitResult, kind: CommitKind)
    requires LedgerOk(st) && Sorted(steps) && Kept(kind) && Remembers(exec, steps, st, kind)
    ensures Remembers(exec, steps, Approve(exec, steps, st, id, commit), kind)
  {
    if id < |st.approvals| && st.approvals[id].status.Pending? && commit.Committed? {
      if st.approvals[id].execution.Some? {
        ApproveGrants(exec, steps, st, id, commit);
        GrantedRemembers(exec, steps, st, id, commit.output, kind);
        ExecuteStepsRemembers(exec, steps, Granted(st, id, commit.output), commit.output, kind);
      } else {
        ApprovedBeside(exec, steps, st, Approve(exec, steps, st, id, commit), id, kind);
      }
    }
  }

  lemma {:induction false} CommitBesideRemembers(exec: Executor, steps: seq<Step>, st: RunState, made: CommitKind,
      commit: CommitResult, status: RunStatus, kind: CommitKind)
    requires Kept(kind) && Remembers(exec, steps, st, kind)
    ensures Remembers(exec, steps, CommitBeside(st, made, commit), kind)
    ensures Remembers(exec, steps, CommitBeside(st, made, commit).(status := status), kind)
  {
    var t := CommitBeside(st, made, commit);
    assert Extends(st, t);
    OneMoreRemembered(exec, steps, st, t, kind);
    OneMoreRemembered(exec, steps, t, t.(status := status), kind);
  }

  lemma {:induction false} BoardRemembers(exec: Executor, steps: seq<Step>, st: RunState, kind: CommitKind)
    requires Kept(kind) && Remembers(exec, steps, st, kind)
    ensures Remembers(exec, steps, BoardOnRequest(st, true), kind)
  {
    var t := BoardOnRequest(st, true);
    assert Extends(st, t);
    OneMoreRemembered(exec, steps, st, t, kind);
  }

  lemma {:induction false} RejectRemembers(exec: Executor, steps: seq<Step>, st: RunState, id: nat, kind: CommitKind)
    requires Remembers(exec, steps, st, kind)
    ensures Remembers(exec, steps, Reject(st, id), kind)
  {
    var t := Reject(st, id);
    assert Extends(st, t);
    OneMoreRemembered(exec, steps, st, t, kind);
  }

  lemma {:induction false} RequestRemembers(exec: Executor, steps: seq<Step>, st: RunState, r: Request,
      kind: CommitKind)
    requires LedgerOk(st) && Sorted(steps) && Kept(kind) && Remembers(exec, steps, st, kind)
    ensures Remembers(exec, steps, Apply(exec, steps, st, r), kind)
  {
    match r
    case ResumeRequest(extra) =>
      if st.status.AwaitingUser? && Stored(st.log).Some? {
        ExecuteStepsRemembers(exec, steps, st, Stored(st.log).value + extra, kind);
      }
    case ApproveRequest(id, commit) => ApproveRemembers(exec, steps, st, id, commit, kind);
    case RejectRequest(id) => RejectRemembers(exec, steps, st, id, kind);
    case SetApprovalRequired(on) => OneMoreRemembered(exec, steps, st, st.(approvalRequired := on), kind);
    case DecisionsRequest(commit) =>
      CommitBesideRemembers(exec, steps, st, DecisionsKind, commit, Completed, kind);
    case TasksRequest(_, commit) => CommitBesideRemembers(exec, steps, st, TasksKind, commit, Completed, kind);
    case ForwardRequest(commit) => CommitBesideRemembers(exec, steps, st, ForwardKind, commit, Completed, kind);
    case BoardRequest(_) => BoardRemembers(exec, steps, st, kind);
  }

  lemma {:induction false} RequestsRemember(exec: Executor, steps: seq<Step>, st: RunState, rs: seq<Request>,
      kind: CommitKind)
    requires Inv(steps, st) && Kept(kind) && Remembers(exec, steps, st, kind)
    ensures Remembers(exec, steps, ApplyAll(exec, steps, st, rs), kind)
    decreases |rs|
  {
    if rs != [] {
      ApplyKeeps(exec, steps, st, rs[0]);
      RequestRemembers(exec, steps, st, rs[0], kind);
      RequestsRemember(exec, steps, Apply(exec, steps, st, rs[0]), rs[1..], kind);
    }
  }

  /** Over every history: tasks, decisions or a board are on the run's record if and only if some commit made them. */
  lemma {:induction false} MadeExactlyWhen(exec: Executor, steps: seq<Step>, approvalRequired: bool, data: Data,
      rs: seq<Request>, kind: CommitKind)
    requires Sorted(steps) && (kind.TasksKind? || kind.DecisionsKind? || kind.BoardKind?)
    ensures
      var st := History(exec, steps, approvalRequired, data, rs);
      kind in st.made <==> SomeMakes(exec, steps, st, kind)
  {
    var blank := NewRun(approvalRequired);
    HistoryKeeps(exec, steps, approvalRequired, data, []);
    ExecuteStepsRemembers(exec, steps, blank, data, kind);
    RequestsRemember(exec, steps, ExecuteSteps(exec, steps, blank, data, []), rs, kind);
  }

  /** So what has been made, by a step or beside the steps, is not made again on request. */
  lemma {:induction false} NotMadeAgain(exec: Executor, steps: seq<Step>, approvalRequired: bool, data: Data,
      rs: seq<Request>, r: Request)
    requires Sorted(steps)
    requires
      var st := History(exec, steps, approvalRequired, data, rs);
      || (r.TasksRequest? && SomeMakes(exec, steps, st, TasksKind))
      || (r.DecisionsRequest? && SomeMakes(exec, steps, st, DecisionsKind))
      || (r.BoardRequest? && SomeMakes(exec, steps, st, BoardKind))
    ensures
      var st := History(exec, steps, approvalRequired, data, rs);
      Apply(exec, steps, st, r) == st
  {
    MadeExactlyWhen(exec, steps, approvalRequired, data, rs,
                    if r.TasksRequest? then TasksKind else if r.DecisionsRequest? then DecisionsKind else BoardKind);
  }
}

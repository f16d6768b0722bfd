/**
  What waiting for an approval does to the data flow. An approved step continues
  on what the commit function returned (backend/agent/services.py,
  resolve_external_approval_stream). A step that commits at once goes on through
  its executor, which may add to that (backend/agent/executors.py).
 */
module ApprovalTransparency {
  import opened Common
  import opened GenerationOutputs
  import opened WorkflowEngine
  import opened WorkflowRuns

  /** The step, and whatever steps follow it. */
  function Workflow(step: Step, rest: seq<Step>): seq<Step> {
    [step] + rest
  }

  /** The run pauses at its first step, approval is switched off for the rest, and the commit is approved. */
  function Approved(exec: Executor, steps: seq<Step>, data: Data, commit: CommitResult): RunState {
    var paused := ExecuteSteps(exec, steps, NewRun(true), data, []);
    Approve(exec, steps, paused.(approvalRequired := false), 0, commit)
  }

  /** The same run without approvals. */
  function Unasked(exec: Executor, steps: seq<Step>, data: Data): RunState {
    ExecuteSteps(exec, steps, NewRun(false), data, [])
  }

  /** The step asks for a commit, which succeeds. */
  ghost predicate AsksCommit(exec: Executor, step: Step, data: Data, commit: CommitResult) {
    && step.order >= 1 && !step.kind.AwaitConfirmation? && Requested(data).Ok?
    && !ShouldSkip(step.kind, Requested(data).value)
    && exec(step, data).NeedsCommit? && exec(step, data).commit == commit && commit.Committed?
  }

  /** Same executions on the same data with the same results, same skips, same end. */
  ghost predicate SameFlow(a: RunState, b: RunState) {
    a.status == b.status && a.log == b.log && a.progress == b.progress
  }

  // ---- equal but for some keys ----

  ghost predicate AlikeBut(keys: set<string>, a: Data, b: Data) {
    a - keys == b - keys && (a == map[] <==> b == map[])
  }

  ghost predicate AlikeOutput(keys: set<string>, a: Option<Data>, b: Option<Data>) {
    if a.Some? then b.Some? && AlikeBut(keys, a.value, b.value) else b.None?
  }

  ghost predicate AlikeCommit(keys: set<string>, a: CommitResult, b: CommitResult) {
    if a.CommitRaised? then b.CommitRaised?
    else b.Committed? && AlikeBut(keys, a.output, b.output) && AlikeBut(keys, a.added, b.added)
  }

  ghost predicate AlikeOutcome(keys: set<string>, a: Outcome, b: Outcome) {
    match a
    case Done(output) => b.Done? && AlikeOutput(keys, output, b.output)
    case NeedsCommit(kind, commit) => b.NeedsCommit? && b.kind == kind && AlikeCommit(keys, commit, b.commit)
    case GaveUp => b.GaveUp?
    case Failure => b.Failure?
  }

  /** No executor looks at the given keys: whatever they hold, its result is the same but for them. */
  ghost predicate Indifferent(exec: Executor, keys: set<string>) {
    forall step, a, b :: AlikeBut(keys, a, b) ==> AlikeOutcome(keys, exec(step, a), exec(step, b))
  }

  ghost predicate AlikeRow(keys: set<string>, a: Execution, b: Execution) {
    && a.order == b.order && a.kind == b.kind && a.status == b.status
    && AlikeBut(keys, a.input, b.input) && AlikeOutput(keys, a.output, b.output)
  }

  ghost predicate AlikeLog(keys: set<string>, a: seq<Execution>, b: seq<Execution>) {
    |a| == |b| && forall k :: 0 <= k < |a| ==> AlikeRow(keys, a[k], b[k])
  }

  /** The same executions, skips and end, and the same data but for the given keys. */
  ghost predicate SameFlowBut(keys: set<string>, a: RunState, b: RunState) {
    a.status == b.status && a.progress == b.progress && AlikeLog(keys, a.log, b.log)
  }

  lemma {:induction false} OrElseAlike(keys: set<string>, a: Option<Data>, b: Option<Data>, data: Data, other: Data)
    requires AlikeOutput(keys, a, b) && AlikeBut(keys, data, other)
    ensures AlikeBut(keys, OrElse(a, data), OrElse(b, other))
  {
  }

  lemma {:induction false} MergeAlike(keys: set<string>, a: Data, b: Data, x: Data, y: Data)
    requires AlikeBut(keys, a, b) && AlikeBut(keys, x, y)
    ensures AlikeBut(keys, a + x, b + y)
  {
    assert (a + x) - keys == (a - keys) + (x - keys);
    assert (b + y) - keys == (b - keys) + (y - keys);
    MergeEmpty(a, x);
    MergeEmpty(b, y);
  }

  lemma {:induction false} MergeEmpty(a: Data, x: Data)
    ensures a + x == map[] <==> a == map[] && x == map[]
  {
    if a + x == map[] {
      assert forall k :: k in a || k in x ==> k in a + x;
    }
  }

  lemma {:induction false} AppendAlike(keys: set<string>, a: seq<Execution>, b: seq<Execution>, x: Execution,
      y: Execution)
    requires AlikeLog(keys, a, b) && AlikeRow(keys, x, y)
    ensures AlikeLog(keys, a + [x], b + [y])
  {
  }

  /** States from which the engine goes on alike. */
  ghost predicate AlikeSoFar(keys: set<string>, a: RunState, b: RunState) {
    AlikeLog(keys, a.log, b.log) && a.progress == b.progress && !a.approvalRequired && !b.approvalRequired
  }

  /** What a turn comes to in two runs that are alike. */
  ghost predicate AlikeTurn(keys: set<string>, s: Turn, t: Turn) {
    && s.halt == t.halt && (s.halt ==> s.st.status == t.st.status) && s.extras == t.extras == []
    && AlikeSoFar(keys, s.st, t.st) && AlikeBut(keys, s.data, t.data)
  }

  lemma {:induction false} SucceedAlike(keys: set<string>, a: RunState, b: RunState, step: Step, data: Data,
      other: Data, x: Option<Data>, y: Option<Data>)
    requires AlikeSoFar(keys, a, b) && AlikeBut(keys, data, other) && AlikeOutput(keys, x, y)
    ensures AlikeTurn(keys, Succeed(a, step, data, x, []), Succeed(b, step, other, y, []))
  {
    AppendAlike(keys, a.log, b.log, Row(step, Succeeded, data, x), Row(step, Succeeded, other, y));
    OrElseAlike(keys, x, y, data, other);
  }

  lemma {:induction false} CommitAlike(keys: set<string>, data: Data, other: Data, x: CommitResult, y: CommitResult)
    requires x.Committed? && AlikeCommit(keys, x, y) && AlikeBut(keys, data, other)
    ensures AlikeBut(keys, DirectOutput(data, x.output, x.added), DirectOutput(other, y.output, y.added))
  {
    OrElseAlike(keys, Some(x.output), Some(y.output), data, other);
    MergeAlike(keys, OrElse(Some(x.output), data), OrElse(Some(y.output), other), x.added, y.added);
  }

  lemma {:induction false} TurnAlike(exec: Executor, keys: set<string>, a: RunState, b: RunState, step: Step,
      data: Data, other: Data, requested: set<string>)
    requires Indifferent(exec, keys) && AlikeSoFar(keys, a, b) && AlikeBut(keys, data, other)
    ensures AlikeTurn(keys, TakeStep(exec, a, step, data, requested, []), TakeStep(exec, b, step, other, requested, []))
  {
    if !ShouldSkip(step.kind, requested) {
      var x, y := Execute(exec, step, data), Execute(exec, step, other);
      assert AlikeOutcome(keys, x, y);
      var a1, b1 := a.(progress := a.progress + [Ran(step.order)]), b.(progress := b.progress + [Ran(step.order)]);
      match x
      case Done(output) => SucceedAlike(keys, a1, b1, step, data, other, output, y.output);
      case NeedsCommit(kind, commit) =>
        if commit.Committed? {
          CommitAlike(keys, data, other, commit, y.commit);
          var a2 := a1.(commits := a1.commits + [Direct(|a.log|)], made := Made(a1.made, kind));
          var b2 := b1.(commits := b1.commits + [Direct(|b.log|)], made := Made(b1.made, kind));
          SucceedAlike(keys, a2, b2, step, data, other, Some(DirectOutput(data, commit.output, commit.added)),
                       Some(DirectOutput(other, y.commit.output, y.commit.added)));
        } else {
          AppendAlike(keys, a.log, b.log, Row(step, Broken, data, None), Row(step, Broken, other, None));
        }
      case GaveUp => AppendAlike(keys, a.log, b.log, Row(step, Skipped, data, None), Row(step, Skipped, other, None));
      case Failure => AppendAlike(keys, a.log, b.log, Row(step, Broken, data, None), Row(step, Broken, other, None));
    }
  }

  /** Executions that start alike stay alike to the end. */
  lemma {:induction false} FlowsAlike(exec: Executor, keys: set<string>, steps: seq<Step>, a: RunState, b: RunState,
      i: nat, data: Data, other: Data, requested: set<string>)
    requires i <= |steps| && Indifferent(exec, keys) && AlikeSoFar(keys, a, b) && AlikeBut(keys, data, other)
    ensures SameFlowBut(keys, ExecuteFrom(exec, steps, a, i, data, requested, []),
                        ExecuteFrom(exec, steps, b, i, other, requested, []))
    decreases |steps| - i
  {
    if i < |steps| {
      var s := TakeStep(exec, a, steps[i], data, requested, []);
      var t := TakeStep(exec, b, steps[i], other, requested, []);
      TurnAlike(exec, keys, a, b, steps[i], data, other, requested);
      if !s.halt {
        FlowsAlike(exec, keys, steps, s.st, t.st, i + 1, s.data, t.data, requested);
      }
    }
  }

  /** Nothing is left out: then alike means equal, and every executor is indifferent. */
  lemma {:induction false} AlikeInAll(a: Data, b: Data)
    ensures AlikeBut({}, a, b) <==> a == b
  {
    assert a - {} == a && b - {} == b;
  }

  lemma {:induction false} AllIndifferent(exec: Executor)
    ensures Indifferent(exec, {})
  {
    forall step, a, b | AlikeBut({}, a, b)
      ensures AlikeOutcome({}, exec(step, a), exec(step, b))
    {
      AlikeInAll(a, b);
    }
  }

  lemma {:induction false} SameInAll(a: RunState, b: RunState)
    requires SameFlowBut({}, a, b)
    ensures SameFlow(a, b)
  {
    forall k | 0 <= k < |a.log|
      ensures a.log[k] == b.log[k]
    {
      assert AlikeRow({}, a.log[k], b.log[k]);
      AlikeInAll(a.log[k].input, b.log[k].input);
      if a.log[k].output.Some? {
        AlikeInAll(a.log[k].output.value, b.log[k].output.value);
      }
    }
  }

  // ---- behind the commit ----

  /** The run behind the committed step, which left the given output on record. */
  ghost predicate Behind(st: RunState, step: Step, data: Data, output: Data) {
    && st.log == [Row(step, Succeeded, data, Some(output))] && st.progress == [Ran(step.order)]
    && !st.approvalRequired && st.status.Analyzing?
  }

  lemma {:induction false} DirectGoesOn(exec: Executor, step: Step, rest: seq<Step>, data: Data, commit: CommitResult)
    returns (st: RunState)
    requires AsksCommit(exec, step, data, commit) && Sorted(Workflow(step, rest))
    ensures Behind(st, step, data, DirectOutput(data, commit.output, commit.added))
    ensures Unasked(exec, Workflow(step, rest), data)
         == ExecuteFrom(exec, Workflow(step, rest), st, 1,
                        OrElse(Some(DirectOutput(data, commit.output, commit.added)), data), Requested(data).value, [])
  {
    var steps, requested := Workflow(step, rest), Requested(data).value;
    FromIs(steps, 1, 0);
    st := TakeStep(exec, NewRun(false), step, data, requested, []).st;
    assert steps[0] == step;
  }

  lemma {:induction false} PausesAtCommit(exec: Executor, step: Step, rest: seq<Step>, data: Data, commit: CommitResult)
    requires AsksCommit(exec, step, data, commit) && Sorted(Workflow(step, rest))
    ensures ExecuteSteps(exec, Workflow(step, rest), NewRun(true), data, [])
         == TakeStep(exec, NewRun(true), step, data, Requested(data).value, []).st
  {
    var steps := Workflow(step, rest);
    FromIs(steps, 1, 0);
    assert steps[0] == step;
  }

  lemma {:induction false} ApprovedGoesOn(exec: Executor, step: Step, rest: seq<Step>, data: Data, commit: CommitResult)
    returns (st: RunState)
    requires AsksCommit(exec, step, data, commit) && Sorted(Workflow(step, rest))
    ensures Behind(st, step, data, commit.output)
    ensures
      var steps, next := Workflow(step, rest), commit.output;
      Approved(exec, steps, data, commit) ==
        if Requested(next).Ok? then ExecuteFrom(exec, steps, st, 1, next, Requested(next).value, []) else st
  {
    var steps := Workflow(step, rest);
    PausesAtCommit(exec, step, rest, data, commit);
    var paused := ExecuteSteps(exec, steps, NewRun(true), data, []).(approvalRequired := false);
    st := Granted(paused, 0, commit.output);
    assert steps[0] == step;
    FromIs(steps, step.order + 1, 1);
  }

  // ---- when approving is invisible ----

  /** The executor adds nothing that the commit's output does not already hold, and the output carries the request. */
  ghost predicate HandsOnTheSame(data: Data, commit: CommitResult)
    requires commit.Committed?
  {
    && DirectOutput(data, commit.output, commit.added) == commit.output
    && Requested(commit.output) == Requested(data)
  }

  /**
    If the commit's output is not empty and carries the run's request, and no
    executor looks at the added keys, approving gives the executions, skips and
    end of committing at once, and the same data but for the added keys.
   */
  lemma {:induction false} DiffersOnlyInAdded(exec: Executor, step: Step, rest: seq<Step>, data: Data,
      commit: CommitResult)
    requires AsksCommit(exec, step, data, commit) && Sorted(Workflow(step, rest))
    requires commit.output != map[] && Requested(commit.output) == Requested(data)
    requires Indifferent(exec, commit.added.Keys)
    ensures SameFlowBut(commit.added.Keys, Approved(exec, Workflow(step, rest), data, commit),
                        Unasked(exec, Workflow(step, rest), data))
  {
    var keys, output, other := commit.added.Keys, commit.output, commit.output + commit.added;
    var a := ApprovedGoesOn(exec, step, rest, data, commit);
    var b := DirectGoesOn(exec, step, rest, data, commit);
    MergeEmpty(output, commit.added);
    assert output - keys == other - keys;
    FlowsAlike(exec, keys, Workflow(step, rest), a, b, 1, output, other, Requested(data).value);
  }

  lemma {:induction false} SameIsTransparent(exec: Executor, step: Step, rest: seq<Step>, data: Data,
      commit: CommitResult)
    requires AsksCommit(exec, step, data, commit) && Sorted(Workflow(step, rest)) && HandsOnTheSame(data, commit)
    ensures SameFlow(Approved(exec, Workflow(step, rest), data, commit), Unasked(exec, Workflow(step, rest), data))
  {
    var a := ApprovedGoesOn(exec, step, rest, data, commit);
    var b := DirectGoesOn(exec, step, rest, data, commit);
    AllIndifferent(exec);
    AlikeInAll(data, data);
    AlikeInAll(commit.output, commit.output);
    MergeEmpty(OrElse(Some(commit.output), data), commit.added);
    FlowsAlike(exec, {}, Workflow(step, rest), a, b, 1, commit.output, commit.output, Requested(data).value);
    SameInAll(Approved(exec, Workflow(step, rest), data, commit), Unasked(exec, Workflow(step, rest), data));
  }

  /** Another output shows in the step's own row. */
  lemma {:induction false} OutputShows(exec: Executor, step: Step, data: Data, commit: CommitResult)
    requires AsksCommit(exec, step, data, commit)
    requires DirectOutput(data, commit.output, commit.added) != commit.output || Requested(commit.output).Err?
    ensures !SameFlow(Approved(exec, Workflow(step, []), data, commit), Unasked(exec, Workflow(step, []), data))
  {
    var a := ApprovedGoesOn(exec, step, [], data, commit);
    var b := DirectGoesOn(exec, step, [], data, commit);
  }

  /** The rows after one more step that is no confirmation. */
  lemma {:induction false} NextRow(exec: Executor, steps: seq<Step>, st: RunState, data: Data, requested: set<string>)
    requires |steps| == 2 && !steps[1].kind.AwaitConfirmation?
    ensures
      var log := ExecuteFrom(exec, steps, st, 1, data, requested, []).log;
      if ShouldSkip(steps[1].kind, requested) then log == st.log
      else |log| == |st.log| + 1 && log[|st.log|].input == data
  {
    TurnData(exec, st, steps[1], data, requested);
  }

  /** Another request shows in a step that only one of the runs skips. */
  lemma {:induction false} RequestShows(exec: Executor, step: Step, data: Data, commit: CommitResult, kind: StepType)
    requires AsksCommit(exec, step, data, commit) && Requested(commit.output).Ok? && !kind.AwaitConfirmation?
    requires ShouldSkip(kind, Requested(commit.output).value) != ShouldSkip(kind, Requested(data).value)
    ensures
      var steps := Workflow(step, [Step(0, step.order + 1, kind)]);
      Sorted(steps) && !SameFlow(Approved(exec, steps, data, commit), Unasked(exec, steps, data))
  {
    var next, rest := commit.output, [Step(0, step.order + 1, kind)];
    var a := ApprovedGoesOn(exec, step, rest, data, commit);
    var b := DirectGoesOn(exec, step, rest, data, commit);
    NextRow(exec, Workflow(step, rest), a, next, Requested(next).value);
    NextRow(exec, Workflow(step, rest), b, OrElse(Some(DirectOutput(data, commit.output, commit.added)), data),
            Requested(data).value);
  }

  /** A workflow on which the two runs differ, if they do not hand on the same. */
  lemma {:induction false} DifferenceShows(exec: Executor, step: Step, data: Data, commit: CommitResult)
    returns (rest: seq<Step>)
    requires AsksCommit(exec, step, data, commit) && !HandsOnTheSame(data, commit)
    ensures Sorted(Workflow(step, rest))
    ensures !SameFlow(Approved(exec, Workflow(step, rest), data, commit), Unasked(exec, Workflow(step, rest), data))
  {
    if DirectOutput(data, commit.output, commit.added) != commit.output || Requested(commit.output).Err? {
      rest := [];
      OutputShows(exec, step, data, commit);
    } else {
      SkipsSeparateRequests(commit.output, data);
      var kind: StepType :| !kind.AwaitConfirmation?
        && ShouldSkip(kind, Requested(commit.output).value) != ShouldSkip(kind, Requested(data).value);
      rest := [Step(0, step.order + 1, kind)];
      RequestShows(exec, step, data, commit, kind);
    }
  }

  /** Over all workflows that go on behind the step, pausing and approving is like committing at once. */
  ghost predicate Transparent(exec: Executor, step: Step, data: Data, commit: CommitResult) {
    forall rest :: Sorted(Workflow(step, rest)) ==>
      SameFlow(Approved(exec, Workflow(step, rest), data, commit), Unasked(exec, Workflow(step, rest), data))
  }

  /**
    Approving gives the executions, data and end of committing at once, over
    all workflows, if and only if the executor adds nothing to the commit's
    output and the output carries the run's request.
   */
  lemma {:induction false} ApprovalIsTransparentExactlyWhen(exec: Executor, step: Step, data: Data,
      commit: CommitResult)
    requires AsksCommit(exec, step, data, commit)
    ensures Transparent(exec, step, data, commit) <==> HandsOnTheSame(data, commit)
  {
    if HandsOnTheSame(data, commit) {
      forall rest | Sorted(Workflow(step, rest))
        ensures SameFlow(Approved(exec, Workflow(step, rest), data, commit), Unasked(exec, Workflow(step, rest), data))
      {
        SameIsTransparent(exec, step, rest, data, commit);
      }
    } else {
      var rest := DifferenceShows(exec, step, data, commit);
    }
  }

  // ---- the commits of the workflow steps ----

  const TASK_IDS: string := "created_task_ids"
  const DECISION_IDS: string := "created_decision_ids"

  /**
    `create_tasks` and `create_decision` return their input with the analysis
    that was read from it, so their input; the executors add the created ids.
   */
  function IdsCommit(data: Data, field: string, ids: Value): CommitResult {
    Committed(data, map[field := ids])
  }

  /** `create_miro_board` and `custom_api` return their input with the result, and nothing is added. */
  function BoardCommit(data: Data, snapshot: Value, board: Value): CommitResult {
    Committed(data["miro_snapshot" := snapshot]["miro_board_id" := board], map[])
  }

  function ApiCommit(data: Data, response: Value): CommitResult {
    Committed(data["api_response" := response], map[])
  }

  lemma {:induction false} BoardAndApiAreTransparent(exec: Executor, step: Step, data: Data, result: Value,
      board: Value, ofBoard: bool)
    requires
      AsksCommit(exec, step, data, if ofBoard then BoardCommit(data, result, board) else ApiCommit(data, result))
    ensures Transparent(exec, step, data, if ofBoard then BoardCommit(data, result, board) else ApiCommit(data, result))
  {
    var commit := if ofBoard then BoardCommit(data, result, board) else ApiCommit(data, result);
    assert OUTPUTS_FIELD !in {"miro_snapshot", "miro_board_id", "api_response"} by {
      assert OUTPUTS_FIELD[0] == 'g';
    }
    assert RawRequest(commit.output) == RawRequest(data);
    assert "miro_board_id" in commit.output || "api_response" in commit.output;
    assert commit.output + map[] == commit.output;
    ApprovalIsTransparentExactlyWhen(exec, step, data, commit);
  }

  /**
    For tasks and decisions approving loses the created ids: it is invisible
    only if the data held these very ids before. But it differs in nothing
    else, whatever follows, if no executor looks at them.
   */
  lemma {:induction false} IdsAreLostUnless(exec: Executor, step: Step, data: Data, field: string, ids: Value)
    requires field == TASK_IDS || field == DECISION_IDS
    requires data != map[] && AsksCommit(exec, step, data, IdsCommit(data, field, ids))
    ensures Transparent(exec, step, data, IdsCommit(data, field, ids)) <==> field in data && data[field] == ids
    ensures Indifferent(exec, {field}) ==>
      forall rest :: Sorted(Workflow(step, rest)) ==>
        SameFlowBut({field}, Approved(exec, Workflow(step, rest), data, IdsCommit(data, field, ids)),
                    Unasked(exec, Workflow(step, rest), data))
  {
    var commit := IdsCommit(data, field, ids);
    ApprovalIsTransparentExactlyWhen(exec, step, data, commit);
    assert (data + commit.added)[field] == ids;
    assert field in data && data[field] == ids ==> data + commit.added == data;
    assert commit.added.Keys == {field};
    if Indifferent(exec, {field}) {
      forall rest | Sorted(Workflow(step, rest))
        ensures SameFlowBut({field}, Approved(exec, Workflow(step, rest), data, commit),
                            Unasked(exec, Workflow(step, rest), data))
      {
        DiffersOnlyInAdded(exec, step, rest, data, commit);
      }
    }
  }

  /** The step behind gets the ids if nobody was asked, and does not if the commit was approved. */
  lemma {:induction false} IdsReachNext(exec: Executor, step: Step, data: Data, field: string, ids: Value)
    requires data != map[] && AsksCommit(exec, step, data, IdsCommit(data, field, ids))
    ensures
      var steps, commit := Workflow(step, [Step(0, step.order + 1, Merge)]), IdsCommit(data, field, ids);
      var a, b := Approved(exec, steps, data, commit), Unasked(exec, steps, data);
      && Sorted(steps) && |a.log| == |b.log| == 2
      && a.log[1].input == data && b.log[1].input == data[field := ids]
  {
    var rest, commit := [Step(0, step.order + 1, Merge)], IdsCommit(data, field, ids);
    var steps := Workflow(step, rest);
    var a := ApprovedGoesOn(exec, step, rest, data, commit);
    var b := DirectGoesOn(exec, step, rest, data, commit);
    assert data + commit.added == data[field := ids];
    NextRow(exec, steps, a, data, Requested(data).value);
    NextRow(exec, steps, b, data[field := ids], Requested(data).value);
  }

  /** An engine whose `create_tasks` creates one task; every other step passes its data on. */
  function OneTask(step: Step, data: Data): Outcome {
    if step.kind.CreateTasks? then NeedsCommit(TasksKind, IdsCommit(data, TASK_IDS, Other(1))) else Done(Some(data))
  }

  /** A run of two steps whose data differ in the id of the created task. */
  lemma {:induction false} TaskIdsLost()
    ensures
      var steps := Workflow(Step(0, 1, CreateTasks), [Step(0, 2, Merge)]);
      var data: Data := map["analysis_result" := Other(0)];
      var a, b := Approved(OneTask, steps, data, IdsCommit(data, TASK_IDS, Other(1))), Unasked(OneTask, steps, data);
      && |a.log| == |b.log| == 2
      && a.log[1].input == data && b.log[1].input == data[TASK_IDS := Other(1)] && TASK_IDS !in data
  {
    var data: Data := map["analysis_result" := Other(0)];
    assert "analysis_result" in data && OUTPUTS_FIELD !in data;
    assert ALL_KEYS[0] == TASKS;
    IdsReachNext(OneTask, Step(0, 1, CreateTasks), data, TASK_IDS, Other(1));
  }
}

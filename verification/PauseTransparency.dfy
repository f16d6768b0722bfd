/**
  Pausing for a confirmation is invisible to the data flow exactly when
  executors hand on the run's request; the unguarded resumes, and when they
  run a step again.
 */
module PauseTransparency {
  import opened Common
  import opened GenerationOutputs
  import opened WorkflowEngine
  import opened WorkflowRuns

  // ---- pause and resume against one uninterrupted execution ----

  function ResumeAll(exec: Executor, steps: seq<Step>, st: RunState, extras: seq<Data>): RunState
    decreases |extras|
  {
    if extras == [] then st else ResumeAll(exec, steps, Resume(exec, steps, st, extras[0]), extras[1..])
  }

  /** Equal but for the resume position, which only a pause or a skip moves. */
  ghost predicate SameRun(a: RunState, b: RunState) {
    a.(current := 0) == b.(current := 0)
  }

  /** Equal but for position and status, which the next halt overwrites. */
  ghost predicate SameRecords(a: RunState, b: RunState) {
    a.(current := 0, status := Analyzing) == b.(current := 0, status := Analyzing)
  }

  /** The data an executor's result hands on to the next step, if it hands on anything. */
  function HandedOn(outcome: Outcome, data: Data): Option<Data> {
    match outcome
    case Done(output) => Some(OrElse(output, data))
    case NeedsCommit(_, Committed(output, added)) => Some(OrElse(Some(DirectOutput(data, output, added)), data))
    case _ => None
  }

  /** The executor runs at all on this step and data, and is not the engine's own confirmation. */
  ghost predicate Runs(step: Step, data: Data) {
    && step.order >= 1 && !step.kind.AwaitConfirmation?
    && Requested(data).Ok? && !ShouldSkip(step.kind, Requested(data).value)
  }

  /** Every executor hands on the request it was given. */
  ghost predicate KeepsRequest(exec: Executor) {
    forall step, data | Runs(step, data) ::
      var next := HandedOn(exec(step, data), data);
      next.Some? ==> Requested(next.value) == Requested(data)
  }

  /** Values a user may add on continuing: anything but the request itself. */
  ghost predicate LeavesRequest(extras: seq<Data>) {
    forall e :: e in extras ==> OUTPUTS_FIELD !in e
  }

  /** For one workflow: pausing at the confirmations and resuming gives the run that passes through them. */
  ghost predicate TransparentOn(exec: Executor, steps: seq<Step>, approvalRequired: bool, data: Data,
      extras: seq<Data>) {
    SameRun(
      ResumeAll(exec, steps, ExecuteSteps(exec, steps, NewRun(approvalRequired), data, []), extras),
      ExecuteSteps(exec, steps, NewRun(approvalRequired), data, extras))
  }

  ghost predicate Transparent(exec: Executor) {
    forall steps, approvalRequired, data, extras |
      Sorted(steps) && Requested(data).Ok? && LeavesRequest(extras) ::
      TransparentOn(exec, steps, approvalRequired, data, extras)
  }

  lemma {:induction false} ResumeAllStops(exec: Executor, steps: seq<Step>, st: RunState, extras: seq<Data>)
    requires !st.status.AwaitingUser?
    ensures ResumeAll(exec, steps, st, extras) == st
    decreases |extras|
  {
    if extras != [] {
      ResumeAllStops(exec, steps, st, extras[1..]);
    }
  }

  /** One turn of the engine against the same turn with inputs in hand. */
  lemma {:induction false} TurnsAgree(exec: Executor, st: RunState, other: RunState, step: Step, data: Data,
                   requested: set<string>, extras: seq<Data>)
    requires SameRecords(st, other)
    ensures
      var a := TakeStep(exec, st, step, data, requested, []);
      var b := TakeStep(exec, other, step, data, requested, extras);
      if step.kind.AwaitConfirmation? && extras != [] && !ShouldSkip(step.kind, requested) then
        a.halt && a.st.status.AwaitingUser? && !b.halt && SameRecords(a.st, b.st)
        && b.data == data + extras[0] && b.extras == extras[1..]
        && a.st.log == st.log + [Row(step, Succeeded, data, Some(data))]
      else
        a.halt == b.halt && SameRecords(a.st, b.st) && a.data == b.data && b.extras == extras
        && (a.halt ==> SameRun(a.st, b.st)) && (a.halt && a.st.status.AwaitingUser? ==> extras == [])
  {
    if !ShouldSkip(step.kind, requested) {
      match Execute(exec, step, data)
      case Done(_) =>
      case NeedsCommit(_, _) =>
      case _ =>
    }
  }

  lemma {:induction false} HandsOnRequest(exec: Executor, st: RunState, step: Step, data: Data, requested: set<string>)
    requires KeepsRequest(exec) && step.order >= 1 && Requested(data) == Ok(requested)
    ensures
      var turn := TakeStep(exec, st, step, data, requested, []);
      !turn.halt ==> Requested(turn.data) == Ok(requested)
  {
    if !step.kind.AwaitConfirmation? && !ShouldSkip(step.kind, requested) {
      assert Runs(step, data);
    }
  }

  /** What a resume does to a run that has just paused at step i. */
  lemma {:induction false} ResumeContinues(exec: Executor, steps: seq<Step>, st: RunState, i: nat, data: Data,
      extra: Data)
    requires i < |steps| && Inv(steps, st) && st.status.AwaitingUser? && Cut(steps, st) == i + 1
    requires |st.log| > 0 && st.log[|st.log| - 1].output == Some(data)
    requires OUTPUTS_FIELD !in extra && Requested(data).Ok?
    ensures Resume(exec, steps, st, extra)
         == ExecuteFrom(exec, steps, st, i + 1, data + extra, Requested(data).value, [])
    ensures Requested(data + extra) == Requested(data)
  {
    StoredIsConfirmation(steps, st);
    assert RawRequest(data + extra) == RawRequest(data);
  }

  /** The paused side of a confirmation: the first resume goes on behind it. */
  lemma {:induction false} PausedSide(exec: Executor, steps: seq<Step>, st: RunState, i: nat, data: Data,
      requested: set<string>, extras: seq<Data>)
    returns (paused: RunState)
    requires i < |steps| && Core(steps, st, i) && NoStepWaits(st)
    requires Requested(data) == Ok(requested) && LeavesRequest(extras)
    requires steps[i].kind.AwaitConfirmation? && extras != [] && !ShouldSkip(steps[i].kind, requested)
    ensures paused == TakeStep(exec, st, steps[i], data, requested, []).st
    ensures Core(steps, paused, i + 1) && NoStepWaits(paused)
    ensures Requested(data + extras[0]) == Ok(requested)
    ensures
      var resumed := ExecuteFrom(exec, steps, paused, i + 1, data + extras[0], requested, []);
      ResumeAll(exec, steps, paused, extras) == ResumeAll(exec, steps, resumed, extras[1..])
  {
    var a := TakeStep(exec, st, steps[i], data, requested, []);
    paused := a.st;
    TurnsAgree(exec, st, st, steps[i], data, requested, extras);
    TurnTurns(exec, st, steps[i], data, requested, []);
    TurnKeeps(steps, st, i, a);
    CutIs(steps, paused, i + 1);
    ResumeContinues(exec, steps, paused, i, data, extras[0]);
  }

  /** The confirmation at step i: one run pauses there and is resumed, the other goes on. */
  lemma {:induction false} PassConfirmation(exec: Executor, steps: seq<Step>, st: RunState, other: RunState, i: nat,
      data: Data, requested: set<string>, extras: seq<Data>)
    requires i < |steps| && Core(steps, st, i) && NoStepWaits(st) && SameRecords(st, other)
    requires KeepsRequest(exec) && Requested(data) == Ok(requested) && LeavesRequest(extras)
    requires steps[i].kind.AwaitConfirmation? && extras != [] && !ShouldSkip(steps[i].kind, requested)
    ensures SameRun(
      ResumeAll(exec, steps, TakeStep(exec, st, steps[i], data, requested, []).st, extras),
      ExecuteFrom(exec, steps, TakeStep(exec, other, steps[i], data, requested, extras).st, i + 1,
                  data + extras[0], requested, extras[1..]))
    decreases |steps| - i, 0
  {
    var paused := PausedSide(exec, steps, st, i, data, requested, extras);
    var passed := TakeStep(exec, other, steps[i], data, requested, extras).st;
    TurnsAgree(exec, st, other, steps[i], data, requested, extras);
    PausesPassThrough(exec, steps, paused, passed, i + 1, data + extras[0], requested, extras[1..]);
  }

  /** Another step's turn leaves the run sound, and the request as it was. */
  lemma {:induction false} TurnGoesOn(exec: Executor, steps: seq<Step>, st: RunState, i: nat, data: Data,
      requested: set<string>)
    requires i < |steps| && Core(steps, st, i) && NoStepWaits(st)
    requires KeepsRequest(exec) && Requested(data) == Ok(requested)
    requires !TakeStep(exec, st, steps[i], data, requested, []).halt
    ensures
      var a := TakeStep(exec, st, steps[i], data, requested, []);
      Core(steps, a.st, i + 1) && NoStepWaits(a.st) && Requested(a.data) == Ok(requested)
  {
    TurnTurns(exec, st, steps[i], data, requested, []);
    TurnKeeps(steps, st, i, TakeStep(exec, st, steps[i], data, requested, []));
    HandsOnRequest(exec, st, steps[i], data, requested);
  }

  /** Any other step i: both runs go on, or both stop in the same state. */
  lemma {:induction false} PassTurn(exec: Executor, steps: seq<Step>, st: RunState, other: RunState, i: nat,
      data: Data, requested: set<string>, extras: seq<Data>)
    requires i < |steps| && Core(steps, st, i) && NoStepWaits(st) && SameRecords(st, other)
    requires KeepsRequest(exec) && Requested(data) == Ok(requested) && LeavesRequest(extras)
    requires !TakeStep(exec, st, steps[i], data, requested, []).halt
    ensures
      var a := TakeStep(exec, st, steps[i], data, requested, []);
      var b := TakeStep(exec, other, steps[i], data, requested, extras);
      SameRun(
        ResumeAll(exec, steps, ExecuteFrom(exec, steps, a.st, i + 1, a.data, requested, []), extras),
        ExecuteFrom(exec, steps, b.st, i + 1, a.data, requested, extras))
    decreases |steps| - i, 0
  {
    var a := TakeStep(exec, st, steps[i], data, requested, []);
    var b := TakeStep(exec, other, steps[i], data, requested, extras);
    TurnsAgree(exec, st, other, steps[i], data, requested, extras);
    TurnGoesOn(exec, steps, st, i, data, requested);
    PausesPassThrough(exec, steps, a.st, b.st, i + 1, a.data, requested, extras);
  }

  lemma {:induction false} PausesPassThrough(exec: Executor, steps: seq<Step>, st: RunState, other: RunState, i: nat,
                                             data: Data, requested: set<string>, extras: seq<Data>)
    requires i <= |steps| && Core(steps, st, i) && NoStepWaits(st) && SameRecords(st, other)
    requires KeepsRequest(exec) && Requested(data) == Ok(requested) && LeavesRequest(extras)
    ensures SameRun(
      ResumeAll(exec, steps, ExecuteFrom(exec, steps, st, i, data, requested, []), extras),
      ExecuteFrom(exec, steps, other, i, data, requested, extras))
    decreases |steps| - i, 1
  {
    if i == |steps| {
      ResumeAllStops(exec, steps, st.(status := Completed), extras);
    } else {
      TurnsAgree(exec, st, other, steps[i], data, requested, extras);
      if steps[i].kind.AwaitConfirmation? && extras != [] && !ShouldSkip(steps[i].kind, requested) {
        PassConfirmation(exec, steps, st, other, i, data, requested, extras);
      } else if TakeStep(exec, st, steps[i], data, requested, []).halt {
        if extras != [] {
          ResumeAllStops(exec, steps, TakeStep(exec, st, steps[i], data, requested, []).st, extras);
        }
      } else {
        PassTurn(exec, steps, st, other, i, data, requested, extras);
      }
    }
  }

  lemma {:induction false} KeepingIsTransparent(exec: Executor)
    requires KeepsRequest(exec)
    ensures Transparent(exec)
  {
    forall steps, approvalRequired, data, extras |
      Sorted(steps) && Requested(data).Ok? && LeavesRequest(extras)
      ensures TransparentOn(exec, steps, approvalRequired, data, extras)
    {
      var st := NewRun(approvalRequired);
      NewRunCore(steps, approvalRequired);
      PausesPassThrough(exec, steps, st, st, From(steps, 1), data, Requested(data).value, extras);
    }
  }

  // ---- an executor that loses the request shows ----

  /** The step, a confirmation, and a step of the given kind. */
  function Probe(step: Step, kind: StepType): (steps: seq<Step>)
    ensures Sorted(steps) && |steps| == 3
  {
    [step, Step(0, step.order + 1, AwaitConfirmation), Step(0, step.order + 2, kind)]
  }

  /** The probe's first step, executed; the next turn is the confirmation. */
  lemma {:induction false} ProbeFirst(exec: Executor, step: Step, data: Data, kind: StepType, extras: seq<Data>)
    requires Runs(step, data) && HandedOn(exec(step, data), data).Some?
    ensures
      var steps, requested := Probe(step, kind), Requested(data).value;
      var next := HandedOn(exec(step, data), data).value;
      var turn := TakeStep(exec, NewRun(false), step, data, requested, extras);
      && turn.data == next && |turn.st.log| == 1 && turn.st.progress == [Ran(step.order)]
      && ExecuteSteps(exec, steps, NewRun(false), data, extras)
           == ExecuteFrom(exec, steps, turn.st, 1, next, requested, extras)
  {
    var steps := Probe(step, kind);
    FromIs(steps, 1, 0);
    assert steps[0] == step;
  }

  lemma {:induction false} ProbeLast(exec: Executor, steps: seq<Step>, st: RunState, data: Data,
      requested: set<string>, extras: seq<Data>)
    requires |steps| == 3 && !steps[2].kind.AwaitConfirmation? && !st.approvalRequired
    ensures
      var t := ExecuteFrom(exec, steps, st, 2, data, requested, extras);
      && !t.status.AwaitingUser?
      && |t.log| == |st.log| + if ShouldSkip(steps[2].kind, requested) then 0 else 1
  {
  }

  /** The probe's confirmation pauses the run, with the data stored. */
  lemma {:induction false} ProbeRests(exec: Executor, step: Step, data: Data, kind: StepType)
    requires Runs(step, data) && HandedOn(exec(step, data), data).Some?
    ensures
      var steps := Probe(step, kind);
      var paused := ExecuteSteps(exec, steps, NewRun(false), data, []);
      && paused.status.AwaitingUser? && !paused.approvalRequired && |paused.log| == 2
      && Stored(paused.log) == HandedOn(exec(step, data), data) && From(steps, paused.current) == 2
  {
    var steps, requested := Probe(step, kind), Requested(data).value;
    var next := HandedOn(exec(step, data), data).value;
    ProbeFirst(exec, step, data, kind, []);
    var st := TakeStep(exec, NewRun(false), step, data, requested, []).st;
    var paused := TakeStep(exec, st, steps[1], next, requested, []).st;
    assert ExecuteFrom(exec, steps, st, 1, next, requested, []) == paused;
    HistoryKeeps(exec, steps, false, data, []);
    assert History(exec, steps, false, data, []) == paused;
    StoredIsConfirmation(steps, paused);
    FromIs(steps, paused.current, 2);
  }

  lemma {:induction false} ProbePauses(exec: Executor, step: Step, data: Data, kind: StepType)
    requires Runs(step, data) && HandedOn(exec(step, data), data).Some? && !kind.AwaitConfirmation?
    ensures
      var steps := Probe(step, kind);
      var next := HandedOn(exec(step, data), data).value;
      var t := ResumeAll(exec, steps, ExecuteSteps(exec, steps, NewRun(false), data, []), [map[]]);
      if Requested(next).Err? then t.status.AwaitingUser?
      else |t.log| == 2 + if ShouldSkip(kind, Requested(next).value) then 0 else 1
  {
    var steps := Probe(step, kind);
    var next := HandedOn(exec(step, data), data).value;
    var paused := ExecuteSteps(exec, steps, NewRun(false), data, []);
    ProbeRests(exec, step, data, kind);
    assert next + map[] == next;
    if Requested(next).Ok? {
      ProbeLast(exec, steps, paused, next, Requested(next).value, []);
    }
  }

  lemma {:induction false} ProbePasses(exec: Executor, step: Step, data: Data, kind: StepType)
    requires Runs(step, data) && HandedOn(exec(step, data), data).Some? && !kind.AwaitConfirmation?
    ensures
      var steps := Probe(step, kind);
      var t := ExecuteSteps(exec, steps, NewRun(false), data, [map[]]);
      && !t.status.AwaitingUser?
      && |t.log| == 2 + if ShouldSkip(kind, Requested(data).value) then 0 else 1
  {
    var steps, requested := Probe(step, kind), Requested(data).value;
    var next := HandedOn(exec(step, data), data).value;
    ProbeFirst(exec, step, data, kind, [map[]]);
    var st := TakeStep(exec, NewRun(false), step, data, requested, [map[]]).st;
    var turn := TakeStep(exec, st, steps[1], next, requested, [map[]]);
    assert !turn.halt && turn.extras == [];
    ProbeLast(exec, steps, turn.st, turn.data, requested, []);
  }

  lemma {:induction false} LosingShows(exec: Executor, step: Step, data: Data)
    requires Runs(step, data) && HandedOn(exec(step, data), data).Some?
    requires Requested(HandedOn(exec(step, data), data).value) != Requested(data)
    ensures !Transparent(exec)
  {
    var next := HandedOn(exec(step, data), data).value;
    var kind := AnalyzeData;
    if Requested(next).Ok? {
      SkipsSeparateRequests(data, next);
      kind :| !kind.AwaitConfirmation?
        && ShouldSkip(kind, Requested(data).value) != ShouldSkip(kind, Requested(next).value);
    }
    ProbePauses(exec, step, data, kind);
    ProbePasses(exec, step, data, kind);
    assert !TransparentOn(exec, Probe(step, kind), false, data, [map[]]);
  }

  /**
    Over all workflows, inputs and numbers of pauses, pausing is invisible
    (same executions, same skips, same data, same end) if and only if every
    executor that runs hands on the run's request.
   */
  lemma {:induction false} TransparentExactlyWhenKept(exec: Executor)
    ensures Transparent(exec) <==> KeepsRequest(exec)
  {
    if KeepsRequest(exec) {
      KeepingIsTransparent(exec);
    } else {
      var step, data :| Runs(step, data) && HandedOn(exec(step, data), data).Some?
        && Requested(HandedOn(exec(step, data), data).value) != Requested(data);
      LosingShows(exec, step, data);
    }
  }

  /** What the `call_llm` executor hands on when it succeeds: an analysis and the spreadsheet, nothing else. */
  function CallLlmOutput(analysis: Value, sheet: Value): Data {
    map["analysis_result" := analysis, "spreadsheet_data" := sheet]
  }

  /** It keeps the run's request exactly when everything was requested. */
  lemma {:induction false} CallLlmKeepsExactlyWhen(data: Data, analysis: Value, sheet: Value)
    ensures
      var next := HandedOn(Done(Some(CallLlmOutput(analysis, sheet))), data);
      next.Some? && (Requested(next.value) == Requested(data) <==> Requested(data) == Ok(KeySet(ALL_KEYS)))
  {
    var next := CallLlmOutput(analysis, sheet);
    assert OUTPUTS_FIELD !in next;
    assert "analysis_result" in next && next != map[];
  }

  /** So an engine is not transparent if `call_llm` succeeds at all in a run that asked for less than everything. */
  lemma {:induction false} CallLlmLosesRequest(exec: Executor, step: Step, data: Data, analysis: Value, sheet: Value)
    requires step.kind.CallLlm? && Runs(step, data) && Requested(data) != Ok(KeySet(ALL_KEYS))
    requires exec(step, data) == Done(Some(CallLlmOutput(analysis, sheet)))
    ensures !Transparent(exec)
  {
    CallLlmKeepsExactlyWhen(data, analysis, sheet);
    LosingShows(exec, step, data);
  }

  /** There are such runs: those that ask for the board alone. */
  lemma {:induction false} BoardAlone()
    ensures
      var data: Data := map[OUTPUTS_FIELD := AsValue([BOARD])];
      Requested(data) == Ok({BOARD}) && Requested(data) != Ok(KeySet(ALL_KEYS)) && Runs(Step(0, 1, CallLlm), data)
  {
    var data: Data := map[OUTPUTS_FIELD := AsValue([BOARD])];
    assert Distinct([BOARD]);
    assert BOARD == ALL_KEYS[2];
    CollectDistinct([BOARD], 0);
    assert AsValue([BOARD]).items[0..] == AsValue([BOARD]).items && [BOARD][..0] == [];
    assert KeySet([BOARD]) == {BOARD};
    assert TASKS in ALL_KEYS && TASKS in KeySet(ALL_KEYS);
    assert TASKS != BOARD by {
      assert TASKS[0] != BOARD[0];
    }
  }

  // ---- the unguarded resumes ----

  /** The first step a resume would execute, or |steps|. */
  function NextExecuted(steps: seq<Step>, i: nat, requested: set<string>): (k: nat)
    requires i <= |steps|
    ensures i <= k <= |steps|
    ensures forall j :: i <= j < k ==> ShouldSkip(steps[j].kind, requested)
    ensures k < |steps| ==> !ShouldSkip(steps[k].kind, requested)
    decreases |steps| - i
  {
    if i < |steps| && ShouldSkip(steps[i].kind, requested) then NextExecuted(steps, i + 1, requested) else i
  }

  lemma {:induction false} ExecuteUnfolds(exec: Executor, steps: seq<Step>, st: RunState, i: nat, data: Data,
      requested: set<string>)
    requires i < |steps|
    ensures
      var turn := TakeStep(exec, st, steps[i], data, requested, []);
      ExecuteFrom(exec, steps, st, i, data, requested, [])
        == if turn.halt then turn.st else ExecuteFrom(exec, steps, turn.st, i + 1, turn.data, requested, [])
  {
  }

  /** Executing appends rows in the order of the steps, the first of them for the first step that is not skipped. */
  ghost predicate Appends(steps: seq<Step>, k: nat, log: seq<Execution>, more: seq<Execution>)
    requires k <= |steps|
  {
    && log <= more
    && (k < |steps| ==> |more| > |log| && more[|log|].order == steps[k].order)
    && (k < |steps| && (log == [] || log[|log| - 1].order < steps[k].order) ==> Increasing(LogOrders(more)))
    && (k == |steps| ==> more == log)
  }

  lemma {:induction false} ExecuteLogs(exec: Executor, steps: seq<Step>, st: RunState, i: nat, data: Data,
      requested: set<string>)
    requires Sorted(steps) && i <= |steps| && Increasing(LogOrders(st.log))
    ensures Appends(steps, NextExecuted(steps, i, requested), st.log,
                    ExecuteFrom(exec, steps, st, i, data, requested, []).log)
    decreases |steps| - i, 1
  {
    if i < |steps| {
      var turn := TakeStep(exec, st, steps[i], data, requested, []);
      ExecuteUnfolds(exec, steps, st, i, data, requested);
      TurnLog(exec, st, steps[i], data, requested, []);
      if ShouldSkip(steps[i].kind, requested) {
        ExecuteLogs(exec, steps, turn.st, i + 1, turn.data, requested);
      } else {
        if !turn.halt {
          ExecuteGrows(exec, steps, turn.st, i + 1, turn.data, requested, []);
        }
        LogsFrom(exec, steps, st.log, turn, i, requested);
      }
    }
  }

  /** After step i was executed onto `log`. */
  lemma {:induction false} LogsFrom(exec: Executor, steps: seq<Step>, log: seq<Execution>, turn: Turn, i: nat,
      requested: set<string>)
    requires Sorted(steps) && i < |steps| && Increasing(LogOrders(log))
    requires |turn.st.log| == |log| + 1 && turn.st.log == log + [turn.st.log[|log|]]
    requires turn.st.log[|log|].order == steps[i].order
    ensures log == [] || log[|log| - 1].order < steps[i].order ==>
      var t := if turn.halt then turn.st else ExecuteFrom(exec, steps, turn.st, i + 1, turn.data, requested, []);
      Increasing(LogOrders(t.log))
    decreases |steps| - i, 0
  {
    if log == [] || log[|log| - 1].order < steps[i].order {
      AppendIncreasing(log, turn.st.log[|log|]);
      if !turn.halt {
        ExecuteLogs(exec, steps, turn.st, i + 1, turn.data, requested);
      }
    }
  }

  lemma {:induction false} AppendIncreasing(log: seq<Execution>, row: Execution)
    requires Increasing(LogOrders(log)) && (log == [] || log[|log| - 1].order < row.order)
    ensures Increasing(LogOrders(log + [row]))
  {
    var all := LogOrders(log + [row]);
    forall i, j | 0 <= i < j < |all|
      ensures all[i] < all[j]
    {
      if j == |log| {
        assert LogOrders(log)[i] <= LogOrders(log)[|log| - 1];
      } else {
        assert LogOrders(log)[i] < LogOrders(log)[j];
      }
    }
  }

  /**
    Resuming whatever the status keeps the log in order, so runs no step a
    second time, exactly when the first step it would execute lies beyond the
    last one executed.
   */
  lemma {:induction false} UnguardedResumeIsSafeWhen(exec: Executor, steps: seq<Step>, st: RunState, extra: Data)
    requires Inv(steps, st) && Stored(st.log).Some? && Requested(Stored(st.log).value + extra).Ok?
    ensures
      var requested := Requested(Stored(st.log).value + extra).value;
      var k := NextExecuted(steps, From(steps, st.current), requested);
      Increasing(LogOrders(ResumeAnyway(exec, steps, st, extra).log)) <==>
        k == |steps| || st.log == [] || st.log[|st.log| - 1].order < steps[k].order
  {
    var data := Stored(st.log).value + extra;
    var i := From(steps, st.current);
    var k := NextExecuted(steps, i, Requested(data).value);
    ExecuteLogs(exec, steps, st, i, data, Requested(data).value);
    var t := ResumeAnyway(exec, steps, st, extra);
    var n := |st.log|;
    if k < |steps| && n > 0 && steps[k].order <= st.log[n - 1].order {
      assert LogOrders(t.log)[n - 1] >= LogOrders(t.log)[n];
    }
  }

  /** A completed run of one pass-through step that a fallback resumes executes the step again. */
  lemma {:induction false} UnguardedResumeRepeats(exec: Executor, data: Data)
    requires Requested(data).Ok? && exec(Step(0, 1, Merge), data) == Done(Some(data)) && data != map[]
    ensures
      var steps := [Step(0, 1, Merge)];
      var st := History(exec, steps, false, data, []);
      && Sorted(steps) && st.status.Completed?
      && LogOrders(st.log) == [1]
      && LogOrders(ResumeAnyway(exec, steps, st, map[]).log) == [1, 1]
  {
    var steps := [Step(0, 1, Merge)];
    FromIs(steps, 1, 0);
    var requested := Requested(data).value;
    var turn := TakeStep(exec, NewRun(false), steps[0], data, requested, []);
    assert ExecuteFrom(exec, steps, turn.st, 1, data, requested, []) == turn.st.(status := Completed);
    var st := History(exec, steps, false, data, []);
    assert st == turn.st.(status := Completed);
    assert st.log == [Row(steps[0], Succeeded, data, Some(data))];
    assert data + map[] == data;
    var again := TakeStep(exec, st, steps[0], data, requested, []);
    assert ExecuteFrom(exec, steps, again.st, 1, data, requested, []) == again.st.(status := Completed);
  }
}

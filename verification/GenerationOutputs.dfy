/**
  Which outputs a workflow run was asked to generate: parsing the request and
  deciding, step by step, what the request makes superfluous
  (backend/agent/generation_registry.py).
 */
module GenerationOutputs {
  import opened Common

  /** A Python value as it can sit in the data dict that flows between steps. */
  datatype Value =
    | Null
    | Text(s: string, loads: Option<Value>)  // `loads` is what a JSON decoder makes of s, None if it rejects s
    | List(items: seq<Value>)
    | Other(tag: int)                        // numbers, booleans, dicts: rejected where an array of strings is needed

  type Data = map<string, Value>

  const TASKS: string := "recommended_tasks"
  const TREE: string := "recommended_decision_tree"
  const BOARD: string := "miro_board"
  const ALL_KEYS: seq<string> := [TASKS, TREE, BOARD]

  datatype Invalid = NotJson | NotAList | NotAString | UnknownKey | NothingSelected

  // ---- normalize_generation_outputs ----

  /** The keys of `items` in order of first occurrence, appended to those already in `seen`. */
  function Collect(items: seq<Value>, seen: seq<string>): Result<seq<string>, Invalid> {
    if items == [] then Ok(seen)
    else match items[0]
      case Text(s, _) =>
        if s !in ALL_KEYS then Err(UnknownKey)
        else Collect(items[1..], if s in seen then seen else seen + [s])
      case _ => Err(NotAString)
  }

  function FromList(raw: Value): Result<seq<string>, Invalid> {
    if !raw.List? then Err(NotAList)
    else match Collect(raw.items, [])
      case Err(e) => Err(e)
      case Ok(keys) => if keys == [] then Err(NothingSelected) else Ok(keys)
  }

  function Normalized(raw: Value): Result<seq<string>, Invalid> {
    match raw
    case Null => Ok(ALL_KEYS)
    case Text(s, loads) =>
      if s == "" then Ok(ALL_KEYS)
      else (match loads
            case None => Err(NotJson)
            case Some(v) => FromList(v))
    case _ => FromList(raw)
  }

  method NormalizeGenerationOutputs(raw: Value) returns (r: Result<seq<string>, Invalid>)
    ensures r == Normalized(raw)
  {
    if raw.Null? || (raw.Text? && raw.s == "") {
      return Ok(ALL_KEYS);
    }
    var value := raw;
    if raw.Text? {
      if raw.loads.None? {
        return Err(NotJson);
      }
      value := raw.loads.value;
    }
    if !value.List? {
      return Err(NotAList);
    }
    var keys: seq<string> := [];
    for i := 0 to |value.items|
      invariant Collect(value.items, []) == Collect(value.items[i..], keys)
    {
      var item := value.items[i];
      if !item.Text? {
        return Err(NotAString);
      }
      if item.s !in ALL_KEYS {
        return Err(UnknownKey);
      }
      if item.s !in keys {
        keys := keys + [item.s];
      }
    }
    if keys == [] {
      return Err(NothingSelected);
    }
    return Ok(keys);
  }

  /** The list of keys as the value stored back into the data dict. */
  function AsValue(keys: seq<string>): Value {
    List(seq(|keys|, i requires 0 <= i < |keys| => Text(keys[i], None)))
  }

  ghost predicate Distinct<T>(s: seq<T>) {
    forall i, j :: 0 <= i < j < |s| ==> s[i] != s[j]
  }

  lemma {:induction false} CollectSelects(items: seq<Value>, seen: seq<string>)
    requires Distinct(seen)
    ensures Collect(items, seen).Ok? <==> forall v :: v in items ==> v.Text? && v.s in ALL_KEYS
    ensures Collect(items, seen).Ok? ==>
      var keys := Collect(items, seen).value;
      seen <= keys && Distinct(keys) &&
      forall k :: k in keys <==> k in seen || exists v :: v in items && v.Text? && v.s == k
  {
    if items != [] {
      assert items == [items[0]] + items[1..];
      match items[0]
      case Text(s, _) =>
        if s in ALL_KEYS {
          CollectSelects(items[1..], if s in seen then seen else seen + [s]);
        }
      case _ =>
        assert items[0] in items;
    }
  }

  /** Normalising an array succeeds exactly on non-empty arrays of allowed keys, and keeps each key once. */
  lemma {:induction false} NormalizedSelects(items: seq<Value>)
    ensures Normalized(List(items)).Ok? <==> items != [] && forall v :: v in items ==> v.Text? && v.s in ALL_KEYS
    ensures Normalized(List(items)).Ok? ==>
      var keys := Normalized(List(items)).value;
      Distinct(keys) && forall k :: k in keys <==> exists v :: v in items && v.Text? && v.s == k
  {
    CollectSelects(items, []);
    if items != [] && Collect(items, []).Ok? {
      assert items[0] in items;
      assert items[0].s in Collect(items, []).value;
    }
  }

  lemma {:induction false} CollectDistinct(keys: seq<string>, n: nat)
    requires n <= |keys| && Distinct(keys)
    requires forall k :: k in keys ==> k in ALL_KEYS
    ensures Collect(AsValue(keys).items[n..], keys[..n]) == Ok(keys)
    decreases |keys| - n
  {
    if n == |keys| {
      assert keys[..n] == keys;
    } else {
      assert AsValue(keys).items[n..][1..] == AsValue(keys).items[n + 1..];
      assert keys[n] in keys;
      assert keys[..n + 1] == keys[..n] + [keys[n]];
      CollectDistinct(keys, n + 1);
    }
  }

  lemma {:induction false} NormalizedWellFormed(raw: Value)
    requires Normalized(raw).Ok?
    ensures Normalized(raw).value != [] && Distinct(Normalized(raw).value)
    ensures forall k :: k in Normalized(raw).value ==> k in ALL_KEYS
  {
    var value := if raw.Text? && raw.s != "" then raw.loads.value else raw;
    if value.List? {
      NormalizedSelects(value.items);
    }
  }

  /** A normalised request stored in the data and normalised again is itself: re-entering a run does not change it. */
  lemma {:induction false} NormalizedIdempotent(raw: Value)
    requires Normalized(raw).Ok?
    ensures Normalized(AsValue(Normalized(raw).value)) == Normalized(raw)
  {
    NormalizedWellFormed(raw);
    var keys := Normalized(raw).value;
    CollectDistinct(keys, 0);
    assert AsValue(keys).items[0..] == AsValue(keys).items;
    assert keys[..0] == [];
  }

  // ---- what the data says was requested, and which steps that skips ----

  const OUTPUTS_FIELD: string := "generation_outputs"

  function RawRequest(data: Data): Value {
    if OUTPUTS_FIELD in data then data[OUTPUTS_FIELD] else Null
  }

  function KeySet(keys: seq<string>): set<string> {
    set k | k in keys
  }

  /** The set of requested outputs; an error stands for the exception that leaves the engine. */
  function Requested(data: Data): Result<set<string>, Invalid> {
    match Normalized(RawRequest(data))
    case Err(e) => Err(e)
    case Ok(keys) => Ok(KeySet(keys))
  }

  datatype StepType =
    | AnalyzeData | CallDify | CallLlm | CreateDecision | CreateTasks | GenerateMiroSnapshot
    | CreateMiroBoard | CustomApi | AwaitConfirmation | DetectColumns | NormalizeData
    | GenerateCriteria | IfElse | Merge | Loop

  predicate ShouldSkip(kind: StepType, requested: set<string>) {
    || (kind.CreateTasks? && TASKS !in requested)
    || (kind.CreateDecision? && TREE !in requested)
    || ((kind.GenerateMiroSnapshot? || kind.CreateMiroBoard?) && BOARD !in requested)
  }

  predicate Lists(items: seq<Value>, key: string) {
    exists i :: 0 <= i < |items| && items[i].Text? && items[i].s == key
  }

  /**
    A list asks for what it names: `create_tasks` is skipped exactly if it does
    not name the tasks, `create_decision` if not the tree, the two board steps
    if not the board, and nothing else is ever skipped.
   */
  lemma {:induction false} SkippedExactlyWhen(data: Data, items: seq<Value>, kind: StepType)
    requires "generation_outputs" in data && data["generation_outputs"] == List(items) && Requested(data).Ok?
    ensures ShouldSkip(kind, Requested(data).value) <==>
      match kind
      case CreateTasks => !Lists(items, "recommended_tasks")
      case CreateDecision => !Lists(items, "recommended_decision_tree")
      case GenerateMiroSnapshot => !Lists(items, "miro_board")
      case CreateMiroBoard => !Lists(items, "miro_board")
      case _ => false
  {
    NormalizedSelects(items);
    forall key: string
      ensures key in Requested(data).value <==> Lists(items, key)
    {
      if v :| v in items && v.Text? && v.s == key {
        var i :| 0 <= i < |items| && items[i] == v;
      }
    }
  }

  /** Without a request nothing is skipped. */
  lemma {:induction false} NothingSkippedUnasked(data: Data, kind: StepType)
    requires "generation_outputs" !in data
    ensures Requested(data).Ok? && !ShouldSkip(kind, Requested(data).value)
  {
    assert ALL_KEYS[0] == TASKS && ALL_KEYS[1] == TREE && ALL_KEYS[2] == BOARD;
  }

  /** The step types together tell any two requests apart: different requests skip a different set of step types. */
  lemma {:induction false} SkipsSeparateRequests(a: Data, b: Data)
    requires Requested(a).Ok? && Requested(b).Ok? && Requested(a) != Requested(b)
    ensures exists kind: StepType ::
      !kind.AwaitConfirmation? && ShouldSkip(kind, Requested(a).value) != ShouldSkip(kind, Requested(b).value)
  {
    NormalizedWellFormed(RawRequest(a));
    NormalizedWellFormed(RawRequest(b));
    var ra, rb := Requested(a).value, Requested(b).value;
    var apart := (ra - rb) + (rb - ra);
    assert apart == {} ==> ra == rb;
    var k :| k in apart;
    assert k in ALL_KEYS;
    if k == TASKS {
      assert ShouldSkip(CreateTasks, ra) != ShouldSkip(CreateTasks, rb);
    } else if k == TREE {
      assert ShouldSkip(CreateDecision, ra) != ShouldSkip(CreateDecision, rb);
    } else {
      assert ShouldSkip(CreateMiroBoard, ra) != ShouldSkip(CreateMiroBoard, rb);
    }
  }
}

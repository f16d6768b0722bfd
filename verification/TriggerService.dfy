/**
  Starting workflows from triggers: the fixed-window rate limit, the
  deduplication of repeated contexts, and the order in which the checks of a
  trigger consume them (backend/agent/trigger_service.py).
  Times are integers in microseconds.
 */
module TriggerService {
  import opened Common

  const HOUR: int := 3_600_000_000
  const MAX_PER_HOUR: nat := 100
  const DEDUP_WINDOW: int := 300_000_000

  // ---- rate limit ----

  datatype Rate = Rate(count: nat, resetAt: Option<int>)

  const NEW_RATE: Rate := Rate(0, None)

  /** The window has run out, or none was ever opened. */
  predicate Expired(r: Rate, now: int) {
    r.resetAt.None? || now >= r.resetAt.value
  }

  predicate Admits(r: Rate, now: int) {
    Expired(r, now) || r.count < MAX_PER_HOUR
  }

  function Attempt(r: Rate, now: int): Rate {
    if Expired(r, now) then Rate(1, Some(now + HOUR))
    else if r.count < MAX_PER_HOUR then r.(count := r.count + 1)
    else r
  }

  /** The rate after attempts at the given times. */
  function After(r: Rate, times: seq<int>): Rate {
    if times == [] then r else Attempt(After(r, times[..|times| - 1]), times[|times| - 1])
  }

  /** How many of the attempts made in [lo, hi) are admitted. */
  function AdmittedIn(r: Rate, times: seq<int>, lo: int, hi: int): nat {
    if times == [] then 0
    else
      var n := |times| - 1;
      AdmittedIn(r, times[..n], lo, hi) + if Admits(After(r, times[..n]), times[n]) && lo <= times[n] < hi then 1 else 0
  }

  ghost predicate Nondecreasing(times: seq<int>) {
    forall i, j :: 0 <= i <= j < |times| ==> times[i] <= times[j]
  }

  /** The admitted times, grouped by the window that admitted them. */
  function Windows(times: seq<int>): seq<seq<int>> {
    if times == [] then []
    else
      var n := |times| - 1;
      WithAttempt(Windows(times[..n]), After(NEW_RATE, times[..n]), times[n])
  }

  /** The windows after one more attempt. */
  function WithAttempt(ws: seq<seq<int>>, r: Rate, now: int): seq<seq<int>> {
    if !Admits(r, now) then ws
    else if Expired(r, now) || ws == [] then ws + [[now]]
    else ws[|ws| - 1 := ws[|ws| - 1] + [now]]
  }

  ghost predicate WindowOk(w: seq<int>) {
    1 <= |w| <= 100 && forall i :: 0 <= i < |w| ==> w[0] <= w[i] < w[0] + 3_600_000_000
  }

  /** At most 100 attempts a window, each within the hour, and windows opened at least an hour apart. */
  ghost predicate WindowsOk(ws: seq<seq<int>>) {
    && (forall i :: 0 <= i < |ws| ==> WindowOk(ws[i]))
    && (forall i, j :: 0 <= i < j < |ws| ==> ws[i][0] + 3_600_000_000 <= ws[j][0])
  }

  function CountIn(w: seq<int>, lo: int, hi: int): nat {
    if w == [] then 0 else CountIn(w[..|w| - 1], lo, hi) + if lo <= w[|w| - 1] < hi then 1 else 0
  }

  function Total(ws: seq<seq<int>>, lo: int, hi: int): nat {
    if ws == [] then 0 else Total(ws[..|ws| - 1], lo, hi) + CountIn(ws[|ws| - 1], lo, hi)
  }

  lemma {:induction false} CountAppend(w: seq<int>, t: int, lo: int, hi: int)
    ensures CountIn(w + [t], lo, hi) == CountIn(w, lo, hi) + if lo <= t < hi then 1 else 0
  {
    assert (w + [t])[..|w|] == w;
  }

  lemma {:induction false} CountBound(w: seq<int>, lo: int, hi: int)
    ensures CountIn(w, lo, hi) <= |w|
    ensures |w| > 0 && !(lo <= w[0] < hi) ==> CountIn(w, lo, hi) <= |w| - 1
    ensures (forall i :: 0 <= i < |w| ==> !(lo <= w[i] < hi)) ==> CountIn(w, lo, hi) == 0
  {
    if w != [] {
      CountBound(w[..|w| - 1], lo, hi);
    }
  }

  /** The stored rate counts the last window, which was opened an hour before its reset and not after `now`. */
  ghost predicate Tracks(ws: seq<seq<int>>, r: Rate, now: int) {
    && WindowsOk(ws)
    && (if ws == [] then r == NEW_RATE
        else r == Rate(|ws[|ws| - 1]|, Some(ws[|ws| - 1][0] + HOUR)) && ws[|ws| - 1][0] <= now)
  }

  lemma {:induction false} AttemptTracks(ws: seq<seq<int>>, r: Rate, before: int, now: int)
    requires Tracks(ws, r, before) && before <= now
    ensures Tracks(WithAttempt(ws, r, now), Attempt(r, now), now) && WithAttempt(ws, r, now) != []
  {
    var next := WithAttempt(ws, r, now);
    var n := |ws|;
    if Expired(r, now) {
      forall i | 0 <= i < n
        ensures next[i][0] + HOUR <= now
      {
        assert i < n - 1 ==> ws[i][0] + HOUR <= ws[n - 1][0];
      }
    } else if Admits(r, now) {
      assert WindowOk(ws[n - 1]);
      assert next[n - 1] == ws[n - 1] + [now];
    }
  }

  /** Over any nondecreasing attempts, the windows are as promised and the stored counter counts the open one. */
  lemma {:induction false} WindowsTrack(times: seq<int>)
    requires Nondecreasing(times)
    ensures
      var ws, r := Windows(times), After(NEW_RATE, times);
      && WindowsOk(ws)
      && (times == [] <==> ws == [])
      && Tracks(ws, r, if times == [] then 0 else times[|times| - 1])
  {
    if times != [] {
      var n := |times| - 1;
      WindowsTrack(times[..n]);
      var last := if n == 0 then times[n] else times[n - 1];
      AttemptTracks(Windows(times[..n]), After(NEW_RATE, times[..n]), last, times[n]);
    }
  }

  /** Every admitted attempt is in exactly one window. */
  lemma {:induction false} WindowsCount(times: seq<int>, lo: int, hi: int)
    requires Nondecreasing(times)
    ensures AdmittedIn(NEW_RATE, times, lo, hi) == Total(Windows(times), lo, hi)
  {
    if times != [] {
      var n := |times| - 1;
      var ws, r, now := Windows(times[..n]), After(NEW_RATE, times[..n]), times[n];
      WindowsTrack(times[..n]);
      WindowsCount(times[..n], lo, hi);
      if Admits(r, now) {
        if Expired(r, now) {
          assert (ws + [[now]])[..|ws|] == ws;
          CountAppend([], now, lo, hi);
          assert [] + [now] == [now];
        } else {
          var k := |ws| - 1;
          assert ws[k := ws[k] + [now]][..k] == ws[..k];
          CountAppend(ws[k], now, lo, hi);
        }
      }
    }
  }

  lemma {:induction false} TotalAfter(ws: seq<seq<int>>, lo: int, hi: int, k: nat)
    requires WindowsOk(ws) && k <= |ws|
    requires forall i :: 0 <= i < k ==> CountIn(ws[i], lo, hi) == 0
    ensures Total(ws[..k], lo, hi) == 0
  {
    if k > 0 {
      assert ws[..k][..k - 1] == ws[..k - 1];
      TotalAfter(ws, lo, hi, k - 1);
    }
  }

  /** No hour holds attempts of more than two windows, nor all of the first of two. */
  lemma {:induction false} TotalBound(ws: seq<seq<int>>, lo: int)
    requires WindowsOk(ws)
    ensures Total(ws, lo, lo + HOUR) <= 2 * MAX_PER_HOUR - 1
  {
    var hi, n := lo + HOUR, |ws|;
    if n > 0 {
      var last := ws[n - 1];
      CountBound(last, lo, hi);
      if CountIn(last, lo, hi) == 0 {
        TotalBound(ws[..n - 1], lo);
      } else if n > 1 {
        assert last[0] < hi;
        var prev := ws[n - 2];
        assert ws[..n - 1][..n - 2] == ws[..n - 2];
        CountBound(prev, lo, hi);
        forall i | 0 <= i < n - 2
          ensures CountIn(ws[i], lo, hi) == 0
        {
          assert ws[i][0] + HOUR <= ws[n - 2][0];
          assert ws[n - 2][0] + HOUR <= ws[n - 1][0];
          CountBound(ws[i], lo, hi);
        }
        TotalAfter(ws, lo, hi, n - 2);
        assert Total(ws[..n - 1], lo, hi) == CountIn(prev, lo, hi);
        assert prev[0] + HOUR <= last[0];
      }
    }
  }

  /** In any half-open hour at most 199 attempts are admitted, however they are timed. */
  lemma {:induction false} RateLimitBound(times: seq<int>, lo: int)
    requires Nondecreasing(times)
    ensures AdmittedIn(NEW_RATE, times, lo, lo + 3_600_000_000) <= 199
  {
    WindowsTrack(times);
    WindowsCount(times, lo, lo + HOUR);
    TotalBound(Windows(times), lo);
  }

  /** An attempt is refused exactly if the last window was opened less than an hour ago and has admitted 100. */
  lemma {:induction false} RefusedExactlyWhen(times: seq<int>, now: int)
    requires Nondecreasing(times)
    ensures
      var ws := Windows(times);
      !Admits(After(NEW_RATE, times), now) <==>
        ws != [] && |ws[|ws| - 1]| == 100 && now < ws[|ws| - 1][0] + 3_600_000_000
  {
    WindowsTrack(times);
    var ws := Windows(times);
    assert ws != [] ==> WindowOk(ws[|ws| - 1]);
  }

  function Repeat(t: int, n: nat): (ts: seq<int>)
    ensures |ts| == n && forall i :: 0 <= i < n ==> ts[i] == t
  {
    seq(n, _ => t)
  }

  lemma {:induction false} RepeatAdmitted(times: seq<int>, t: int, n: nat, lo: int, hi: int)
    requires After(NEW_RATE, times).resetAt.Some? && t < After(NEW_RATE, times).resetAt.value
    requires After(NEW_RATE, times).count + n <= MAX_PER_HOUR && lo <= t < hi
    ensures After(NEW_RATE, times + Repeat(t, n)) == After(NEW_RATE, times).(count := After(NEW_RATE, times).count + n)
    ensures AdmittedIn(NEW_RATE, times + Repeat(t, n), lo, hi) == AdmittedIn(NEW_RATE, times, lo, hi) + n
  {
    if n == 0 {
      assert times + Repeat(t, 0) == times;
    } else {
      RepeatAdmitted(times, t, n - 1, lo, hi);
      assert (times + Repeat(t, n))[..|times| + n - 1] == times + Repeat(t, n - 1);
    }
  }

  /** The bound is met: one attempt, 99 at the end of its window, 100 at the start of the next. */
  lemma {:induction false} RateLimitBoundIsSharp()
    ensures exists times, lo :: MeetsBound(times, lo)
  {
    var lo := HOUR - 1;
    var a := [0];
    assert a[..0] == [];
    assert After(NEW_RATE, a) == Rate(1, Some(HOUR)) && AdmittedIn(NEW_RATE, a, lo, lo + HOUR) == 0;
    var b := a + Repeat(lo, 99);
    RepeatAdmitted(a, lo, 99, lo, lo + HOUR);
    var c := b + [HOUR];
    assert c[..|b|] == b;
    assert After(NEW_RATE, c) == Rate(1, Some(2 * HOUR));
    RepeatAdmitted(c, HOUR, 99, lo, lo + HOUR);
    var times := c + Repeat(HOUR, 99);
    assert Nondecreasing(times);
    assert AdmittedIn(NEW_RATE, times, lo, lo + HOUR) == 199;
    assert MeetsBound(times, lo);
  }

  ghost predicate MeetsBound(times: seq<int>, lo: int) {
    Nondecreasing(times) && AdmittedIn(NEW_RATE, times, lo, lo + 3_600_000_000) == 199
  }

  // ---- deduplication ----

  type Context = map<string, string>

  /** What a check recorded: the context, standing for its hash, and when. */
  datatype Seen = Seen(context: Context, at: int)

  predicate IsDuplicate(seen: Option<Seen>, context: Context, now: int) {
    seen.Some? && seen.value.context == context && now - seen.value.at < DEDUP_WINDOW
  }

  /** The checks that were let through, in order. */
  function Passed(checks: seq<Seen>): seq<Seen> {
    if checks == [] then []
    else
      var n := |checks| - 1;
      var ps, c := Passed(checks[..n]), checks[n];
      if IsDuplicate(Last(ps), c.context, c.at) then ps else ps + [c]
  }

  lemma {:induction false} PassedNext(checks: seq<Seen>, c: Seen)
    ensures
      var ps := Passed(checks);
      Passed(checks + [c]) == if IsDuplicate(Last(ps), c.context, c.at) then ps else ps + [c]
  {
    assert (checks + [c])[..|checks|] == checks;
  }

  /** The context remembered is that of the last check that was let through. */
  lemma {:induction false} SeenNext(checks: seq<Seen>, seen: Option<Seen>, c: Seen)
    requires seen == Last(Passed(checks))
    ensures Last(Passed(checks + [c])) == if IsDuplicate(seen, c.context, c.at) then seen else Some(c)
  {
    PassedNext(checks, c);
  }

  function Last(ps: seq<Seen>): Option<Seen> {
    if ps == [] then None else Some(ps[|ps| - 1])
  }

  /** Neighbours with the same context are at least five minutes apart. */
  ghost predicate Spaced(ps: seq<Seen>) {
    forall i, j :: 0 <= i < |ps| && 0 <= j < |ps| && j == i + 1 && ps[i].context == ps[j].context
      ==> ps[j].at - ps[i].at >= 300_000_000
  }

  /** Two checks in a row that pass with the same context are at least five minutes apart. */
  lemma {:induction false} RepeatsAreSpaced(checks: seq<Seen>)
    ensures Spaced(Passed(checks))
  {
    if checks != [] {
      RepeatsAreSpaced(checks[..|checks| - 1]);
    }
  }

  /** Times do not go back. */
  ghost predicate InTime(checks: seq<Seen>) {
    forall i, j :: 0 <= i <= j < |checks| ==> checks[i].at <= checks[j].at
  }

  ghost predicate NeighboursDiffer(checks: seq<Seen>) {
    forall i, j :: 0 <= i < |checks| && 0 <= j < |checks| && j == i + 1 ==> checks[i].context != checks[j].context
  }

  /** But only the last context is remembered: as long as neighbours differ everything passes, at any pace. */
  lemma {:induction false} AlternatingPasses(checks: seq<Seen>)
    requires NeighboursDiffer(checks)
    ensures Passed(checks) == checks
  {
    if checks != [] {
      var n := |checks| - 1;
      AlternatingPasses(checks[..n]);
      assert checks == checks[..n] + [checks[n]];
      if n > 0 {
        assert checks[n - 1].context != checks[n].context;
      }
    }
  }

  predicate NotAfter(ps: seq<Seen>, at: int) {
    forall i :: 0 <= i < |ps| ==> ps[i].at <= at
  }

  lemma {:induction false} PassedNotAfter(checks: seq<Seen>, at: int)
    requires NotAfter(checks, at)
    ensures NotAfter(Passed(checks), at)
  {
    if checks != [] {
      PassedNotAfter(checks[..|checks| - 1], at);
    }
  }

  lemma {:induction false} PassedInTime(checks: seq<Seen>)
    requires InTime(checks)
    ensures InTime(Passed(checks))
  {
    if checks != [] {
      var n := |checks| - 1;
      PassedInTime(checks[..n]);
      PassedNotAfter(checks[..n], checks[n].at);
    }
  }

  /** Some passed check after number i had another context. */
  ghost predicate Interrupted(ps: seq<Seen>, i: nat, context: Context) {
    exists k :: i < k < |ps| && ps[k].context != context
  }

  /**
    A check passes exactly when every passed check of its context in the last
    five minutes has been followed by a passed check of another context.
   */
  lemma {:induction false} RepeatPassesExactlyWhen(checks: seq<Seen>, c: Seen)
    requires InTime(checks + [c])
    ensures
      var ps := Passed(checks);
      Passed(checks + [c]) == ps + [c] <==>
        forall i :: 0 <= i < |ps| && ps[i].context == c.context && c.at - ps[i].at < 300_000_000 ==>
          Interrupted(ps, i, c.context)
  {
    var ps := Passed(checks);
    PassedNext(checks, c);
    forall i, j | 0 <= i <= j < |checks|
      ensures checks[i].at <= checks[j].at
    {
      assert (checks + [c])[i] == checks[i] && (checks + [c])[j] == checks[j];
    }
    PassedInTime(checks);
    if ps != [] {
      var last := |ps| - 1;
      if IsDuplicate(Last(ps), c.context, c.at) {
        assert !Interrupted(ps, last, c.context);
        assert |ps| != |ps + [c]|;
      } else if ps[last].context != c.context {
        forall i | 0 <= i < |ps| && ps[i].context == c.context
          ensures Interrupted(ps, i, c.context)
        {
          assert i < last;
        }
      }
    }
  }

  /** Two passed checks of one context lie less than five minutes apart only with another context in between. */
  lemma {:induction false} CloseRepeatsAreInterrupted(checks: seq<Seen>, i: nat, j: nat)
    requires InTime(checks) && i < j < |Passed(checks)| && Passed(checks)[i].context == Passed(checks)[j].context
    requires Passed(checks)[j].at - Passed(checks)[i].at < 300_000_000
    ensures exists k :: i < k < j && Passed(checks)[k].context != Passed(checks)[i].context
  {
    var ps := Passed(checks);
    RepeatsAreSpaced(checks);
    PassedInTime(checks);
    assert ps[i + 1].at <= ps[j].at;
  }

  // ---- conditions ----

  datatype Filter = Exactly(value: Option<string>) | OneOf(values: seq<Option<string>>)
  datatype Config = Manual | Polling | Instant(filters: map<string, Filter>) | Scheduled | Unrecognised

  const EXTERNAL_EVENTS: set<string> := {
    "zoom.recording_ready", "google_sheets.modified", "linear.issue_updated", "notion.page_updated"
  }

  function Lookup(context: Context, key: string): Option<string> {
    if key in context then Some(context[key]) else None
  }

  predicate Matches(filter: Filter, actual: Option<string>) {
    match filter
    case Exactly(value) => actual == value
    case OneOf(values) => actual in values
  }

  predicate ConditionsMet(config: Config, context: Context) {
    match config
    case Manual => true
    case Polling => Lookup(context, "event_type").Some? && context["event_type"] in EXTERNAL_EVENTS
    case Instant(filters) => forall key :: key in filters ==> Matches(filters[key], Lookup(context, key))
    case Scheduled => true
    case Unrecognised => false
  }

  /**
    A manual or scheduled trigger needs no conditions; a polled event has to be
    one of the four external ones. An instant trigger fires exactly if every
    filter finds its value in the context, or one of its values, a missing entry
    being none.
   */
  lemma {:induction false} ConditionsMean(config: Config, context: Context)
    ensures config.Manual? || config.Scheduled? ==> ConditionsMet(config, context)
    ensures config.Unrecognised? ==> !ConditionsMet(config, context)
    ensures config.Polling? ==>
      (ConditionsMet(config, context) <==>
         && "event_type" in context
         && (|| context["event_type"] == "zoom.recording_ready" || context["event_type"] == "google_sheets.modified"
             || context["event_type"] == "linear.issue_updated" || context["event_type"] == "notion.page_updated"))
    ensures config.Instant? ==>
      (ConditionsMet(config, context) <==>
         forall key :: key in config.filters ==>
           var actual := if key in context then Some(context[key]) else None;
           match config.filters[key]
           case Exactly(value) => actual == value
           case OneOf(values) => exists i :: 0 <= i < |values| && values[i] == actual)
  {
  }

  // ---- the trigger ----

  datatype Kind = PollingTrigger | InstantTrigger | ScheduledTrigger | ManualTrigger
  datatype LogStatus = Triggered | SkippedTrigger | FailedTrigger
  datatype LogRow = LogRow(at: int, kind: Kind, status: LogStatus, context: Context)

  function StatusOf(passes: bool, fault: bool): LogStatus {
    if !passes then SkippedTrigger else if fault then FailedTrigger else Triggered
  }

  /** The stored trigger state of one workflow, its trigger log, and the runs it started. */
  class WorkflowTriggers {
    const config: Config
    var active: bool
    var rate: Rate
    var seen: Option<Seen>
    var log: seq<LogRow>
    ghost var clock: int           // time of the last trigger
    ghost var attempts: seq<int>   // times at which the rate limit was consulted
    ghost var checks: seq<Seen>    // deduplication checks made

    ghost predicate Valid()
      reads this
    {
      Accounted(rate, attempts, clock, log) && seen == Last(Passed(checks))
    }

    /** No more than 199 runs are started in any half-open hour, over any history of triggers. */
    lemma {:induction false} RunsPerHour(lo: int)
      requires Valid()
      ensures TriggeredIn(log, lo, lo + 3_600_000_000) <= 199
    {
      RateLimitBound(attempts, lo);
    }

    /** Between two non-manual triggers in a row that pass deduplication with the same context lie five minutes. */
    lemma {:induction false} PassedChecksAreSpaced()
      requires Valid()
      ensures seen == Last(Passed(checks))
      ensures Spaced(Passed(checks))
    {
      RepeatsAreSpaced(checks);
    }

    constructor (config: Config, ghost start: int)
      ensures Valid() && log == [] && attempts == [] && checks == [] && this.config == config && clock == start
    {
      this.config, active, rate, seen, log := config, true, NEW_RATE, None, [];
      attempts, checks, clock := [], [], start;
    }

    method CheckRateLimit(now: int) returns (ok: bool)
      modifies this`rate
      ensures ok == Admits(old(rate), now) && rate == Attempt(old(rate), now)
    {
      var resetTime := if rate.resetAt.Some? then rate.resetAt.value else now;
      var count, resetAt := rate.count, rate.resetAt;
      if now >= resetTime {
        count, resetAt := 0, Some(now + HOUR);
      }
      if count >= MAX_PER_HOUR {
        return false;
      }
      rate := Rate(count + 1, resetAt);
      return true;
    }

    method IsDuplicateTrigger(context: Context, now: int) returns (duplicate: bool)
      modifies this`seen
      ensures duplicate == IsDuplicate(old(seen), context, now)
      ensures seen == if duplicate then old(seen) else Some(Seen(context, now))
    {
      if seen.Some? && seen.value.context == context {
        if now - seen.value.at < DEDUP_WINDOW {
          return true;
        }
      }
      seen := Some(Seen(context, now));
      return false;
    }

    /**
      One trigger. A run starts exactly when every check that applies passes;
      a slot of the rate limit is used up as soon as the limit admits the
      trigger, whatever the later checks say. Each trigger leaves one log row.
      With `fault`, creating the session or the run raises: the trigger fails
      after all checks have had their effect.
     */
    method Execute(kind: Kind, context: Context, now: int, fault: bool) returns (started: bool)
      requires Valid() && clock <= now
      modifies this
      ensures Valid() && active == old(active) && clock == now
      ensures
        var passes :=
          && (old(active) || kind.ManualTrigger?)
          && Admits(old(rate), now)
          && (kind.ManualTrigger? || !IsDuplicate(old(seen), context, now))
          && ConditionsMet(config, context);
        var status := if !passes then SkippedTrigger else if fault then FailedTrigger else Triggered;
        && started == status.Triggered?
        && log == old(log) + [LogRow(now, kind, status, context)]
      ensures attempts == if old(active) || kind.ManualTrigger? then old(attempts) + [now] else old(attempts)
      ensures checks ==
        if (old(active) && !kind.ManualTrigger?) && Admits(old(rate), now) then old(checks) + [Seen(context, now)]
        else old(checks)
    {
      ghost var rate0, attempted := rate, active || kind.ManualTrigger?;
      var passes := Checked(kind, context, now);
      Record(LogRow(now, kind, StatusOf(passes, fault), context), rate0, attempted);
      return passes && !fault;
    }

    /** Log the trigger. */
    method Record(row: LogRow, ghost rate0: Rate, ghost attempted: bool)
      requires Accounted(rate0, attempts, clock, log) && clock <= row.at
      requires row.status.Triggered? ==> attempted && Admits(rate0, row.at)
      requires rate == if attempted then Attempt(rate0, row.at) else rate0
      modifies this`log, this`attempts, this`clock
      ensures Accounted(rate, attempts, clock, log)
      ensures log == old(log) + [row] && clock == row.at
      ensures attempts == if attempted then old(attempts) + [row.at] else old(attempts)
    {
      AccountedNext(rate0, attempts, clock, log, row, attempted);
      log := log + [row];
      attempts := if attempted then attempts + [row.at] else attempts;
      clock := row.at;
    }

    /** The checks in their order. */
    method Checked(kind: Kind, context: Context, now: int) returns (started: bool)
      requires seen == Last(Passed(checks))
      modifies this`rate, this`seen, this`checks
      ensures seen == Last(Passed(checks))
      ensures rate == if active || kind.ManualTrigger? then Attempt(old(rate), now) else old(rate)
      ensures started <==>
        && (active || kind.ManualTrigger?)
        && Admits(old(rate), now)
        && (kind.ManualTrigger? || !IsDuplicate(old(seen), context, now))
        && ConditionsMet(config, context)
      ensures checks ==
        if (active && !kind.ManualTrigger?) && Admits(old(rate), now) then old(checks) + [Seen(context, now)]
        else old(checks)
    {
      if !active && !kind.ManualTrigger? {
        return false;
      }
      var admitted := CheckRateLimit(now);
      if !admitted {
        return false;
      }
      if !kind.ManualTrigger? {
        SeenNext(checks, seen, Seen(context, now));
        var duplicate := IsDuplicateTrigger(context, now);
        checks := checks + [Seen(context, now)];
        if duplicate {
          return false;
        }
      }
      return ConditionsMet(config, context);
    }
  }

  /** The stored rate is that of the attempts, and every run that was started used one of the admitted ones. */
  ghost predicate Accounted(rate: Rate, attempts: seq<int>, clock: int, log: seq<LogRow>) {
    && rate == After(NEW_RATE, attempts)
    && Nondecreasing(attempts) && (forall i :: 0 <= i < |attempts| ==> attempts[i] <= clock)
    && (forall lo, hi :: TriggeredIn(log, lo, hi) <= AdmittedIn(NEW_RATE, attempts, lo, hi))
  }

  lemma {:induction false} AccountedAttempt(rate: Rate, attempts: seq<int>, clock: int, log: seq<LogRow>, now: int,
      row: LogRow)
    requires Accounted(rate, attempts, clock, log) && clock <= now && row.at == now
    requires row.status.Triggered? ==> Admits(rate, now)
    ensures Accounted(Attempt(rate, now), attempts + [now], now, log + [row])
  {
    assert (attempts + [now])[..|attempts|] == attempts;
    assert (log + [row])[..|log|] == log;
  }

  lemma {:induction false} AccountedSkip(rate: Rate, attempts: seq<int>, clock: int, log: seq<LogRow>, row: LogRow)
    requires Accounted(rate, attempts, clock, log) && clock <= row.at && !row.status.Triggered?
    ensures Accounted(rate, attempts, row.at, log + [row])
  {
    assert (log + [row])[..|log|] == log;
  }

  lemma {:induction false} AccountedNext(rate: Rate, attempts: seq<int>, clock: int, log: seq<LogRow>, row: LogRow,
      attempted: bool)
    requires Accounted(rate, attempts, clock, log) && clock <= row.at
    requires row.status.Triggered? ==> attempted && Admits(rate, row.at)
    ensures Accounted(if attempted then Attempt(rate, row.at) else rate,
                      if attempted then attempts + [row.at] else attempts, row.at, log + [row])
  {
    if attempted {
      AccountedAttempt(rate, attempts, clock, log, row.at, row);
    } else {
      AccountedSkip(rate, attempts, clock, log, row);
    }
  }

  /** How many of the logged triggers in [lo, hi) started a run. */
  function TriggeredIn(log: seq<LogRow>, lo: int, hi: int): nat {
    if log == [] then 0
    else
      var row := log[|log| - 1];
      TriggeredIn(log[..|log| - 1], lo, hi) + if row.status.Triggered? && lo <= row.at < hi then 1 else 0
  }
}

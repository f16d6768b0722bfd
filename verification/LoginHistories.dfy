/** What login protection guarantees over timed histories of login attempts. */
module LoginHistories {
  import opened Common
  import opened LoginSecurity

  datatype Event =
    | Try(ids: seq<Id>, at: int, credentials: Credentials)
    | Resolve(row: nat, at: int)                        // an administrator resolves a lock

  function Step(st: Security, e: Event): Security {
    match e
    case Try(ids, at, ok) => Attempt(st, ids, at, ok).0
    case Resolve(k, _) => if k < |st.rows| then st.(rows := st.rows[k := st.rows[k].(resolved := true)]) else st
  }

  function Run(st: Security, es: seq<Event>): Security
    decreases |es|
  {
    if es == [] then st else Run(Step(st, es[0]), es[1..])
  }

  /** Times do not go back, from `clock` on. */
  predicate Timed(clock: int, es: seq<Event>)
    decreases |es|
  {
    es == [] || (clock <= es[0].at && Timed(es[0].at, es[1..]))
  }

  function Clock(clock: int, es: seq<Event>): int {
    if es == [] then clock else es[|es| - 1].at
  }

  // ---- lockout rows ----

  /** Rows are only added or prolonged. */
  ghost predicate Prolongs(a: seq<Row>, b: seq<Row>) {
    && |a| <= |b|
    && forall k :: 0 <= k < |a| ==>
         b[k].id == a[k].id && a[k].lockedUntil <= b[k].lockedUntil && (a[k].resolved ==> b[k].resolved)
  }

  /** A lock ends 300 seconds after the attempt that opened or last prolonged it. */
  ghost predicate RowsOk(rows: seq<Row>, clock: int) {
    forall k :: 0 <= k < |rows| ==>
      rows[k].lockedUntil == rows[k].lastAttempt + 300 * SECOND && rows[k].lastAttempt <= clock
  }

  lemma {:induction false} AbuseRows(st: Security, ids: seq<Id>, clock: int, now: int)
    requires RowsOk(st.rows, clock) && clock <= now
    ensures
      var (t, r) := RecordAbuse(st, ids, now);
      && Prolongs(st.rows, t.rows) && RowsOk(t.rows, now) && t.backoff == st.backoff && t.failures == st.failures
      && (r.None? ==> t.rows == st.rows)
      && (r.Some? ==> r.value == Locked(now + LOCKOUT, 300))
    decreases |ids|
  {
    if ids != [] {
      AbuseRows(st.(abuse := Bump(st.abuse, ids[0], now)), ids[1..], clock, now);
    }
  }

  lemma {:induction false} AttemptRows(st: Security, ids: seq<Id>, clock: int, now: int, ok: Credentials)
    requires RowsOk(st.rows, clock) && clock <= now
    ensures
      var t := Attempt(st, ids, now, ok).0;
      Prolongs(st.rows, t.rows) && RowsOk(t.rows, now)
  {
    AbuseRows(st, ids, clock, now);
    AbuseRows(st.(failures := BumpAll(st.failures, ids, now)), ids, clock, now);
  }

  /** Over every history, a row's end never moves back and is always 300 seconds after its last attempt. */
  lemma {:induction false} LocksNeverShorten(st: Security, clock: int, es: seq<Event>)
    requires RowsOk(st.rows, clock) && Timed(clock, es)
    ensures Prolongs(st.rows, Run(st, es).rows) && RowsOk(Run(st, es).rows, Clock(clock, es))
    decreases |es|
  {
    if es != [] {
      var t := Step(st, es[0]);
      if es[0].Try? {
        AttemptRows(st, es[0].ids, clock, es[0].at, es[0].credentials);
      }
      LocksNeverShorten(t, es[0].at, es[1..]);
    }
  }

  // ---- a lock outlives the counter that caused it ----

  /** While a lock is on, its identifier's abuse counter expires no later than the lock. */
  ghost predicate CountersEnd(st: Security, clock: int) {
    forall k ::
      (0 <= k < |st.rows| && !st.rows[k].resolved && clock < st.rows[k].lockedUntil && st.rows[k].id in st.abuse) ==>
        st.abuse[st.rows[k].id].expires <= st.rows[k].lockedUntil
  }

  /** Recording abuse for identifiers without an active lock. */
  lemma {:induction false} AbuseCounters(st: Security, ids: seq<Id>, clock: int, now: int)
    requires RowsOk(st.rows, clock) && CountersEnd(st, clock) && clock <= now
    requires Longest(st.rows, ids, now) == |st.rows|
    ensures CountersEnd(RecordAbuse(st, ids, now).0, now)
    decreases |ids|
  {
    if ids != [] {
      var st1 := st.(abuse := Bump(st.abuse, ids[0], now));
      assert forall k :: 0 <= k < |st.rows| ==> !Active(st.rows[k], ids, now);
      assert ids[0] in ids && forall id :: id in ids[1..] ==> id in ids;
      forall k | 0 <= k < |st1.rows| && !st1.rows[k].resolved && now < st1.rows[k].lockedUntil
        ensures st1.rows[k].id !in ids && (st1.rows[k].id in st1.abuse ==>
          st1.abuse[st1.rows[k].id].expires <= st1.rows[k].lockedUntil)
      {
        assert !Active(st.rows[k], ids, now);
      }
      AbuseCounters(st1, ids[1..], now, now);
      assert Longest(st.rows, [ids[0]], now) == |st.rows|;
    }
  }

  lemma {:induction false} AttemptCounters(st: Security, ids: seq<Id>, clock: int, now: int, ok: Credentials)
    requires RowsOk(st.rows, clock) && CountersEnd(st, clock) && clock <= now
    ensures CountersEnd(Attempt(st, ids, now, ok).0, now)
  {
    if Longest(st.rows, ids, now) == |st.rows| {
      AbuseCounters(st, ids, clock, now);
      AbuseCounters(st.(failures := BumpAll(st.failures, ids, now)), ids, clock, now);
    }
  }

  lemma {:induction false} CountersAlwaysEnd(st: Security, clock: int, es: seq<Event>)
    requires RowsOk(st.rows, clock) && CountersEnd(st, clock) && Timed(clock, es)
    ensures CountersEnd(Run(st, es), Clock(clock, es))
    decreases |es|
  {
    if es != [] {
      StepCounters(st, clock, es[0]);
      CountersAlwaysEnd(Step(st, es[0]), es[0].at, es[1..]);
    }
  }

  lemma {:induction false} StepCounters(st: Security, clock: int, e: Event)
    requires RowsOk(st.rows, clock) && CountersEnd(st, clock) && clock <= e.at
    ensures RowsOk(Step(st, e).rows, e.at) && CountersEnd(Step(st, e), e.at)
  {
    match e
    case Try(ids, at, ok) =>
      AttemptRows(st, ids, clock, at, ok);
      AttemptCounters(st, ids, clock, at, ok);
    case Resolve(k, _) =>
  }

  /** When a lock that is on after any history ends, its identifier's abuse counter has expired. */
  lemma {:induction false} LockEndsCountingAfresh(clock: int, es: seq<Event>, k: nat)
    requires Timed(clock, es)
    requires
      var st := Run(NOTHING, es);
      k < |st.rows| && !st.rows[k].resolved && Clock(clock, es) < st.rows[k].lockedUntil
    ensures
      var st := Run(NOTHING, es);
      Live(st.abuse, st.rows[k].id, st.rows[k].lockedUntil) == 0
  {
    CountersAlwaysEnd(NOTHING, clock, es);
  }

  // ---- ten attempts in a row ----

  /** Every attempt for the identifier follows the one before it within the window. */
  predicate Dense(es: seq<Event>, id: Id, last: int)
    decreases |es|
  {
    es == [] ||
    if Leads(es[0], id) then es[0].at < last + 300 * SECOND && Dense(es[1..], id, es[0].at)
    else Dense(es[1..], id, last)
  }

  /** An attempt in which the identifier is the first. */
  predicate Leads(e: Event, id: Id) {
    e.Try? && e.ids != [] && e.ids[0] == id
  }

  function CountLeads(es: seq<Event>, id: Id): nat {
    if es == [] then 0 else CountLeads(es[1..], id) + if Leads(es[0], id) then 1 else 0
  }

  function ResponseTo(st: Security, e: Event): Option<Response> {
    if e.Try? then Some(Attempt(st, e.ids, e.at, e.credentials).1) else None
  }

  /** No attempt that names the identifier logs in, and none that it leads is let through to an unset password. */
  predicate NoLogin(st: Security, es: seq<Event>, id: Id)
    decreases |es|
  {
    es == [] ||
    (&& !(es[0].Try? && id in es[0].ids && ResponseTo(st, es[0]) == Some(LoggedIn))
     && !(Leads(es[0], id) && ResponseTo(st, es[0]) == Some(PasswordNotSet))
     && NoLogin(Step(st, es[0]), es[1..], id))
  }

  /** No attempt that the identifier leads is answered with a lock. */
  predicate NoLock(st: Security, es: seq<Event>, id: Id)
    decreases |es|
  {
    es == [] ||
    (!(Leads(es[0], id) && ResponseTo(st, es[0]).value.Locked?) && NoLock(Step(st, es[0]), es[1..], id))
  }

  /** At least n abuses are on the counter, and it lives until a window after `last`. */
  ghost predicate Counted(abuse: map<Id, Counter>, id: Id, n: nat, last: int) {
    n == 0 || (id in abuse && abuse[id].count >= n && abuse[id].expires >= last + WINDOW)
  }

  lemma {:induction false} AbuseKeepsCount(st: Security, ids: seq<Id>, now: int, id: Id, n: nat, last: int)
    requires Counted(st.abuse, id, n, last) && last <= now < last + WINDOW
    ensures Counted(RecordAbuse(st, ids, now).0.abuse, id, n, last)
    decreases |ids|
  {
    if ids != [] {
      AbuseKeepsCount(st.(abuse := Bump(st.abuse, ids[0], now)), ids[1..], now, id, n, last);
    }
  }

  /** An attempt that is neither let in nor locked adds one to its leader's counter. */
  lemma {:induction false} LeadCounts(st: Security, ids: seq<Id>, now: int, id: Id, n: nat, last: int)
    requires ids != [] && ids[0] == id && Counted(st.abuse, id, n, last) && last <= now < last + WINDOW
    ensures
      var (t, r) := RecordAbuse(st, ids, now);
      r.None? ==> Counted(t.abuse, id, n + 1, now) && n + 1 < LOCKOUT_THRESHOLD
  {
    var st1 := st.(abuse := Bump(st.abuse, id, now));
    AbuseKeepsCount(st1, ids[1..], now, id, n + 1, now);
  }

  lemma {:induction false} AttemptKeepsCount(st: Security, ids: seq<Id>, now: int, ok: Credentials, id: Id, n: nat,
      last: int)
    requires Counted(st.abuse, id, n, last) && last <= now < last + WINDOW
    requires !(id in ids && Attempt(st, ids, now, ok).1 == LoggedIn)
    requires !(ids != [] && ids[0] == id && Attempt(st, ids, now, ok).1 == PasswordNotSet)
    ensures
      var (t, r) := Attempt(st, ids, now, ok);
      && Counted(t.abuse, id, n, last)
      && (ids != [] && ids[0] == id && !r.Locked? ==> Counted(t.abuse, id, n + 1, now) && n + 1 < LOCKOUT_THRESHOLD)
  {
    var failed := st.(failures := BumpAll(st.failures, ids, now));
    AbuseKeepsCount(st, ids, now, id, n, last);
    AbuseKeepsCount(failed, ids, now, id, n, last);
    AbuseResponse(st, ids, now);
    AbuseResponse(failed, ids, now);
    if ids != [] && ids[0] == id {
      LeadCounts(st, ids, now, id, n, last);
      LeadCounts(failed, ids, now, id, n, last);
    }
  }

  lemma {:induction false} AbuseResponse(st: Security, ids: seq<Id>, now: int)
    ensures RecordAbuse(st, ids, now).1.Some? ==> RecordAbuse(st, ids, now).1.value.Locked?
    decreases |ids|
  {
    if ids != [] {
      AbuseResponse(st.(abuse := Bump(st.abuse, ids[0], now)), ids[1..], now);
    }
  }

  lemma {:induction false} DenseEnds(es: seq<Event>, id: Id, clock: int, last: int)
    requires Timed(clock, es) && Dense(es, id, last) && clock >= last + WINDOW
    ensures CountLeads(es, id) == 0
    decreases |es|
  {
    if es != [] {
      DenseEnds(es[1..], id, es[0].at, last);
    }
  }

  lemma {:induction false} CountBelowTen(st: Security, es: seq<Event>, id: Id, n: nat, last: int, clock: int)
    requires Counted(st.abuse, id, n, last) && n < LOCKOUT_THRESHOLD && last <= clock
    requires Timed(clock, es) && Dense(es, id, last) && NoLogin(st, es, id) && NoLock(st, es, id)
    ensures n + CountLeads(es, id) < LOCKOUT_THRESHOLD
    decreases |es|
  {
    if es != [] {
      var e, t := es[0], Step(st, es[0]);
      if e.at >= last + WINDOW {
        DenseEnds(es[1..], id, e.at, last);
      } else if e.Try? {
        AttemptKeepsCount(st, e.ids, e.at, e.credentials, id, n, last);
        if Leads(e, id) {
          CountBelowTen(t, es[1..], id, n + 1, e.at, e.at);
        } else {
          CountBelowTen(t, es[1..], id, n, last, e.at);
        }
      } else {
        CountBelowTen(t, es[1..], id, n, last, e.at);
      }
    }
  }

  /**
    From any state, ten attempts led by one identifier, each within 300
    seconds of the one before, with whatever other attempts and resolutions in
    between but no login with that identifier: one of the ten is answered with
    a lock, whether it failed or was stopped by the backoff.
   */
  lemma {:induction false} TenAttemptsLock(st: Security, es: seq<Event>, id: Id, clock: int)
    requires Timed(clock, es) && Dense(es, id, clock) && NoLogin(st, es, id)
    requires CountLeads(es, id) >= 10
    ensures !NoLock(st, es, id)
  {
    if NoLock(st, es, id) {
      CountBelowTen(st, es, id, 0, clock, clock);
    }
  }

  // ---- and that lock is the identifier's own ----

  /** No attempt that the identifier leads meets a lock that is already on. */
  predicate NoneStopped(st: Security, es: seq<Event>, id: Id)
    decreases |es|
  {
    es == [] ||
    (&& !(Leads(es[0], id) && Longest(st.rows, es[0].ids, es[0].at) < |st.rows|)
     && NoneStopped(Step(st, es[0]), es[1..], id))
  }

  /** The identifier has an unresolved row that runs until the given time. */
  predicate LockedUntil(rows: seq<Row>, id: Id, until: int) {
    exists k :: 0 <= k < |rows| && rows[k].id == id && !rows[k].resolved && rows[k].lockedUntil == until
  }

  /** Recording abuse led by the identifier counts it, whether or not somebody gets locked. */
  lemma {:induction false} LeadCountsAlways(st: Security, ids: seq<Id>, now: int, id: Id, n: nat, last: int)
    requires ids != [] && ids[0] == id && Counted(st.abuse, id, n, last) && last <= now < last + WINDOW
    ensures Counted(RecordAbuse(st, ids, now).0.abuse, id, n + 1, now)
  {
    AbuseKeepsCount(st.(abuse := Bump(st.abuse, id, now)), ids[1..], now, id, n + 1, now);
  }

  /** With nine on the counter and no lock on, the identifier gets a row of its own. */
  lemma {:induction false} LeadLocks(st: Security, ids: seq<Id>, now: int, id: Id, n: nat, last: int)
    requires ids != [] && ids[0] == id && Counted(st.abuse, id, n, last) && last <= now < last + WINDOW
    requires n + 1 >= LOCKOUT_THRESHOLD && Longest(st.rows, ids, now) == |st.rows|
    ensures LockedUntil(RecordAbuse(st, ids, now).0.rows, id, now + LOCKOUT)
  {
    var k := Longest(st.rows, [id], now);
    assert k < |st.rows| ==> Active(st.rows[k], ids, now);
    var rows := RecordAbuse(st, ids, now).0.rows;
    assert rows[|st.rows|].id == id;
  }

  lemma {:induction false} AttemptCountsAlways(st: Security, e: Event, id: Id, n: nat, last: int)
    requires e.Try? && Counted(st.abuse, id, n, last) && last <= e.at < last + WINDOW
    requires !(id in e.ids && ResponseTo(st, e) == Some(LoggedIn))
    requires !(Leads(e, id) && ResponseTo(st, e) == Some(PasswordNotSet))
    requires Leads(e, id) ==> Longest(st.rows, e.ids, e.at) == |st.rows|
    ensures Leads(e, id) ==> Counted(Step(st, e).abuse, id, n + 1, e.at)
    ensures !Leads(e, id) ==> Counted(Step(st, e).abuse, id, n, last)
    ensures Leads(e, id) && n + 1 >= LOCKOUT_THRESHOLD ==> LockedUntil(Step(st, e).rows, id, e.at + LOCKOUT)
  {
    var failed := st.(failures := BumpAll(st.failures, e.ids, e.at));
    if Leads(e, id) {
      LeadCountsAlways(st, e.ids, e.at, id, n, last);
      LeadCountsAlways(failed, e.ids, e.at, id, n, last);
      if n + 1 >= LOCKOUT_THRESHOLD {
        LeadLocks(st, e.ids, e.at, id, n, last);
        LeadLocks(failed, e.ids, e.at, id, n, last);
      }
    } else {
      AttemptKeepsCount(st, e.ids, e.at, e.credentials, id, n, last);
    }
  }

  lemma {:induction false} LastLeads(es: seq<Event>, id: Id)
    requires es != [] && Leads(es[|es| - 1], id)
    ensures CountLeads(es, id) >= 1
  {
    if |es| > 1 {
      LastLeads(es[1..], id);
    }
  }

  lemma {:induction false} TenthLocks(st: Security, es: seq<Event>, id: Id, n: nat, last: int, clock: int)
    requires es != [] && Leads(es[|es| - 1], id) && Counted(st.abuse, id, n, last) && last <= clock
    requires Timed(clock, es) && Dense(es, id, last) && NoLogin(st, es, id) && NoneStopped(st, es, id)
    requires n + CountLeads(es, id) >= LOCKOUT_THRESHOLD
    ensures LockedUntil(Run(st, es).rows, id, es[|es| - 1].at + LOCKOUT)
    decreases |es|
  {
    var e, t, rest := es[0], Step(st, es[0]), es[1..];
    if rest == [] {
      AttemptCountsAlways(st, e, id, n, last);
      assert Run(st, es) == t;
    } else {
      LastLeads(rest, id);
      if e.at >= last + WINDOW {
        DenseEnds(rest, id, e.at, last);
      }
      if e.Try? {
        AttemptCountsAlways(st, e, id, n, last);
      }
      if Leads(e, id) {
        TenthLocks(t, rest, id, n + 1, e.at, e.at);
      } else {
        TenthLocks(t, rest, id, n, last, e.at);
      }
    }
  }

  /**
    From any state, ten attempts led by one identifier, each within 300 seconds
    of the one before, none of them let in and none stopped by a lock that was
    already on: from the tenth on the identifier itself is locked for 300 seconds.
   */
  lemma {:induction false} TenthAttemptLocksItself(st: Security, es: seq<Event>, id: Id, clock: int)
    requires es != [] && Leads(es[|es| - 1], id) && CountLeads(es, id) >= 10
    requires Timed(clock, es) && Dense(es, id, clock) && NoLogin(st, es, id) && NoneStopped(st, es, id)
    ensures LockedUntil(Run(st, es).rows, id, es[|es| - 1].at + 300 * SECOND)
  {
    TenthLocks(st, es, id, 0, clock, clock);
  }

  // ---- waiting ----

  /** No backoff reaches further than 60 seconds ahead. */
  ghost predicate BackoffOk(backoff: map<Id, Pause>, clock: int) {
    forall id :: id in backoff ==> backoff[id].until <= clock + BACKOFF
  }

  lemma {:induction false} PausesReach(backoff: map<Id, Pause>, failures: map<Id, Counter>, ids: seq<Id>, now: int)
    requires BackoffOk(backoff, now)
    ensures BackoffOk(PauseAll(backoff, failures, ids, now), now)
    decreases |ids|
  {
    if ids != [] {
      var b := if ids[0] in failures && failures[ids[0]].count >= BACKOFF_THRESHOLD
               then backoff[ids[0] := Pause(now + BACKOFF, now + BACKOFF)] else backoff;
      PausesReach(b, failures, ids[1..], now);
    }
  }

  lemma {:induction false} AttemptBackoff(st: Security, ids: seq<Id>, clock: int, now: int, ok: Credentials)
    requires RowsOk(st.rows, clock) && BackoffOk(st.backoff, clock) && clock <= now
    ensures BackoffOk(Attempt(st, ids, now, ok).0.backoff, now)
  {
    var failed := st.(failures := BumpAll(st.failures, ids, now));
    AbuseRows(st, ids, clock, now);
    AbuseRows(failed, ids, clock, now);
    PausesReach(st.backoff, failed.failures, ids, now);
  }

  lemma {:induction false} BackoffAlwaysOk(st: Security, clock: int, es: seq<Event>)
    requires RowsOk(st.rows, clock) && BackoffOk(st.backoff, clock) && Timed(clock, es)
    ensures BackoffOk(Run(st, es).backoff, Clock(clock, es))
    decreases |es|
  {
    if es != [] {
      if es[0].Try? {
        AttemptRows(st, es[0].ids, clock, es[0].at, es[0].credentials);
        AttemptBackoff(st, es[0].ids, clock, es[0].at, es[0].credentials);
      }
      BackoffAlwaysOk(Step(st, es[0]), es[0].at, es[1..]);
    }
  }

  lemma {:induction false} NoWait(backoff: map<Id, Pause>, ids: seq<Id>, now: int)
    requires forall id :: id in ids ==> Remaining(backoff, id, now) <= 0
    ensures MaxRemaining(backoff, ids, now) == 0
  {
    if ids != [] {
      assert ids[0] in ids && forall id :: id in ids[1..] ==> id in ids;
      NoWait(backoff, ids[1..], now);
    }
  }

  /** After a backoff response, no lock of the identifiers is on, now or later. */
  lemma {:induction false} TooManyMeansNoLock(st: Security, ids: seq<Id>, clock: int, now: int, ok: Credentials,
      later: int)
    requires RowsOk(st.rows, clock) && clock <= now <= later && Attempt(st, ids, now, ok).1.TooMany?
    ensures
      var rows := Attempt(st, ids, now, ok).0.rows;
      Longest(rows, ids, later) == |rows|
  {
    AbuseRows(st, ids, clock, now);
    AbuseRows(st.(failures := BumpAll(st.failures, ids, now)), ids, clock, now);
    AbuseResponse(st, ids, now);
    AbuseResponse(st.(failures := BumpAll(st.failures, ids, now)), ids, now);
    assert Attempt(st, ids, now, ok).0.rows == st.rows;
    assert forall k :: 0 <= k < |st.rows| && Active(st.rows[k], ids, later) ==> Active(st.rows[k], ids, now);
  }

  /** Waiting as long as a backoff response says, with no attempt in between, is always enough. */
  lemma {:induction false} BackoffWaitSuffices(clock: int, es: seq<Event>, ids: seq<Id>, now: int, ok: Credentials,
      later: int)
    requires Timed(clock, es) && Clock(clock, es) <= now
    requires
      var r := Attempt(Run(NOTHING, es), ids, now, ok).1;
      r.TooMany? && later >= now + r.retryAfter * SECOND
    ensures
      var st := Attempt(Run(NOTHING, es), ids, now, ok).0;
      Check(st, ids, later) == (st, None)
  {
    var st := Run(NOTHING, es);
    var (t, r) := Attempt(st, ids, now, ok);
    LocksNeverShorten(NOTHING, clock, es);
    BackoffAlwaysOk(NOTHING, clock, es);
    AttemptBackoff(st, ids, Clock(clock, es), now, ok);
    var wait := MaxRemaining(st.backoff, ids, now);
    AbuseRows(st, ids, Clock(clock, es), now);
    AbuseResponse(st, ids, now);
    AbuseResponse(st.(failures := BumpAll(st.failures, ids, now)), ids, now);
    assert if wait > 0 then r.retryAfter == wait && t.backoff == st.backoff else r.retryAfter == 60;
    forall id | id in ids
      ensures Remaining(t.backoff, id, later) <= 0
    {
      if wait > 0 && id in st.backoff {
        assert Remaining(st.backoff, id, now) <= wait;
      }
    }
    NoWait(t.backoff, ids, later);
    TooManyMeansNoLock(st, ids, Clock(clock, es), now, ok, later);
  }

  /**
    Not so for a lock: its wait is truncated to whole seconds, so it is long
    enough exactly when a whole number of seconds was left.
   */
  lemma {:induction false} LockWaitSufficesWhen(st: Security, ids: seq<Id>, now: int)
    requires Longest(st.rows, ids, now) < |st.rows|
    ensures
      var lock := Check(st, ids, now).1.value;
      && lock.Locked?
      && (Longest(st.rows, ids, now + lock.retryAfter * SECOND) == |st.rows| <==> (lock.until - now) % SECOND == 0)
  {
    var k := Longest(st.rows, ids, now);
    var lock := Check(st, ids, now).1.value;
    var later := now + lock.retryAfter * SECOND;
    assert lock.until - now == lock.retryAfter * SECOND + (lock.until - now) % SECOND;
    if lock.until > later {
      assert Active(st.rows[k], ids, later);
    } else {
      assert forall i :: 0 <= i < |st.rows| && Active(st.rows[i], ids, later) ==> Active(st.rows[i], ids, now);
    }
  }

  // ---- the fifth failure, and success ----

  lemma {:induction false} BumpCounts(m: map<Id, Counter>, ids: seq<Id>, now: int, id: Id)
    ensures id in m ==> id in BumpAll(m, ids, now)
    ensures Live(m, id, now) <= Live(BumpAll(m, ids, now), id, now)
    ensures id in ids ==> id in BumpAll(m, ids, now) && Live(m, id, now) + 1 <= BumpAll(m, ids, now)[id].count
    decreases |ids|
  {
    if ids != [] {
      BumpCounts(Bump(m, ids[0], now), ids[1..], now, id);
    }
  }

  lemma {:induction false} PauseReaches(backoff: map<Id, Pause>, failures: map<Id, Counter>, ids: seq<Id>, now: int,
      id: Id)
    requires id in failures && failures[id].count >= BACKOFF_THRESHOLD
    requires id in ids || (id in backoff && backoff[id] == Pause(now + BACKOFF, now + BACKOFF))
    ensures id in PauseAll(backoff, failures, ids, now)
    ensures PauseAll(backoff, failures, ids, now)[id] == Pause(now + BACKOFF, now + BACKOFF)
    decreases |ids|
  {
    if ids != [] {
      var b := if ids[0] in failures && failures[ids[0]].count >= BACKOFF_THRESHOLD
               then backoff[ids[0] := Pause(now + BACKOFF, now + BACKOFF)] else backoff;
      PauseReaches(b, failures, ids[1..], now, id);
    }
  }

  /**
    The fifth failure of an identifier within the window is answered with a lock
    or a backoff of 60 seconds, and in the latter case every attempt up to 59
    seconds later is stopped before the credentials are looked at.
   */
  lemma {:induction false} FifthFailureBacksOff(st: Security, ids: seq<Id>, id: Id, clock: int, now: int, later: int)
    requires RowsOk(st.rows, clock) && clock <= now <= later <= now + 59 * SECOND
    requires id in ids && Live(st.failures, id, now) + 1 >= 5 && Check(st, ids, now).1.None?
    ensures
      var (t, r) := Attempt(st, ids, now, Wrong);
      r.Locked? || (r == TooMany(60) && Check(t, ids, later).1.Some?)
  {
    var failures := BumpAll(st.failures, ids, now);
    var failed := st.(failures := failures);
    BumpCounts(st.failures, ids, now, id);
    AbuseRows(failed, ids, clock, now);
    var i :| 0 <= i < |ids| && ids[i] == id;
    assert AnyOverThreshold(failures, ids);
    var (st1, lock) := RecordAbuse(failed, ids, now);
    if lock.None? {
      PauseReaches(st1.backoff, failures, ids, now, id);
      var t := Attempt(st, ids, now, Wrong).0;
      assert t.backoff[id] == Pause(now + BACKOFF, now + BACKOFF);
      assert Remaining(t.backoff, id, later) >= 1;
    }
  }

  /** A login that is not stopped forgets the failures, the abuse and the backoff of its identifiers, but no lock. */
  lemma {:induction false} LoginForgets(st: Security, ids: seq<Id>, now: int, id: Id, later: int)
    requires Check(st, ids, now).1.None?
    ensures
      var (t, r) := Attempt(st, ids, now, Right);
      && r.LoggedIn? && t.rows == st.rows
      && (id in ids ==>
            Live(t.failures, id, later) == 0 && Live(t.abuse, id, later) == 0 && Remaining(t.backoff, id, later) == 0)
      && (id !in ids ==> Live(t.failures, id, later) == Live(st.failures, id, later)
                         && Live(t.abuse, id, later) == Live(st.abuse, id, later))
  {
  }

  /** With half a second of a lock left the answer is to wait zero seconds, and the lock is still on after them. */
  lemma {:induction false} FractionOfASecond()
    ensures
      var id, now := Id(Username, "a"), LOCKOUT - SECOND / 2;
      var st := NOTHING.(rows := [Row(id, 10, LOCKOUT, 0, false)]);
      var lock := Check(st, [id], now).1;
      && lock == Some(Locked(LOCKOUT, 0))
      && Check(st, [id], now + lock.value.retryAfter * SECOND).1 == lock
  {
    var id, now := Id(Username, "a"), LOCKOUT - SECOND / 2;
    var row := Row(id, 10, LOCKOUT, 0, false);
    assert Active(row, [id], now);
    assert [row][..0] == [];
    assert Longest([row], [id], now) == 0;
  }
}

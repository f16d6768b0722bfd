/**
  How many failures it takes: what must have come before a login attempt is
  answered with a lock or a backoff (backend/authentication/login_security.py).
 */
module LoginThresholds {
  import opened Common
  import opened LoginSecurity
  import opened LoginHistories

  /** How often the identifier is named. */
  function Times(ids: seq<Id>, id: Id): nat {
    if ids == [] then 0 else Times(ids[1..], id) + if ids[0] == id then 1 else 0
  }

  lemma {:induction false} TimesIn(ids: seq<Id>, id: Id)
    ensures Times(ids, id) > 0 <==> id in ids
  {
    if ids != [] {
      TimesIn(ids[1..], id);
    }
  }

  // ---- streaks ----

  /** So many counted attempts for an identifier, each within 300 seconds of the one before, the last at `last`. */
  datatype Streak = Streak(count: nat, last: int)

  const NO_STREAK: Streak := Streak(0, 0)

  /** No row of the event's identifiers is on. */
  ghost predicate NoRowOn(st: Security, e: Event)
    requires e.Try?
  {
    forall k :: 0 <= k < |st.rows| ==> !Active(st.rows[k], e.ids, e.at)
  }

  /** A failure: a wrong password that was looked at. */
  predicate IsFailure(st: Security, e: Event) {
    e.Try? && e.credentials.Wrong? && Check(st, e.ids, e.at).1.None?
  }

  /** An abuse: a failure, or an attempt that a backoff has stopped. */
  ghost predicate IsAbuse(st: Security, e: Event) {
    e.Try? && NoRowOn(st, e) && (Check(st, e.ids, e.at).1.Some? || e.credentials.Wrong?)
  }

  /** A login that clears the identifier. */
  predicate IsCleared(st: Security, e: Event, id: Id) {
    e.Try? && id in e.ids && ResponseTo(st, e) == Some(LoggedIn)
  }

  function Prolonged(s: Streak, at: int, times: nat): Streak {
    if times == 0 then s
    else Streak((if at < s.last + 300 * SECOND then s.count else 0) + times, at)
  }

  /** The identifier's streak of failures after the events. */
  function Failures(st: Security, es: seq<Event>, id: Id, s: Streak): Streak
    decreases |es|
  {
    if es == [] then s
    else Failures(Step(st, es[0]), es[1..], id, NextFailures(st, es[0], id, s))
  }

  function NextFailures(st: Security, e: Event, id: Id, s: Streak): Streak {
    if IsCleared(st, e, id) then NO_STREAK
    else if IsFailure(st, e) then Prolonged(s, e.at, Times(e.ids, id))
    else s
  }

  /** The identifier's streak of abuses after the events. */
  ghost function Abuses(st: Security, es: seq<Event>, id: Id, s: Streak): Streak
    decreases |es|
  {
    if es == [] then s
    else Abuses(Step(st, es[0]), es[1..], id, NextAbuses(st, es[0], id, s))
  }

  ghost function NextAbuses(st: Security, e: Event, id: Id, s: Streak): Streak {
    if IsCleared(st, e, id) then NO_STREAK
    else if IsAbuse(st, e) then Prolonged(s, e.at, Times(e.ids, id))
    else s
  }

  // ---- the counters hold the streaks ----

  /** The failure counter is exactly the streak, and lives as long as the streak can go on. */
  predicate CountsFailures(st: Security, id: Id, s: Streak) {
    if s.count == 0 then id !in st.failures
    else id in st.failures && st.failures[id] == Counter(s.count, s.last + 300 * SECOND)
  }

  lemma {:induction false} BumpedExactly(m: map<Id, Counter>, ids: seq<Id>, now: int, id: Id)
    ensures
      var b := BumpAll(m, ids, now);
      if Times(ids, id) == 0 then (id in b <==> id in m) && (id in m ==> b[id] == m[id])
      else id in b && b[id] == Counter(Live(m, id, now) + Times(ids, id), now + 300 * SECOND)
    decreases |ids|
  {
    if ids != [] {
      BumpedExactly(Bump(m, ids[0], now), ids[1..], now, id);
    }
  }

  lemma {:induction false} AbuseLeavesFailures(st: Security, ids: seq<Id>, now: int)
    ensures RecordAbuse(st, ids, now).0.failures == st.failures
    ensures RecordAbuse(st, ids, now).0.backoff == st.backoff
    decreases |ids|
  {
    if ids != [] {
      AbuseLeavesFailures(st.(abuse := Bump(st.abuse, ids[0], now)), ids[1..], now);
    }
  }

  /** What an attempt leaves of the failure counters. */
  lemma {:induction false} FailuresAfter(st: Security, e: Event)
    requires e.Try?
    ensures Step(st, e).failures ==
      if IsFailure(st, e) then BumpAll(st.failures, e.ids, e.at)
      else if ResponseTo(st, e) == Some(LoggedIn) then Drop(st.failures, e.ids)
      else st.failures
    ensures IsFailure(st, e) ==> ResponseTo(st, e) != Some(LoggedIn)
  {
    AbuseLeavesFailures(st, e.ids, e.at);
    AbuseLeavesFailures(st.(failures := BumpAll(st.failures, e.ids, e.at)), e.ids, e.at);
    AbuseResponse(st, e.ids, e.at);
    AbuseResponse(st.(failures := BumpAll(st.failures, e.ids, e.at)), e.ids, e.at);
  }

  lemma {:induction false} StepCountsFailures(st: Security, e: Event, id: Id, s: Streak)
    requires CountsFailures(st, id, s)
    ensures CountsFailures(Step(st, e), id, NextFailures(st, e, id, s))
  {
    if e.Try? {
      TimesIn(e.ids, id);
      FailuresAfter(st, e);
      BumpedExactly(st.failures, e.ids, e.at, id);
    }
  }

  lemma {:induction false} HistoryCountsFailures(st: Security, es: seq<Event>, id: Id, s: Streak)
    requires CountsFailures(st, id, s)
    ensures CountsFailures(Run(st, es), id, Failures(st, es, id, s))
    decreases |es|
  {
    if es != [] {
      StepCountsFailures(st, es[0], id, s);
      HistoryCountsFailures(Step(st, es[0]), es[1..], id, NextFailures(st, es[0], id, s));
    }
  }

  /** While it lives, the abuse counter holds no more than the streak, and it lives no longer than that can go on. */
  predicate BoundsAbuses(st: Security, id: Id, s: Streak, clock: int) {
    id in st.abuse && clock < st.abuse[id].expires ==>
      st.abuse[id].count <= s.count && st.abuse[id].expires <= s.last + 300 * SECOND && s.last <= clock
  }

  /** Recording abuse counts an identifier at most as often as it is named. */
  lemma {:induction false} AbuseAtMost(st: Security, ids: seq<Id>, now: int, id: Id)
    ensures
      var abuse := RecordAbuse(st, ids, now).0.abuse;
      || ((id in abuse <==> id in st.abuse) && (id in abuse ==> abuse[id] == st.abuse[id]))
      || (id in abuse && Times(ids, id) > 0 && abuse[id].expires == now + 300 * SECOND
          && abuse[id].count <= Live(st.abuse, id, now) + Times(ids, id))
    decreases |ids|
  {
    if ids != [] {
      AbuseAtMost(st.(abuse := Bump(st.abuse, ids[0], now)), ids[1..], now, id);
    }
  }

  lemma {:induction false} LongestWhenOn(st: Security, e: Event)
    requires e.Try?
    ensures NoRowOn(st, e) <==> Longest(st.rows, e.ids, e.at) == |st.rows|
  {
  }

  lemma {:induction false} StepBoundsAbuses(st: Security, e: Event, id: Id, s: Streak, clock: int)
    requires BoundsAbuses(st, id, s, clock) && clock <= e.at
    ensures BoundsAbuses(Step(st, e), id, NextAbuses(st, e, id, s), e.at)
  {
    if e.Try? {
      TimesIn(e.ids, id);
      LongestWhenOn(st, e);
      AbuseAtMost(st, e.ids, e.at, id);
      AbuseAtMost(st.(failures := BumpAll(st.failures, e.ids, e.at)), e.ids, e.at, id);
      AbuseResponse(st, e.ids, e.at);
      AbuseResponse(st.(failures := BumpAll(st.failures, e.ids, e.at)), e.ids, e.at);
    }
  }

  lemma {:induction false} HistoryBoundsAbuses(st: Security, es: seq<Event>, id: Id, s: Streak, clock: int)
    requires BoundsAbuses(st, id, s, clock) && Timed(clock, es)
    ensures BoundsAbuses(Run(st, es), id, Abuses(st, es, id, s), Clock(clock, es))
    decreases |es|
  {
    if es != [] {
      StepBoundsAbuses(st, es[0], id, s, clock);
      HistoryBoundsAbuses(Step(st, es[0]), es[1..], id, NextAbuses(st, es[0], id, s), es[0].at);
    }
  }

  lemma {:induction false} AbusesAppend(st: Security, es: seq<Event>, e: Event, id: Id, s: Streak)
    ensures Abuses(st, es + [e], id, s) == NextAbuses(Run(st, es), e, id, Abuses(st, es, id, s))
    decreases |es|
  {
    if es == [] {
      assert [] + [e] == [e] && [e][1..] == [];
    } else {
      assert (es + [e])[1..] == es[1..] + [e];
      AbusesAppend(Step(st, es[0]), es[1..], e, id, NextAbuses(st, es[0], id, s));
    }
  }

  lemma {:induction false} FailuresAppend(st: Security, es: seq<Event>, e: Event, id: Id, s: Streak)
    ensures Failures(st, es + [e], id, s) == NextFailures(Run(st, es), e, id, Failures(st, es, id, s))
    decreases |es|
  {
    if es == [] {
      assert [] + [e] == [e] && [e][1..] == [];
    } else {
      assert (es + [e])[1..] == es[1..] + [e];
      FailuresAppend(Step(st, es[0]), es[1..], e, id, NextFailures(st, es[0], id, s));
    }
  }

  // ---- a lock needs ten ----

  /** Whoever gets locked has ten on the counter, set just now. */
  lemma {:induction false} LockedHasTen(st: Security, ids: seq<Id>, now: int) returns (id: Id)
    requires RecordAbuse(st, ids, now).1.Some? && Longest(st.rows, ids, now) == |st.rows|
    ensures
      var t := RecordAbuse(st, ids, now).0;
      && id in ids && id in t.abuse && t.abuse[id].count >= 10
      && t.abuse[id].count <= Live(st.abuse, id, now) + Times(ids, id)
      && LockedUntil(t.rows, id, now + 300 * SECOND)
    decreases |ids|
  {
    var st1 := st.(abuse := Bump(st.abuse, ids[0], now));
    assert forall k :: 0 <= k < |st.rows| ==> !Active(st.rows[k], ids, now);
    if st1.abuse[ids[0]].count >= LOCKOUT_THRESHOLD {
      id := ids[0];
      assert Longest(st.rows, [id], now) == |st.rows|;
      assert RecordAbuse(st, ids, now).0.rows[|st.rows|].id == id;
    } else {
      assert forall x :: x in ids[1..] ==> x in ids;
      id := LockedHasTen(st1, ids[1..], now);
    }
  }

  /**
    Over every history: an attempt that is answered with a lock, when none was
    on, is at least the tenth abuse in a row for some identifier it names, each
    within 300 seconds of the one before and none cleared by a login in
    between; that identifier is then locked for 300 seconds.
   */
  lemma {:induction false} LockNeedsTen(clock: int, es: seq<Event>, e: Event) returns (id: Id)
    requires Timed(clock, es) && Clock(clock, es) <= e.at
    requires e.Try? && NoRowOn(Run(NOTHING, es), e)
    requires ResponseTo(Run(NOTHING, es), e).value.Locked?
    ensures id in e.ids && LockedUntil(Step(Run(NOTHING, es), e).rows, id, e.at + 300 * SECOND)
    ensures Abuses(NOTHING, es + [e], id, NO_STREAK).count >= 10
  {
    var st := Run(NOTHING, es);
    LongestWhenOn(st, e);
    var counted := if Check(st, e.ids, e.at).1.Some? then st else st.(failures := BumpAll(st.failures, e.ids, e.at));
    id := LockedHasTen(counted, e.ids, e.at);
    HistoryBoundsAbuses(NOTHING, es, id, NO_STREAK, clock);
    AbusesAppend(NOTHING, es, e, id, NO_STREAK);
    TimesIn(e.ids, id);
  }

  // ---- a backoff takes exactly five ----

  /**
    Over every history, the answer to a wrong password that is looked at: unless
    it is a lock, it is a backoff of 60 seconds if this is the fifth failure or
    a later one in a row for some identifier named, each within 300 seconds of
    the one before, and a plain denial otherwise.
   */
  lemma {:induction false} FailureIsAnswered(es: seq<Event>, e: Event)
    requires IsFailure(Run(NOTHING, es), e)
    ensures
      var r := ResponseTo(Run(NOTHING, es), e).value;
      || r.Locked?
      || r == if exists id :: id in e.ids && Failures(NOTHING, es + [e], id, NO_STREAK).count >= 5
              then TooMany(60) else Denied
  {
    var st := Run(NOTHING, es);
    var failures := BumpAll(st.failures, e.ids, e.at);
    forall id | id in e.ids
      ensures id in failures && failures[id].count == Failures(NOTHING, es + [e], id, NO_STREAK).count
    {
      HistoryCountsFailures(NOTHING, es, id, NO_STREAK);
      FailuresAppend(NOTHING, es, e, id, NO_STREAK);
      FailuresAfter(st, e);
      BumpedExactly(st.failures, e.ids, e.at, id);
      TimesIn(e.ids, id);
    }
    AbuseResponse(st.(failures := failures), e.ids, e.at);
    if id :| id in e.ids && Failures(NOTHING, es + [e], id, NO_STREAK).count >= 5 {
      var i :| 0 <= i < |e.ids| && e.ids[i] == id;
      assert AnyOverThreshold(failures, e.ids);
    }
  }

  // ---- few attempts are only denied ----

  /** How often the identifier has been named in attempts. */
  function Named(es: seq<Event>, id: Id): nat {
    if es == [] then 0 else Named(es[1..], id) + if es[0].Try? then Times(es[0].ids, id) else 0
  }

  /** After n attempts for the identifier: ten for a row, five for a backoff, and counters that hold no more. */
  ghost predicate Earned(st: Security, id: Id, n: nat) {
    && (forall k :: 0 <= k < |st.rows| && st.rows[k].id == id ==> n >= 10)
    && (id in st.backoff ==> n >= 5)
    && (id in st.abuse ==> st.abuse[id].count <= n)
    && (id in st.failures ==> st.failures[id].count <= n)
  }

  lemma {:induction false} AbuseEarned(st: Security, ids: seq<Id>, now: int, id: Id, n: nat)
    requires Earned(st, id, n)
    ensures Earned(RecordAbuse(st, ids, now).0, id, n + Times(ids, id))
    decreases |ids|
  {
    if ids != [] {
      var m := n + if ids[0] == id then 1 else 0;
      var st1 := st.(abuse := Bump(st.abuse, ids[0], now));
      assert Earned(st1, id, m);
      if st1.abuse[ids[0]].count < LOCKOUT_THRESHOLD {
        AbuseEarned(st1, ids[1..], now, id, m);
      } else {
        var rows := RecordAbuse(st, ids, now).0.rows;
        forall k | 0 <= k < |rows| && rows[k].id == id
          ensures m >= 10
        {
          assert k < |st.rows| ==> rows[k].id == st.rows[k].id;
        }
      }
    }
  }

  lemma {:induction false} PausesEarned(backoff: map<Id, Pause>, failures: map<Id, Counter>, ids: seq<Id>, now: int,
      id: Id)
    requires id in PauseAll(backoff, failures, ids, now)
    ensures id in backoff || (id in failures && failures[id].count >= 5)
    decreases |ids|
  {
    if ids != [] {
      var b := if ids[0] in failures && failures[ids[0]].count >= BACKOFF_THRESHOLD
               then backoff[ids[0] := Pause(now + BACKOFF, now + BACKOFF)] else backoff;
      PausesEarned(b, failures, ids[1..], now, id);
    }
  }

  lemma {:induction false} FailEarned(st: Security, ids: seq<Id>, now: int, id: Id, n: nat)
    requires Earned(st, id, n)
    ensures Earned(Fail(st, ids, now).0, id, n + Times(ids, id))
  {
    var failures := BumpAll(st.failures, ids, now);
    var failed := st.(failures := failures);
    BumpedExactly(st.failures, ids, now, id);
    AbuseCounts(st, failures, ids, now, id, n);
    var t := Fail(st, ids, now).0;
    AbuseLeavesFailures(failed, ids, now);
    if id in t.backoff && id !in st.backoff {
      PausesEarned(RecordAbuse(failed, ids, now).0.backoff, failures, ids, now, id);
    }
  }

  /** The failure counters play no part in recording abuse. */
  lemma {:induction false} AbuseCounts(st: Security, failures: map<Id, Counter>, ids: seq<Id>, now: int, id: Id, n: nat)
    requires Earned(st, id, n)
    ensures
      var t := RecordAbuse(st.(failures := failures), ids, now).0;
      Earned(t.(failures := st.failures), id, n + Times(ids, id))
  {
    AbuseEarned(st, ids, now, id, n);
    SameAbuse(st, failures, ids, now);
  }

  lemma {:induction false} SameAbuse(st: Security, failures: map<Id, Counter>, ids: seq<Id>, now: int)
    ensures
      var t, u := RecordAbuse(st, ids, now), RecordAbuse(st.(failures := failures), ids, now);
      u.0 == t.0.(failures := failures) && u.1 == t.1
    decreases |ids|
  {
    if ids != [] {
      SameAbuse(st.(abuse := Bump(st.abuse, ids[0], now)), failures, ids[1..], now);
    }
  }

  lemma {:induction false} StepEarned(st: Security, e: Event, id: Id, n: nat)
    requires Earned(st, id, n)
    ensures Earned(Step(st, e), id, n + if e.Try? then Times(e.ids, id) else 0)
  {
    match e
    case Try(ids, at, credentials) =>
      AbuseEarned(st, ids, at, id, n);
      FailEarned(st, ids, at, id, n);
    case Resolve(_, _) =>
  }

  lemma {:induction false} HistoryEarned(st: Security, es: seq<Event>, id: Id, n: nat)
    requires Earned(st, id, n)
    ensures Earned(Run(st, es), id, n + Named(es, id))
    decreases |es|
  {
    if es != [] {
      StepEarned(st, es[0], id, n);
      HistoryEarned(Step(st, es[0]), es[1..], id, n + if es[0].Try? then Times(es[0].ids, id) else 0);
    }
  }

  lemma {:induction false} NoLockBelowTen(st: Security, ids: seq<Id>, now: int)
    requires forall id :: id in ids ==> Times(ids, id) < 10 && Earned(st, id, 9 - Times(ids, id))
    ensures RecordAbuse(st, ids, now).1.None?
  {
    var t := RecordAbuse(st, ids, now).0;
    assert forall k :: 0 <= k < |st.rows| ==> !Active(st.rows[k], ids, now);
    forall id | id in ids
      ensures Earned(t, id, 9)
    {
      AbuseEarned(st, ids, now, id, 9 - Times(ids, id));
    }
    if RecordAbuse(st, ids, now).1.Some? {
      var id := LockedHasTen(st, ids, now);
    }
  }

  /** With fewer than ten attempts for each of its identifiers, itself included, no attempt meets a lock. */
  lemma {:induction false} FewerThanTenNeverLock(es: seq<Event>, e: Event)
    requires e.Try? && forall id :: id in e.ids ==> Named(es, id) + Times(e.ids, id) < 10
    ensures !ResponseTo(Run(NOTHING, es), e).value.Locked?
  {
    var st := Run(NOTHING, es);
    forall id | id in e.ids
      ensures Earned(st, id, 9 - Times(e.ids, id))
    {
      HistoryEarned(NOTHING, es, id, 0);
    }
    assert forall k :: 0 <= k < |st.rows| ==> !Active(st.rows[k], e.ids, e.at);
    NoLockBelowTen(st, e.ids, e.at);
    SameAbuse(st, BumpAll(st.failures, e.ids, e.at), e.ids, e.at);
  }

  /** With fewer than five, a wrong password is only denied, and any other attempt is let through to its answer. */
  lemma {:induction false} FewerThanFiveAreOnlyDenied(es: seq<Event>, e: Event)
    requires e.Try? && forall id :: id in e.ids ==> Named(es, id) + Times(e.ids, id) < 5
    ensures ResponseTo(Run(NOTHING, es), e).value ==
      match e.credentials case Wrong => Denied case NoPassword => PasswordNotSet case Right => LoggedIn
  {
    var st := Run(NOTHING, es);
    FewerThanTenNeverLock(es, e);
    forall id | id in e.ids
      ensures id !in st.backoff && Failures(NOTHING, es + [e], id, NO_STREAK).count < 5
    {
      HistoryEarned(NOTHING, es, id, 0);
      HistoryCountsFailures(NOTHING, es + [e], id, NO_STREAK);
      NamedAppend(es, e, id);
      HistoryEarned(NOTHING, es + [e], id, 0);
    }
    assert forall k :: 0 <= k < |st.rows| ==> !Active(st.rows[k], e.ids, e.at);
    NoWait(st.backoff, e.ids, e.at);
    if e.credentials.Wrong? {
      FailureIsAnswered(es, e);
    }
  }

  lemma {:induction false} NamedAppend(es: seq<Event>, e: Event, id: Id)
    ensures Named(es + [e], id) == Named(es, id) + if e.Try? then Times(e.ids, id) else 0
  {
    if es == [] {
      assert [] + [e] == [e] && [e][1..] == [];
    } else {
      assert (es + [e])[1..] == es[1..] + [e];
      NamedAppend(es[1..], e, id);
    }
  }
}

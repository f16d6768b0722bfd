/**
  Login protection: expiring failure and abuse counters, backoff, and lockout
  rows (backend/authentication/login_security.py).
  Times are integers in microseconds; a cached entry lives while now < expires.
 */
module LoginSecurity {
  import opened Common

  const SECOND: int := 1_000_000
  const WINDOW: int := 300 * SECOND        // failure and abuse counters
  const LOCKOUT: int := 300 * SECOND
  const BACKOFF_SECONDS: nat := 60
  const BACKOFF: int := 60 * SECOND
  const BACKOFF_THRESHOLD: nat := 5
  const LOCKOUT_THRESHOLD: nat := 10

  datatype Scope = Ip | Username
  datatype Id = Id(scope: Scope, value: string)
  datatype Counter = Counter(count: nat, expires: int)
  datatype Pause = Pause(until: int, expires: int)
  datatype Row = Row(id: Id, failureCount: nat, lockedUntil: int, lastAttempt: int, resolved: bool)

  datatype Response =
    | Locked(until: int, retryAfter: int)
    | TooMany(retryAfter: int)
    | Denied           // wrong credentials, nothing more
    | PasswordNotSet   // the right account, but it has no password of its own
    | LoggedIn

  /** What the user store says: an unknown user or wrong password, a match without a set password, a match. */
  datatype Credentials = Wrong | NoPassword | Right

  datatype Security = Security(
    failures: map<Id, Counter>,
    abuse: map<Id, Counter>,
    backoff: map<Id, Pause>,
    rows: seq<Row>)

  const NOTHING: Security := Security(map[], map[], map[], [])

  // ---- counters ----

  function Live(m: map<Id, Counter>, id: Id, now: int): nat {
    if id in m && now < m[id].expires then m[id].count else 0
  }

  function Bump(m: map<Id, Counter>, id: Id, now: int): map<Id, Counter> {
    m[id := Counter(Live(m, id, now) + 1, now + WINDOW)]
  }

  function BumpAll(m: map<Id, Counter>, ids: seq<Id>, now: int): map<Id, Counter>
    decreases |ids|
  {
    if ids == [] then m else BumpAll(Bump(m, ids[0], now), ids[1..], now)
  }

  // ---- lockout rows ----

  predicate Active(row: Row, ids: seq<Id>, now: int) {
    row.id in ids && !row.resolved && now < row.lockedUntil
  }

  /** Index of the active row of the identifiers that is locked longest, or |rows|. */
  function Longest(rows: seq<Row>, ids: seq<Id>, now: int): (k: nat)
    ensures k <= |rows|
    ensures k < |rows| ==> Active(rows[k], ids, now)
    ensures forall i :: 0 <= i < |rows| && Active(rows[i], ids, now) ==>
      k < |rows| && rows[i].lockedUntil <= rows[k].lockedUntil
  {
    if rows == [] then 0
    else
      var n := |rows| - 1;
      var k := Longest(rows[..n], ids, now);
      assert forall i :: 0 <= i < n ==> rows[..n][i] == rows[i];
      if Active(rows[n], ids, now) && (k == n || rows[k].lockedUntil < rows[n].lockedUntil) then n
      else if k == n then |rows|
      else k
  }

  function Lock(row: Row, now: int): Response {
    Locked(row.lockedUntil, if row.lockedUntil > now then (row.lockedUntil - now) / SECOND else 0)
  }

  /** Open a lock for the identifier, or prolong the one it has. */
  function LockRows(rows: seq<Row>, id: Id, count: nat, now: int): seq<Row> {
    var k := Longest(rows, [id], now);
    if k == |rows| then rows + [Row(id, count, now + LOCKOUT, now, false)]
    else if rows[k].lockedUntil < now + LOCKOUT || rows[k].failureCount < count then
      rows[k := rows[k].(lockedUntil := now + LOCKOUT, failureCount := count, lastAttempt := now)]
    else rows
  }

  function LockIndex(rows: seq<Row>, id: Id, count: nat, now: int): (k: nat)
    ensures k < |LockRows(rows, id, count, now)|
  {
    Longest(rows, [id], now)
  }

  // ---- the three entry points, and an attempt made of them ----

  /** Count one abuse for each identifier in turn, until one is locked. */
  function RecordAbuse(st: Security, ids: seq<Id>, now: int): (Security, Option<Response>)
    decreases |ids|
  {
    if ids == [] then (st, None)
    else
      var st1 := st.(abuse := Bump(st.abuse, ids[0], now));
      var count := st1.abuse[ids[0]].count;
      if count < LOCKOUT_THRESHOLD then RecordAbuse(st1, ids[1..], now)
      else
        var rows := LockRows(st.rows, ids[0], count, now);
        (st1.(rows := rows), Some(Lock(rows[LockIndex(st.rows, ids[0], count, now)], now)))
  }

  /** Whole seconds the identifier has still to wait, as the check truncates them. */
  function Remaining(backoff: map<Id, Pause>, id: Id, now: int): int {
    if id in backoff && now < backoff[id].expires then (backoff[id].until - now) / SECOND else 0
  }

  function MaxRemaining(backoff: map<Id, Pause>, ids: seq<Id>, now: int): (r: int)
    ensures 0 <= r
    ensures forall id :: id in ids ==> Remaining(backoff, id, now) <= r
  {
    if ids == [] then 0
    else Max(Remaining(backoff, ids[0], now), MaxRemaining(backoff, ids[1..], now))
  }

  function Max(a: int, b: int): int {
    if a > b then a else b
  }

  function Check(st: Security, ids: seq<Id>, now: int): (Security, Option<Response>) {
    var k := Longest(st.rows, ids, now);
    if k < |st.rows| then (st, Some(Lock(st.rows[k], now)))
    else
      var wait := MaxRemaining(st.backoff, ids, now);
      if wait == 0 then (st, None)
      else
        var (st1, lock) := RecordAbuse(st, ids, now);
        (st1, Some(if lock.Some? then lock.value else TooMany(wait)))
  }

  function PauseAll(backoff: map<Id, Pause>, failures: map<Id, Counter>, ids: seq<Id>, now: int): map<Id, Pause>
    decreases |ids|
  {
    if ids == [] then backoff
    else
      var b := if ids[0] in failures && failures[ids[0]].count >= BACKOFF_THRESHOLD
               then backoff[ids[0] := Pause(now + BACKOFF, now + BACKOFF)] else backoff;
      PauseAll(b, failures, ids[1..], now)
  }

  predicate AnyOverThreshold(failures: map<Id, Counter>, ids: seq<Id>) {
    exists i :: 0 <= i < |ids| && ids[i] in failures && failures[ids[i]].count >= BACKOFF_THRESHOLD
  }

  function Fail(st: Security, ids: seq<Id>, now: int): (Security, Option<Response>) {
    var failures := BumpAll(st.failures, ids, now);
    var (st1, lock) := RecordAbuse(st.(failures := failures), ids, now);
    if lock.Some? then (st1, lock)
    else if AnyOverThreshold(failures, ids) then
      (st1.(backoff := PauseAll(st1.backoff, failures, ids, now)), Some(TooMany(BACKOFF_SECONDS)))
    else (st1, None)
  }

  function Drop<V>(m: map<Id, V>, ids: seq<Id>): map<Id, V> {
    map id | id in m && id !in ids :: m[id]
  }

  function Clear(st: Security, ids: seq<Id>): Security {
    st.(failures := Drop(st.failures, ids), abuse := Drop(st.abuse, ids), backoff := Drop(st.backoff, ids))
  }

  /** A login request: check, then the credentials, then the bookkeeping. */
  function Attempt(st: Security, ids: seq<Id>, now: int, credentials: Credentials): (Security, Response) {
    var (st1, blocked) := Check(st, ids, now);
    if blocked.Some? then (st1, blocked.value)
    else match credentials
      case Wrong =>
        var (st2, response) := Fail(st1, ids, now);
        (st2, if response.Some? then response.value else Denied)
      case NoPassword => (st1, PasswordNotSet)
      case Right => (Clear(st1, ids), LoggedIn)
  }

  /** Which of several longest rows is found makes no difference to the response. */
  lemma {:induction false} LongestIsOnlyLock(rows: seq<Row>, ids: seq<Id>, now: int, lock: Response)
    requires lock.Locked? && lock.until > now
    requires lock.retryAfter * SECOND <= lock.until - now < (lock.retryAfter + 1) * SECOND
    requires exists i :: 0 <= i < |rows| && Active(rows[i], ids, now) && rows[i].lockedUntil == lock.until
    requires forall i :: 0 <= i < |rows| && Active(rows[i], ids, now) ==> rows[i].lockedUntil <= lock.until
    ensures Longest(rows, ids, now) < |rows| && Lock(rows[Longest(rows, ids, now)], now) == lock
  {
    var k := Longest(rows, ids, now);
    assert Active(rows[k], ids, now);
    assert lock.retryAfter == (lock.until - now) / SECOND;
  }

  // ---- the service ----

  class LoginSecurityService {
    var failures: map<Id, Counter>
    var abuse: map<Id, Counter>
    var backoff: map<Id, Pause>
    var rows: seq<Row>

    ghost function View(): Security
      reads this
    {
      Security(failures, abuse, backoff, rows)
    }

    constructor ()
      ensures View() == NOTHING
    {
      failures, abuse, backoff, rows := map[], map[], map[], [];
    }

    /**
      None exactly when no row of the identifiers is active; otherwise the lock
      of an active row that no other active row outlasts, with the whole seconds
      that are left of it.
     */
    method ActiveLockoutResponse(ids: seq<Id>, now: int) returns (r: Option<Response>)
      ensures r.None? <==> forall i :: 0 <= i < |rows| ==> !Active(rows[i], ids, now)
      ensures r.Some? ==>
        && r.value.Locked? && r.value.until > now
        && r.value.retryAfter * SECOND <= r.value.until - now < (r.value.retryAfter + 1) * SECOND
        && (exists i :: 0 <= i < |rows| && Active(rows[i], ids, now) && rows[i].lockedUntil == r.value.until)
        && (forall i :: 0 <= i < |rows| && Active(rows[i], ids, now) ==> rows[i].lockedUntil <= r.value.until)
    {
      var k := Longest(rows, ids, now);
      return if k < |rows| then Some(Lock(rows[k], now)) else None;
    }

    method RecordAbuseAndLockout(ids: seq<Id>, now: int) returns (r: Option<Response>)
      modifies this`abuse, this`rows
      ensures (View(), r) == RecordAbuse(old(View()), ids, now)
    {
      for i := 0 to |ids|
        invariant RecordAbuse(View(), ids[i..], now) == RecordAbuse(old(View()), ids, now)
      {
        assert ids[i..][0] == ids[i] && ids[i..][1..] == ids[i + 1..];
        abuse := Bump(abuse, ids[i], now);
        var count := abuse[ids[i]].count;
        if count >= LOCKOUT_THRESHOLD {
          var k := Longest(rows, [ids[i]], now);
          if k == |rows| {
            rows := rows + [Row(ids[i], count, now + LOCKOUT, now, false)];
          }
          if rows[k].lockedUntil < now + LOCKOUT || rows[k].failureCount < count {
            rows := rows[k := rows[k].(lockedUntil := now + LOCKOUT, failureCount := count, lastAttempt := now)];
          }
          return Some(Lock(rows[k], now));
        }
      }
      return None;
    }

    method CheckRequestAllowed(ids: seq<Id>, now: int) returns (r: Option<Response>)
      modifies this`abuse, this`rows
      ensures (View(), r) == Check(old(View()), ids, now)
    {
      r := ActiveLockoutResponse(ids, now);
      if r.Some? {
        LongestIsOnlyLock(rows, ids, now, r.value);
        return;
      }
      var wait := 0;
      for i := 0 to |ids|
        invariant 0 <= wait
        invariant MaxRemaining(backoff, ids, now) == Max(wait, MaxRemaining(backoff, ids[i..], now))
      {
        assert ids[i..][0] == ids[i] && ids[i..][1..] == ids[i + 1..];
        wait := Max(wait, Remaining(backoff, ids[i], now));
      }
      if wait == 0 {
        return None;
      }
      r := RecordAbuseAndLockout(ids, now);
      if r.None? {
        r := Some(TooMany(Max(1, wait)));
      }
    }

    method RecordFailedLogin(ids: seq<Id>, now: int) returns (r: Option<Response>)
      modifies this
      ensures (View(), r) == Fail(old(View()), ids, now)
    {
      for i := 0 to |ids|
        invariant BumpAll(failures, ids[i..], now) == BumpAll(old(failures), ids, now)
        invariant abuse == old(abuse) && backoff == old(backoff) && rows == old(rows)
      {
        assert ids[i..][0] == ids[i] && ids[i..][1..] == ids[i + 1..];
        failures := Bump(failures, ids[i], now);
      }
      r := RecordAbuseAndLockout(ids, now);
      if r.Some? {
        return;
      }
      if !AnyOverThreshold(failures, ids) {
        return None;
      }
      ghost var before := View();
      for i := 0 to |ids|
        invariant PauseAll(backoff, failures, ids[i..], now) == PauseAll(before.backoff, failures, ids, now)
        invariant failures == before.failures && abuse == before.abuse && rows == before.rows
      {
        assert ids[i..][0] == ids[i] && ids[i..][1..] == ids[i + 1..];
        if ids[i] in failures && failures[ids[i]].count >= BACKOFF_THRESHOLD {
          backoff := backoff[ids[i] := Pause(now + BACKOFF, now + BACKOFF)];
        }
      }
      return Some(TooMany(BACKOFF_SECONDS));
    }

    method ClearSuccessfulLogin(ids: seq<Id>)
      modifies this
      ensures View() == Clear(old(View()), ids)
    {
      for i := 0 to |ids|
        invariant failures == Drop(old(failures), ids[..i])
        invariant abuse == Drop(old(abuse), ids[..i])
        invariant backoff == Drop(old(backoff), ids[..i])
        invariant rows == old(rows)
      {
        assert ids[..i + 1] == ids[..i] + [ids[i]];
        failures := failures - {ids[i]};
        abuse := abuse - {ids[i]};
        backoff := backoff - {ids[i]};
      }
      assert ids[..|ids|] == ids;
    }

    /** The login view's use of the service. */
    method Login(ids: seq<Id>, now: int, credentials: Credentials) returns (r: Response)
      modifies this
      ensures (View(), r) == Attempt(old(View()), ids, now, credentials)
    {
      var blocked := CheckRequestAllowed(ids, now);
      if blocked.Some? {
        return blocked.value;
      }
      if credentials.Wrong? {
        var failed := RecordFailedLogin(ids, now);
        return if failed.Some? then failed.value else Denied;
      }
      if credentials.NoPassword? {
        return PasswordNotSet;
      }
      ClearSuccessfulLogin(ids);
      return LoggedIn;
    }
  }
}

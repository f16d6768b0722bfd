/** What every history of an asset keeps. */
module AssetHistories {
  import opened Common
  import opened AssetLifecycle

  // ---- versions ----

  /** The asset is out of its author's hands. */
  predicate InReview(status: Status) {
    status.PendingReview? || status.UnderReview? || status.Approved? || status.Archived?
  }

  ghost predicate VersionsOk(a: Asset) {
    var vs := a.versions;
    && (forall i :: 0 <= i < |vs| ==> vs[i].number == i + 1)
    && (forall i :: 0 <= i < |vs| - 1 ==> vs[i].status.Finalized?)
    && (forall i :: 0 <= i < |vs| ==> vs[i].id < a.nextId)
    && (forall i, j :: 0 <= i < j < |vs| ==> vs[i].id != vs[j].id)
    && (InReview(a.status) ==> vs != [] && vs[|vs| - 1].status.Finalized?)
  }

  lemma {:induction false} LatestIsLast(a: Asset)
    requires VersionsOk(a) && a.versions != []
    ensures Latest(a.versions) == |a.versions| - 1
  {
    var n := |a.versions| - 1;
    assert a.versions[n].number <= a.versions[Latest(a.versions)].number;
  }

  /** Replacing a version by one with the same identity, still finalized if it was. */
  lemma {:induction false} WithKeeps(a: Asset, k: nat, v: Version)
    requires VersionsOk(a) && k < |a.versions|
    requires v.id == a.versions[k].id && v.number == a.versions[k].number
    requires a.versions[k].status.Finalized? ==> v.status.Finalized?
    ensures VersionsOk(With(a, k, v))
  {
  }

  lemma {:induction false} DeleteKeeps(a: Asset, k: nat)
    requires VersionsOk(a) && k < |a.versions| && a.versions[k].status.Draft?
    ensures VersionsOk(a.(versions := a.versions[..k] + a.versions[k + 1..]))
  {
    assert k == |a.versions| - 1;
    assert a.versions[..k] + a.versions[k + 1..] == a.versions[..k];
  }

  lemma {:induction false} CreateKeeps(a: Asset, file: nat)
    requires VersionsOk(a)
    ensures VersionsOk(Apply(a, CreateVersion(file)))
  {
    if a.versions != [] {
      LatestIsLast(a);
    }
  }

  lemma {:induction false} ActKeeps(a: Asset, action: Action)
    requires VersionsOk(a)
    ensures VersionsOk(Apply(a, Act(action)))
  {
    if a.versions != [] {
      LatestIsLast(a);
    }
  }

  /** The same where the scans have changed as well. */
  lemma {:induction false} MarkKeeps(a: Asset, b: Asset, k: nat)
    requires VersionsOk(a) && k < |a.versions| == |b.versions|
    requires b == With(a, k, b.versions[k]).(scans := b.scans)
    requires b.versions[k].id == a.versions[k].id && b.versions[k].number == a.versions[k].number
    requires a.versions[k].status.Finalized? ==> b.versions[k].status.Finalized?
    ensures VersionsOk(b)
  {
    WithKeeps(a, k, b.versions[k]);
  }

  lemma {:induction false} EventKeepsVersions(a: Asset, e: Event)
    requires VersionsOk(a)
    ensures VersionsOk(Apply(a, e))
  {
    var b := Apply(a, e);
    match e
    case Act(action) => ActKeeps(a, action);
    case CreateVersion(file) => CreateKeeps(a, file);
    case DeleteVersion(id) =>
      if b != a {
        DeleteKeeps(a, Find(a.versions, id));
      }
    case ScanResult(task, verdict) =>
      if b != a {
        MarkKeeps(a, b, Find(a.versions, a.scans[task].version));
      }
    case _ =>
      if b != a {
        MarkKeeps(a, b, Find(a.versions, e.id));
      }
  }

  // ---- the audit log ----

  /** The log is a path of the state machine from the initial state to the current one. */
  ghost predicate LogOk(a: Asset) {
    var log := a.log;
    && (forall i :: 0 <= i < |log| ==> log[i].to == Target(log[i].action) && Source(log[i].action, log[i].from))
    && (forall i :: 0 < i < |log| ==> log[i].from == log[i - 1].to)
    && (if log == [] then a.status.NotSubmitted? else log[0].from.NotSubmitted? && a.status == log[|log| - 1].to)
  }

  lemma {:induction false} EventKeepsLog(a: Asset, e: Event)
    requires LogOk(a)
    ensures LogOk(Apply(a, e)) && a.log <= Apply(a, e).log
  {
  }

  ghost predicate Inv(a: Asset) {
    VersionsOk(a) && LogOk(a)
  }

  lemma {:induction false} RunKeeps(a: Asset, es: seq<Event>)
    requires Inv(a)
    ensures Inv(Run(a, es)) && a.log <= Run(a, es).log
    decreases |es|
  {
    if es != [] {
      EventKeepsVersions(a, es[0]);
      EventKeepsLog(a, es[0]);
      RunKeeps(Apply(a, es[0]), es[1..]);
    }
  }

  /**
    Every reachable asset: versions are numbered 1..n, only the highest can be
    a draft, and an asset in review, approved or archived has a version and no
    draft.
   */
  lemma {:induction false} ReachableVersions(es: seq<Event>)
    ensures
      var a := Run(NEW_ASSET, es);
      var n := |a.versions|;
      && (forall i :: 0 <= i < n ==> a.versions[i].number == i + 1)
      && (forall i :: 0 <= i < n && a.versions[i].status.Draft? ==> i == n - 1)
      && (InReview(a.status) ==> n > 0 && !HasDraft(a.versions))
  {
    RunKeeps(NEW_ASSET, es);
  }

  /** The audit log replays to the status, and no entry is ever changed or lost. */
  lemma {:induction false} LogReplays(es: seq<Event>, more: seq<Event>)
    ensures
      var a, b := Run(NEW_ASSET, es), Run(Run(NEW_ASSET, es), more);
      && LogOk(a) && a.log <= b.log
      && Replay(a.log) == Some(a.status)
  {
    RunKeeps(NEW_ASSET, es);
    RunKeeps(Run(NEW_ASSET, es), more);
    ReplayIs(Run(NEW_ASSET, es).log, Run(NEW_ASSET, es).status);
  }

  /** Follow the log from the initial state; None if a row does not start where the one before ended. */
  function Replay(log: seq<Transition>): Option<Status> {
    if log == [] then Some(NotSubmitted)
    else
      var n := |log| - 1;
      if Replay(log[..n]) == Some(log[n].from) then Some(log[n].to) else None
  }

  lemma {:induction false} ReplayIs(log: seq<Transition>, status: Status)
    requires LogOk(Asset(status, [], log, 0, []))
    ensures Replay(log) == Some(status)
  {
    if log != [] {
      var n := |log| - 1;
      ReplayIs(log[..n], log[n].from);
    }
  }

  /** Every approval in the log follows a submission out of an editing state and the start of a review, directly. */
  lemma {:induction false} ApprovalsWereReviewed(es: seq<Event>, k: nat)
    requires k < |Run(NEW_ASSET, es).log| && Run(NEW_ASSET, es).log[k].to.Approved?
    ensures
      var log := Run(NEW_ASSET, es).log;
      && k >= 2 && log[k - 1].action.StartReview? && log[k - 2].action.Submit? && Editing(log[k - 2].from)
  {
    RunKeeps(NEW_ASSET, es);
    var log := Run(NEW_ASSET, es).log;
    assert log[k].action.Approve? && log[k].from.UnderReview?;
    assert log[k - 1].to.UnderReview?;
    assert log[k - 2].to.PendingReview?;
  }

  // ---- where the actions lead ----

  /** An asset is archived only directly behind its approval. */
  lemma {:induction false} ArchivedWasApproved(es: seq<Event>, k: nat)
    requires k < |Run(NEW_ASSET, es).log| && Run(NEW_ASSET, es).log[k].to.Archived?
    ensures
      var log := Run(NEW_ASSET, es).log;
      && log[k].action.Archive? && log[k].from.Approved?
      && k >= 1 && log[k - 1].action.Approve? && log[k - 1].from.UnderReview? && log[k - 1].to.Approved?
  {
    RunKeeps(NEW_ASSET, es);
    var log := Run(NEW_ASSET, es).log;
    assert log[k].from.Approved?;
    assert log[k - 1].to.Approved?;
  }

  /** A review that is carried through passes exactly these states. */
  lemma {:induction false} ReviewPath(a: Asset)
    requires Can(a, Submit)
    ensures
      var b := Apply(a, Act(Submit));
      var c := Apply(b, Act(StartReview));
      var d := Apply(c, Act(Approve));
      var e := Apply(d, Act(Archive));
      && b.status == PendingReview && c.status == UnderReview && d.status == Approved && e.status == Archived
      && e.versions == a.versions
      && e.log == a.log + [
           Transition(a.status, PendingReview, Submit), Transition(PendingReview, UnderReview, StartReview),
           Transition(UnderReview, Approved, Approve), Transition(Approved, Archived, Archive)]
  {
  }

  /** The states in which an action is carried out at all, on a reachable asset. */
  lemma {:induction false} ActionsNeed(es: seq<Event>, action: Action)
    ensures
      var a := Run(NEW_ASSET, es);
      Apply(a, Act(action)) != a ==>
        match action
        case Submit =>
          && (a.status.NotSubmitted? || a.status.RevisionRequired?) && a.versions != []
          && (forall i :: 0 <= i < |a.versions| ==> a.versions[i].status.Finalized?)
          && a.versions[|a.versions| - 1].scan.Clean?
        case StartReview => a.status.PendingReview?
        case Approve => a.status.UnderReview?
        case Reject => a.status.UnderReview?
        case AcknowledgeRejection => a.status.RevisionRequired?
        case Archive => a.status.Approved?
  {
    RunKeeps(NEW_ASSET, es);
    var a := Run(NEW_ASSET, es);
    if a.versions != [] {
      LatestIsLast(a);
    }
  }

  /** A rejection leaves the asset to its author; acknowledging it makes the asset as if it had not been submitted. */
  lemma {:induction false} RejectedIsEditable(es: seq<Event>)
    requires Run(NEW_ASSET, es).status.UnderReview?
    ensures
      var a := Run(NEW_ASSET, es);
      var b := Apply(a, Act(Reject));
      && b.status == RevisionRequired && b.versions == a.versions && CanCreateVersion(b)
      && Apply(b, Act(AcknowledgeRejection)).status == NotSubmitted
  {
    RunKeeps(NEW_ASSET, es);
    LatestIsLast(Run(NEW_ASSET, es));
  }

  /** What an author does with a new file after a rejection, down to the submission. */
  function Revision(a: Asset, file: nat): seq<Event> {
    [CreateVersion(file), StartScan(a.nextId), ScanResult(|a.scans|, Clean), Publish(a.nextId), Act(Submit)]
  }

  /** The version that an author adds, once it is scanned clean and finalized. */
  lemma {:induction false} VersionAdded(a: Asset, file: nat)
    requires VersionsOk(a) && CanCreateVersion(a)
    ensures
      var b := Apply(a, CreateVersion(file));
      var c := Apply(b, StartScan(a.nextId));
      var d := Apply(c, ScanResult(|a.scans|, Clean));
      var e := Apply(d, Publish(a.nextId));
      && e.status == a.status
      && e.versions == a.versions
           + [Version(a.nextId, |a.versions| + 1, file, Finalized, Clean, Some(|a.scans|))]
  {
    var n := |a.versions|;
    if n > 0 {
      LatestIsLast(a);
    }
    var b := Apply(a, CreateVersion(file));
    assert b.versions == a.versions + [Version(a.nextId, n + 1, file, Draft, Pending, None)];
    FindIs(b.versions, n);
    var c := Apply(b, StartScan(a.nextId));
    assert c.versions == a.versions + [Version(a.nextId, n + 1, file, Draft, Scanning, None)];
    FindIs(c.versions, n);
    var d := Apply(c, ScanResult(|a.scans|, Clean));
    assert d.versions == a.versions + [Version(a.nextId, n + 1, file, Draft, Clean, Some(|a.scans|))];
    FindIs(d.versions, n);
  }

  /** An asset with such a version can be submitted. */
  lemma {:induction false} AddedIsSubmitted(a: Asset, v: Version, e: Asset)
    requires VersionsOk(a) && CanCreateVersion(a) && v.number == |a.versions| + 1
    requires v.status.Finalized? && v.scan.Clean? && e.status == a.status && e.versions == a.versions + [v]
    ensures Can(e, Submit)
  {
    NoDraftIn(a.versions, v);
    LatestOfAdded(e.versions);
  }

  lemma {:induction false} RevisionIsSubmitted(a: Asset, file: nat)
    requires VersionsOk(a) && CanCreateVersion(a)
    ensures
      var c := Run(a, Revision(a, file));
      && c.status == PendingReview
      && c.versions == a.versions + [Version(a.nextId, |a.versions| + 1, file, Finalized, Clean, Some(|a.scans|))]
  {
    VersionAdded(a, file);
    RunFive(a, Revision(a, file));
    var b := Apply(Apply(a, CreateVersion(file)), StartScan(a.nextId));
    var e := Apply(Apply(b, ScanResult(|a.scans|, Clean)), Publish(a.nextId));
    AddedIsSubmitted(a, Version(a.nextId, |a.versions| + 1, file, Finalized, Clean, Some(|a.scans|)), e);
  }

  /** A rejected asset can be submitted again, with a new version that is finalized and clean. */
  lemma {:induction false} RejectedCanReturn(es: seq<Event>, file: nat)
    requires Run(NEW_ASSET, es).status.UnderReview?
    ensures
      var a := Run(NEW_ASSET, es);
      var b := Apply(a, Act(Reject));
      var c := Run(b, Revision(b, file));
      && c.status == PendingReview
      && c.versions == a.versions + [Version(a.nextId, |a.versions| + 1, file, Finalized, Clean, Some(|a.scans|))]
  {
    RejectedIsEditable(es);
    RunKeeps(NEW_ASSET, es);
    EventKeepsVersions(Run(NEW_ASSET, es), Act(Reject));
    RevisionIsSubmitted(Apply(Run(NEW_ASSET, es), Act(Reject)), file);
  }

  lemma {:induction false} NoDraftIn(vs: seq<Version>, v: Version)
    requires !HasDraft(vs) && !v.status.Draft?
    ensures !HasDraft(vs + [v])
  {
  }

  lemma {:induction false} LatestOfAdded(vs: seq<Version>)
    requires vs != [] && forall i :: 0 <= i < |vs| ==> vs[i].number == i + 1
    ensures Latest(vs) == |vs| - 1
  {
    assert vs[|vs| - 1].number <= vs[Latest(vs)].number;
  }

  lemma {:induction false} RunFive(a: Asset, es: seq<Event>)
    requires |es| == 5
    ensures Run(a, es) == Apply(Apply(Apply(Apply(Apply(a, es[0]), es[1]), es[2]), es[3]), es[4])
  {
    var a1 := Apply(a, es[0]);
    var a2 := Apply(a1, es[1]);
    var a3 := Apply(a2, es[2]);
    var a4 := Apply(a3, es[3]);
    assert Run(a4, es[4..]) == Apply(a4, es[4]);
    assert es[3..][1..] == es[4..] && Run(a3, es[3..]) == Run(a4, es[4..]);
    assert es[2..][1..] == es[3..] && Run(a2, es[2..]) == Run(a3, es[3..]);
    assert es[1..][1..] == es[2..] && Run(a1, es[1..]) == Run(a2, es[2..]);
  }

  // ---- what is reviewed is what is approved ----

  function Unmarked(v: Version): Version {
    v.(scan := Pending, answeredBy := None)
  }

  /** The same versions with the same contents, whatever their marks. */
  predicate SameContents(vs: seq<Version>, ws: seq<Version>) {
    |vs| == |ws| && forall i :: 0 <= i < |vs| ==> Unmarked(vs[i]) == Unmarked(ws[i])
  }

  /** Scan t has not answered yet, and its version is still there. */
  predicate Open(a: Asset, t: nat) {
    t < |a.scans| && a.scans[t].answer.None? && Find(a.versions, a.scans[t].version) < |a.versions|
  }

  /** No scan is running, and no mark calls for one. */
  ghost predicate Settled(a: Asset) {
    && (forall t: nat :: !Open(a, t))
    && (forall i :: 0 <= i < |a.versions| ==> a.versions[i].scan.Clean? || a.versions[i].scan.Infected?)
  }

  /** No event touches the contents of an asset in review, nor its status and log once it is archived. */
  lemma {:induction false} ReviewFreezes(a: Asset, e: Event)
    requires Inv(a) && InReview(a.status)
    ensures SameContents(Apply(a, e).versions, a.versions)
    ensures a.status.Archived? ==> Apply(a, e).status == a.status && Apply(a, e).log == a.log
  {
    assert !HasDraft(a.versions);
  }

  lemma {:induction false} SettledFreezes(a: Asset, e: Event)
    requires Inv(a) && InReview(a.status) && Settled(a)
    ensures Apply(a, e).versions == a.versions && Settled(Apply(a, e))
    ensures a.status.Archived? ==> Apply(a, e) == a
  {
    assert !HasDraft(a.versions);
    if e.ScanResult? {
      assert !Open(a, e.task);
    }
    assert forall t: nat :: Open(Apply(a, e), t) ==> Open(a, t);
  }

  /** The marks in a review stay as they are, whatever happens, if and only if no scan is running or called for. */
  lemma {:induction false} FrozenExactlyWhenSettled(a: Asset)
    requires Inv(a) && InReview(a.status)
    ensures (forall e :: Apply(a, e).versions == a.versions) <==> Settled(a)
  {
    if Settled(a) {
      forall e
        ensures Apply(a, e).versions == a.versions
      {
        SettledFreezes(a, e);
      }
    } else {
      var e := UnsettledMoves(a);
    }
  }

  lemma {:induction false} UnsettledMoves(a: Asset) returns (e: Event)
    requires VersionsOk(a) && !Settled(a)
    ensures Apply(a, e).versions != a.versions
  {
    if t: nat :| Open(a, t) {
      var k := Find(a.versions, a.scans[t].version);
      e := ScanResult(t, if a.versions[k].scan.Clean? then Infected else Clean);
      assert Apply(a, e).versions[k].scan != a.versions[k].scan;
    } else {
      var k :| 0 <= k < |a.versions| && !a.versions[k].scan.Clean? && !a.versions[k].scan.Infected?;
      var v := a.versions[k];
      FindIs(a.versions, k);
      e := if v.scan.ScanError? then ResetFailedScan(v.id) else ScanFailed(v.id);
      assert Apply(a, e).versions[k].scan != v.scan;
    }
  }

  /** Stays in review throughout. */
  predicate StaysInReview(a: Asset, es: seq<Event>)
    decreases |es|
  {
    InReview(a.status) && (es == [] || StaysInReview(Apply(a, es[0]), es[1..]))
  }

  /**
    From submission on, as long as the asset is not sent back, its versions
    have the contents that were submitted, and the marks as well if nothing was
    being scanned.
   */
  lemma {:induction false} ApprovedIsSubmitted(before: seq<Event>, es: seq<Event>)
    requires
      var a := Run(NEW_ASSET, before);
      Can(a, Submit) && StaysInReview(Apply(a, Act(Submit)), es)
    ensures
      var a := Run(NEW_ASSET, before);
      var b := Run(Apply(a, Act(Submit)), es);
      SameContents(b.versions, a.versions) && (Settled(a) ==> b.versions == a.versions)
  {
    var a := Run(NEW_ASSET, before);
    RunKeeps(NEW_ASSET, before);
    EventKeepsVersions(a, Act(Submit));
    EventKeepsLog(a, Act(Submit));
    assert forall t: nat :: Open(Apply(a, Act(Submit)), t) <==> Open(a, t);
    FrozenRun(Apply(a, Act(Submit)), es);
  }

  lemma {:induction false} FrozenRun(a: Asset, es: seq<Event>)
    requires Inv(a) && StaysInReview(a, es)
    ensures SameContents(Run(a, es).versions, a.versions)
    ensures Settled(a) ==> Run(a, es).versions == a.versions
    decreases |es|
  {
    if es != [] {
      ReviewFreezes(a, es[0]);
      EventKeepsVersions(a, es[0]);
      EventKeepsLog(a, es[0]);
      if Settled(a) {
        SettledFreezes(a, es[0]);
      }
      FrozenRun(Apply(a, es[0]), es[1..]);
    }
  }

  /** An archived asset keeps its status, log and contents, and if nothing was being scanned all it has. */
  lemma {:induction false} ArchivedIsFinal(a: Asset, es: seq<Event>)
    requires Inv(a) && a.status.Archived?
    ensures Run(a, es).status == a.status && Run(a, es).log == a.log && SameContents(Run(a, es).versions, a.versions)
    ensures Settled(a) ==> Run(a, es) == a
    decreases |es|
  {
    if es != [] {
      ReviewFreezes(a, es[0]);
      EventKeepsVersions(a, es[0]);
      EventKeepsLog(a, es[0]);
      if Settled(a) {
        SettledFreezes(a, es[0]);
      }
      ArchivedIsFinal(Apply(a, es[0]), es[1..]);
    }
  }

  // ---- bulk review ----

  /** The actions an asset is asked for in a bulk request, as events: an acknowledgement is not among them. */
  function EventsFor(id: nat, items: seq<ReviewItem>): seq<Event> {
    if items == [] then []
    else
      var n := |items| - 1;
      var asked := items[n].asset == id && items[n].action.Some?
        && items[n].action.value in {Submit, StartReview, Approve, Reject, Archive};
      EventsFor(id, items[..n]) + if asked then [Act(items[n].action.value)] else []
  }

  lemma {:induction false} RunAppend(a: Asset, es: seq<Event>, e: Event)
    ensures Run(a, es + [e]) == Apply(Run(a, es), e)
    decreases |es|
  {
    if es == [] {
      assert [] + [e] == [e];
    } else {
      assert (es + [e])[1..] == es[1..] + [e];
      RunAppend(Apply(a, es[0]), es[1..], e);
    }
  }

  /** A bulk review does to each asset exactly what its own actions, one after another, would do. */
  lemma {:induction false} BulkIsSingleActions(assets: map<nat, Asset>, items: seq<ReviewItem>, id: nat)
    requires id in assets
    ensures Bulk(assets, items).0.Keys == assets.Keys
    ensures Bulk(assets, items).0[id] == Run(assets[id], EventsFor(id, items))
  {
    if items != [] {
      var n := |items| - 1;
      BulkIsSingleActions(assets, items[..n], id);
      BulkKeys(assets, items[..n]);
      assert EventsFor(id, items[..n]) + [] == EventsFor(id, items[..n]);
      if items[n].action.Some? {
        RunAppend(assets[id], EventsFor(id, items[..n]), Act(items[n].action.value));
      }
    }
  }

  lemma {:induction false} BulkKeys(assets: map<nat, Asset>, items: seq<ReviewItem>)
    ensures Bulk(assets, items).0.Keys == assets.Keys
  {
    if items != [] {
      BulkKeys(assets, items[..|items| - 1]);
    }
  }

  // ---- the clean-up ----

  /** One reset for each of the first n versions that is due. */
  function Resets(versions: seq<Version>, found: set<nat>, n: nat): seq<Event>
    requires n <= |versions|
  {
    if n == 0 then []
    else
      Resets(versions, found, n - 1)
      + if Due(versions[n - 1], found) then [ResetFailedScan(versions[n - 1].id)] else []
  }

  ghost predicate DistinctIds(versions: seq<Version>) {
    forall i, j :: 0 <= i < j < |versions| ==> versions[i].id != versions[j].id
  }

  lemma {:induction false} NotDueStays(a: Asset, found: set<nat>, n: nat)
    requires 0 < n <= |a.versions| && !Due(a.versions[n - 1], found)
    ensures CleanedUpTo(a, found, n) == CleanedUpTo(a, found, n - 1)
    ensures Resets(a.versions, found, n) == Resets(a.versions, found, n - 1)
  {
    assert CleanedUpTo(a, found, n).versions == CleanedUpTo(a, found, n - 1).versions;
  }

  lemma {:induction false} DueIsReset(a: Asset, found: set<nat>, n: nat)
    requires 0 < n <= |a.versions| && Due(a.versions[n - 1], found)
    ensures Resets(a.versions, found, n)
         == Resets(a.versions, found, n - 1) + [ResetFailedScan(a.versions[n - 1].id)]
  {
  }

  /** The clean-up is a history of its own: a reset of each version that is due. */
  lemma {:induction false} CleanupIsResets(a: Asset, found: set<nat>, n: nat)
    requires DistinctIds(a.versions) && n <= |a.versions|
    ensures CleanedUpTo(a, found, n) == Run(a, Resets(a.versions, found, n))
  {
    if n == 0 {
      assert CleanedUpTo(a, found, 0).versions == a.versions;
    } else {
      CleanupIsResets(a, found, n - 1);
      if Due(a.versions[n - 1], found) {
        DueIsReset(a, found, n);
        RunAppend(a, Resets(a.versions, found, n - 1), ResetFailedScan(a.versions[n - 1].id));
        ResetNext(a, found, n);
      } else {
        NotDueStays(a, found, n);
      }
    }
  }

  /** So it leaves what every history leaves. */
  lemma {:induction false} CleanupKeeps(a: Asset, found: set<nat>)
    requires Inv(a)
    ensures Inv(CleanedUpTo(a, found, |a.versions|))
  {
    CleanupIsResets(a, found, |a.versions|);
    RunKeeps(a, Resets(a.versions, found, |a.versions|));
  }

  lemma {:induction false} ResetNext(a: Asset, found: set<nat>, n: nat)
    requires 0 < n <= |a.versions| && DistinctIds(a.versions)
    requires Due(a.versions[n - 1], found)
    ensures Apply(CleanedUpTo(a, found, n - 1), ResetFailedScan(a.versions[n - 1].id)) == CleanedUpTo(a, found, n)
  {
    var before, after := CleanedUpTo(a, found, n - 1), CleanedUpTo(a, found, n);
    assert before.versions[n - 1] == a.versions[n - 1];
    FindIs(before.versions, n - 1);
    assert after.versions == Apply(before, ResetFailedScan(a.versions[n - 1].id)).versions;
  }

  lemma {:induction false} FindIs(versions: seq<Version>, k: nat)
    requires k < |versions| && DistinctIds(versions)
    ensures Find(versions, versions[k].id) == k
  {
  }
}

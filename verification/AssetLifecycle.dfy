/**
  The review workflow of an asset, the life of its versions and of their virus
  scans, and the audit log (backend/asset/models.py, tasks.py, views.py).
 */
module AssetLifecycle {
  import opened Common

  datatype Status = NotSubmitted | PendingReview | UnderReview | Approved | RevisionRequired | Archived
  datatype VersionStatus = Draft | Finalized
  datatype Scan = Pending | Scanning | Clean | Infected | ScanError

  /** `file` stands for the content, and so for its checksum; `answeredBy` is the scan whose verdict `scan` states. */
  datatype Version = Version(
    id: nat,
    number: nat,
    file: nat,
    status: VersionStatus,
    scan: Scan,
    answeredBy: Option<nat>)

  /** A scan that was started: the content it reads, and its answer once that is recorded. */
  datatype ScanTask = ScanTask(version: nat, content: nat, answer: Option<Scan>)

  datatype Action = Submit | StartReview | Approve | Reject | AcknowledgeRejection | Archive
  datatype Transition = Transition(from: Status, to: Status, action: Action)

  datatype Asset = Asset(
    status: Status,
    versions: seq<Version>,
    log: seq<Transition>,
    nextId: nat,
    scans: seq<ScanTask>)

  const NEW_ASSET: Asset := Asset(NotSubmitted, [], [], 1, [])

  // ---- guards ----

  predicate HasDraft(versions: seq<Version>) {
    exists i :: 0 <= i < |versions| && versions[i].status.Draft?
  }

  /** Index of the version with the highest number, or |versions|. */
  function Latest(versions: seq<Version>): (k: nat)
    ensures k <= |versions|
    ensures versions != [] ==>
      k < |versions| && forall i :: 0 <= i < |versions| ==> versions[i].number <= versions[k].number
  {
    if versions == [] then 0
    else
      var n := |versions| - 1;
      var k := Latest(versions[..n]);
      assert forall i :: 0 <= i < n ==> versions[..n][i] == versions[i];
      if k < n && versions[k].number > versions[n].number then k else n
  }

  predicate LatestIsFinalized(versions: seq<Version>) {
    versions != [] && versions[Latest(versions)].status.Finalized?
  }

  predicate Editing(status: Status) {
    status.NotSubmitted? || status.RevisionRequired?
  }

  predicate Can(a: Asset, action: Action) {
    match action
    case Submit =>
      && Editing(a.status) && !HasDraft(a.versions) && LatestIsFinalized(a.versions)
      && a.versions[Latest(a.versions)].scan.Clean?
    case StartReview => a.status.PendingReview? && a.versions != []
    case Approve => a.status.UnderReview? && a.versions != []
    case Reject => a.status.UnderReview? && a.versions != []
    case AcknowledgeRejection => a.status.RevisionRequired? && a.versions != []
    case Archive => a.status.Approved? && a.versions != []
  }

  function Target(action: Action): Status {
    match action
    case Submit => PendingReview
    case StartReview => UnderReview
    case Approve => Approved
    case Reject => RevisionRequired
    case AcknowledgeRejection => NotSubmitted
    case Archive => Archived
  }

  /** The source states that the state machine itself allows. */
  predicate Source(action: Action, status: Status) {
    match action
    case Submit => Editing(status)
    case StartReview => status.PendingReview?
    case Approve => status.UnderReview?
    case Reject => status.UnderReview?
    case AcknowledgeRejection => status.RevisionRequired?
    case Archive => status.Approved?
  }

  predicate CanCreateVersion(a: Asset) {
    Editing(a.status) && !HasDraft(a.versions) && (a.versions == [] || LatestIsFinalized(a.versions))
  }

  /** Index of the version with the given id, or |versions|. */
  function Find(versions: seq<Version>, id: nat): (k: nat)
    ensures k <= |versions|
    ensures k < |versions| ==> versions[k].id == id
    ensures k == |versions| ==> forall i :: 0 <= i < |versions| ==> versions[i].id != id
  {
    if versions == [] || versions[0].id == id then 0 else 1 + Find(versions[1..], id)
  }

  // ---- events ----

  datatype Event =
    | Act(action: Action)
    | CreateVersion(file: nat)
    | UpdateFile(id: nat, file: nat)
    | DeleteVersion(id: nat)
    | Publish(id: nat)
    | StartScan(id: nat)
    | ScanResult(task: nat, verdict: Scan)   // of the scan started as number `task`
    | ScanFailed(id: nat)                    // given up without a verdict
    | ResetFailedScan(id: nat)

  function With(a: Asset, k: nat, v: Version): Asset
    requires k < |a.versions|
  {
    a.(versions := a.versions[k := v])
  }

  function Moved(a: Asset, action: Action): Asset {
    a.(status := Target(action), log := a.log + [Transition(a.status, Target(action), action)])
  }

  /** The version row can be marked: it is pending, and then starts its scan on the way, or scanning. */
  predicate Markable(v: Version) {
    v.scan.Pending? || v.scan.Scanning?
  }

  /**
    The verdict of a scan is recorded: the scan has not answered before, and its
    version is still there. A scan marks the copy of the version that it loaded
    when it started, and that copy is scanning; what has become of the stored
    version's status meanwhile is not looked at.
   */
  predicate Accepts(a: Asset, task: nat, verdict: Scan) {
    && task < |a.scans| && a.scans[task].answer.None? && !verdict.Pending? && !verdict.Scanning?
    && Find(a.versions, a.scans[task].version) < |a.versions|
  }

  function Apply(a: Asset, e: Event): Asset {
    match e
    case Act(action) => if Can(a, action) then Moved(a, action) else a
    case CreateVersion(file) =>
      if !CanCreateVersion(a) then a
      else
        var number := if a.versions == [] then 1 else a.versions[Latest(a.versions)].number + 1;
        a.(versions := a.versions + [Version(a.nextId, number, file, Draft, Pending, None)], nextId := a.nextId + 1)
    case UpdateFile(id, file) =>
      var k := Find(a.versions, id);
      if k == |a.versions| || !a.versions[k].status.Draft? || a.versions[k].file == file then a
      else With(a, k, a.versions[k].(file := file, scan := Pending, answeredBy := None))
    case DeleteVersion(id) =>
      var k := Find(a.versions, id);
      if k == |a.versions| || !a.versions[k].status.Draft? then a
      else a.(versions := a.versions[..k] + a.versions[k + 1..])
    case Publish(id) =>
      var k := Find(a.versions, id);
      if k == |a.versions| || !a.versions[k].status.Draft? || !a.versions[k].scan.Clean? then a
      else With(a, k, a.versions[k].(status := Finalized))
    case StartScan(id) =>
      var k := Find(a.versions, id);
      if k == |a.versions| || !a.versions[k].scan.Pending? then a
      else
        var task := ScanTask(id, a.versions[k].file, None);
        With(a, k, a.versions[k].(scan := Scanning)).(scans := a.scans + [task])
    case ScanResult(task, verdict) =>
      if !Accepts(a, task, verdict) then a
      else
        var k := Find(a.versions, a.scans[task].version);
        With(a, k, a.versions[k].(scan := verdict, answeredBy := Some(task)))
        .(scans := a.scans[task := a.scans[task].(answer := Some(verdict))])
    case ScanFailed(id) =>
      var k := Find(a.versions, id);
      if k == |a.versions| || !Markable(a.versions[k]) then a
      else With(a, k, a.versions[k].(scan := ScanError, answeredBy := None))
    case ResetFailedScan(id) =>
      var k := Find(a.versions, id);
      if k == |a.versions| || !a.versions[k].scan.ScanError? then a else With(a, k, Reset(a.versions[k]))
  }

  /** A failed scan made pending again. */
  function Reset(v: Version): Version {
    v.(scan := Pending, answeredBy := None)
  }

  function Run(a: Asset, es: seq<Event>): Asset
    decreases |es|
  {
    if es == [] then a else Run(Apply(a, es[0]), es[1..])
  }

  /** Version v is one the clean-up resets: it failed its scan and is in the result of the query. */
  predicate Due(v: Version, found: set<nat>) {
    v.scan.ScanError? && v.id in found
  }

  /** Those of the first n versions that are due have been reset. */
  function CleanedUpTo(a: Asset, found: set<nat>, n: nat): Asset {
    a.(versions := seq(|a.versions|, i requires 0 <= i < |a.versions| =>
         if i < n && Due(a.versions[i], found) then Reset(a.versions[i]) else a.versions[i]))
  }

  // ---- the record ----

  class AssetRecord {
    var status: Status
    var versions: seq<Version>
    var log: seq<Transition>
    var nextId: nat
    var scans: seq<ScanTask>   // held by the scan tasks, not by the row

    ghost function View(): Asset
      reads this
    {
      Asset(status, versions, log, nextId, scans)
    }

    constructor ()
      ensures View() == NEW_ASSET
    {
      status, versions, log, nextId, scans := NotSubmitted, [], [], 1, [];
    }

    /** A transition of the state machine: refused outside its source states, logged otherwise. */
    method Transit(action: Action) returns (ok: bool)
      modifies this
      ensures ok == Source(action, old(status))
      ensures View() == if ok then Moved(old(View()), action) else old(View())
    {
      if !Source(action, status) {
        return false;
      }
      var from := status;
      log := log + [Transition(from, Target(action), action)];
      status := Target(action);
      return true;
    }

    /** A review action as the views perform it: the guard, then the transition, which cannot fail any more. */
    method Review(action: Action) returns (ok: bool)
      modifies this
      ensures ok == Can(old(View()), action)
      ensures View() == Apply(old(View()), Act(action))
    {
      var allowed := match action
        case Submit =>
          && Editing(status) && !HasDraft(versions) && LatestIsFinalized(versions)
          && versions[Latest(versions)].scan.Clean?
        case StartReview => status.PendingReview? && versions != []
        case Approve => status.UnderReview? && versions != []
        case Reject => status.UnderReview? && versions != []
        case AcknowledgeRejection => status.RevisionRequired? && versions != []
        case Archive => status.Approved? && versions != [];
      if !allowed {
        return false;
      }
      ok := Transit(action);
    }

    method AddVersion(file: nat) returns (ok: bool)
      modifies this
      ensures ok == CanCreateVersion(old(View()))
      ensures View() == Apply(old(View()), CreateVersion(file))
    {
      var number := 1;
      if versions != [] {
        number := versions[Latest(versions)].number + 1;
      }
      if !(Editing(status) && !HasDraft(versions) && (versions == [] || LatestIsFinalized(versions))) {
        return false;
      }
      versions := versions + [Version(nextId, number, file, Draft, Pending, None)];
      nextId := nextId + 1;
      return true;
    }

    method UpdateWithFile(id: nat, file: nat) returns (ok: bool)
      modifies this
      ensures View() == Apply(old(View()), UpdateFile(id, file))
      ensures ok <==> View() != old(View())
    {
      var k := Find(versions, id);
      if k == |versions| || versions[k].status != Draft || versions[k].file == file {
        return false;
      }
      versions := versions[k := versions[k].(file := file, scan := Pending, answeredBy := None)];
      assert versions[k].file != old(versions)[k].file;
      return true;
    }

    method Delete(id: nat) returns (ok: bool)
      modifies this
      ensures View() == Apply(old(View()), DeleteVersion(id))
      ensures ok <==> View() != old(View())
    {
      var k := Find(versions, id);
      if k == |versions| || versions[k].status != Draft {
        return false;
      }
      versions := versions[..k] + versions[k + 1..];
      assert |versions| < |old(versions)|;
      return true;
    }

    method PublishVersion(id: nat) returns (ok: bool)
      modifies this
      ensures View() == Apply(old(View()), Publish(id))
      ensures ok <==> View() != old(View())
    {
      var k := Find(versions, id);
      if k == |versions| || !(versions[k].status.Draft? && versions[k].scan.Clean?) {
        return false;
      }
      versions := versions[k := versions[k].(status := Finalized)];
      assert versions[k].status != old(versions)[k].status;
      return true;
    }

    /** Start a scan of the version's present content; the scan gets the next number. */
    method BeginScan(id: nat) returns (task: Option<nat>)
      modifies this
      ensures View() == Apply(old(View()), StartScan(id))
      ensures task == if View() != old(View()) then Some(|old(scans)|) else None
    {
      var k := Find(versions, id);
      if k == |versions| || versions[k].scan != Pending {
        return None;
      }
      versions := versions[k := versions[k].(scan := Scanning)];
      scans := scans + [ScanTask(id, versions[k].file, None)];
      assert versions[k].scan != old(versions)[k].scan;
      return Some(|scans| - 1);
    }

    /** `update_scan_status` at the end of a scan: checked on the copy the scan holds, the mark goes on the row. */
    method UpdateScanStatus(task: nat, verdict: Scan)
      requires verdict.Clean? || verdict.Infected? || verdict.ScanError?
      modifies this
      ensures View() == Apply(old(View()), ScanResult(task, verdict))
    {
      // Until it has answered, the copy that the scan holds is scanning.
      if task >= |scans| || scans[task].answer.Some? {
        return;
      }
      var k := Find(versions, scans[task].version);
      if k < |versions| {
        versions := versions[k := versions[k].(scan := verdict, answeredBy := Some(task))];
        scans := scans[task := scans[task].(answer := Some(verdict))];
      }
    }

    /** `update_scan_status` with an error and no scan behind it: the row is loaded afresh. */
    method MarkFailed(id: nat)
      modifies this
      ensures View() == Apply(old(View()), ScanFailed(id))
    {
      var k := Find(versions, id);
      if k < |versions| && Markable(versions[k]) {
        versions := versions[k := versions[k].(scan := ScanError, answeredBy := None)];
      }
    }

    method ResetScan(id: nat)
      modifies this
      ensures View() == Apply(old(View()), ResetFailedScan(id))
    {
      var k := Find(versions, id);
      if k < |versions| && versions[k].scan.ScanError? {
        versions := versions[k := Reset(versions[k])];
      }
    }

    /** Whatever another request or task does. */
    method Perform(e: Event)
      modifies this
      ensures View() == Apply(old(View()), e)
    {
      match e {
        case Act(action) => var _ := Review(action);
        case CreateVersion(file) => var _ := AddVersion(file);
        case UpdateFile(id, file) => var _ := UpdateWithFile(id, file);
        case DeleteVersion(id) => var _ := Delete(id);
        case Publish(id) => var _ := PublishVersion(id);
        case StartScan(id) => var _ := BeginScan(id);
        case ScanResult(task, verdict) =>
          if !verdict.Pending? && !verdict.Scanning? {
            UpdateScanStatus(task, verdict);
          }
        case ScanFailed(id) => MarkFailed(id);
        case ResetFailedScan(id) => ResetScan(id);
      }
    }

    /**
      `scan_version`: nothing happens to a version whose scan cannot start. The
      scan itself runs between two transactions, and meanwhile anything else may
      happen to the asset (`during`).
     */
    method ScanVersion(id: nat, during: seq<Event>, verdict: Scan)
      requires verdict.Clean? || verdict.Infected? || verdict.ScanError?
      modifies this
      ensures View() ==
        var started := Apply(old(View()), StartScan(id));
        if started == old(View()) then started
        else Apply(Run(started, during), ScanResult(|old(scans)|, verdict))
    {
      var task := BeginScan(id);
      if task.None? {
        return;
      }
      ghost var started := View();
      for i := 0 to |during|
        invariant Run(View(), during[i..]) == Run(started, during)
      {
        assert during[i..][0] == during[i] && during[i..][1..] == during[i + 1..];
        Perform(during[i]);
      }
      UpdateScanStatus(task.value, verdict);
    }

    /** The clean-up resets the failed scans among the ids its query returned. */
    method CleanupFailedScans(found: set<nat>)
      modifies this
      ensures View() == CleanedUpTo(old(View()), found, |old(versions)|)
    {
      ghost var before := View();
      assert versions == CleanedUpTo(before, found, 0).versions;
      for i := 0 to |versions|
        invariant |versions| == |before.versions| && View() == CleanedUpTo(before, found, i)
      {
        if Due(versions[i], found) {
          versions := versions[i := Reset(versions[i])];
        }
        assert versions == CleanedUpTo(before, found, i + 1).versions;
      }
    }
  }

  // ---- bulk review of many assets ----

  /** One entry of a bulk request; None stands for an unknown action. */
  datatype ReviewItem = ReviewItem(asset: nat, action: Option<Action>)
  datatype ReviewResult = ReviewResult(asset: nat, newStatus: Option<Status>)   // no new status: failed

  /** The actions a bulk request can ask for. */
  predicate Offered(action: Action) {
    !action.AcknowledgeRejection?
  }

  predicate Grants(assets: map<nat, Asset>, item: ReviewItem) {
    && item.asset in assets && item.action.Some? && Offered(item.action.value)
    && Can(assets[item.asset], item.action.value)
  }

  function Bulk(assets: map<nat, Asset>, items: seq<ReviewItem>): (map<nat, Asset>, seq<ReviewResult>) {
    if items == [] then (assets, [])
    else
      var n := |items| - 1;
      var (before, results) := Bulk(assets, items[..n]);
      var item := items[n];
      if Grants(before, item) then
        var after := Moved(before[item.asset], item.action.value);
        (before[item.asset := after], results + [ReviewResult(item.asset, Some(after.status))])
      else (before, results + [ReviewResult(item.asset, None)])
  }

  function Successes(results: seq<ReviewResult>): nat {
    if results == [] then 0
    else Successes(results[..|results| - 1]) + if results[|results| - 1].newStatus.Some? then 1 else 0
  }

  class ReviewDesk {
    var assets: map<nat, Asset>

    /** Each entry is carried out or fails by itself; the summary adds up. */
    method BulkReview(items: seq<ReviewItem>) returns (results: seq<ReviewResult>, successful: nat, failed: nat)
      modifies this
      ensures (assets, results) == Bulk(old(assets), items)
      ensures |results| == |items| && successful == Successes(results) && successful + failed == |items|
    {
      results, successful := [], 0;
      for i := 0 to |items|
        invariant (assets, results) == Bulk(old(assets), items[..i])
        invariant |results| == i && successful == Successes(results) <= i
      {
        assert items[..i + 1][..i] == items[..i];
        var item := items[i];
        var result := ReviewResult(item.asset, None);
        if item.asset in assets && item.action.Some? && Offered(item.action.value) {
          if Can(assets[item.asset], item.action.value) {
            var after := Moved(assets[item.asset], item.action.value);
            assets := assets[item.asset := after];
            result := ReviewResult(item.asset, Some(after.status));
            successful := successful + 1;
          }
        }
        assert (results + [result])[..|results|] == results;
        results := results + [result];
      }
      assert items[..|items|] == items;
      failed := |items| - successful;
    }
  }
}

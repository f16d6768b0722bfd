/**
  What the marks of an asset's versions say about their contents, when scans
  run while other requests change the versions (backend/asset/tasks.py).
 */
module ScanHistories {
  import opened Common
  import opened AssetLifecycle
  import opened AssetHistories

  // ---- what a clean mark says ----

  /** The version's mark is the answer of a scan that read the content the version has now. */
  predicate Vouched(a: Asset, v: Version) {
    && v.answeredBy.Some? && v.answeredBy.value < |a.scans|
    && a.scans[v.answeredBy.value] == ScanTask(v.id, v.file, Some(Clean))
  }

  /** Every clean version was found clean by a scan of its present content. */
  predicate CleanIsScanned(a: Asset) {
    forall k :: 0 <= k < |a.versions| && a.versions[k].scan.Clean? ==> Vouched(a, a.versions[k])
  }

  /** A clean verdict is about to be recorded on content that the scan has not read. */
  predicate Stale(a: Asset, e: Event) {
    && e.ScanResult? && e.verdict.Clean? && Accepts(a, e.task, e.verdict)
    && a.versions[Find(a.versions, a.scans[e.task].version)].file != a.scans[e.task].content
  }

  /** Version v has the content and the mark that version w has. */
  predicate SameMark(v: Version, w: Version) {
    v.id == w.id && v.file == w.file && v.scan == w.scan && v.answeredBy == w.answeredBy
  }

  /** Event e records a clean verdict on version v. */
  predicate Marks(a: Asset, e: Event, v: Version) {
    && e.ScanResult? && e.verdict.Clean? && Accepts(a, e.task, e.verdict)
    && v == a.versions[Find(a.versions, a.scans[e.task].version)].(scan := Clean, answeredBy := Some(e.task))
  }

  /** A clean version was clean before the event, with the same content, or the event has just marked it. */
  lemma {:induction false} CleanBefore(a: Asset, e: Event, k: nat)
    requires k < |Apply(a, e).versions| && Apply(a, e).versions[k].scan.Clean?
    ensures
      var v := Apply(a, e).versions[k];
      Marks(a, e, v) || exists m :: 0 <= m < |a.versions| && SameMark(a.versions[m], v)
  {
    var b := Apply(a, e);
    if e.DeleteVersion? && b.versions != a.versions {
      var d := Find(a.versions, e.id);
      assert b.versions[k] == a.versions[if k < d then k else k + 1];
    } else if k < |a.versions| {
      assert SameMark(a.versions[k], b.versions[k]) || Marks(a, e, b.versions[k]);
    }
  }

  /** Scans are only added, and their answers, once recorded, stay. */
  lemma {:induction false} ScansGrow(a: Asset, e: Event, t: nat)
    requires t < |a.scans|
    ensures
      var b := Apply(a, e);
      && t < |b.scans| && b.scans[t].version == a.scans[t].version && b.scans[t].content == a.scans[t].content
      && (a.scans[t].answer.Some? ==> b.scans[t] == a.scans[t])
  {
  }

  lemma {:induction false} StepVouches(a: Asset, e: Event)
    requires CleanIsScanned(a) && !Stale(a, e)
    ensures CleanIsScanned(Apply(a, e))
  {
    var b := Apply(a, e);
    forall k | 0 <= k < |b.versions| && b.versions[k].scan.Clean?
      ensures Vouched(b, b.versions[k])
    {
      CleanBefore(a, e, k);
      if !Marks(a, e, b.versions[k]) {
        var m :| 0 <= m < |a.versions| && SameMark(a.versions[m], b.versions[k]);
        assert Vouched(a, a.versions[m]);
        ScansGrow(a, e, a.versions[m].answeredBy.value);
      }
    }
  }

  lemma {:induction false} StaleMarksUnread(a: Asset, e: Event)
    requires Stale(a, e)
    ensures !CleanIsScanned(Apply(a, e))
  {
    var k := Find(a.versions, a.scans[e.task].version);
    assert !Vouched(Apply(a, e), Apply(a, e).versions[k]);
  }

  lemma {:induction false} RunPrefix(es: seq<Event>, n: nat)
    requires n < |es|
    ensures Run(NEW_ASSET, es[..n + 1]) == Apply(Run(NEW_ASSET, es[..n]), es[n])
  {
    assert es[..n + 1] == es[..n] + [es[n]];
    RunAppend(NEW_ASSET, es[..n], es[n]);
  }

  /** No clean verdict is recorded, anywhere in the history, on content that the scan has not read. */
  ghost predicate NeverStale(es: seq<Event>) {
    forall n :: 0 <= n < |es| ==> !Stale(Run(NEW_ASSET, es[..n]), es[n])
  }

  lemma {:induction false} NeverStaleVouches(es: seq<Event>, n: nat)
    requires NeverStale(es) && n <= |es|
    ensures CleanIsScanned(Run(NEW_ASSET, es[..n]))
  {
    if n > 0 {
      NeverStaleVouches(es, n - 1);
      RunPrefix(es, n - 1);
      StepVouches(Run(NEW_ASSET, es[..n - 1]), es[n - 1]);
    }
  }

  /**
    Throughout a history a clean mark means that a scan of the version's present
    content answered clean, exactly when no clean verdict of the history is
    recorded on content other than the scan has read.
   */
  lemma {:induction false} CleanIsScannedExactlyWhen(es: seq<Event>)
    ensures (forall n :: 0 <= n <= |es| ==> CleanIsScanned(Run(NEW_ASSET, es[..n]))) <==> NeverStale(es)
  {
    if NeverStale(es) {
      forall n | 0 <= n <= |es|
        ensures CleanIsScanned(Run(NEW_ASSET, es[..n]))
      {
        NeverStaleVouches(es, n);
      }
    } else {
      var n :| 0 <= n < |es| && Stale(Run(NEW_ASSET, es[..n]), es[n]);
      StaleMarksUnread(Run(NEW_ASSET, es[..n]), es[n]);
      RunPrefix(es, n);
      assert !CleanIsScanned(Run(NEW_ASSET, es[..n + 1]));
    }
  }

  /** The code meets no such guard: content uploaded during a scan is finalized although nothing has scanned it. */
  lemma {:induction false} UploadDuringScan()
    ensures
      var es := [CreateVersion(1), StartScan(1), UpdateFile(1, 2), ScanResult(0, Clean), Publish(1)];
      var a := Run(NEW_ASSET, es);
      && a.versions == [Version(1, 1, 2, Finalized, Clean, Some(0))]
      && a.scans == [ScanTask(1, 1, Some(Clean))]
      && !CleanIsScanned(a)
  {
    var e1, e2, e3, e4, e5 := CreateVersion(1), StartScan(1), UpdateFile(1, 2), ScanResult(0, Clean), Publish(1);
    var a1 := Apply(NEW_ASSET, e1);
    assert a1.versions == [Version(1, 1, 1, Draft, Pending, None)];
    var a2 := Apply(a1, e2);
    assert a2.versions == [Version(1, 1, 1, Draft, Scanning, None)];
    var a3 := Apply(a2, e3);
    assert a3.versions == [Version(1, 1, 2, Draft, Pending, None)];
    var a4 := Apply(a3, e4);
    assert a4.versions == [Version(1, 1, 2, Draft, Clean, Some(0))];
    var a5 := Apply(a4, e5);
    assert Run(a4, [e5]) == a5;
    assert [e4, e5][1..] == [e5] && [e3, e4, e5][1..] == [e4, e5] && [e2, e3, e4, e5][1..] == [e3, e4, e5];
    assert [e1, e2, e3, e4, e5][1..] == [e2, e3, e4, e5];
    assert Run(a3, [e4, e5]) == Run(a2, [e3, e4, e5]) == Run(a1, [e2, e3, e4, e5]) == a5;
    assert !Vouched(a5, a5.versions[0]);
  }

  // ---- which histories record stale verdicts ----

  /** The content of the stored version with that id. */
  function ContentOf(a: Asset, id: nat): Option<nat> {
    var k := Find(a.versions, id);
    if k == |a.versions| then None else Some(a.versions[k].file)
  }

  /** Event u of the history uploads new content for the version. */
  ghost predicate Uploads(es: seq<Event>, u: nat, id: nat) {
    u < |es| && es[u].UpdateFile? && es[u].id == id && Run(NEW_ASSET, es[..u + 1]) != Run(NEW_ASSET, es[..u])
  }

  /** Event s of the history starts scan t of the version. */
  ghost predicate Starts(es: seq<Event>, s: nat, t: nat, id: nat) {
    && s < |es| && es[s] == StartScan(id)
    && |Run(NEW_ASSET, es[..s]).scans| == t && |Run(NEW_ASSET, es[..s + 1]).scans| == t + 1
  }

  lemma {:induction false} RunIsSound(es: seq<Event>, n: nat)
    requires n <= |es|
    ensures Inv(Run(NEW_ASSET, es[..n]))
  {
    RunKeeps(NEW_ASSET, es[..n]);
  }

  lemma {:induction false} NewScan(a: Asset, e: Event)
    requires |Apply(a, e).scans| > |a.scans|
    ensures e.StartScan? && ContentOf(a, e.id).Some?
    ensures Apply(a, e).scans == a.scans + [ScanTask(e.id, ContentOf(a, e.id).value, None)]
  {
  }

  /** Every scan was started by an event, on the content that the version had then. */
  lemma {:induction false} ScanWasStarted(es: seq<Event>, n: nat, t: nat) returns (s: nat)
    requires n <= |es| && t < |Run(NEW_ASSET, es[..n]).scans|
    ensures
      var task := Run(NEW_ASSET, es[..n]).scans[t];
      s < n && Starts(es, s, t, task.version) && ContentOf(Run(NEW_ASSET, es[..s]), task.version) == Some(task.content)
  {
    if n == 0 {
      assert false;
    } else {
      var a: Asset := Run(NEW_ASSET, es[..n - 1]);
      RunPrefix(es, n - 1);
      if t < |a.scans| {
        s := ScanWasStarted(es, n - 1, t);
        ScansGrow(a, es[n - 1], t);
      } else {
        NewScan(a, es[n - 1]);
        s := n - 1;
      }
    }
  }

  /** An event leaves a version's content alone unless it uploads for it or deletes it; ids are not reused. */
  lemma {:induction false} ContentStep(a: Asset, e: Event, id: nat)
    requires VersionsOk(a) && id < a.nextId && (Apply(a, e) == a || !(e.UpdateFile? && e.id == id))
    ensures ContentOf(Apply(a, e), id) == ContentOf(a, id) || ContentOf(Apply(a, e), id) == None
    ensures Apply(a, e).nextId >= a.nextId
  {
    var b := Apply(a, e);
    var k := Find(b.versions, id);
    if k < |b.versions| {
      var m := if e.DeleteVersion? && b.versions != a.versions && k >= Find(a.versions, e.id) then k + 1 else k;
      assert a.versions[m].id == id && a.versions[m].file == b.versions[k].file;
      FindIs(a.versions, m);
    }
  }

  /** Without an upload in between, a version that is still there has the content it had. */
  lemma {:induction false} ContentKept(es: seq<Event>, s: nat, n: nat, id: nat)
    requires s <= n <= |es| && id < Run(NEW_ASSET, es[..s]).nextId
    requires forall u :: s <= u < n ==> !Uploads(es, u, id)
    ensures
      var now := ContentOf(Run(NEW_ASSET, es[..n]), id);
      now == ContentOf(Run(NEW_ASSET, es[..s]), id) || now == None
    ensures id < Run(NEW_ASSET, es[..n]).nextId
  {
    if s < n {
      ContentKept(es, s, n - 1, id);
      RunIsSound(es, n - 1);
      RunPrefix(es, n - 1);
      assert !Uploads(es, n - 1, id);
      ContentStep(Run(NEW_ASSET, es[..n - 1]), es[n - 1], id);
    }
  }

  lemma {:induction false} StoredIds(a: Asset, id: nat)
    requires VersionsOk(a) && ContentOf(a, id).Some?
    ensures id < a.nextId
  {
  }

  /** A verdict is stale only if new content was uploaded between the start of its scan and the verdict. */
  lemma {:induction false} StaleMeansUpload(es: seq<Event>, n: nat) returns (s: nat, u: nat)
    requires n < |es| && Stale(Run(NEW_ASSET, es[..n]), es[n])
    ensures
      var id := Run(NEW_ASSET, es[..n]).scans[es[n].task].version;
      s < u < n && Starts(es, s, es[n].task, id) && Uploads(es, u, id)
  {
    var a := Run(NEW_ASSET, es[..n]);
    var task := a.scans[es[n].task];
    s := ScanWasStarted(es, n, es[n].task);
    RunIsSound(es, s);
    StoredIds(Run(NEW_ASSET, es[..s]), task.version);
    if forall w :: s <= w < n ==> !Uploads(es, w, task.version) {
      ContentKept(es, s, n, task.version);
    }
    u :| s <= u < n && Uploads(es, u, task.version);
  }

  /** What a scan reads is fixed when it starts. */
  lemma {:induction false} ScanKeepsContent(es: seq<Event>, s: nat, n: nat, t: nat)
    requires s <= n <= |es| && t < |Run(NEW_ASSET, es[..s]).scans|
    ensures t < |Run(NEW_ASSET, es[..n]).scans|
    ensures Run(NEW_ASSET, es[..n]).scans[t].content == Run(NEW_ASSET, es[..s]).scans[t].content
    ensures Run(NEW_ASSET, es[..n]).scans[t].version == Run(NEW_ASSET, es[..s]).scans[t].version
  {
    if s < n {
      ScanKeepsContent(es, s, n - 1, t);
      RunPrefix(es, n - 1);
      ScansGrow(Run(NEW_ASSET, es[..n - 1]), es[n - 1], t);
    }
  }

  lemma {:induction false} StartReads(es: seq<Event>, s: nat, t: nat, id: nat)
    requires Starts(es, s, t, id)
    ensures
      var task := Run(NEW_ASSET, es[..s + 1]).scans[t];
      task.version == id && ContentOf(Run(NEW_ASSET, es[..s]), id) == Some(task.content)
  {
    RunPrefix(es, s);
  }

  lemma {:induction false} UploadChanges(es: seq<Event>, u: nat, id: nat)
    requires Uploads(es, u, id)
    ensures
      var was, now := ContentOf(Run(NEW_ASSET, es[..u]), id), ContentOf(Run(NEW_ASSET, es[..u + 1]), id);
      was.Some? && now.Some? && was != now
    ensures Run(NEW_ASSET, es[..u + 1]).nextId == Run(NEW_ASSET, es[..u]).nextId
  {
    RunPrefix(es, u);
    RunIsSound(es, u);
    var a := Run(NEW_ASSET, es[..u]);
    var k := Find(a.versions, id);
    RunIsSound(es, u + 1);
    FindIs(Run(NEW_ASSET, es[..u + 1]).versions, k);
  }

  /** A single upload between the start of a scan and its recorded verdict makes the verdict stale. */
  lemma {:induction false} UploadMakesStale(es: seq<Event>, s: nat, u: nat, n: nat, t: nat, id: nat)
    requires s < u < n < |es| && Starts(es, s, t, id) && Uploads(es, u, id)
    requires forall w :: s < w < n && Uploads(es, w, id) ==> w == u
    requires es[n] == ScanResult(t, Clean) && Accepts(Run(NEW_ASSET, es[..n]), t, Clean)
    ensures Stale(Run(NEW_ASSET, es[..n]), es[n])
  {
    StartReads(es, s, t, id);
    RunIsSound(es, s);
    StoredIds(Run(NEW_ASSET, es[..s]), id);
    ContentKept(es, s, u, id);
    UploadChanges(es, u, id);
    ContentKept(es, u + 1, n, id);
    ScanKeepsContent(es, s + 1, n, t);
  }

  /** A recorded clean verdict is stale exactly if the content is not what it was when the scan started. */
  lemma {:induction false} StaleExactlyWhen(es: seq<Event>, s: nat, n: nat, t: nat, id: nat)
    requires s < n < |es| && Starts(es, s, t, id)
    requires es[n] == ScanResult(t, Clean) && Accepts(Run(NEW_ASSET, es[..n]), t, Clean)
    ensures Stale(Run(NEW_ASSET, es[..n]), es[n]) <==>
      ContentOf(Run(NEW_ASSET, es[..n]), id) != ContentOf(Run(NEW_ASSET, es[..s]), id)
  {
    StartReads(es, s, t, id);
    ScanKeepsContent(es, s + 1, n, t);
  }

  /** So if at most one upload lies in between, it is stale exactly when there is one. */
  lemma {:induction false} StaleAfterOneUpload(es: seq<Event>, s: nat, n: nat, t: nat, id: nat)
    requires s < n < |es| && Starts(es, s, t, id)
    requires forall u, w :: s < u < n && s < w < n && Uploads(es, u, id) && Uploads(es, w, id) ==> u == w
    requires es[n] == ScanResult(t, Clean) && Accepts(Run(NEW_ASSET, es[..n]), t, Clean)
    ensures Stale(Run(NEW_ASSET, es[..n]), es[n]) <==> exists u :: s < u < n && Uploads(es, u, id)
  {
    StartReads(es, s, t, id);
    ScanKeepsContent(es, s + 1, n, t);
    if u :| s < u < n && Uploads(es, u, id) {
      UploadMakesStale(es, s, u, n, t, id);
    } else {
      assert !Uploads(es, s, id);
      RunIsSound(es, s);
      StoredIds(Run(NEW_ASSET, es[..s]), id);
      ContentKept(es, s, n, id);
    }
  }

  // ---- finalized versions ----

  predicate FinalsClean(a: Asset) {
    forall k :: 0 <= k < |a.versions| && a.versions[k].status.Finalized? ==> a.versions[k].scan.Clean?
  }

  /** A verdict other than clean is about to be recorded on a finalized version. */
  predicate Sours(a: Asset, e: Event) {
    && e.ScanResult? && !e.verdict.Clean? && Accepts(a, e.task, e.verdict)
    && a.versions[Find(a.versions, a.scans[e.task].version)].status.Finalized?
  }

  lemma {:induction false} StepFinals(a: Asset, e: Event)
    requires VersionsOk(a) && FinalsClean(a)
    ensures FinalsClean(Apply(a, e)) <==> !Sours(a, e)
  {
    var b := Apply(a, e);
    if Sours(a, e) {
      var k := Find(a.versions, a.scans[e.task].version);
      assert b.versions[k].status.Finalized? && !b.versions[k].scan.Clean?;
    } else if e.DeleteVersion? && b != a {
      var d := Find(a.versions, e.id);
      assert forall k :: 0 <= k < |b.versions| ==> b.versions[k] == a.versions[if k < d then k else k + 1];
    }
  }

  ghost predicate NeverSours(es: seq<Event>) {
    forall n :: 0 <= n < |es| ==> !Sours(Run(NEW_ASSET, es[..n]), es[n])
  }

  lemma {:induction false} NeverSoursClean(es: seq<Event>, n: nat)
    requires NeverSours(es) && n <= |es|
    ensures FinalsClean(Run(NEW_ASSET, es[..n]))
  {
    if n > 0 {
      NeverSoursClean(es, n - 1);
      RunIsSound(es, n - 1);
      RunPrefix(es, n - 1);
      StepFinals(Run(NEW_ASSET, es[..n - 1]), es[n - 1]);
    }
  }

  /** Throughout a history finalized versions are clean, exactly when no other verdict is recorded on one of them. */
  lemma {:induction false} FinalizedStaysCleanExactlyWhen(es: seq<Event>)
    ensures (forall n :: 0 <= n <= |es| ==> FinalsClean(Run(NEW_ASSET, es[..n]))) <==> NeverSours(es)
  {
    if NeverSours(es) {
      forall n | 0 <= n <= |es|
        ensures FinalsClean(Run(NEW_ASSET, es[..n]))
      {
        NeverSoursClean(es, n);
      }
    } else {
      var n :| 0 <= n < |es| && Sours(Run(NEW_ASSET, es[..n]), es[n]);
      RunIsSound(es, n);
      RunPrefix(es, n);
      if FinalsClean(Run(NEW_ASSET, es[..n])) {
        StepFinals(Run(NEW_ASSET, es[..n]), es[n]);
        assert !FinalsClean(Run(NEW_ASSET, es[..n + 1]));
      }
    }
  }

  // ---- scans that are overtaken ----

  /** The event takes a version out of its scan although the scan has not answered. */
  predicate Displaces(a: Asset, e: Event) {
    && (e.UpdateFile? || e.ScanFailed?) && Apply(a, e) != a
    && var k := Find(a.versions, e.id);
    k < |a.versions| && a.versions[k].scan.Scanning?
  }

  /** No version gets new content, and no scan is given up, while the version is being scanned. */
  ghost predicate Undisturbed(es: seq<Event>) {
    forall n :: 0 <= n < |es| ==> !Displaces(Run(NEW_ASSET, es[..n]), es[n])
  }

  /** The version that scan t reads is being scanned, with the content that the scan has read. */
  predicate InScan(a: Asset, t: nat)
    requires Open(a, t)
  {
    var v := a.versions[Find(a.versions, a.scans[t].version)];
    v.scan.Scanning? && v.file == a.scans[t].content
  }

  /** While nothing is displaced: a running scan's version is being scanned, and by no other scan. */
  ghost predicate ScansOk(a: Asset) {
    && (forall t: nat :: t < |a.scans| ==> a.scans[t].version < a.nextId)
    && (forall t: nat :: Open(a, t) ==> InScan(a, t))
    && (forall t: nat, u: nat :: Open(a, t) && Open(a, u) && a.scans[t].version == a.scans[u].version ==> t == u)
  }

  /** Where the versions' marks, contents and ids are as they were, or the version is gone, and no scan is new. */
  lemma {:induction false} SameScans(a: Asset, b: Asset)
    requires ScansOk(a) && b.scans == a.scans && a.nextId <= b.nextId
    requires forall t: nat :: Open(b, t) ==> Open(a, t) && (InScan(a, t) ==> InScan(b, t))
    ensures ScansOk(b)
  {
  }

  /** A version that is replaced keeps its scans only if it was not in one. */
  lemma {:induction false} ReplacedScans(a: Asset, k: nat, v: Version)
    requires VersionsOk(a) && ScansOk(a) && k < |a.versions| && v.id == a.versions[k].id
    requires a.versions[k].scan.Scanning? ==> Unmarked(v) == Unmarked(a.versions[k]) && v.scan.Scanning?
    ensures ScansOk(With(a, k, v))
  {
    var b := With(a, k, v);
    forall t: nat | Open(b, t)
      ensures Open(a, t) && InScan(b, t)
    {
      SameFind(a.versions, b.versions, a.scans[t].version);
      assert InScan(a, t);
    }
  }

  lemma {:induction false} SameFind(vs: seq<Version>, ws: seq<Version>, id: nat)
    requires |vs| == |ws| && forall i :: 0 <= i < |vs| ==> vs[i].id == ws[i].id
    ensures Find(vs, id) == Find(ws, id)
  {
    if vs != [] {
      SameFind(vs[1..], ws[1..], id);
    }
  }

  lemma {:induction false} FindAppend(vs: seq<Version>, v: Version, id: nat)
    ensures Find(vs + [v], id) == if Find(vs, id) < |vs| then Find(vs, id) else if v.id == id then |vs| else |vs| + 1
  {
    if vs == [] {
      assert [v][1..] == [];
    } else {
      assert (vs + [v])[1..] == vs[1..] + [v];
      FindAppend(vs[1..], v, id);
    }
  }

  lemma {:induction false} CreatedScans(a: Asset, file: nat)
    requires VersionsOk(a) && ScansOk(a)
    ensures ScansOk(Apply(a, CreateVersion(file)))
  {
    var b := Apply(a, CreateVersion(file));
    if b != a {
      forall t: nat | Open(b, t)
        ensures Open(a, t) && InScan(b, t)
      {
        FindAppend(a.versions, b.versions[|a.versions|], a.scans[t].version);
        assert InScan(a, t);
      }
    }
  }

  lemma {:induction false} DeletedScans(a: Asset, id: nat)
    requires VersionsOk(a) && ScansOk(a)
    ensures ScansOk(Apply(a, DeleteVersion(id)))
  {
    var b := Apply(a, DeleteVersion(id));
    if b != a {
      EventKeepsVersions(a, DeleteVersion(id));
      assert Find(a.versions, id) == |a.versions| - 1 && b.versions == a.versions[..|a.versions| - 1];
      forall t: nat | Open(b, t)
        ensures Open(a, t) && InScan(b, t)
      {
        var k := Find(b.versions, b.scans[t].version);
        FindIs(a.versions, k);
        assert InScan(a, t);
      }
    }
  }

  lemma {:induction false} StartedScans(a: Asset, id: nat)
    requires VersionsOk(a) && ScansOk(a)
    ensures ScansOk(Apply(a, StartScan(id)))
  {
    var b := Apply(a, StartScan(id));
    if b != a {
      var k, n := Find(a.versions, id), |a.scans|;
      forall t: nat | Open(b, t)
        ensures InScan(b, t) && (t != n ==> Open(a, t) && a.scans[t].version != id)
      {
        SameFind(a.versions, b.versions, b.scans[t].version);
        if t != n {
          assert InScan(a, t);
        }
      }
    }
  }

  lemma {:induction false} AnsweredScans(a: Asset, task: nat, verdict: Scan)
    requires VersionsOk(a) && ScansOk(a)
    ensures ScansOk(Apply(a, ScanResult(task, verdict)))
  {
    var b := Apply(a, ScanResult(task, verdict));
    if b != a {
      assert Open(a, task);
      forall t: nat | Open(b, t)
        ensures Open(a, t) && InScan(b, t)
      {
        SameFind(a.versions, b.versions, b.scans[t].version);
        assert Open(a, t) && t != task;
        assert InScan(a, t) && a.scans[t].version != a.scans[task].version;
      }
    }
  }

  lemma {:induction false} StepScans(a: Asset, e: Event)
    requires VersionsOk(a) && ScansOk(a) && !Displaces(a, e)
    ensures ScansOk(Apply(a, e))
  {
    var b := Apply(a, e);
    if b != a {
      match e
      case Act(_) => SameScans(a, b);
      case CreateVersion(file) => CreatedScans(a, file);
      case DeleteVersion(id) => DeletedScans(a, id);
      case StartScan(id) => StartedScans(a, id);
      case ScanResult(task, verdict) => AnsweredScans(a, task, verdict);
      case _ => ReplacedScans(a, Find(a.versions, e.id), b.versions[Find(a.versions, e.id)]);
    }
  }

  lemma {:induction false} UndisturbedScans(es: seq<Event>, n: nat)
    requires n <= |es| && forall m :: 0 <= m < n ==> !Displaces(Run(NEW_ASSET, es[..m]), es[m])
    ensures ScansOk(Run(NEW_ASSET, es[..n])) && FinalsClean(Run(NEW_ASSET, es[..n]))
    ensures CleanIsScanned(Run(NEW_ASSET, es[..n]))
  {
    if n > 0 {
      var a, e := Run(NEW_ASSET, es[..n - 1]), es[n - 1];
      UndisturbedScans(es, n - 1);
      RunIsSound(es, n - 1);
      RunPrefix(es, n - 1);
      StepScans(a, e);
      InScanIsFresh(a, e);
      StepFinals(a, e);
      StepVouches(a, e);
    }
  }

  /** The verdict of a scan that has not been displaced is about the present content, of a draft. */
  lemma {:induction false} InScanIsFresh(a: Asset, e: Event)
    requires ScansOk(a) && FinalsClean(a)
    ensures !Stale(a, e) && !Sours(a, e)
  {
    if e.ScanResult? && Accepts(a, e.task, e.verdict) {
      assert Open(a, e.task);
      assert InScan(a, e.task);
    }
  }

  /** A finalized version gets another verdict only behind a displaced scan. */
  lemma {:induction false} SoursMeansDisplaced(es: seq<Event>, n: nat) returns (m: nat)
    requires n < |es| && Sours(Run(NEW_ASSET, es[..n]), es[n])
    ensures m < n && Displaces(Run(NEW_ASSET, es[..m]), es[m])
  {
    if forall m :: 0 <= m < n ==> !Displaces(Run(NEW_ASSET, es[..m]), es[m]) {
      UndisturbedScans(es, n);
      InScanIsFresh(Run(NEW_ASSET, es[..n]), es[n]);
    }
    m :| 0 <= m < n && Displaces(Run(NEW_ASSET, es[..m]), es[m]);
  }

  /** So if no scan is displaced, every finalized version was found clean by a scan of its present content. */
  lemma {:induction false} FinalizedWasScanned(es: seq<Event>, k: nat)
    requires Undisturbed(es)
    requires k < |Run(NEW_ASSET, es).versions| && Run(NEW_ASSET, es).versions[k].status.Finalized?
    ensures Run(NEW_ASSET, es).versions[k].scan.Clean? && Vouched(Run(NEW_ASSET, es), Run(NEW_ASSET, es).versions[k])
  {
    assert es[..|es|] == es;
    UndisturbedScans(es, |es|);
  }

  /** And what is submitted is clean and settled, so that the review leaves it exactly as it is. */
  lemma {:induction false} SubmittedIsSettled(es: seq<Event>)
    requires Undisturbed(es) && Can(Run(NEW_ASSET, es), Submit)
    ensures
      var a := Run(NEW_ASSET, es);
      Settled(a) && forall k :: 0 <= k < |a.versions| ==> a.versions[k].scan.Clean?
  {
    var a := Run(NEW_ASSET, es);
    assert es[..|es|] == es;
    UndisturbedScans(es, |es|);
    RunKeeps(NEW_ASSET, es);
    assert !HasDraft(a.versions);
    assert forall t: nat :: Open(a, t) ==> InScan(a, t);
  }

  lemma {:induction false} RunFour(a: Asset, e1: Event, e2: Event, e3: Event, e4: Event, more: seq<Event>)
    ensures Run(a, [e1, e2, e3, e4] + more) == Run(Apply(Apply(Apply(Apply(a, e1), e2), e3), e4), more)
  {
    var a1 := Apply(a, e1);
    var a2 := Apply(a1, e2);
    var a3 := Apply(a2, e3);
    assert ([e1, e2, e3, e4] + more)[1..] == [e2, e3, e4] + more;
    assert ([e2, e3, e4] + more)[1..] == [e3, e4] + more;
    assert ([e3, e4] + more)[1..] == [e4] + more && ([e4] + more)[1..] == more;
    assert Run(a3, [e4] + more) == Run(Apply(a3, e4), more);
    assert Run(a2, [e3, e4] + more) == Run(a3, [e4] + more);
    assert Run(a1, [e2, e3, e4] + more) == Run(a2, [e3, e4] + more);
  }

  /** A version scanned twice, with new content in between; the second scan has answered, the first has not. */
  const SCANNED_TWICE: Asset :=
    Asset(NotSubmitted, [Version(1, 1, 2, Draft, Scanning, None)], [], 2, [ScanTask(1, 1, None), ScanTask(1, 2, None)])

  lemma {:induction false} ScannedTwice(more: seq<Event>)
    ensures Run(NEW_ASSET, [CreateVersion(1), StartScan(1), UpdateFile(1, 2), StartScan(1)] + more)
         == Run(SCANNED_TWICE, more)
  {
    RunFour(NEW_ASSET, CreateVersion(1), StartScan(1), UpdateFile(1, 2), StartScan(1), more);
    var a1 := Apply(NEW_ASSET, CreateVersion(1));
    assert a1.versions == [Version(1, 1, 1, Draft, Pending, None)];
    var a2 := Apply(a1, StartScan(1));
    assert a2.versions == [Version(1, 1, 1, Draft, Scanning, None)];
    var a3 := Apply(a2, UpdateFile(1, 2));
    assert a3.versions == [Version(1, 1, 2, Draft, Pending, None)];
    var a4 := Apply(a3, StartScan(1));
    assert a4.versions == SCANNED_TWICE.versions && a4.scans == SCANNED_TWICE.scans;
  }

  /** The code meets no such guard: a scan of replaced content marks a version infected that is under review. */
  lemma {:induction false} SouredInReview()
    ensures
      var scans := [CreateVersion(1), StartScan(1), UpdateFile(1, 2), StartScan(1)];
      var a := Run(NEW_ASSET, scans + [ScanResult(1, Clean), Publish(1), Act(Submit), ScanResult(0, Infected)]);
      a.status.PendingReview? && a.versions == [Version(1, 1, 2, Finalized, Infected, Some(0))]
  {
    var e1, e2, e3, e4 := ScanResult(1, Clean), Publish(1), Act(Submit), ScanResult(0, Infected);
    ScannedTwice([e1, e2, e3, e4]);
    RunFour(SCANNED_TWICE, e1, e2, e3, e4, []);
    assert [e1, e2, e3, e4] + [] == [e1, e2, e3, e4];
    var a1 := Apply(SCANNED_TWICE, e1);
    assert a1.versions == [Version(1, 1, 2, Draft, Clean, Some(1))] && a1.scans[0] == ScanTask(1, 1, None);
    var a2 := Apply(a1, e2);
    assert a2.versions == [Version(1, 1, 2, Finalized, Clean, Some(1))] && !HasDraft(a2.versions);
    var a3 := Apply(a2, e3);
    assert a3.status.PendingReview? && a3.versions == a2.versions;
  }
}

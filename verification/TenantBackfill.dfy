/**
  Copying public rows into their organisations' schemas
  (backend/ad_copy_variation/tenant_backfill.py).
 */
module TenantBackfill {
  import opened Common

  /** A row of the public table joined to its project and organisation. */
  datatype PublicRow = PublicRow(
    id: nat,
    slug: string,
    project: Option<nat>,
    projectSlug: string,
    organization: Option<nat>,
    orgSlug: Option<string>)

  /** A row of a tenant's table. It has no column for its `origin`, the public row that it is the copy of. */
  datatype TenantRow = TenantRow(slug: string, project: nat, origin: Option<nat>)

  /** An organisation's schema: whether it has the variation table, its live projects by slug, and the table. */
  datatype Schema = Schema(hasTable: bool, projects: map<string, nat>, table: seq<TenantRow>)
  type Database = map<string, Schema>

  datatype Reason =
    | MissingProject | NoOrganization | MissingSchema | MissingVariationTable | ProjectSlugNotInOrg | AlreadyCopied

  datatype BackfillResult = BackfillResult(copied: nat, skipped: nat, reasons: map<Reason, nat>)

  const EMPTY: BackfillResult := BackfillResult(0, 0, map[])

  function Times(reasons: map<Reason, nat>, r: Reason): nat {
    if r in reasons then reasons[r] else 0
  }

  function Skip(result: BackfillResult, r: Reason): BackfillResult {
    result.(skipped := result.skipped + 1, reasons := result.reasons[r := Times(result.reasons, r) + 1])
  }

  // ---- schema names (backend/core/services/tenant.py) ----

  predicate Alphanumeric(c: char) {
    'a' <= c <= 'z' || 'A' <= c <= 'Z' || '0' <= c <= '9'
  }

  function SchemaName(slug: string): string {
    "org_" + seq(|slug|, i requires 0 <= i < |slug| => if Alphanumeric(slug[i]) then slug[i] else '_')
  }

  // ---- one row ----

  datatype Verdict = Leave(reason: Reason) | Place(schema: string, project: nat)

  predicate HasSlug(table: seq<TenantRow>, slug: string) {
    exists i :: 0 <= i < |table| && table[i].slug == slug
  }

  function Judge(db: Database, row: PublicRow): Verdict {
    if row.project.None? then Leave(MissingProject)
    else if row.organization.None? || row.organization.value == 0 || row.orgSlug.None? || row.orgSlug.value == "" then
      Leave(NoOrganization)
    else
      var schema := SchemaName(row.orgSlug.value);
      if schema !in db then Leave(MissingSchema)
      else if !db[schema].hasTable then Leave(MissingVariationTable)
      else if row.projectSlug !in db[schema].projects then Leave(ProjectSlugNotInOrg)
      else if HasSlug(db[schema].table, row.slug) then Leave(AlreadyCopied)
      else Place(schema, db[schema].projects[row.projectSlug])
  }

  predicate HasOrganization(row: PublicRow) {
    && row.organization.Some? && row.organization.value != 0
    && row.orgSlug.Some? && row.orgSlug.value != ""
  }

  /** What is wrong with a row that is left, and what of the rest is then known to be in order. */
  lemma {:induction false} ReasonsMean(db: Database, row: PublicRow)
    ensures
      var v := Judge(db, row);
      && (v == Leave(MissingProject) <==> row.project.None?)
      && (v == Leave(NoOrganization) <==> row.project.Some? && !HasOrganization(row))
      && (row.project.Some? && HasOrganization(row) ==>
            var s := SchemaName(row.orgSlug.value);
            && (v == Leave(MissingSchema) <==> s !in db)
            && (v == Leave(MissingVariationTable) <==> s in db && !db[s].hasTable)
            && (s in db && db[s].hasTable ==>
                  var here := row.projectSlug in db[s].projects;
                  && (v == Leave(ProjectSlugNotInOrg) <==> !here)
                  && (v == Leave(AlreadyCopied) <==> here && HasSlug(db[s].table, row.slug))
                  && (v.Place? <==> here && !HasSlug(db[s].table, row.slug))
                  && (v.Place? ==> v == Place(s, db[s].projects[row.projectSlug]))))
  {
  }

  /** A schema's name is the slug behind `org_`, with an underscore for everything but letters and digits. */
  lemma {:induction false} SchemaNameIs(slug: string)
    ensures |SchemaName(slug)| == |slug| + 4 && SchemaName(slug)[..4] == "org_"
    ensures forall i :: 0 <= i < |slug| ==>
      var c := slug[i];
      SchemaName(slug)[i + 4] ==
        if '0' <= c <= '9' || 'A' <= c <= 'Z' || 'a' <= c <= 'z' then c else '_'
  {
  }

  function CopyRow(db: Database, schema: string, row: PublicRow, project: nat): Database
    requires schema in db
  {
    db[schema := db[schema].(table := db[schema].table + [TenantRow(row.slug, project, Some(row.id))])]
  }

  datatype State = State(db: Database, result: BackfillResult)

  function Step(st: State, row: PublicRow, dryRun: bool): State {
    match Judge(st.db, row)
    case Leave(reason) => st.(result := Skip(st.result, reason))
    case Place(schema, project) =>
      State(if dryRun then st.db else CopyRow(st.db, schema, row, project),
            st.result.(copied := st.result.copied + 1))
  }

  function Run(st: State, rows: seq<PublicRow>, dryRun: bool): State {
    if rows == [] then st else Step(Run(st, rows[..|rows| - 1], dryRun), rows[|rows| - 1], dryRun)
  }

  function Backfilled(db: Database, rows: seq<PublicRow>, dryRun: bool): State {
    Run(State(db, EMPTY), rows, dryRun)
  }

  // ---- the backfill ----

  class Tenants {
    var db: Database

    /** The memo of schemas without the table only saves lookups: the outcome is that of judging every row afresh. */
    method Backfill(rows: seq<PublicRow>, dryRun: bool) returns (result: BackfillResult)
      modifies this
      ensures State(db, result) == Backfilled(old(db), rows, dryRun)
      ensures dryRun ==> db == old(db)
    {
      result := EMPTY;
      var missing: set<string> := {};
      for i := 0 to |rows|
        invariant State(db, result) == Backfilled(old(db), rows[..i], dryRun)
        invariant dryRun ==> db == old(db)
        invariant forall s :: s in missing ==> s in db && !db[s].hasTable
      {
        var row := rows[i];
        assert rows[..i + 1][..i] == rows[..i];
        if row.project.None? {
          result := Skip(result, MissingProject);
          continue;
        }
        if row.organization.None? || row.organization.value == 0 || row.orgSlug.None? || row.orgSlug.value == "" {
          result := Skip(result, NoOrganization);
          continue;
        }
        var schema := SchemaName(row.orgSlug.value);
        if schema !in db {
          result := Skip(result, MissingSchema);
          continue;
        }
        if schema in missing || !db[schema].hasTable {
          missing := missing + {schema};
          result := Skip(result, MissingVariationTable);
          continue;
        }
        if row.projectSlug !in db[schema].projects {
          result := Skip(result, ProjectSlugNotInOrg);
          continue;
        }
        var project := db[schema].projects[row.projectSlug];
        if HasSlug(db[schema].table, row.slug) {
          result := Skip(result, AlreadyCopied);
          continue;
        }
        if !dryRun {
          db := CopyRow(db, schema, row, project);
        }
        result := result.(copied := result.copied + 1);
      }
      assert rows[..|rows|] == rows;
    }
  }

  // ---- accounting ----

  const REASONS: seq<Reason> :=
    [MissingProject, NoOrganization, MissingSchema, MissingVariationTable, ProjectSlugNotInOrg, AlreadyCopied]

  function SumOf(reasons: map<Reason, nat>, rs: seq<Reason>): nat {
    if rs == [] then 0 else Times(reasons, rs[0]) + SumOf(reasons, rs[1..])
  }

  lemma {:induction false} SumAfterSkip(result: BackfillResult, r: Reason, rs: seq<Reason>)
    requires forall i, j :: 0 <= i < j < |rs| ==> rs[i] != rs[j]
    ensures SumOf(Skip(result, r).reasons, rs) == SumOf(result.reasons, rs) + if r in rs then 1 else 0
  {
    if rs != [] {
      SumAfterSkip(result, r, rs[1..]);
      assert rs[0] !in rs[1..];
    }
  }

  /** Every row is counted once, and the reasons add up to the skipped rows. */
  lemma {:induction false} EveryRowIsCounted(db: Database, rows: seq<PublicRow>, dryRun: bool)
    ensures
      var r := Backfilled(db, rows, dryRun).result;
      r.copied + r.skipped == |rows| && SumOf(r.reasons, REASONS) == r.skipped
  {
    if rows == [] {
      AllZero(REASONS);
    } else {
      var n := |rows| - 1;
      EveryRowIsCounted(db, rows[..n], dryRun);
      var st := Backfilled(db, rows[..n], dryRun);
      if Judge(st.db, rows[n]).Leave? {
        var reason := Judge(st.db, rows[n]).reason;
        SumAfterSkip(st.result, reason, REASONS);
        AllReasons(reason);
      }
    }
  }

  lemma {:induction false} AllZero(rs: seq<Reason>)
    ensures SumOf(map[], rs) == 0
  {
    if rs != [] {
      AllZero(rs[1..]);
    }
  }

  lemma {:induction false} AllReasons(r: Reason)
    ensures r in REASONS
  {
    assert REASONS[0] == MissingProject && REASONS[1] == NoOrganization && REASONS[2] == MissingSchema;
    assert REASONS[3] == MissingVariationTable && REASONS[4] == ProjectSlugNotInOrg && REASONS[5] == AlreadyCopied;
  }

  // ---- what a run adds to the database ----

  /** Row k would be placed in the given schema if it were the only one. */
  predicate Wanted(db: Database, rows: seq<PublicRow>, k: nat, schema: string) {
    k < |rows| && Judge(db, rows[k]).Place? && Judge(db, rows[k]).schema == schema
  }

  /** A later state of the same tenants: tables have only been appended to. */
  ghost predicate Grown(db: Database, later: Database) {
    && later.Keys == db.Keys
    && forall s :: s in db ==>
         later[s].hasTable == db[s].hasTable && later[s].projects == db[s].projects && db[s].table <= later[s].table
  }

  /** After a real run a schema has the slugs it had and those of the rows wanted there. */
  lemma {:induction false} RunAdds(db: Database, rows: seq<PublicRow>)
    ensures
      var later := Backfilled(db, rows, false).db;
      && Grown(db, later)
      && forall s, slug :: s in db ==>
           (HasSlug(later[s].table, slug) <==>
              HasSlug(db[s].table, slug) || exists k: nat :: Wanted(db, rows, k, s) && rows[k].slug == slug)
  {
    if rows != [] {
      var n := |rows| - 1;
      var before := Backfilled(db, rows[..n], false).db;
      var later := Backfilled(db, rows, false).db;
      RunAdds(db, rows[..n]);
      RowIsPlaced(db, before, rows[..n], rows[n]);
      assert forall k: nat, s :: k < n ==> (Wanted(db, rows, k, s) <==> Wanted(db, rows[..n], k, s));
      forall s, slug | s in db
        ensures HasSlug(later[s].table, slug) <==>
          HasSlug(db[s].table, slug) || exists k: nat :: Wanted(db, rows, k, s) && rows[k].slug == slug
      {
        StepSlugs(db, rows, before, later, s, slug);
      }
    }
  }

  /** How an earlier run changes the verdict on a row: only from a place to already copied. */
  lemma {:induction false} RowIsPlaced(db: Database, before: Database, rows: seq<PublicRow>, row: PublicRow)
    requires Grown(db, before)
    requires forall s, slug :: s in db ==>
      (HasSlug(before[s].table, slug) <==>
         HasSlug(db[s].table, slug) || exists k: nat :: Wanted(db, rows, k, s) && rows[k].slug == slug)
    ensures
      var v, w := Judge(db, row), Judge(before, row);
      w == if v.Place? && exists k: nat :: Wanted(db, rows, k, v.schema) && rows[k].slug == row.slug
           then Leave(AlreadyCopied) else v
  {
  }

  lemma {:induction false} HasSlugAppend(table: seq<TenantRow>, c: TenantRow, slug: string)
    ensures HasSlug(table + [c], slug) <==> HasSlug(table, slug) || c.slug == slug
  {
    assert (table + [c])[|table|] == c;
    assert forall i :: 0 <= i < |table| ==> (table + [c])[i] == table[i];
  }

  lemma {:induction false} StepSlugs(db: Database, rows: seq<PublicRow>, before: Database, later: Database,
      s: string, slug: string)
    requires rows != [] && s in db && Grown(db, before)
    requires
      var n := |rows| - 1;
      && (forall t, x :: t in db ==>
            (HasSlug(before[t].table, x) <==>
               HasSlug(db[t].table, x) || exists k: nat :: Wanted(db, rows[..n], k, t) && rows[..n][k].slug == x))
      && (forall k: nat, t :: k < n ==> (Wanted(db, rows, k, t) <==> Wanted(db, rows[..n], k, t)))
      && var v := Judge(before, rows[n]);
      later == if v.Place? then CopyRow(before, v.schema, rows[n], v.project) else before
    ensures HasSlug(later[s].table, slug) <==>
      HasSlug(db[s].table, slug) || exists k: nat :: Wanted(db, rows, k, s) && rows[k].slug == slug
  {
    var n := |rows| - 1;
    var init, row := rows[..n], rows[n];
    RowIsPlaced(db, before, init, row);
    if later != before && Judge(before, row).schema == s {
      HasSlugAppend(before[s].table, TenantRow(row.slug, Judge(before, row).project, Some(row.id)), slug);
    }
    if exists k: nat :: Wanted(db, rows, k, s) && rows[k].slug == slug {
      var k: nat :| Wanted(db, rows, k, s) && rows[k].slug == slug;
      if k < n {
        assert Wanted(db, init, k, s) && init[k].slug == slug;
      }
    }
    if exists k: nat :: Wanted(db, init, k, s) && init[k].slug == slug {
      var k: nat :| Wanted(db, init, k, s) && init[k].slug == slug;
      assert Wanted(db, rows, k, s) && rows[k].slug == slug;
    }
    if Judge(before, row).Place? && Judge(before, row).schema == s && row.slug == slug {
      assert Wanted(db, rows, n, s);
    }
  }

  /** Copy c in schema s was made from row k, for the project that the row's slug names there. */
  predicate MadeFrom(db: Database, rows: seq<PublicRow>, k: nat, s: string, c: TenantRow) {
    Wanted(db, rows, k, s) && c == TenantRow(rows[k].slug, Judge(db, rows[k]).project, Some(rows[k].id))
  }

  ghost predicate Made(db: Database, rows: seq<PublicRow>, s: string, c: TenantRow) {
    exists k: nat :: MadeFrom(db, rows, k, s, c)
  }

  /** Every row a run has added to a schema is the copy of a public row wanted there. */
  lemma {:induction false} CopiesComeFromRows(db: Database, rows: seq<PublicRow>, s: string, i: nat)
    requires s in db && s in Backfilled(db, rows, false).db
    requires |db[s].table| <= i < |Backfilled(db, rows, false).db[s].table|
    ensures Made(db, rows, s, Backfilled(db, rows, false).db[s].table[i])
  {
    if rows != [] {
      var n := |rows| - 1;
      var init := rows[..n];
      var before := Backfilled(db, init, false).db;
      RunAdds(db, init);
      RowIsPlaced(db, before, init, rows[n]);
      var c := Backfilled(db, rows, false).db[s].table[i];
      if i < |before[s].table| {
        CopiesComeFromRows(db, init, s, i);
        var k: nat :| MadeFrom(db, init, k, s, c);
        assert MadeFrom(db, rows, k, s, c);
      } else {
        assert MadeFrom(db, rows, n, s, c);
      }
    }
  }

  // ---- what "already copied" says ----

  /** No two public rows have a slug in common: the column is unique. */
  ghost predicate UniqueSlugs(rows: seq<PublicRow>) {
    forall j, k :: 0 <= j < k < |rows| ==> rows[j].slug != rows[k].slug
  }

  predicate HasCopy(table: seq<TenantRow>, row: PublicRow) {
    exists i :: 0 <= i < |table| && table[i].slug == row.slug && table[i].origin == Some(row.id)
  }

  /** The row has a place in the given schema: it would be copied there, or its slug is taken there. */
  predicate Placeable(db: Database, row: PublicRow, s: string) {
    && row.project.Some? && row.organization.Some? && row.organization.value != 0
    && row.orgSlug.Some? && row.orgSlug.value != "" && s == SchemaName(row.orgSlug.value)
    && s in db && db[s].hasTable && row.projectSlug in db[s].projects
  }

  lemma {:induction false} PlaceableJudged(db: Database, row: PublicRow, s: string)
    ensures Placeable(db, row, s) ==>
      Judge(db, row) == if HasSlug(db[s].table, row.slug) then Leave(AlreadyCopied)
                        else Place(s, db[s].projects[row.projectSlug])
    ensures Judge(db, row).Place? && Judge(db, row).schema == s ==> Placeable(db, row, s)
  {
  }

  /** The rows of a table stay where they are, and a run adds none under a slug that was taken. */
  lemma {:induction false} RowsStay(db: Database, rows: seq<PublicRow>, s: string)
    requires s in db
    ensures
      var later := Backfilled(db, rows, false).db;
      && s in later && |db[s].table| <= |later[s].table|
      && (forall i :: 0 <= i < |db[s].table| ==>
            later[s].table[i] == db[s].table[i] && HasSlug(db[s].table, later[s].table[i].slug))
      && (forall i :: |db[s].table| <= i < |later[s].table| ==> !HasSlug(db[s].table, later[s].table[i].slug))
  {
    RunAdds(db, rows);
    var later := Backfilled(db, rows, false).db;
    forall i | |db[s].table| <= i < |later[s].table|
      ensures !HasSlug(db[s].table, later[s].table[i].slug)
    {
      CopiesComeFromRows(db, rows, s, i);
      var j: nat :| MadeFrom(db, rows, j, s, later[s].table[i]);
      PlaceableJudged(db, rows[j], s);
    }
  }

  /** The copy of a wanted row is in the table after the run. */
  lemma {:induction false} WantedIsCopied(db: Database, rows: seq<PublicRow>, k: nat, s: string)
    requires UniqueSlugs(rows) && Wanted(db, rows, k, s)
    ensures s in Backfilled(db, rows, false).db && HasCopy(Backfilled(db, rows, false).db[s].table, rows[k])
  {
    var later := Backfilled(db, rows, false).db;
    RunAdds(db, rows);
    RowsStay(db, rows, s);
    PlaceableJudged(db, rows[k], s);
    var i :| 0 <= i < |later[s].table| && later[s].table[i].slug == rows[k].slug;
    CopiesComeFromRows(db, rows, s, i);
    var j: nat :| MadeFrom(db, rows, j, s, later[s].table[i]);
    assert j == k;
  }

  /**
    Of a public row with a place in a schema: once the backfill has seen it, it
    is reported as already copied. That means that its copy is there if and
    only if the copy was there before or no row had taken its slug.
   */
  lemma {:induction false} AlreadyCopiedMeans(db: Database, rows: seq<PublicRow>, k: nat, s: string)
    requires UniqueSlugs(rows) && k < |rows| && Placeable(db, rows[k], s)
    ensures
      var later := Backfilled(db, rows, false).db;
      && s in later && Judge(later, rows[k]) == Leave(AlreadyCopied)
      && (HasCopy(later[s].table, rows[k]) <==>
            HasCopy(db[s].table, rows[k]) || !HasSlug(db[s].table, rows[k].slug))
  {
    var later, row := Backfilled(db, rows, false).db, rows[k];
    RunAdds(db, rows);
    RowsStay(db, rows, s);
    PlaceableJudged(db, row, s);
    PlaceableJudged(later, row, s);
    if !HasSlug(db[s].table, row.slug) {
      WantedIsCopied(db, rows, k, s);
    }
    SameCopies(db[s].table, later[s].table, row);
  }

  /** Rows added under other slugs make no difference to a row's copy. */
  lemma {:induction false} SameCopies(before: seq<TenantRow>, after: seq<TenantRow>, row: PublicRow)
    requires before <= after
    ensures HasCopy(before, row) ==> HasCopy(after, row)
    ensures (forall i :: |before| <= i < |after| ==> after[i].slug != row.slug) ==>
      (HasCopy(after, row) ==> HasCopy(before, row))
  {
    if HasCopy(before, row) {
      var i :| 0 <= i < |before| && before[i].slug == row.slug && before[i].origin == Some(row.id);
      assert after[i] == before[i];
    }
  }

  /** Backfills one after another, each of whatever rows are public by then. */
  function Runs(db: Database, batches: seq<seq<PublicRow>>): Database
    decreases |batches|
  {
    if batches == [] then db else Runs(Backfilled(db, batches[0], false).db, batches[1..])
  }

  /** A slug taken by another row keeps the public row out of the schema for good. */
  lemma {:induction false} TakenSlugKeepsOut(db: Database, batches: seq<seq<PublicRow>>, s: string, row: PublicRow)
    requires s in db && HasSlug(db[s].table, row.slug) && !HasCopy(db[s].table, row)
    ensures s in Runs(db, batches) && !HasCopy(Runs(db, batches)[s].table, row)
    decreases |batches|
  {
    if batches != [] {
      var later := Backfilled(db, batches[0], false).db;
      RunAdds(db, batches[0]);
      RowsStay(db, batches[0], s);
      SameCopies(db[s].table, later[s].table, row);
      TakenSlugKeepsOut(later, batches[1..], s, row);
    }
  }

  // ---- a second run, and a dry run ----

  /** Every row a run has seen, it would not place again. */
  lemma {:induction false} SecondRunCopiesNothing(db: Database, rows: seq<PublicRow>, again: seq<PublicRow>,
      dryRun: bool)
    requires forall row :: row in again ==> row in rows
    ensures
      var later := Backfilled(db, rows, false).db;
      Backfilled(later, again, dryRun).db == later && Backfilled(later, again, dryRun).result.copied == 0
  {
    if again != [] {
      var n, later := |again| - 1, Backfilled(db, rows, false).db;
      SecondRunCopiesNothing(db, rows, again[..n], dryRun);
      RunAdds(db, rows);
      RowIsPlaced(db, later, rows, again[n]);
      assert again[n] in rows;
      var k: nat :| k < |rows| && rows[k] == again[n];
      assert Judge(db, again[n]).Place? ==> Wanted(db, rows, k, Judge(db, again[n]).schema);
    }
  }

  /** Rows j and k are both wanted in the schema, under the same slug. */
  predicate Clashing(db: Database, rows: seq<PublicRow>, j: nat, k: nat, schema: string) {
    j < k && Wanted(db, rows, j, schema) && Wanted(db, rows, k, schema) && rows[j].slug == rows[k].slug
  }

  /** Two rows are wanted under the same slug in the same schema. */
  ghost predicate Clash(db: Database, rows: seq<PublicRow>) {
    exists j: nat, k: nat, s :: Clashing(db, rows, j, k, s)
  }

  lemma {:induction false} DryRunLeaves(db: Database, rows: seq<PublicRow>)
    ensures Backfilled(db, rows, true).db == db
  {
    if rows != [] {
      DryRunLeaves(db, rows[..|rows| - 1]);
    }
  }

  /** The real run copies no more than the dry run announces, and the difference is reported as already copied. */
  lemma {:induction false} DryAgainstReal(db: Database, rows: seq<PublicRow>)
    ensures
      var dry, actual := Backfilled(db, rows, true).result, Backfilled(db, rows, false).result;
      && actual.copied <= dry.copied
      && (!Clash(db, rows) ==> actual == dry)
      && (Clash(db, rows) ==> actual.copied < dry.copied)
  {
    if rows != [] {
      var n := |rows| - 1;
      var init, row := rows[..n], rows[n];
      var before := Backfilled(db, init, false).db;
      DryAgainstReal(db, init);
      DryRunLeaves(db, init);
      RunAdds(db, init);
      RowIsPlaced(db, before, init, row);
      assert forall k: nat, s :: k < n ==> (Wanted(db, rows, k, s) <==> Wanted(db, init, k, s)) && rows[k] == init[k];
      ClashGrows(db, rows);
    }
  }

  lemma {:induction false} ClashGrows(db: Database, rows: seq<PublicRow>)
    requires rows != []
    ensures
      var n := |rows| - 1;
      Clash(db, rows) <==>
        Clash(db, rows[..n]) ||
        (Judge(db, rows[n]).Place? &&
         exists k: nat :: Wanted(db, rows[..n], k, Judge(db, rows[n]).schema) && rows[..n][k].slug == rows[n].slug)
  {
    var n := |rows| - 1;
    var init, row := rows[..n], rows[n];
    if Clash(db, rows) {
      var j: nat, k: nat, s :| Clashing(db, rows, j, k, s);
      if k < n {
        assert Clashing(db, init, j, k, s);
      }
    }
    if Clash(db, init) {
      var j: nat, k: nat, s :| Clashing(db, init, j, k, s);
      assert Clashing(db, rows, j, k, s);
    }
    var v := Judge(db, row);
    if v.Place? && exists k: nat :: Wanted(db, init, k, v.schema) && init[k].slug == row.slug {
      var k: nat :| Wanted(db, init, k, v.schema) && init[k].slug == row.slug;
      assert Clashing(db, rows, k, n, Judge(db, row).schema);
    }
  }

  /** A dry run reports what a real run does exactly when no two rows are wanted under one slug in one schema. */
  lemma {:induction false} DryRunIsExactWhen(db: Database, rows: seq<PublicRow>)
    ensures Backfilled(db, rows, true).result == Backfilled(db, rows, false).result <==> !Clash(db, rows)
  {
    DryAgainstReal(db, rows);
  }

  /** The public table has no such rows, so a dry run's report is the real run's. */
  lemma {:induction false} DryRunIsExact(db: Database, rows: seq<PublicRow>)
    requires UniqueSlugs(rows)
    ensures Backfilled(db, rows, true).result == Backfilled(db, rows, false).result
  {
    assert forall j: nat, k: nat, s :: !Clashing(db, rows, j, k, s);
    DryRunIsExactWhen(db, rows);
  }

  /** Without the unique slugs it would not be: of two such rows a dry run announces both, a real run copies one. */
  lemma {:induction false} UniqueSlugsNeeded()
    ensures
      var db: Database := map["org_a" := Schema(true, map["p" := 7], [])];
      var row := PublicRow(1, "ad", Some(1), "p", Some(1), Some("a"));
      var rows := [row, row.(id := 2)];
      && Clash(db, rows) && !UniqueSlugs(rows)
      && Backfilled(db, rows, true).result.copied == 2
      && Backfilled(db, rows, false).result == BackfillResult(1, 1, map[AlreadyCopied := 1])
  {
    var db: Database := map["org_a" := Schema(true, map["p" := 7], [])];
    var row := PublicRow(1, "ad", Some(1), "p", Some(1), Some("a"));
    var rows := [row, row.(id := 2)];
    assert SchemaName("a") == "org_a";
    assert rows[..1] == [row] && [row][..0] == [];
    assert Judge(db, row) == Judge(db, row.(id := 2)) == Place("org_a", 7);
    assert Clashing(db, rows, 0, 1, "org_a");
    RunNext(State(db, EMPTY), [], row, true);
    RunNext(State(db, EMPTY), [row], row.(id := 2), true);
    RunNext(State(db, EMPTY), [], row, false);
    RunNext(State(db, EMPTY), [row], row.(id := 2), false);
    assert [row] + [row.(id := 2)] == rows && [] + [row] == [row];
    var once := Backfilled(db, [row], false);
    assert once.result == BackfillResult(1, 0, map[]);
    assert once.db["org_a"].table == [TenantRow("ad", 7, Some(1))];
    assert once.db["org_a"].table[0].slug == "ad";
    assert HasSlug(once.db["org_a"].table, "ad");
    assert Judge(once.db, rows[1]) == Leave(AlreadyCopied);
  }

  lemma {:induction false} RunNext(st: State, rows: seq<PublicRow>, row: PublicRow, dryRun: bool)
    ensures Run(st, rows + [row], dryRun) == Step(Run(st, rows, dryRun), row, dryRun)
  {
    assert (rows + [row])[..|rows|] == rows;
  }
}

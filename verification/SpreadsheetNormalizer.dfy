/**
  Renaming the columns of a spreadsheet by an approved mapping
  (backend/agent/column_registry.py, normalize_spreadsheet).
  A Python dict is a sequence of entries with distinct keys, in insertion order.
 */
module SpreadsheetNormalizer {
  const UNKNOWN: string := "unknown"

  type Row<V> = seq<(string, V)>

  datatype Sheet<V> = Sheet(name: string, columns: seq<string>, rows: seq<Row<V>>)
  datatype Book<V> = Book(name: string, sheets: seq<Sheet<V>>)

  type Mapping = map<string, string>

  /** The name a column gets: columns mapped to unknown, or not mapped, keep theirs. */
  function NewName(m: Mapping, col: string): string {
    if col in m && m[col] != UNKNOWN then m[col] else col
  }

  function Columns(m: Mapping, cols: seq<string>): (r: seq<string>)
    ensures |r| == |cols| && forall i :: 0 <= i < |cols| ==> r[i] == NewName(m, cols[i])
  {
    seq(|cols|, i requires 0 <= i < |cols| => NewName(m, cols[i]))
  }

  /** The key a row entry gets: only keys that are columns of the sheet are renamed. */
  function NewKey(m: Mapping, cols: seq<string>, key: string): string {
    if key in cols then NewName(m, key) else key
  }

  /** `d[k] = v` */
  function Put<V>(d: Row<V>, k: string, v: V): Row<V> {
    if d == [] then [(k, v)]
    else if d[0].0 == k then [(k, v)] + d[1..]
    else [d[0]] + Put(d[1..], k, v)
  }

  /** The first n entries of a row, put one after another under their new keys. */
  function RowUpTo<V>(m: Mapping, cols: seq<string>, row: Row<V>, n: nat): Row<V>
    requires n <= |row|
  {
    if n == 0 then [] else Put(RowUpTo(m, cols, row, n - 1), NewKey(m, cols, row[n - 1].0), row[n - 1].1)
  }

  function NewRow<V>(m: Mapping, cols: seq<string>, row: Row<V>): Row<V> {
    RowUpTo(m, cols, row, |row|)
  }

  function NewSheet<V>(m: Mapping, s: Sheet<V>): (r: Sheet<V>)
    ensures r.name == s.name && r.columns == Columns(m, s.columns) && |r.rows| == |s.rows|
    ensures forall i :: 0 <= i < |s.rows| ==> r.rows[i] == NewRow(m, s.columns, s.rows[i])
  {
    Sheet(s.name, Columns(m, s.columns), seq(|s.rows|, i requires 0 <= i < |s.rows| => NewRow(m, s.columns, s.rows[i])))
  }

  function Normalized<V>(m: Mapping, b: Book<V>): (r: Book<V>)
    ensures r.name == b.name && |r.sheets| == |b.sheets|
    ensures m != map[] ==> forall i :: 0 <= i < |b.sheets| ==> r.sheets[i] == NewSheet(m, b.sheets[i])
    ensures m == map[] ==> r == b
  {
    if m == map[] then b
    else Book(b.name, seq(|b.sheets|, i requires 0 <= i < |b.sheets| => NewSheet(m, b.sheets[i])))
  }

  method NormalizeSpreadsheet<V>(m: Mapping, b: Book<V>) returns (r: Book<V>)
    ensures r == Normalized(m, b)
  {
    if m == map[] {
      return b;
    }
    var sheets: seq<Sheet<V>> := [];
    for i := 0 to |b.sheets|
      invariant |sheets| == i && forall j :: 0 <= j < i ==> sheets[j] == NewSheet(m, b.sheets[j])
    {
      var sheet := NormalizeSheet(m, b.sheets[i]);
      sheets := sheets + [sheet];
    }
    return Book(b.name, sheets);
  }

  method NormalizeSheet<V>(m: Mapping, s: Sheet<V>) returns (r: Sheet<V>)
    ensures r == NewSheet(m, s)
  {
    var columns, renames := RenameColumns(m, s.columns);
    var rows: seq<Row<V>> := [];
    for i := 0 to |s.rows|
      invariant |rows| == i && forall j :: 0 <= j < i ==> rows[j] == NewRow(m, s.columns, s.rows[j])
    {
      var row := RenameKeys(m, s.columns, renames, s.rows[i]);
      rows := rows + [row];
    }
    return Sheet(s.name, columns, rows);
  }

  /** The new column names, and the new name of every old one. */
  method RenameColumns(m: Mapping, cols: seq<string>) returns (columns: seq<string>, renames: map<string, string>)
    ensures columns == Columns(m, cols)
    ensures forall k :: k in renames <==> k in cols
    ensures forall k :: k in renames ==> renames[k] == NewName(m, k)
  {
    columns, renames := [], map[];
    for i := 0 to |cols|
      invariant columns == Columns(m, cols[..i])
      invariant forall k :: k in renames <==> k in cols[..i]
      invariant forall k :: k in renames ==> renames[k] == NewName(m, k)
    {
      assert cols[..i + 1] == cols[..i] + [cols[i]];
      var canonical := if cols[i] in m then m[cols[i]] else cols[i];
      var name := if canonical == UNKNOWN then cols[i] else canonical;
      renames := renames[cols[i] := name];
      columns := columns + [name];
    }
    assert cols[..|cols|] == cols;
  }

  method RenameKeys<V>(m: Mapping, cols: seq<string>, renames: map<string, string>, cells: Row<V>) returns (row: Row<V>)
    requires forall k :: k in renames <==> k in cols
    requires forall k :: k in renames ==> renames[k] == NewName(m, k)
    ensures row == NewRow(m, cols, cells)
  {
    row := [];
    for k := 0 to |cells|
      invariant row == RowUpTo(m, cols, cells, k)
    {
      var key := cells[k].0;
      row := Put(row, if key in renames then renames[key] else key, cells[k].1);
    }
  }

  // ---- nothing is lost ----

  predicate IsDict<V>(row: Row<V>) {
    forall i, j :: 0 <= i < j < |row| ==> row[i].0 != row[j].0
  }

  /** A name of the sheet: of a column or of a row entry. */
  predicate Named<V>(s: Sheet<V>, k: string) {
    k in s.columns || exists i, j :: 0 <= i < |s.rows| && 0 <= j < |s.rows[i]| && s.rows[i][j].0 == k
  }

  /** The renaming keeps the names of a sheet apart. */
  ghost predicate Apart<V>(m: Mapping, s: Sheet<V>) {
    forall a, b :: Named(s, a) && Named(s, b) && NewKey(m, s.columns, a) == NewKey(m, s.columns, b) ==> a == b
  }

  ghost predicate SheetOk<V>(m: Mapping, s: Sheet<V>) {
    Apart(m, s) && forall i :: 0 <= i < |s.rows| ==> IsDict(s.rows[i])
  }

  lemma {:induction false} PutNew<V>(d: Row<V>, k: string, v: V)
    requires forall i :: 0 <= i < |d| ==> d[i].0 != k
    ensures Put(d, k, v) == d + [(k, v)]
  {
    if d != [] {
      PutNew(d[1..], k, v);
    }
  }

  /** The entries of a row under their new keys, the first n of them. */
  ghost predicate Renamed<V>(m: Mapping, cols: seq<string>, row: Row<V>, next: Row<V>, n: nat) {
    && |next| == n <= |row|
    && forall i :: 0 <= i < n ==> next[i] == (NewKey(m, cols, row[i].0), row[i].1)
  }

  /** In a sheet whose names stay apart the key of the next entry is not in use yet. */
  lemma {:induction false} NextKeyIsNew<V>(m: Mapping, s: Sheet<V>, r: nat, before: Row<V>, n: nat)
    requires SheetOk(m, s) && r < |s.rows| && n < |s.rows[r]| && Renamed(m, s.columns, s.rows[r], before, n)
    ensures forall i :: 0 <= i < |before| ==> before[i].0 != NewKey(m, s.columns, s.rows[r][n].0)
  {
    var row := s.rows[r];
    forall i | 0 <= i < n
      ensures before[i].0 != NewKey(m, s.columns, row[n].0)
    {
      assert row[i].0 != row[n].0;
      assert Named(s, row[i].0) && Named(s, row[n].0);
    }
  }

  lemma {:induction false} OneMoreRenamed<V>(m: Mapping, cols: seq<string>, row: Row<V>, before: Row<V>, n: nat)
    requires n < |row| && Renamed(m, cols, row, before, n)
    ensures Renamed(m, cols, row, before + [(NewKey(m, cols, row[n].0), row[n].1)], n + 1)
  {
  }

  /** Every entry of a row keeps its place and its value, under the new key. */
  lemma {:induction false} RowKept<V>(m: Mapping, s: Sheet<V>, r: nat, n: nat)
    requires SheetOk(m, s) && r < |s.rows| && n <= |s.rows[r]|
    ensures Renamed(m, s.columns, s.rows[r], RowUpTo(m, s.columns, s.rows[r], n), n)
  {
    if n > 0 {
      var row, before := s.rows[r], RowUpTo(m, s.columns, s.rows[r], n - 1);
      RowKept(m, s, r, n - 1);
      NextKeyIsNew(m, s, r, before, n - 1);
      PutNew(before, NewKey(m, s.columns, row[n - 1].0), row[n - 1].1);
      OneMoreRenamed(m, s.columns, row, before, n - 1);
    }
  }

  /** Columns are renamed as mapped, but never to unknown. */
  lemma {:induction false} ColumnsRenamed<V>(m: Mapping, s: Sheet<V>, c: nat)
    requires c < |s.columns|
    ensures
      var col := s.columns[c];
      NewSheet(m, s).columns[c] == if col !in m || m[col] == "unknown" then col else m[col]
  {
  }

  /** With names kept apart, every row entry keeps its position and value, renamed if its key is a mapped column. */
  lemma {:induction false} EntriesRenamed<V>(m: Mapping, s: Sheet<V>, r: nat, i: nat)
    requires SheetOk(m, s) && r < |s.rows| && i < |s.rows[r]|
    ensures
      var t, key := NewSheet(m, s), s.rows[r][i].0;
      && |t.rows| == |s.rows| && |t.rows[r]| == |s.rows[r]| && t.rows[r][i].1 == s.rows[r][i].1
      && t.rows[r][i].0 == if key !in s.columns || key !in m || m[key] == "unknown" then key else m[key]
  {
    CellsKept(m, s);
  }

  /** With names kept apart, every cell, row and column keeps its position. */
  lemma {:induction false} CellsKept<V>(m: Mapping, s: Sheet<V>)
    requires SheetOk(m, s)
    ensures
      var t := NewSheet(m, s);
      && |t.columns| == |s.columns| && |t.rows| == |s.rows|
      && (forall r :: 0 <= r < |s.rows| ==> |t.rows[r]| == |s.rows[r]| && IsDict(t.rows[r]))
      && (forall r, i :: 0 <= r < |s.rows| && 0 <= i < |s.rows[r]| ==>
            t.rows[r][i] == (NewKey(m, s.columns, s.rows[r][i].0), s.rows[r][i].1))
  {
    var t := NewSheet(m, s);
    forall r | 0 <= r < |s.rows|
      ensures |t.rows[r]| == |s.rows[r]| && IsDict(t.rows[r])
      ensures forall i :: 0 <= i < |s.rows[r]| ==>
        t.rows[r][i] == (NewKey(m, s.columns, s.rows[r][i].0), s.rows[r][i].1)
    {
      RowKept(m, s, r, |s.rows[r]|);
      var row, next := s.rows[r], t.rows[r];
      forall i, j | 0 <= i < j < |next|
        ensures next[i].0 != next[j].0
      {
        assert row[i].0 != row[j].0;
        assert Named(s, row[i].0) && Named(s, row[j].0);
      }
    }
  }

  // ---- when names clash ----

  lemma {:induction false} TailIsDict<V>(d: Row<V>)
    requires d != [] && IsDict(d)
    ensures IsDict(d[1..]) && forall e :: e in d[1..] ==> e.0 != d[0].0
  {
    forall e | e in d[1..]
      ensures e.0 != d[0].0
    {
      var i :| 0 <= i < |d[1..]| && d[1..][i] == e;
      assert d[i + 1] == e;
    }
  }

  lemma {:induction false} PutMembers<V>(d: Row<V>, k: string, v: V, e: (string, V))
    requires IsDict(d)
    ensures e in Put(d, k, v) <==> e == (k, v) || (e in d && e.0 != k)
  {
    if d != [] {
      TailIsDict(d);
      assert d == [d[0]] + d[1..];
      if d[0].0 != k {
        PutMembers(d[1..], k, v, e);
      }
    }
  }

  lemma {:induction false} InFront<V>(e: (string, V), d: Row<V>)
    requires IsDict(d) && forall x :: x in d ==> x.0 != e.0
    ensures IsDict([e] + d)
  {
    assert forall j :: 0 <= j < |d| ==> d[j] in d;
  }

  lemma {:induction false} PutIsDict<V>(d: Row<V>, k: string, v: V)
    requires IsDict(d)
    ensures IsDict(Put(d, k, v))
  {
    if d != [] {
      TailIsDict(d);
      if d[0].0 == k {
        InFront((k, v), d[1..]);
      } else {
        PutIsDict(d[1..], k, v);
        forall e | e in Put(d[1..], k, v)
          ensures e.0 != d[0].0
        {
          PutMembers(d[1..], k, v, e);
        }
        InFront(d[0], Put(d[1..], k, v));
      }
    }
  }

  /** Where several entries get one key, the last one's value is kept: each key of the new row is there once. */
  lemma {:induction false} LastEntryWins<V>(m: Mapping, cols: seq<string>, row: Row<V>, n: nat, i: nat)
    requires i < n <= |row|
    requires forall j :: i < j < n ==> NewKey(m, cols, row[j].0) != NewKey(m, cols, row[i].0)
    ensures IsDict(RowUpTo(m, cols, row, n))
    ensures (NewKey(m, cols, row[i].0), row[i].1) in RowUpTo(m, cols, row, n)
  {
    RowIsDict(m, cols, row, n);
    RowIsDict(m, cols, row, n - 1);
    PutMembers(RowUpTo(m, cols, row, n - 1), NewKey(m, cols, row[n - 1].0), row[n - 1].1,
               (NewKey(m, cols, row[i].0), row[i].1));
    if i < n - 1 {
      LastEntryWins(m, cols, row, n - 1, i);
    }
  }

  lemma {:induction false} RowIsDict<V>(m: Mapping, cols: seq<string>, row: Row<V>, n: nat)
    requires n <= |row|
    ensures IsDict(RowUpTo(m, cols, row, n))
  {
    if n > 0 {
      RowIsDict(m, cols, row, n - 1);
      PutIsDict(RowUpTo(m, cols, row, n - 1), NewKey(m, cols, row[n - 1].0), row[n - 1].1);
    }
  }

  // ---- and back ----

  predicate ColumnOf<V>(b: Book<V>, c: string) {
    exists i :: 0 <= i < |b.sheets| && c in b.sheets[i].columns
  }

  ghost predicate BookOk<V>(m: Mapping, b: Book<V>) {
    && (forall i :: 0 <= i < |b.sheets| ==> SheetOk(m, b.sheets[i]))
    && (forall a, c :: ColumnOf(b, a) && ColumnOf(b, c) && NewName(m, a) == NewName(m, c) ==> a == c)
  }

  /** The mapping that takes each new column name back to the old. */
  ghost predicate Inverse<V>(m: Mapping, back: Mapping, b: Book<V>) {
    && (forall c :: ColumnOf(b, c) ==> NewName(m, c) in back && back[NewName(m, c)] == c)
    && (forall k :: k in back ==> exists c :: ColumnOf(b, c) && NewName(m, c) == k)
  }

  /** A column that is really called unknown is renamed: its name cannot be given back. */
  ghost predicate LosesUnknown<V>(m: Mapping, b: Book<V>) {
    ColumnOf(b, UNKNOWN) && NewName(m, UNKNOWN) != UNKNOWN
  }

  lemma {:induction false} KeyComesBack<V>(m: Mapping, back: Mapping, b: Book<V>, i: nat, k: string)
    requires BookOk(m, b) && Inverse(m, back, b) && !LosesUnknown(m, b) && i < |b.sheets| && Named(b.sheets[i], k)
    ensures NewKey(back, Columns(m, b.sheets[i].columns), NewKey(m, b.sheets[i].columns, k)) == k
  {
    var s := b.sheets[i];
    var cols := Columns(m, s.columns);
    if k in s.columns {
      var j :| 0 <= j < |s.columns| && s.columns[j] == k;
      assert cols[j] == NewName(m, k);
      assert ColumnOf(b, k);
    } else if k in cols {
      var j :| 0 <= j < |cols| && cols[j] == k;
      assert Named(s, s.columns[j]) && NewKey(m, s.columns, s.columns[j]) == k;
    }
  }

  lemma {:induction false} SheetComesBack<V>(m: Mapping, back: Mapping, b: Book<V>, i: nat)
    requires BookOk(m, b) && Inverse(m, back, b) && !LosesUnknown(m, b) && i < |b.sheets|
    ensures NewSheet(back, NewSheet(m, b.sheets[i])) == b.sheets[i]
  {
    var s := b.sheets[i];
    var t := NewSheet(m, s);
    CellsKept(m, s);
    assert SheetOk(back, t) by {
      forall a, c | Named(t, a) && Named(t, c) && NewKey(back, t.columns, a) == NewKey(back, t.columns, c)
        ensures a == c
      {
        var a0 := OldName(m, s, a);
        var c0 := OldName(m, s, c);
        KeyComesBack(m, back, b, i, a0);
        KeyComesBack(m, back, b, i, c0);
      }
    }
    CellsKept(back, t);
    var u := NewSheet(back, t);
    forall j | 0 <= j < |s.columns|
      ensures u.columns[j] == s.columns[j]
    {
      assert s.columns[j] in s.columns && Named(s, s.columns[j]);
      KeyComesBack(m, back, b, i, s.columns[j]);
      assert t.columns[j] in t.columns;
    }
    forall r | 0 <= r < |s.rows|
      ensures u.rows[r] == s.rows[r]
    {
      forall j | 0 <= j < |s.rows[r]|
        ensures u.rows[r][j] == s.rows[r][j]
      {
        assert Named(s, s.rows[r][j].0);
        KeyComesBack(m, back, b, i, s.rows[r][j].0);
      }
    }
  }

  /** A name of the renamed sheet comes from a name of the sheet. */
  lemma {:induction false} OldName<V>(m: Mapping, s: Sheet<V>, k: string) returns (oldName: string)
    requires SheetOk(m, s) && Named(NewSheet(m, s), k)
    ensures Named(s, oldName) && NewKey(m, s.columns, oldName) == k
  {
    var t := NewSheet(m, s);
    CellsKept(m, s);
    if k in t.columns {
      var j :| 0 <= j < |t.columns| && t.columns[j] == k;
      oldName := s.columns[j];
    } else {
      var r, j :| 0 <= r < |t.rows| && 0 <= j < |t.rows[r]| && t.rows[r][j].0 == k;
      oldName := s.rows[r][j].0;
    }
  }

  /**
    Normalising with a mapping that keeps names apart and then with its inverse
    gives the spreadsheet back exactly when no column called unknown was renamed.
   */
  lemma {:induction false} RoundTripExactlyWhen<V>(m: Mapping, back: Mapping, b: Book<V>)
    requires BookOk(m, b) && Inverse(m, back, b)
    ensures Normalized(back, Normalized(m, b)) == b <==> !LosesUnknown(m, b)
  {
    if m == map[] {
      IdentityBack(back, b);
    } else if !LosesUnknown(m, b) {
      forall i | 0 <= i < |b.sheets|
        ensures NewSheet(back, NewSheet(m, b.sheets[i])) == b.sheets[i]
      {
        SheetComesBack(m, back, b, i);
      }
      if back == map[] {
        NoColumns(m, back, b);
      }
    } else {
      var i :| 0 <= i < |b.sheets| && UNKNOWN in b.sheets[i].columns;
      var s := b.sheets[i];
      var j :| 0 <= j < |s.columns| && s.columns[j] == UNKNOWN;
      assert ColumnOf(b, UNKNOWN) && NewName(m, UNKNOWN) in back;
      assert NewSheet(back, NewSheet(m, s)).columns[j] == NewName(back, NewName(m, UNKNOWN));
      assert Normalized(back, Normalized(m, b)).sheets[i].columns[j] != UNKNOWN;
    }
  }

  lemma {:induction false} NoColumns<V>(m: Mapping, back: Mapping, b: Book<V>)
    requires BookOk(m, b) && Inverse(m, back, b) && back == map[] && m != map[]
    ensures Normalized(m, b) == b
  {
    forall i | 0 <= i < |b.sheets|
      ensures NewSheet(m, b.sheets[i]) == b.sheets[i]
    {
      var s := b.sheets[i];
      CellsKept(m, s);
      if s.columns != [] {
        assert s.columns[0] in s.columns;
        assert ColumnOf(b, s.columns[0]);
      }
      var t := NewSheet(m, s);
      forall r | 0 <= r < |s.rows|
        ensures t.rows[r] == s.rows[r]
      {
        assert forall j :: 0 <= j < |s.rows[r]| ==> t.rows[r][j] == s.rows[r][j];
      }
    }
  }

  /** The empty mapping changes nothing, and its inverse is the identity on column names. */
  lemma {:induction false} IdentityBack<V>(back: Mapping, b: Book<V>)
    requires BookOk(map[], b) && Inverse(map[], back, b)
    ensures Normalized(back, b) == b
  {
    assert forall c :: NewName(map[], c) == c;
    assert forall c :: NewName(back, c) == c;
    if back != map[] {
      forall i | 0 <= i < |b.sheets|
        ensures NewSheet(back, b.sheets[i]) == b.sheets[i]
      {
        var s := b.sheets[i];
        assert SheetOk(back, s);
        CellsKept(back, s);
        var t := NewSheet(back, s);
        forall r | 0 <= r < |s.rows|
          ensures t.rows[r] == s.rows[r]
        {
          assert forall j :: 0 <= j < |s.rows[r]| ==> t.rows[r][j] == s.rows[r][j];
        }
      }
    }
  }

  /** A column called unknown that is mapped to x comes back as x. */
  lemma {:induction false} UnknownStaysRenamed()
    ensures
      var b: Book<int> := Book("b", [Sheet("s", [UNKNOWN], [])]);
      var m, back := map[UNKNOWN := "x"], map["x" := UNKNOWN];
      && BookOk(m, b) && Inverse(m, back, b)
      && Normalized(m, b) == Book("b", [Sheet("s", ["x"], [])])
      && Normalized(back, Normalized(m, b)) == Normalized(m, b) != b
  {
    var s: Sheet<int> := Sheet("s", [UNKNOWN], []);
    var b: Book<int> := Book("b", [s]);
    var m, back := map[UNKNOWN := "x"], map["x" := UNKNOWN];
    var t: Sheet<int> := Sheet("s", ["x"], []);
    assert "x" != UNKNOWN by {
      assert |"x"| != |UNKNOWN|;
    }
    assert forall c :: ColumnOf(b, c) ==> c == UNKNOWN;
    assert ColumnOf(b, UNKNOWN) by {
      assert UNKNOWN in b.sheets[0].columns;
    }
    assert NewSheet(m, s) == t;
    assert NewSheet(back, t) == t;
    assert Normalized(m, b).sheets == [t];
    assert Normalized(back, Normalized(m, b)).sheets == [t];
    assert t.columns[0] != s.columns[0];
  }
}

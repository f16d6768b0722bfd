/**
  Grouping the items of a frame into columns
  (backend/agent/miro_generation.py, _cluster_frame_columns).
 */
module BoardColumns {

  /** An item of the frame: its index on the board and where it was put. */
  datatype Spot = Spot(i: nat, x: real, y: real)
  type Column = seq<Spot>

  const THRESHOLD: real := 120.0

  // ---- the two sorts ----

  /** Sort key (x, y), or (y, x). */
  predicate Le(byX: bool, a: Spot, b: Spot) {
    var (a1, a2) := if byX then (a.x, a.y) else (a.y, a.x);
    var (b1, b2) := if byX then (b.x, b.y) else (b.y, b.x);
    a1 < b1 || (a1 == b1 && a2 <= b2)
  }

  /** How many sorted spots stay in front of s: equal ones do, so the sort is stable. */
  function Place(byX: bool, s: Spot, sorted: Column): (k: nat)
    ensures k <= |sorted|
    ensures forall j :: 0 <= j < k ==> Le(byX, sorted[j], s)
    ensures k < |sorted| ==> !Le(byX, sorted[k], s)
  {
    if sorted == [] || !Le(byX, sorted[0], s) then 0 else 1 + Place(byX, s, sorted[1..])
  }

  function Insert(byX: bool, s: Spot, sorted: Column): Column {
    var k := Place(byX, s, sorted);
    sorted[..k] + [s] + sorted[k..]
  }

  function Sort(byX: bool, spots: Column): Column {
    if spots == [] then [] else Insert(byX, spots[|spots| - 1], Sort(byX, spots[..|spots| - 1]))
  }

  ghost predicate Ordered(byX: bool, spots: Column) {
    forall j, k :: 0 <= j < k < |spots| ==> Le(byX, spots[j], spots[k])
  }

  ghost predicate Distinct(spots: Column) {
    forall j, k :: 0 <= j < k < |spots| ==> spots[j].i != spots[k].i
  }

  lemma {:induction false} InsertSorts(byX: bool, s: Spot, sorted: Column)
    requires Ordered(byX, sorted)
    ensures Ordered(byX, Insert(byX, s, sorted))
  {
    var n, r := Place(byX, s, sorted), Insert(byX, s, sorted);
    forall j, k | 0 <= j < k < |r|
      ensures Le(byX, r[j], r[k])
    {
      assert k > n ==> r[k] == sorted[k - 1];
      assert j > n ==> r[j] == sorted[j - 1];
      if j == n {
        assert Le(byX, sorted[n], sorted[k - 1]);
      }
    }
  }

  lemma {:induction false} InsertMembers(byX: bool, s: Spot, sorted: Column)
    ensures |Insert(byX, s, sorted)| == |sorted| + 1
    ensures forall t :: t in Insert(byX, s, sorted) <==> t == s || t in sorted
  {
    var n := Place(byX, s, sorted);
    assert sorted == sorted[..n] + sorted[n..];
  }

  lemma {:induction false} InsertDistinct(byX: bool, s: Spot, sorted: Column)
    requires Distinct(sorted) && forall t :: t in sorted ==> t.i != s.i
    ensures Distinct(Insert(byX, s, sorted))
  {
    var n, r := Place(byX, s, sorted), Insert(byX, s, sorted);
    forall j, k | 0 <= j < k < |r|
      ensures r[j].i != r[k].i
    {
      assert r[j] == if j < n then sorted[j] else if j == n then s else sorted[j - 1];
      assert r[k] == if k < n then sorted[k] else if k == n then s else sorted[k - 1];
    }
  }

  /** The sort is one: an ordered rearrangement that loses and doubles nothing. */
  lemma {:induction false} SortSorts(byX: bool, spots: Column)
    requires Distinct(spots)
    ensures Ordered(byX, Sort(byX, spots)) && Distinct(Sort(byX, spots)) && |Sort(byX, spots)| == |spots|
    ensures forall t :: t in Sort(byX, spots) <==> t in spots
  {
    if spots != [] {
      var n := |spots| - 1;
      assert spots == spots[..n] + [spots[n]];
      SortSorts(byX, spots[..n]);
      InsertSorts(byX, spots[n], Sort(byX, spots[..n]));
      InsertMembers(byX, spots[n], Sort(byX, spots[..n]));
      InsertDistinct(byX, spots[n], Sort(byX, spots[..n]));
    }
  }

  // ---- clustering ----

  function SumX(col: Column): real {
    if col == [] then 0.0 else SumX(col[..|col| - 1]) + col[|col| - 1].x
  }

  /** The spot is within the threshold of the column's mean. */
  predicate Near(col: Column, s: Spot) {
    col != [] &&
    var d := s.x - SumX(col) / |col| as real;
    -THRESHOLD <= d <= THRESHOLD
  }

  /** The first column the spot is near to, or |cols|. */
  function FirstNear(cols: seq<Column>, s: Spot): (c: nat)
    ensures c <= |cols|
    ensures forall d :: 0 <= d < c ==> !Near(cols[d], s)
    ensures c < |cols| ==> Near(cols[c], s)
  {
    if cols == [] || Near(cols[0], s) then 0 else 1 + FirstNear(cols[1..], s)
  }

  function Join(cols: seq<Column>, s: Spot): seq<Column> {
    var c := FirstNear(cols, s);
    if c == |cols| then cols + [[s]] else cols[c := cols[c] + [s]]
  }

  /** The columns after the first n spots have joined. */
  function Grouped(spots: Column, n: nat): seq<Column>
    requires n <= |spots|
  {
    if n == 0 then [] else Join(Grouped(spots, n - 1), spots[n - 1])
  }

  function SortAll(cols: seq<Column>): (r: seq<Column>)
    ensures |r| == |cols| && forall c :: 0 <= c < |cols| ==> r[c] == Sort(false, cols[c])
  {
    seq(|cols|, c requires 0 <= c < |cols| => Sort(false, cols[c]))
  }

  function Cluster(spots: Column): seq<Column> {
    var sorted := Sort(true, spots);
    SortAll(Grouped(sorted, |sorted|))
  }

  method ClusterFrameColumns(spots: Column) returns (cols: seq<Column>)
    ensures cols == Cluster(spots)
  {
    cols := [];
    var sorted := Sort(true, spots);
    for n := 0 to |sorted|
      invariant cols == Grouped(sorted, n)
    {
      var placed := false;
      for c := 0 to |cols|
        invariant cols == Grouped(sorted, n) && !placed
        invariant forall d :: 0 <= d < c ==> !Near(cols[d], sorted[n])
      {
        if Near(cols[c], sorted[n]) {
          FirstNearIs(cols, sorted[n], c);
          cols := cols[c := cols[c] + [sorted[n]]];
          placed := true;
          break;
        }
      }
      if !placed {
        FirstNearIs(cols, sorted[n], |cols|);
        cols := cols + [[sorted[n]]];
      }
    }
    ghost var grouped := cols;
    for c := 0 to |cols|
      invariant |cols| == |grouped|
      invariant forall d :: 0 <= d < c ==> cols[d] == Sort(false, grouped[d])
      invariant forall d :: c <= d < |cols| ==> cols[d] == grouped[d]
    {
      cols := cols[c := Sort(false, cols[c])];
    }
    assert cols == SortAll(grouped);
  }

  lemma {:induction false} FirstNearIs(cols: seq<Column>, s: Spot, c: nat)
    requires c <= |cols| && (forall d :: 0 <= d < c ==> !Near(cols[d], s)) && (c < |cols| ==> Near(cols[c], s))
    ensures FirstNear(cols, s) == c
  {
  }

  // ---- columns partition the items ----

  predicate InSome(cols: seq<Column>, t: Spot) {
    exists c :: 0 <= c < |cols| && t in cols[c]
  }

  /** Only spots of the frame are in the columns, and no column is empty. */
  ghost predicate Sound(cols: seq<Column>, spots: Column) {
    forall c :: 0 <= c < |cols| ==> cols[c] != [] && forall k :: 0 <= k < |cols[c]| ==> cols[c][k] in spots
  }

  /** No item is in two places. */
  ghost predicate Unrepeated(cols: seq<Column>) {
    && (forall c :: 0 <= c < |cols| ==> Distinct(cols[c]))
    && (forall c, d, j, k :: 0 <= c < d < |cols| && 0 <= j < |cols[c]| && 0 <= k < |cols[d]| ==>
          cols[c][j].i != cols[d][k].i)
  }

  /** Every spot is in exactly one column, at one place; no column is empty. */
  ghost predicate Partition(cols: seq<Column>, spots: Column) {
    Sound(cols, spots) && Unrepeated(cols) && forall t {:trigger InSome(cols, t)} :: t in spots ==> InSome(cols, t)
  }

  lemma {:induction false} JoinCovers(cols: seq<Column>, s: Spot, t: Spot)
    requires InSome(cols, t) || t == s
    ensures InSome(Join(cols, s), t)
  {
    var n, r := FirstNear(cols, s), Join(cols, s);
    if t == s {
      assert s in r[n];
    } else {
      var c :| 0 <= c < |cols| && t in cols[c];
      assert t in r[c];
    }
  }

  lemma {:induction false} JoinSound(cols: seq<Column>, spots: Column, s: Spot)
    requires Sound(cols, spots)
    ensures Sound(Join(cols, s), spots + [s])
  {
    var n, r := FirstNear(cols, s), Join(cols, s);
    forall c | 0 <= c < |r|
      ensures r[c] != [] && forall k :: 0 <= k < |r[c]| ==> r[c][k] in spots + [s]
    {
      assert c != n ==> r[c] == cols[c];
      assert r[n] == (if n < |cols| then cols[n] else []) + [s];
    }
  }

  lemma {:induction false} JoinUnrepeated(cols: seq<Column>, spots: Column, s: Spot)
    requires Sound(cols, spots) && Unrepeated(cols) && forall t :: t in spots ==> t.i != s.i
    ensures Unrepeated(Join(cols, s))
  {
    var n, r := FirstNear(cols, s), Join(cols, s);
    var before := if n < |cols| then cols[n] else [];
    assert r[n] == before + [s];
    forall c, j | 0 <= c < |cols| && 0 <= j < |cols[c]|
      ensures cols[c][j].i != s.i
    {
      assert cols[c][j] in spots;
    }
    forall c, d, j, k | 0 <= c < d < |r| && 0 <= j < |r[c]| && 0 <= k < |r[d]|
      ensures r[c][j].i != r[d][k].i
    {
      assert c != n ==> r[c] == cols[c];
      assert d != n ==> r[d] == cols[d];
    }
    forall c | 0 <= c < |r|
      ensures Distinct(r[c])
    {
      assert c != n ==> r[c] == cols[c];
    }
  }

  lemma {:induction false} GroupedPartitions(spots: Column, n: nat)
    requires Distinct(spots) && n <= |spots|
    ensures Partition(Grouped(spots, n), spots[..n])
  {
    if n > 0 {
      var s, init, cols := spots[n - 1], spots[..n - 1], Grouped(spots, n - 1);
      GroupedPartitions(spots, n - 1);
      assert spots[..n] == init + [s];
      JoinSound(cols, init, s);
      JoinUnrepeated(cols, init, s);
      forall t | t in spots[..n]
        ensures InSome(Grouped(spots, n), t)
      {
        JoinCovers(cols, s, t);
      }
    }
  }

  lemma {:induction false} SortAllKeeps(cols: seq<Column>, c: nat)
    requires c < |cols| && Distinct(cols[c])
    ensures |SortAll(cols)[c]| == |cols[c]| && Distinct(SortAll(cols)[c]) && Ordered(false, SortAll(cols)[c])
    ensures forall t :: t in SortAll(cols)[c] <==> t in cols[c]
  {
    SortSorts(false, cols[c]);
  }

  lemma {:induction false} SortAllUnrepeated(cols: seq<Column>)
    requires Unrepeated(cols)
    ensures Unrepeated(SortAll(cols))
  {
    var r: seq<Column> := SortAll(cols);
    forall c | 0 <= c < |cols|
      ensures Distinct(r[c])
    {
      SortAllKeeps(cols, c);
    }
    forall c, d, j, k | 0 <= c < d < |r| && 0 <= j < |r[c]| && 0 <= k < |r[d]|
      ensures r[c][j].i != r[d][k].i
    {
      SortAllKeeps(cols, c);
      SortAllKeeps(cols, d);
      var a, b := r[c][j], r[d][k];
      assert a in r[c] && b in r[d];
      var j0 :| 0 <= j0 < |cols[c]| && cols[c][j0] == a;
      var k0 :| 0 <= k0 < |cols[d]| && cols[d][k0] == b;
    }
  }

  lemma {:induction false} SortAllSound(cols: seq<Column>, spots: Column)
    requires Sound(cols, spots) && Unrepeated(cols)
    ensures Sound(SortAll(cols), spots)
  {
    forall c | 0 <= c < |cols|
      ensures SortAll(cols)[c] != [] && forall k :: 0 <= k < |SortAll(cols)[c]| ==> SortAll(cols)[c][k] in spots
    {
      SortAllKeeps(cols, c);
      forall t | t in SortAll(cols)[c]
        ensures t in spots
      {
        var k :| 0 <= k < |cols[c]| && cols[c][k] == t;
      }
    }
  }

  lemma {:induction false} SortAllCovers(cols: seq<Column>, t: Spot)
    requires Unrepeated(cols) && InSome(cols, t)
    ensures InSome(SortAll(cols), t)
  {
    var c :| 0 <= c < |cols| && t in cols[c];
    SortAllKeeps(cols, c);
    assert t in SortAll(cols)[c];
  }

  lemma {:induction false} SortAllPartitions(cols: seq<Column>, spots: Column)
    requires Partition(cols, spots)
    ensures Partition(SortAll(cols), spots)
  {
    SortAllUnrepeated(cols);
    SortAllSound(cols, spots);
    forall t | t in spots
      ensures InSome(SortAll(cols), t)
    {
      SortAllCovers(cols, t);
    }
  }

  lemma {:induction false} SameMembersPartition(cols: seq<Column>, a: Column, b: Column)
    requires Partition(cols, a) && forall t :: t in a <==> t in b
    ensures Partition(cols, b)
  {
  }

  /** The columns partition the items exactly, and within a column the original order from top to bottom is kept. */
  lemma {:induction false} ClusterPartitions(spots: Column)
    requires Distinct(spots)
    ensures Partition(Cluster(spots), spots)
    ensures forall c :: 0 <= c < |Cluster(spots)| ==> Ordered(false, Cluster(spots)[c])
  {
    var sorted := Sort(true, spots);
    SortSorts(true, spots);
    GroupedPartitions(sorted, |sorted|);
    assert sorted[..|sorted|] == sorted;
    SortAllPartitions(Grouped(sorted, |sorted|), sorted);
    SameMembersPartition(Cluster(spots), sorted, spots);
    forall c | 0 <= c < |Cluster(spots)|
      ensures Ordered(false, Cluster(spots)[c])
    {
      SortAllKeeps(Grouped(sorted, |sorted|), c);
    }
  }
}

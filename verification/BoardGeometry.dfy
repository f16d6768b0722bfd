/**
  Where the layout of a board puts things, in numbers: the columns, the items
  in them, the frames around them, and the height of their text
  (backend/agent/miro_generation.py).
 */
module BoardGeometry {
  import opened BoardText
  import opened BoardColumns
  import opened BoardLayout

  // ---- which items share a column ----

  ghost predicate Below(col: Column, a: real) {
    forall k :: 0 <= k < |col| ==> col[k].x <= a
  }

  ghost predicate Beyond(col: Column, b: real) {
    forall k :: 0 <= k < |col| ==> col[k].x >= b
  }

  lemma {:induction false} SumBelow(col: Column, a: real)
    requires Below(col, a)
    ensures SumX(col) <= a * |col| as real
  {
    if col != [] {
      SumBelow(col[..|col| - 1], a);
    }
  }

  lemma {:induction false} SumBeyond(col: Column, b: real)
    requires Beyond(col, b)
    ensures SumX(col) >= b * |col| as real
  {
    if col != [] {
      SumBeyond(col[..|col| - 1], b);
    }
  }

  lemma {:induction false} Quotient(sum: real, n: real, a: real)
    requires n > 0.0
    ensures sum <= a * n ==> sum / n <= a
    ensures sum >= a * n ==> sum / n >= a
  {
    var q := sum / n;
    assert sum == q * n;
    if q > a {
      assert (q - a) * n > 0.0;
    }
    if q < a {
      assert (a - q) * n > 0.0;
    }
  }

  /** The mean of a column lies between its bounds. */
  lemma {:induction false} MeanBetween(col: Column, a: real, b: real)
    requires col != []
    ensures Below(col, a) ==> SumX(col) / |col| as real <= a
    ensures Beyond(col, b) ==> SumX(col) / |col| as real >= b
  {
    if Below(col, a) {
      SumBelow(col, a);
      Quotient(SumX(col), |col| as real, a);
    }
    if Beyond(col, b) {
      SumBeyond(col, b);
      Quotient(SumX(col), |col| as real, b);
    }
  }

  ghost predicate OnOneSide(col: Column, a: real, b: real) {
    Below(col, a) || Beyond(col, b)
  }

  ghost predicate AllOnOneSide(cols: seq<Column>, a: real, b: real) {
    forall c :: 0 <= c < |cols| ==> cols[c] != [] && OnOneSide(cols[c], a, b)
  }

  lemma {:induction false} JoinsItsSide(cols: seq<Column>, s: Spot, a: real, b: real)
    requires AllOnOneSide(cols, a, b) && b - a > 120.0 && (s.x <= a || s.x >= b)
    ensures AllOnOneSide(Join(cols, s), a, b)
  {
    var c := FirstNear(cols, s);
    if c < |cols| {
      var joined := cols[c] + [s];
      MeanBetween(cols[c], a, b);
      if Below(cols[c], a) {
        assert s.x <= a;
        assert Below(joined, a);
      } else {
        assert s.x >= b;
        assert Beyond(joined, b);
      }
      assert OnOneSide(Join(cols, s)[c], a, b);
    } else {
      assert OnOneSide([s], a, b) by {
        assert Below([s], a) || Beyond([s], b);
      }
    }
  }

  lemma {:induction false} GroupedOnSides(spots: Column, n: nat, a: real, b: real)
    requires n <= |spots| && b - a > 120.0
    requires forall k :: 0 <= k < |spots| ==> spots[k].x <= a || spots[k].x >= b
    ensures AllOnOneSide(Grouped(spots, n), a, b)
  {
    if n > 0 {
      GroupedOnSides(spots, n - 1, a, b);
      JoinsItsSide(Grouped(spots, n - 1), spots[n - 1], a, b);
    }
  }

  /** Where a horizontal strip of more than 120 holds no item, no column has items on both sides of it. */
  lemma {:induction false} GapsSeparate(spots: Column, a: real, b: real)
    requires Distinct(spots) && b - a > 120.0
    requires forall s :: s in spots ==> s.x <= a || s.x >= b
    ensures
      var cols := Cluster(spots);
      forall c, j, k :: 0 <= c < |cols| && 0 <= j < |cols[c]| && 0 <= k < |cols[c]| ==>
        (cols[c][j].x <= a <==> cols[c][k].x <= a)
  {
    var sorted := Sort(true, spots);
    SortSorts(true, spots);
    assert forall k :: 0 <= k < |sorted| ==> sorted[k] in spots;
    GroupedOnSides(sorted, |sorted|, a, b);
    GroupedPartitions(sorted, |sorted|);
    var groups: seq<Column>, cols: seq<Column> := Grouped(sorted, |sorted|), Cluster(spots);
    forall c, j, k | 0 <= c < |cols| && 0 <= j < |cols[c]| && 0 <= k < |cols[c]|
      ensures cols[c][j].x <= a <==> cols[c][k].x <= a
    {
      SortAllKeeps(groups, c);
      OneSideOnly(groups[c], cols[c], a, b, j, k);
    }
  }

  lemma {:induction false} OneSideOnly(group: Column, col: Column, a: real, b: real, j: nat, k: nat)
    requires OnOneSide(group, a, b) && a < b && j < |col| && k < |col|
    requires forall t :: t in col <==> t in group
    ensures col[j].x <= a <==> col[k].x <= a
  {
    assert col[j] in group && col[k] in group;
    var m :| 0 <= m < |group| && group[m] == col[j];
    var n :| 0 <= n < |group| && group[n] == col[k];
  }

  lemma {:induction false} GroupedInOne(spots: Column, n: nat, a: real)
    requires n <= |spots| && forall k :: 0 <= k < |spots| ==> a <= spots[k].x <= a + 120.0
    ensures
      var groups := Grouped(spots, n);
      if n == 0 then groups == []
      else |groups| == 1 && groups[0] != [] && Beyond(groups[0], a) && Below(groups[0], a + 120.0)
  {
    if n > 1 {
      GroupedInOne(spots, n - 1, a);
      var groups, s := Grouped(spots, n - 1), spots[n - 1];
      MeanBetween(groups[0], a + 120.0, a);
      FirstNearIs(groups, s, 0);
    }
  }

  /** Items within 120 of one another stand in one column. */
  lemma {:induction false} CloseItemsShareColumn(spots: Column, a: real)
    requires Distinct(spots) && spots != [] && forall s :: s in spots ==> a <= s.x <= a + 120.0
    ensures |Cluster(spots)| == 1 && |Cluster(spots)[0]| == |spots|
  {
    var sorted := Sort(true, spots);
    SortSorts(true, spots);
    assert forall k :: 0 <= k < |sorted| ==> sorted[k] in spots;
    GroupedInOne(sorted, |sorted|, a);
    GroupSize(sorted, |sorted|);
    SortSize(false, Grouped(sorted, |sorted|)[0]);
  }

  lemma {:induction false} GroupSize(spots: Column, n: nat)
    requires n <= |spots|
    ensures |Grouped(spots, n)| == 1 ==> |Grouped(spots, n)[0]| == n
    ensures |Grouped(spots, n)| >= 1 <==> n >= 1
  {
    if n > 0 {
      GroupSize(spots, n - 1);
    }
  }

  lemma {:induction false} SortSize(byX: bool, spots: Column)
    ensures |Sort(byX, spots)| == |spots|
  {
    if spots != [] {
      SortSize(byX, spots[..|spots| - 1]);
    }
  }

  /** The mean of the column is at most 120 away from x, with the column's size multiplied out. */
  predicate NearMean(col: Column, x: real) {
    var n := |col| as real;
    col != [] && -(120.0 * n) <= x * n - SumX(col) <= 120.0 * n
  }

  lemma {:induction false} NearMeanIsNear(col: Column, s: Spot)
    ensures NearMean(col, s.x) <==> Near(col, s)
  {
    if col != [] {
      Multiplied(s.x, SumX(col), |col| as real);
    }
  }

  lemma {:induction false} Multiplied(x: real, sum: real, n: real)
    requires n > 0.0
    ensures -(120.0 * n) <= x * n - sum <= 120.0 * n <==> -120.0 <= x - sum / n <= 120.0
  {
    Whole(sum, n);
    Spread(x, sum / n, n);
    Within(x - sum / n, n, x * n - sum);
  }

  lemma {:induction false} Spread(x: real, mean: real, n: real)
    ensures (x - mean) * n == x * n - mean * n
  {
  }

  lemma {:induction false} Within(d: real, n: real, product: real)
    requires n > 0.0 && product == d * n
    ensures product <= 120.0 * n <==> d <= 120.0
    ensures -(120.0 * n) <= product <==> -120.0 <= d
  {
    AtMost(d, n, product, 120.0);
    AtMost(-d, n, -product, 120.0);
  }

  lemma {:induction false} AtMost(d: real, n: real, product: real, b: real)
    requires n > 0.0 && product == d * n
    ensures product <= b * n <==> d <= b
  {
    if d > b {
      assert (d - b) * n > 0.0;
    } else {
      assert (b - d) * n >= 0.0;
    }
  }

  /** An item joins the first column whose mean is at most 120 away, and opens a column of its own if there is none. */
  lemma {:induction false} JoinsFirstNear(cols: seq<Column>, s: Spot, c: nat)
    requires c <= |cols| && (forall d :: 0 <= d < c ==> !NearMean(cols[d], s.x))
    requires c < |cols| ==> NearMean(cols[c], s.x)
    ensures Join(cols, s) == if c < |cols| then cols[c := cols[c] + [s]] else cols + [[s]]
  {
    forall d | 0 <= d < |cols|
      ensures NearMean(cols[d], s.x) <==> Near(cols[d], s)
    {
      NearMeanIsNear(cols[d], s);
    }
    FirstNearIs(cols, s, c);
  }

  /** Every item of the column but the first is at most 120 away from the mean of those before it. */
  ghost predicate Chained(col: Column) {
    forall k :: 1 <= k < |col| ==> NearMean(col[..k], col[k].x)
  }

  lemma {:induction false} ChainGrows(col: Column, s: Spot)
    requires Chained(col) && NearMean(col, s.x)
    ensures Chained(col + [s])
  {
    forall k | 1 <= k < |col + [s]|
      ensures NearMean((col + [s])[..k], (col + [s])[k].x)
    {
      assert (col + [s])[..k] == if k < |col| then col[..k] else col;
    }
  }

  lemma {:induction false} ColumnsAreChained(spots: Column, n: nat)
    requires n <= |spots|
    ensures forall c :: 0 <= c < |Grouped(spots, n)| ==> Chained(Grouped(spots, n)[c])
  {
    if n > 0 {
      ColumnsAreChained(spots, n - 1);
      var cols, s := Grouped(spots, n - 1), spots[n - 1];
      var c := FirstNear(cols, s);
      if c < |cols| {
        NearMeanIsNear(cols[c], s);
        ChainGrows(cols[c], s);
      }
    }
  }

  /** Nothing in this column or a later one is left of the column's first item. */
  ghost predicate OpenedFromLeft(cols: seq<Column>) {
    && (forall c :: 0 <= c < |cols| ==> cols[c] != [])
    && forall c, d, k :: 0 <= c <= d < |cols| && 0 <= k < |cols[d]| ==> cols[c][0].x <= cols[d][k].x
  }

  lemma {:induction false} JoinsFromLeft(cols: seq<Column>, s: Spot)
    requires OpenedFromLeft(cols) && forall c :: 0 <= c < |cols| ==> cols[c][0].x <= s.x
    ensures OpenedFromLeft(Join(cols, s))
    ensures forall c :: 0 <= c < |Join(cols, s)| ==> Join(cols, s)[c][0].x <= s.x
  {
    var r: seq<Column>, n: nat := Join(cols, s), FirstNear(cols, s);
    forall c | 0 <= c < |r|
      ensures r[c] != [] && r[c][0] == if c < |cols| then cols[c][0] else s
    {
      assert c != n ==> r[c] == cols[c];
    }
    forall c, d, k | 0 <= c <= d < |r| && 0 <= k < |r[d]|
      ensures r[c][0].x <= r[d][k].x
    {
      if d < |cols| && k < |cols[d]| {
        assert r[d][k] == cols[d][k];
      } else {
        assert r[d][k] == s;
      }
    }
  }

  lemma {:induction false} GroupedFromLeft(spots: Column, n: nat)
    requires n <= |spots| && Ordered(true, spots)
    ensures OpenedFromLeft(Grouped(spots, n))
    ensures forall c, m :: 0 <= c < |Grouped(spots, n)| && n <= m < |spots| ==> Grouped(spots, n)[c][0].x <= spots[m].x
  {
    if n > 0 {
      GroupedFromLeft(spots, n - 1);
      JoinsFromLeft(Grouped(spots, n - 1), spots[n - 1]);
      assert forall m :: n <= m < |spots| ==> spots[n - 1].x <= spots[m].x;
    }
  }

  /** Columns are made from the left: each has an item that nothing in a later column is left of. */
  lemma {:induction false} ColumnsFromLeft(spots: Column, c: nat, d: nat)
    requires Distinct(spots) && c < d < |Cluster(spots)|
    ensures exists s :: s in Cluster(spots)[c] && forall k :: 0 <= k < |Cluster(spots)[d]| ==>
      s.x <= Cluster(spots)[d][k].x
  {
    var sorted := Sort(true, spots);
    SortSorts(true, spots);
    GroupedFromLeft(sorted, |sorted|);
    GroupedPartitions(sorted, |sorted|);
    var groups: seq<Column>, cols: seq<Column> := Grouped(sorted, |sorted|), Cluster(spots);
    SortAllKeeps(groups, c);
    SortAllKeeps(groups, d);
    var s := groups[c][0];
    assert s in cols[c];
    forall k | 0 <= k < |cols[d]|
      ensures s.x <= cols[d][k].x
    {
      assert cols[d][k] in groups[d];
      var j :| 0 <= j < |groups[d]| && groups[d][j] == cols[d][k];
    }
  }

  /** A column may be wider than 120: the third of these items is 170 away from the first. */
  lemma {:induction false} WideColumn()
    ensures
      var a, b, c := Spot(0, 0.0, 0.0), Spot(1, 100.0, 0.0), Spot(2, 170.0, 0.0);
      Grouped([a, b, c], 3) == [[a, b, c]]
  {
    var a, b, c := Spot(0, 0.0, 0.0), Spot(1, 100.0, 0.0), Spot(2, 170.0, 0.0);
    var spots := [a, b, c];
    assert Grouped(spots, 1) == [[a]];
    assert SumX([a]) == 0.0;
    JoinsFirstNear([[a]], b, 0);
    assert [a] + [b] == [a, b] && [[a]][0 := [a, b]] == [[a, b]];
    assert Grouped(spots, 2) == [[a, b]];
    assert [a, b][..1] == [a];
    assert SumX([a, b]) == 100.0;
    JoinsFirstNear([[a, b]], c, 0);
    assert [a, b] + [c] == spots && [[a, b]][0 := spots] == [spots];
  }

  // ---- where a column stands ----

  function Wide(item: Item): real {
    if item.width >= 1.0 then item.width else 1.0
  }

  /** At x the item is 24 or more away from both sides of the frame. */
  predicate Fits(f: Item, item: Item, x: real) {
    f.x + 24.0 <= x && x + Wide(item) <= f.x + Wide(f) - 24.0
  }

  function Distance(x: real, y: real): real {
    if x >= y then x - y else y - x
  }

  /** x is the place inside the padding that is nearest to the wanted one; too wide an item starts at the left. */
  ghost predicate Nearest(f: Item, item: Item, wanted: real, x: real) {
    if Wide(item) > Wide(f) - 48.0 then x == f.x + 24.0
    else Fits(f, item, x) && forall z :: Fits(f, item, z) ==> Distance(x, wanted) <= Distance(z, wanted)
  }

  lemma {:induction false} ClampIsNearest(f: Item, item: Item, wanted: real)
    ensures Nearest(f, item, wanted, Clamp(f, wanted, item))
    ensures Fits(f, item, wanted) ==> Clamp(f, wanted, item) == wanted
  {
  }

  ghost predicate InColumn(before: seq<Item>, after: seq<Item>, f: nat, c: nat) {
    && f < |before| == |after| && FrameDone(before, after, f) && c < |ColumnsOf(before, f)|
    && ColumnsOf(before, f)[c] != [] && forall k :: 0 <= k < |ColumnsOf(before, f)[c]| ==>
         ColumnsOf(before, f)[c][k].i < |before|
  }

  lemma {:induction false} ColumnsStand(before: seq<Item>, after: seq<Item>, f: nat, c: nat)
    requires f < |before| == |after| && FrameDone(before, after, f) && c < |ColumnsOf(before, f)|
    ensures InColumn(before, after, f, c)
  {
    ClusterFits(before, before[f].id);
  }

  /**
    The first item of a column keeps its x if it is inside the frame's padding
    there, and otherwise goes to the nearest x inside. Every other item goes to
    the place nearest to the first.
   */
  lemma {:induction false} ColumnStaysPut(before: seq<Item>, after: seq<Item>, f: nat, c: nat)
    requires InColumn(before, after, f, c)
    ensures
      var col := ColumnsOf(before, f)[c];
      var first := col[0].i;
      && Nearest(before[f], before[first], before[first].x, after[first].x)
      && (Fits(before[f], before[first], before[first].x) ==> after[first].x == before[first].x)
      && (forall k :: 0 <= k < |col| ==> Nearest(before[f], before[col[k].i], after[first].x, after[col[k].i].x))
  {
    var col, frame := ColumnsOf(before, f)[c], before[f];
    var first := before[col[0].i];
    ClampIsNearest(frame, first, first.x);
    assert after[col[0].i] == Placed(before, frame, col, 0);
    ClampIsNearest(frame, first, Clamp(frame, first.x, first));
    assert after[col[0].i].x == Clamp(frame, first.x, first);
    forall k | 0 <= k < |col|
      ensures Nearest(frame, before[col[k].i], after[col[0].i].x, after[col[k].i].x)
    {
      assert after[col[k].i] == Placed(before, frame, col, k);
      ClampIsNearest(frame, before[col[k].i], after[col[0].i].x);
    }
  }

  /** Columns whose first items were inside the padding keep their horizontal distance. */
  lemma {:induction false} ColumnsKeepDistance(before: seq<Item>, after: seq<Item>, f: nat, c: nat, d: nat)
    requires InColumn(before, after, f, c) && InColumn(before, after, f, d)
    requires
      var a, b := ColumnsOf(before, f)[c][0].i, ColumnsOf(before, f)[d][0].i;
      Fits(before[f], before[a], before[a].x) && Fits(before[f], before[b], before[b].x)
    ensures
      var a, b := ColumnsOf(before, f)[c][0].i, ColumnsOf(before, f)[d][0].i;
      after[b].x - after[a].x == before[b].x - before[a].x
  {
    ColumnStaysPut(before, after, f, c);
    ColumnStaysPut(before, after, f, d);
  }

  function Later(a: real, b: real): real {
    if a >= b then a else b
  }

  /** A column starts 72 below the top of the frame, and each item starts 24 below the end of the one before. */
  lemma {:induction false} ColumnIsStacked(before: seq<Item>, after: seq<Item>, f: nat, c: nat)
    requires InColumn(before, after, f, c)
    ensures
      var col, top := ColumnsOf(before, f)[c], before[f].y + 72.0;
      && after[col[0].i].y == top
      && (forall k {:trigger col[k]} :: 0 < k < |col| ==>
            var above := after[col[k - 1].i];
            after[col[k].i].y == Later(above.y + above.height + 24.0, top))
      && (forall k :: 0 <= k < |col| ==> after[col[k].i].height == EstimatedHeight(before[col[k].i]))
  {
    var col, frame := ColumnsOf(before, f)[c], before[f];
    assert after[col[0].i] == Placed(before, frame, col, 0);
    forall k | 0 < k < |col|
      ensures after[col[k].i].y
        == Later(after[col[k - 1].i].y + after[col[k - 1].i].height + 24.0, frame.y + 72.0)
    {
      assert after[col[k].i] == Placed(before, frame, col, k);
      assert after[col[k - 1].i] == Placed(before, frame, col, k - 1);
    }
    forall k | 0 <= k < |col|
      ensures after[col[k].i].height == EstimatedHeight(before[col[k].i])
    {
      assert after[col[k].i] == Placed(before, frame, col, k);
    }
  }

  // ---- how far a frame grows ----

  lemma {:induction false} LowestInAttained(items: seq<Item>, f: Item, col: Column, k: nat, low: real)
    requires k <= |col| && forall j :: 0 <= j < |col| ==> col[j].i < |items|
    ensures
      || LowestIn(items, f, col, k, low) == low
      || exists j :: 0 <= j < k && LowestIn(items, f, col, k, low) == Bottom(items, f, col, j)
  {
    if k > 0 {
      LowestInAttained(items, f, col, k - 1, low);
      assert LowestIn(items, f, col, k, low) ==
        Max(LowestIn(items, f, col, k - 1, low), Bottom(items, f, col, k - 1));
    }
  }

  function Bottom(items: seq<Item>, f: Item, col: Column, k: nat): real
    requires k < |col| && forall j :: 0 <= j < |col| ==> col[j].i < |items|
  {
    Placed(items, f, col, k).y + Placed(items, f, col, k).height
  }

  ghost predicate EndsAt(items: seq<Item>, f: Item, cols: seq<Column>, low: real)
    requires ColumnsOk(items, cols)
  {
    exists c, k :: 0 <= c < |cols| && 0 <= k < |cols[c]| && Bottom(items, f, cols[c], k) == low
  }

  /** The lowest bottom is that of some item, or the top of the content. */
  lemma {:induction false} LowestAttained(items: seq<Item>, f: Item, cols: seq<Column>, c: nat)
    requires ColumnsOk(items, cols) && c <= |cols|
    ensures Lowest(items, f, cols, c) == f.y + 72.0 || EndsAt(items, f, cols, Lowest(items, f, cols, c))
  {
    if c > 0 {
      LowestAttained(items, f, cols, c - 1);
      var low := Lowest(items, f, cols, c - 1);
      LowestInAttained(items, f, cols[c - 1], |cols[c - 1]|, low);
      if Lowest(items, f, cols, c) != low {
        var j :| 0 <= j < |cols[c - 1]| && Lowest(items, f, cols, c) == Bottom(items, f, cols[c - 1], j);
      }
    }
  }

  /** The content of the frame ends at least 24 above its lower edge. */
  ghost predicate Holds(before: seq<Item>, after: seq<Item>, f: nat, height: real)
    requires f < |before| == |after|
  {
    && height >= 96.0
    && forall i: nat :: ChildOf(before, i, before[f].id) ==> after[i].y + after[i].height + 24.0 <= before[f].y + height
  }

  /**
    A frame keeps its height if that holds its content with 24 to spare below,
    or if it has no content. Otherwise it grows to the least whole number that does.
   */
  lemma {:induction false} FrameGrowsAsNeeded(before: seq<Item>, after: seq<Item>, f: nat)
    requires f < |before| == |after| && FrameDone(before, after, f)
    ensures ColumnsOf(before, f) == [] || Holds(before, after, f, before[f].height) ==>
      after[f].height == before[f].height
    ensures ColumnsOf(before, f) != [] && !Holds(before, after, f, before[f].height) ==>
      && after[f].height.Floor as real == after[f].height
      && Holds(before, after, f, after[f].height) && !Holds(before, after, f, after[f].height - 1.0)
  {
    var cols := ColumnsOf(before, f);
    ClusterFits(before, before[f].id);
    if cols != [] {
      HoldsExactly(before, after, f, before[f].height);
      HoldsExactly(before, after, f, after[f].height);
      HoldsExactly(before, after, f, after[f].height - 1.0);
      LowestAboveTop(before, before[f], cols, |cols|);
      GrownExactly(before[f], Lowest(before, before[f], cols, |cols|));
    }
  }

  lemma {:induction false} GrownExactly(f: Item, low: real)
    requires low - f.y >= 72.0
    ensures
      var h := Grown(f, low).height;
      if low - f.y + 24.0 <= f.height then h == f.height
      else h.Floor as real == h && low - f.y + 24.0 <= h && h - 1.0 < low - f.y + 24.0
  {
  }

  lemma {:induction false} EndsAboveLowest(before: seq<Item>, after: seq<Item>, f: nat, cols: seq<Column>, i: nat)
    requires f < |before| == |after| && LaidOut(before, after, f, cols) && ColumnsFit(before, before[f].id, cols)
    requires ChildOf(before, i, before[f].id)
    ensures after[i].y + after[i].height <= Lowest(before, before[f], cols, |cols|)
  {
    assert Somewhere(cols, i);
    var c, k :| 0 <= c < |cols| && 0 <= k < |cols[c]| && cols[c][k].i == i;
    LowestBounds(before, before[f], cols, |cols|, c, k);
    assert after[i] == Placed(before, before[f], cols[c], k);
  }

  lemma {:induction false} LowestIsReached(before: seq<Item>, after: seq<Item>, f: nat, cols: seq<Column>)
    requires f < |before| == |after| && LaidOut(before, after, f, cols) && ColumnsFit(before, before[f].id, cols)
    ensures
      var low := Lowest(before, before[f], cols, |cols|);
      || low == before[f].y + 72.0
      || exists i: nat :: ChildOf(before, i, before[f].id) && after[i].y + after[i].height == low
  {
    var frame := before[f];
    var low := Lowest(before, frame, cols, |cols|);
    LowestAttained(before, frame, cols, |cols|);
    if low != frame.y + 72.0 {
      var c, k :| 0 <= c < |cols| && 0 <= k < |cols[c]| && Bottom(before, frame, cols[c], k) == low;
      assert after[cols[c][k].i] == Placed(before, frame, cols[c], k);
      assert ChildOf(before, cols[c][k].i, frame.id);
    }
  }

  lemma {:induction false} HoldsExactly(before: seq<Item>, after: seq<Item>, f: nat, height: real)
    requires f < |before| == |after| && FrameDone(before, after, f)
    requires ColumnsFit(before, before[f].id, ColumnsOf(before, f))
    ensures Holds(before, after, f, height) <==>
      Lowest(before, before[f], ColumnsOf(before, f), |ColumnsOf(before, f)|) - before[f].y + 24.0 <= height
  {
    var cols, frame := ColumnsOf(before, f), before[f];
    LowestAboveTop(before, frame, cols, |cols|);
    LowestIsReached(before, after, f, cols);
    forall i: nat | ChildOf(before, i, frame.id)
      ensures after[i].y + after[i].height <= Lowest(before, frame, cols, |cols|)
    {
      EndsAboveLowest(before, after, f, cols, i);
    }
  }

  // ---- how tall text is ----

  ghost predicate AllSpace(s: string) {
    forall i :: 0 <= i < |s| ==> IsSpace(s[i])
  }

  /** Stripping takes off nothing but white space, and all of it at both ends. */
  lemma {:induction false} StripTakesSpace(s: string) returns (left: string, right: string)
    ensures s == left + Strip(s) + right && AllSpace(left) && AllSpace(right)
    ensures Strip(s) != "" ==> !IsSpace(Strip(s)[0]) && !IsSpace(Strip(s)[|Strip(s)| - 1])
  {
    left := LeftSpace(s);
    right := RightSpace(StripLeft(s));
  }

  lemma {:induction false} LeftSpace(s: string) returns (left: string)
    ensures s == left + StripLeft(s) && AllSpace(left)
    ensures StripLeft(s) != "" ==> !IsSpace(StripLeft(s)[0])
  {
    left := "";
    if s != "" && IsSpace(s[0]) {
      var rest := LeftSpace(s[1..]);
      left := [s[0]] + rest;
    }
  }

  lemma {:induction false} RightSpace(s: string) returns (right: string)
    ensures s == StripRight(s) + right && AllSpace(right) && StripRight(s) <= s
    ensures StripRight(s) != "" ==> !IsSpace(StripRight(s)[|StripRight(s)| - 1])
  {
    right := "";
    if s != "" && IsSpace(s[|s| - 1]) {
      var rest := RightSpace(s[..|s| - 1]);
      right := rest + [s[|s| - 1]];
      assert s == s[..|s| - 1] + [s[|s| - 1]];
    }
  }

  /** The estimated characters of a line fit its width, at 0.58 of the font size each, and one more does not. */
  lemma {:induction false} CharactersFit(width: real, fontSize: real)
    requires CharsPerLine(width, fontSize) > 8
    ensures
      var n, each := CharsPerLine(width, fontSize), Later(0.58 * fontSize, 1.0);
      n as real * each <= width < (n + 1) as real * each
  {
    var each := Later(0.58 * fontSize, 1.0);
    assert Max(fontSize * 0.58, 1.0) == each;
    FloorFits(width, each);
  }

  lemma {:induction false} FloorFits(width: real, each: real)
    requires each > 0.0
    ensures
      var n := (width / each).Floor;
      n as real * each <= width < (n + 1) as real * each
  {
    var q := width / each;
    var lo, hi := q.Floor as real, (q.Floor + 1) as real;
    Whole(width, each);
    assert lo <= q < hi;
    Scale(lo, q, each);
    ScaleStrictly(q, hi, each);
    assert lo * each <= q * each == width < hi * each;
  }

  lemma {:induction false} Whole(width: real, each: real)
    requires each > 0.0
    ensures (width / each) * each == width
  {
  }

  lemma {:induction false} Scale(a: real, b: real, k: real)
    requires a <= b && k > 0.0
    ensures a * k <= b * k
  {
    assert (b - a) * k >= 0.0;
  }

  lemma {:induction false} ScaleStrictly(a: real, b: real, k: real)
    requires a < b && k > 0.0
    ensures a * k < b * k
  {
    assert (b - a) * k > 0.0;
  }

  /** What is added above and below the lines. */
  function Margin(item: Item): real
    requires HoldsText(item)
  {
    (match item.kind
     case TextItem => 14.0
     case _ => 24.0)
    + (if !item.bold then 0.0 else if item.kind.Shape? then 6.0 else 4.0)
    + (if '\n' in item.content then 6.0 else 0.0)
    + (if |item.content| > 120 then 8.0 else 0.0)
  }

  lemma {:induction false} MarginIs(item: Item)
    requires HoldsText(item)
    ensures Padding(item) as real == Margin(item)
  {
  }

  lemma {:induction false} RoundedUp(lines: int, lineHeight: real, padding: int)
    ensures
      var text := lines as real * lineHeight + padding as real;
      text <= TextHeight(lines, lineHeight, padding) < text + 1.0
  {
  }

  function LinesOf(item: Item): int {
    WrappedLines(item.content, Later(item.width, 1.0) - 24.0, if item.fontSize == 0.0 then 14.0 else item.fontSize)
  }

  /** The height of a line: 1.45 times the font size in text items, 1.35 times elsewhere. */
  function LineOf(item: Item): real {
    (if item.fontSize == 0.0 then 14.0 else item.fontSize) * if item.kind.TextItem? then 1.45 else 1.35
  }

  lemma {:induction false} EstimateIs(item: Item)
    requires HoldsText(item)
    ensures EstimatedHeight(item) == Max(item.height, TextHeight(LinesOf(item), LineOf(item), Padding(item)))
  {
    SameLine(item);
    SameLines(item);
    EstimateFrom(item, LinesOf(item), LineOf(item));
  }

  lemma {:induction false} EstimateFrom(item: Item, lines: int, line: real)
    requires HoldsText(item) && line == LineHeight(item)
    requires lines == WrappedLines(item.content, Max(item.width, 1.0) - 24.0, FontSize(item))
    ensures EstimatedHeight(item) == Max(item.height, TextHeight(lines, line, Padding(item)))
  {
  }

  lemma {:induction false} SameLines(item: Item)
    ensures WrappedLines(item.content, Max(item.width, 1.0) - 24.0, FontSize(item)) == LinesOf(item)
  {
    var a, b := Max(item.width, 1.0) - 24.0, Later(item.width, 1.0) - 24.0;
    assert a == b && FontSize(item) == if item.fontSize == 0.0 then 14.0 else item.fontSize;
  }

  lemma {:induction false} SameLine(item: Item)
    ensures LineHeight(item) == LineOf(item)
  {
  }

  /** An item of text is as tall as it was, or as its lines with the margin, rounded up: whichever is more. */
  lemma {:induction false} HeightHoldsLines(item: Item)
    requires HoldsText(item)
    ensures
      var text := LinesOf(item) as real * LineOf(item) + Margin(item);
      && text <= EstimatedHeight(item) && item.height <= EstimatedHeight(item)
      && (EstimatedHeight(item) == item.height || EstimatedHeight(item) < text + 1.0)
  {
    MarginIs(item);
    EstimateIs(item);
    RoundedUp(LinesOf(item), LineOf(item), Padding(item));
  }
}

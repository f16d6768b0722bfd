/**
  Laying out the items of every frame of a board, in place
  (backend/agent/miro_generation.py, normalize_miro_snapshot_layout).
 */
module BoardLayout {
  import opened BoardText
  import opened BoardColumns

  const PADDING_LEFT: real := 24.0
  const PADDING_RIGHT: real := 24.0
  const PADDING_TOP: real := 72.0
  const PADDING_BOTTOM: real := 24.0
  const GAP: real := 24.0

  // ---- where one frame's items go ----

  function Width(item: Item): real {
    Max(item.width, 1.0)
  }

  function Top(f: Item): real {
    f.y + PADDING_TOP
  }

  function Left(f: Item): real {
    f.x + PADDING_LEFT
  }

  function Right(f: Item): real {
    f.x + Width(f) - PADDING_RIGHT
  }

  function Clamp(f: Item, x: real, item: Item): real {
    Max(Left(f), Min(x, Right(f) - Width(item)))
  }

  function At(items: seq<Item>, col: Column, k: nat): Item
    requires k < |col| && col[k].i < |items|
  {
    items[col[k].i]
  }

  function Cursor(items: seq<Item>, f: Item, col: Column, k: nat): real
    requires k <= |col| && forall j :: 0 <= j < k ==> col[j].i < |items|
  {
    if k == 0 then Top(f)
    else Max(Cursor(items, f, col, k - 1), Top(f)) + EstimatedHeight(At(items, col, k - 1)) + GAP
  }

  function YAt(items: seq<Item>, f: Item, col: Column, k: nat): real
    requires k < |col| && forall j :: 0 <= j < |col| ==> col[j].i < |items|
  {
    Max(Cursor(items, f, col, k), Top(f))
  }

  function XAt(items: seq<Item>, f: Item, col: Column, k: nat): real
    requires k < |col| && forall j :: 0 <= j < |col| ==> col[j].i < |items|
  {
    Clamp(f, Clamp(f, At(items, col, 0).x, At(items, col, 0)), At(items, col, k))
  }

  /** The k-th item of a column, as it is left. */
  function Placed(items: seq<Item>, f: Item, col: Column, k: nat): Item
    requires k < |col| && forall j :: 0 <= j < |col| ==> col[j].i < |items|
  {
    var item := At(items, col, k);
    item.(x := XAt(items, f, col, k), y := YAt(items, f, col, k), height := EstimatedHeight(item))
  }

  /** The lowest bottom among the first k items of a column, at least `low`. */
  function LowestIn(items: seq<Item>, f: Item, col: Column, k: nat, low: real): real
    requires k <= |col| && forall j :: 0 <= j < |col| ==> col[j].i < |items|
  {
    if k == 0 then low
    else
      var p := Placed(items, f, col, k - 1);
      Max(LowestIn(items, f, col, k - 1, low), p.y + p.height)
  }

  function Lowest(items: seq<Item>, f: Item, cols: seq<Column>, c: nat): real
    requires c <= |cols| && forall d, j :: 0 <= d < |cols| && 0 <= j < |cols[d]| ==> cols[d][j].i < |items|
  {
    if c == 0 then Top(f) else LowestIn(items, f, cols[c - 1], |cols[c - 1]|, Lowest(items, f, cols, c - 1))
  }

  /** The frame, grown if its content needs it. */
  function Grown(f: Item, lowest: real): Item {
    var required := lowest - f.y + PADDING_BOTTOM;
    if required > Max(f.height, 1.0) then f.(height := Ceil(required) as real) else f
  }

  // ---- frames and their items ----

  /** Item i is put into frame `id` and is laid out. */
  predicate ChildOf(items: seq<Item>, i: nat, id: string) {
    i < |items| && HoldsText(items[i]) && items[i].hasParent && items[i].parent == id
  }

  /** The items of the named frame among the first n, in board order. */
  function ChildrenUpTo(items: seq<Item>, id: string, n: nat): (cs: seq<nat>)
    requires n <= |items|
    ensures forall k :: 0 <= k < |cs| ==> cs[k] < n
  {
    if n == 0 then [] else ChildrenUpTo(items, id, n - 1) + if ChildOf(items, n - 1, id) then [n - 1] else []
  }

  lemma {:induction false} ChildrenAre(items: seq<Item>, id: string, n: nat)
    requires n <= |items|
    ensures
      var cs := ChildrenUpTo(items, id, n);
      && (forall k :: 0 <= k < |cs| ==> ChildOf(items, cs[k], id))
      && (forall j, k :: 0 <= j < k < |cs| ==> cs[j] < cs[k])
      && (forall i: nat :: i < n && ChildOf(items, i, id) ==> i in cs)
  {
    if n > 0 {
      ChildrenAre(items, id, n - 1);
    }
  }

  /** Where the given items are on the board. */
  function SpotsAt(items: seq<Item>, cs: seq<nat>): (spots: Column)
    requires forall k :: 0 <= k < |cs| ==> cs[k] < |items|
    ensures |spots| == |cs|
    ensures forall k :: 0 <= k < |cs| ==> spots[k] == Spot(cs[k], items[cs[k]].x, items[cs[k]].y)
  {
    seq(|cs|, k requires 0 <= k < |cs| => Spot(cs[k], items[cs[k]].x, items[cs[k]].y))
  }

  function Spots(items: seq<Item>, id: string): Column {
    SpotsAt(items, ChildrenUpTo(items, id, |items|))
  }

  lemma {:induction false} SpotsAre(items: seq<Item>, id: string)
    ensures Distinct(Spots(items, id))
    ensures forall s :: s in Spots(items, id) ==>
      s.i < |items| && ChildOf(items, s.i, id) && s.x == items[s.i].x && s.y == items[s.i].y
    ensures forall i: nat :: ChildOf(items, i, id) ==> Spot(i, items[i].x, items[i].y) in Spots(items, id)
  {
    ChildrenAre(items, id, |items|);
    var cs, spots := ChildrenUpTo(items, id, |items|), Spots(items, id);
    forall i: nat | ChildOf(items, i, id)
      ensures Spot(i, items[i].x, items[i].y) in spots
    {
      var k :| 0 <= k < |cs| && cs[k] == i;
      assert spots[k].i == i;
    }
  }

  /** The frames by id, in the order in which ids first appear; of frames with one id the last counts. */
  function FramesUpTo(items: seq<Item>, n: nat): (fs: seq<nat>)
    requires n <= |items|
    ensures forall k :: 0 <= k < |fs| ==> fs[k] < n && items[fs[k]].kind.Frame?
  {
    if n == 0 then []
    else if items[n - 1].kind.Frame? then AddFrame(items, FramesUpTo(items, n - 1), n - 1)
    else FramesUpTo(items, n - 1)
  }

  /** Store frame f under its id. */
  function AddFrame(items: seq<Item>, fs: seq<nat>, f: nat): seq<nat>
    requires f < |items| && forall k :: 0 <= k < |fs| ==> fs[k] < |items|
  {
    var k := FrameNamed(items, fs, items[f].id);
    if k < |fs| then fs[k := f] else fs + [f]
  }

  function FrameNamed(items: seq<Item>, fs: seq<nat>, id: string): (k: nat)
    requires forall k :: 0 <= k < |fs| ==> fs[k] < |items|
    ensures k <= |fs|
    ensures k < |fs| ==> items[fs[k]].id == id
    ensures forall j :: 0 <= j < k ==> items[fs[j]].id != id
  {
    if fs == [] || items[fs[0]].id == id then 0 else 1 + FrameNamed(items, fs[1..], id)
  }

  lemma {:induction false} FramesHaveDistinctIds(items: seq<Item>, n: nat)
    requires n <= |items|
    ensures DistinctIds(items, FramesUpTo(items, n))
  {
    if n > 0 {
      FramesHaveDistinctIds(items, n - 1);
      AddKeepsDistinct(items, FramesUpTo(items, n - 1), n - 1);
    }
  }

  /** Every frame's id is kept, for the last frame that bears it. */
  lemma {:induction false} LastFrameCounts(items: seq<Item>, n: nat, i: nat) returns (k: nat)
    requires i < n <= |items| && items[i].kind.Frame?
    ensures k < |FramesUpTo(items, n)|
    ensures FramesUpTo(items, n)[k] >= i && items[FramesUpTo(items, n)[k]].id == items[i].id
  {
    var was := FramesUpTo(items, n - 1);
    if i == n - 1 {
      k := FrameNamed(items, was, items[i].id);
    } else {
      k := LastFrameCounts(items, n - 1, i);
    }
  }

  ghost predicate DistinctIds(items: seq<Item>, fs: seq<nat>) {
    && (forall k :: 0 <= k < |fs| ==> fs[k] < |items|)
    && (forall j, k :: 0 <= j < k < |fs| ==> items[fs[j]].id != items[fs[k]].id)
  }

  lemma {:induction false} AddKeepsDistinct(items: seq<Item>, fs: seq<nat>, f: nat)
    requires f < |items| && DistinctIds(items, fs)
    ensures DistinctIds(items, AddFrame(items, fs, f))
  {
  }

  // ---- the result ----

  function ColumnsOf(items: seq<Item>, f: nat): seq<Column>
    requires f < |items|
  {
    Cluster(Spots(items, items[f].id))
  }

  ghost predicate ColumnsOk(items: seq<Item>, cols: seq<Column>) {
    forall c, k :: 0 <= c < |cols| && 0 <= k < |cols[c]| ==> cols[c][k].i < |items|
  }

  ghost predicate Somewhere(cols: seq<Column>, i: nat) {
    exists c, k :: 0 <= c < |cols| && 0 <= k < |cols[c]| && cols[c][k].i == i
  }

  /** Columns of exactly the items of the named frame, each once, in the order of their heights on the board. */
  ghost predicate ColumnsFit(items: seq<Item>, id: string, cols: seq<Column>) {
    && ColumnsOk(items, cols) && Unrepeated(cols)
    && (forall c, k :: 0 <= c < |cols| && 0 <= k < |cols[c]| ==>
          ChildOf(items, cols[c][k].i, id) && cols[c][k].y == items[cols[c][k].i].y)
    && (forall c :: 0 <= c < |cols| ==> cols[c] != [] && Ordered(false, cols[c]))
    && (forall i: nat {:trigger Somewhere(cols, i)} :: ChildOf(items, i, id) ==> Somewhere(cols, i))
  }

  lemma {:induction false} ClusterFits(items: seq<Item>, id: string)
    ensures ColumnsFit(items, id, Cluster(Spots(items, id)))
  {
    var spots: Column := Spots(items, id);
    var cols: seq<Column> := Cluster(spots);
    SpotsAre(items, id);
    ClusterPartitions(spots);
    forall c, k | 0 <= c < |cols| && 0 <= k < |cols[c]|
      ensures ChildOf(items, cols[c][k].i, id) && cols[c][k].y == items[cols[c][k].i].y
    {
      assert cols[c][k] in spots;
    }
    forall i: nat | ChildOf(items, i, id)
      ensures Somewhere(cols, i)
    {
      var s := Spot(i, items[i].x, items[i].y);
      assert s in spots && InSome(cols, s);
      var c :| 0 <= c < |cols| && s in cols[c];
      var k :| 0 <= k < |cols[c]| && cols[c][k] == s;
    }
  }

  /** A frame and the items in its columns, as the layout leaves them. */
  ghost predicate LaidOut(before: seq<Item>, after: seq<Item>, f: nat, cols: seq<Column>)
    requires f < |before| == |after|
  {
    && ColumnsOk(before, cols)
    && (forall c, k {:trigger Placed(before, before[f], cols[c], k)} :: 0 <= c < |cols| && 0 <= k < |cols[c]| ==>
          after[cols[c][k].i] == Placed(before, before[f], cols[c], k))
    && after[f] == if cols == [] then before[f] else Grown(before[f], Lowest(before, before[f], cols, |cols|))
  }

  /** Frame f after the layout of the board. */
  ghost predicate FrameDone(before: seq<Item>, after: seq<Item>, f: nat)
    requires f < |before| == |after|
  {
    LaidOut(before, after, f, ColumnsOf(before, f))
  }

  /** Item i is the frame f or one of its items. */
  predicate Touches(items: seq<Item>, f: nat, i: nat) {
    f < |items| && (i == f || ChildOf(items, i, items[f].id))
  }

  // ---- geometry of the result ----

  /** In a column each item starts at least the gap below the end of the one before, and never above the padding. */
  lemma {:induction false} StackedApart(items: seq<Item>, f: Item, col: Column, j: nat, k: nat)
    requires j < k < |col| && forall n :: 0 <= n < |col| ==> col[n].i < |items|
    requires forall n :: 0 <= n < |col| ==> EstimatedHeight(At(items, col, n)) >= 0.0
    ensures
      var a, b := Placed(items, f, col, j), Placed(items, f, col, k);
      a.y + a.height + GAP <= b.y && Top(f) <= a.y
  {
    if j < k - 1 {
      StackedApart(items, f, col, j, k - 1);
    }
  }

  /** An item no wider than the first of its column lines up with it, if the first fits into the frame. */
  lemma {:induction false} LinesUp(items: seq<Item>, f: Item, col: Column, k: nat)
    requires k < |col| && forall n :: 0 <= n < |col| ==> col[n].i < |items|
    requires Narrower(items, f, col, k)
    ensures Placed(items, f, col, k).x == Placed(items, f, col, 0).x
  {
  }

  lemma {:induction false} LowestInBounds(items: seq<Item>, f: Item, col: Column, k: nat, low: real)
    requires k <= |col| && forall j :: 0 <= j < |col| ==> col[j].i < |items|
    ensures low <= LowestIn(items, f, col, k, low)
    ensures forall j :: 0 <= j < k ==>
      Placed(items, f, col, j).y + Placed(items, f, col, j).height <= LowestIn(items, f, col, k, low)
  {
    if k > 0 {
      LowestInBounds(items, f, col, k - 1, low);
    }
  }

  lemma {:induction false} LowestBounds(items: seq<Item>, f: Item, cols: seq<Column>, c: nat, d: nat, k: nat)
    requires ColumnsOk(items, cols) && d < c <= |cols| && k < |cols[d]|
    ensures Placed(items, f, cols[d], k).y + Placed(items, f, cols[d], k).height <= Lowest(items, f, cols, c)
  {
    LowestInBounds(items, f, cols[c - 1], |cols[c - 1]|, Lowest(items, f, cols, c - 1));
    if d < c - 1 {
      LowestBounds(items, f, cols, c - 1, d, k);
    }
  }

  /** Item a of frame f lies inside the padding, vertically always and horizontally if it is not too wide. */
  ghost predicate Inside(f: Item, a: Item) {
    && f.y + PADDING_TOP <= a.y && a.y + a.height <= f.y + f.height - PADDING_BOTTOM
    && (Width(a) <= Width(f) - PADDING_LEFT - PADDING_RIGHT ==>
          f.x + PADDING_LEFT <= a.x && a.x + Width(a) <= f.x + Width(f) - PADDING_RIGHT)
  }

  /** One column after the layout, against the board before it. */
  ghost predicate Tidy(before: seq<Item>, after: seq<Item>, col: Column)
    requires |before| == |after|
  {
    && Distinct(col) && (forall k :: 0 <= k < |col| ==> col[k].i < |before|)
    && (forall j, k :: 0 <= j < k < |col| ==> before[col[j].i].y <= before[col[k].i].y)
    && ((forall k :: 0 <= k < |col| ==> after[col[k].i].height >= 0.0) ==>
          forall j, k :: 0 <= j < k < |col| ==> after[col[j].i].y + after[col[j].i].height + GAP <= after[col[k].i].y)
  }

  /** The k-th item is no wider than the first of its column, and that fits into frame f. */
  predicate Narrower(items: seq<Item>, f: Item, col: Column, k: nat)
    requires k < |col| && forall n :: 0 <= n < |col| ==> col[n].i < |items|
  {
    Width(At(items, col, k)) <= Width(At(items, col, 0)) <= Width(f) - PADDING_LEFT - PADDING_RIGHT
  }

  /** The items of a column that are no wider than its first line up with it, if the first fits into frame f. */
  ghost predicate LinedUp(before: seq<Item>, after: seq<Item>, f: Item, col: Column)
    requires |before| == |after| && forall k :: 0 <= k < |col| ==> col[k].i < |before|
  {
    forall k :: 0 <= k < |col| && Narrower(before, f, col, k) ==> after[col[k].i].x == after[col[0].i].x
  }

  /** After the layout of a frame its columns are lined up. */
  lemma {:induction false} ColumnsLineUp(before: seq<Item>, after: seq<Item>, f: nat, c: nat)
    requires f < |before| == |after| && FrameDone(before, after, f) && c < |ColumnsOf(before, f)|
    ensures
      var col := ColumnsOf(before, f)[c];
      (forall k :: 0 <= k < |col| ==> col[k].i < |before|) && LinedUp(before, after, before[f], col)
  {
    var col := ColumnsOf(before, f)[c];
    forall k | 0 <= k < |col| && Narrower(before, before[f], col, k)
      ensures after[col[k].i].x == after[col[0].i].x
    {
      assert after[col[k].i] == Placed(before, before[f], col, k);
      assert after[col[0].i] == Placed(before, before[f], col, 0);
      LinesUp(before, before[f], col, k);
    }
  }

  lemma {:induction false} OrderKept(before: seq<Item>, id: string, cols: seq<Column>, c: nat)
    requires ColumnsFit(before, id, cols) && c < |cols|
    ensures forall j, k :: 0 <= j < k < |cols[c]| ==> before[cols[c][j].i].y <= before[cols[c][k].i].y
  {
    forall j, k | 0 <= j < k < |cols[c]|
      ensures before[cols[c][j].i].y <= before[cols[c][k].i].y
    {
      assert Le(false, cols[c][j], cols[c][k]);
    }
  }

  lemma {:induction false} GapsKept(before: seq<Item>, after: seq<Item>, f: Item, col: Column, j: nat, k: nat)
    requires |before| == |after| && forall n :: 0 <= n < |col| ==> col[n].i < |before|
    requires forall n :: 0 <= n < |col| ==> after[col[n].i] == Placed(before, f, col, n)
    requires forall n :: 0 <= n < |col| ==> after[col[n].i].height >= 0.0
    requires j < k < |col|
    ensures after[col[j].i].y + after[col[j].i].height + GAP <= after[col[k].i].y
  {
    forall n | 0 <= n < |col|
      ensures EstimatedHeight(At(before, col, n)) >= 0.0
    {
      assert after[col[n].i] == Placed(before, f, col, n);
    }
    StackedApart(before, f, col, j, k);
  }

  lemma {:induction false} TidyColumn(before: seq<Item>, after: seq<Item>, f: nat, cols: seq<Column>, c: nat)
    requires f < |before| == |after| && LaidOut(before, after, f, cols) && ColumnsFit(before, before[f].id, cols)
    requires c < |cols|
    ensures Tidy(before, after, cols[c])
  {
    var col := cols[c];
    OrderKept(before, before[f].id, cols, c);
    if forall k :: 0 <= k < |col| ==> after[col[k].i].height >= 0.0 {
      forall j, k | 0 <= j < k < |col|
        ensures after[col[j].i].y + after[col[j].i].height + GAP <= after[col[k].i].y
      {
        GapsKept(before, after, before[f], col, j, k);
      }
    }
  }

  /** Only where and how tall an item is has changed, and it has not become shorter. */
  ghost predicate OnlyMoved(a: Item, b: Item) {
    b.height >= a.height && b == a.(x := b.x, y := b.y, height := b.height)
  }

  lemma {:induction false} PlacedInside(before: seq<Item>, after: seq<Item>, f: nat, cols: seq<Column>, c: nat, k: nat)
    requires f < |before| == |after| && LaidOut(before, after, f, cols) && c < |cols| && k < |cols[c]|
    ensures
      var i := cols[c][k].i;
      Inside(after[f], after[i]) && OnlyMoved(before[i], after[i])
  {
    LowestBounds(before, before[f], cols, |cols|, c, k);
    LowestAboveTop(before, before[f], cols, |cols|);
    assert after[cols[c][k].i] == Placed(before, before[f], cols[c], k);
    GrownHolds(before[f], Lowest(before, before[f], cols, |cols|), after[cols[c][k].i]);
  }

  lemma {:induction false} LowestAboveTop(items: seq<Item>, f: Item, cols: seq<Column>, c: nat)
    requires ColumnsOk(items, cols) && c <= |cols|
    ensures Lowest(items, f, cols, c) >= Top(f)
  {
    if c > 0 {
      LowestAboveTop(items, f, cols, c - 1);
      LowestInBounds(items, f, cols[c - 1], |cols[c - 1]|, Lowest(items, f, cols, c - 1));
    }
  }

  lemma {:induction false} GrownHolds(f: Item, lowest: real, a: Item)
    requires Top(f) <= lowest && a.y + a.height <= lowest && Top(f) <= a.y
    requires Width(a) <= Width(f) - PADDING_LEFT - PADDING_RIGHT ==> Left(f) <= a.x && a.x + Width(a) <= Right(f)
    ensures Inside(Grown(f, lowest), a)
  {
  }

  /**
    After the layout of a frame: every one of its items lies inside the frame's
    padding and is in exactly one column; items of one column keep their order
    and a gap of at least 24 between them; neither the frame nor an item has
    become smaller; and nothing but positions and heights has changed.
   */
  lemma {:induction false} FrameIsTidy(before: seq<Item>, after: seq<Item>, f: nat)
    requires f < |before| == |after| && FrameDone(before, after, f)
    ensures OnlyMoved(before[f], after[f]) && after[f].x == before[f].x && after[f].y == before[f].y
    ensures forall i: nat :: ChildOf(before, i, before[f].id) ==>
      Somewhere(ColumnsOf(before, f), i) && Inside(after[f], after[i]) && OnlyMoved(before[i], after[i])
    ensures Unrepeated(ColumnsOf(before, f))
    ensures forall c :: 0 <= c < |ColumnsOf(before, f)| ==> Tidy(before, after, ColumnsOf(before, f)[c])
  {
    var cols := ColumnsOf(before, f);
    ClusterFits(before, before[f].id);
    TidyFrame(before, after, f, cols);
  }

  lemma {:induction false} FrameGrows(before: seq<Item>, after: seq<Item>, f: nat, cols: seq<Column>)
    requires f < |before| == |after| && LaidOut(before, after, f, cols)
    ensures OnlyMoved(before[f], after[f]) && after[f].x == before[f].x && after[f].y == before[f].y
  {
  }

  lemma {:induction false} EachItemInside(before: seq<Item>, after: seq<Item>, f: nat, cols: seq<Column>)
    requires f < |before| == |after| && LaidOut(before, after, f, cols) && ColumnsFit(before, before[f].id, cols)
    ensures forall i: nat :: ChildOf(before, i, before[f].id) ==>
      Somewhere(cols, i) && Inside(after[f], after[i]) && OnlyMoved(before[i], after[i])
  {
    forall i: nat | ChildOf(before, i, before[f].id)
      ensures Somewhere(cols, i) && Inside(after[f], after[i]) && OnlyMoved(before[i], after[i])
    {
      assert Somewhere(cols, i);
      ItemInside(before, after, f, cols, i);
    }
  }

  lemma {:induction false} TidyFrame(before: seq<Item>, after: seq<Item>, f: nat, cols: seq<Column>)
    requires f < |before| == |after| && LaidOut(before, after, f, cols) && ColumnsFit(before, before[f].id, cols)
    ensures OnlyMoved(before[f], after[f]) && after[f].x == before[f].x && after[f].y == before[f].y
    ensures forall i: nat :: ChildOf(before, i, before[f].id) ==>
      Somewhere(cols, i) && Inside(after[f], after[i]) && OnlyMoved(before[i], after[i])
    ensures forall c :: 0 <= c < |cols| ==> Tidy(before, after, cols[c])
  {
    FrameGrows(before, after, f, cols);
    EachItemInside(before, after, f, cols);
    forall c | 0 <= c < |cols|
      ensures Tidy(before, after, cols[c])
    {
      TidyColumn(before, after, f, cols, c);
    }
  }

  lemma {:induction false} ItemInside(before: seq<Item>, after: seq<Item>, f: nat, cols: seq<Column>, i: nat)
    requires f < |before| == |after| && LaidOut(before, after, f, cols) && Somewhere(cols, i)
    ensures i < |before| && Inside(after[f], after[i]) && OnlyMoved(before[i], after[i])
  {
    var c, k :| 0 <= c < |cols| && 0 <= k < |cols[c]| && cols[c][k].i == i;
    PlacedInside(before, after, f, cols, c, k);
  }

  // ---- nothing but an item's own frame moves it ----

  /** What the layout never changes. */
  ghost predicate SameRoles(a: seq<Item>, b: seq<Item>) {
    && |a| == |b|
    && forall i :: 0 <= i < |a| ==>
         a[i].kind == b[i].kind && a[i].id == b[i].id && a[i].hasParent == b[i].hasParent && a[i].parent == b[i].parent
  }

  lemma {:induction false} SameChildren(a: seq<Item>, b: seq<Item>, id: string, n: nat)
    requires SameRoles(a, b) && n <= |a|
    ensures ChildrenUpTo(a, id, n) == ChildrenUpTo(b, id, n)
  {
    if n > 0 {
      SameChildren(a, b, id, n - 1);
    }
  }

  lemma {:induction false} SameSpots(a: seq<Item>, b: seq<Item>, id: string)
    requires SameRoles(a, b) && forall i: nat :: ChildOf(a, i, id) ==> a[i] == b[i]
    ensures Spots(a, id) == Spots(b, id)
  {
    SameChildren(a, b, id, |a|);
    ChildrenAre(a, id, |a|);
  }

  /** A column is laid out the same on boards that agree on its items. */
  lemma {:induction false} SamePlaces(a: seq<Item>, b: seq<Item>, f: Item, col: Column, k: nat, low: real)
    requires |a| == |b| && k <= |col| && forall j :: 0 <= j < |col| ==> col[j].i < |a| && a[col[j].i] == b[col[j].i]
    ensures Cursor(a, f, col, k) == Cursor(b, f, col, k)
    ensures k < |col| ==> Placed(a, f, col, k) == Placed(b, f, col, k)
    ensures LowestIn(a, f, col, k, low) == LowestIn(b, f, col, k, low)
  {
    if k > 0 {
      SamePlaces(a, b, f, col, k - 1, low);
    }
  }

  lemma {:induction false} SameLowest(a: seq<Item>, b: seq<Item>, f: Item, cols: seq<Column>, c: nat)
    requires |a| == |b| && ColumnsOk(a, cols) && c <= |cols|
    requires forall d, j :: 0 <= d < |cols| && 0 <= j < |cols[d]| ==> a[cols[d][j].i] == b[cols[d][j].i]
    ensures Lowest(a, f, cols, c) == Lowest(b, f, cols, c)
  {
    if c > 0 {
      SameLowest(a, b, f, cols, c - 1);
      SamePlaces(a, b, f, cols[c - 1], |cols[c - 1]|, Lowest(a, f, cols, c - 1));
    }
  }

  lemma {:induction false} SameLaidOut(a: seq<Item>, b: seq<Item>, f: nat, after: seq<Item>, cols: seq<Column>)
    requires f < |a| == |b| == |after| && a[f] == b[f] && LaidOut(a, after, f, cols)
    requires forall c, k :: 0 <= c < |cols| && 0 <= k < |cols[c]| ==> a[cols[c][k].i] == b[cols[c][k].i]
    ensures LaidOut(b, after, f, cols)
  {
    SameLowest(a, b, a[f], cols, |cols|);
    forall c, k | 0 <= c < |cols| && 0 <= k < |cols[c]|
      ensures Placed(a, a[f], cols[c], k) == Placed(b, b[f], cols[c], k)
    {
      SamePlaces(a, b, a[f], cols[c], k, 0.0);
    }
  }

  /** The layout of a frame is the same on boards that agree on the frame and its items. */
  lemma {:induction false} SameFrame(a: seq<Item>, b: seq<Item>, f: nat, after: seq<Item>)
    requires SameRoles(a, b) && f < |a| == |after| && a[f] == b[f]
    requires forall i: nat :: ChildOf(a, i, a[f].id) ==> a[i] == b[i]
    requires FrameDone(a, after, f)
    ensures FrameDone(b, after, f)
  {
    SameSpots(a, b, a[f].id);
    ClusterFits(a, a[f].id);
    SameLaidOut(a, b, f, after, ColumnsOf(a, f));
  }

  lemma {:induction false} StaysLaidOut(before: seq<Item>, a: seq<Item>, b: seq<Item>, f: nat, cols: seq<Column>)
    requires f < |before| == |a| == |b| && LaidOut(before, a, f, cols) && a[f] == b[f]
    requires forall c, k :: 0 <= c < |cols| && 0 <= k < |cols[c]| ==> a[cols[c][k].i] == b[cols[c][k].i]
    ensures LaidOut(before, b, f, cols)
  {
  }

  /** A finished frame stays finished while its own items are left alone. */
  lemma {:induction false} FrameStaysDone(before: seq<Item>, a: seq<Item>, b: seq<Item>, f: nat)
    requires f < |before| == |a| == |b| && FrameDone(before, a, f)
    requires forall i: nat :: i < |a| && Touches(before, f, i) ==> a[i] == b[i]
    ensures FrameDone(before, b, f)
  {
    ClusterFits(before, before[f].id);
    StaysLaidOut(before, a, b, f, ColumnsOf(before, f));
  }

  // ---- the layout, in place ----

  /** Item i is among the first k of the column. */
  ghost predicate InFirst(col: Column, k: nat, i: nat) {
    exists j :: 0 <= j < k && j < |col| && col[j].i == i
  }

  /** The first k items of the column have been placed, and nothing else has been touched. */
  ghost predicate ColumnDone(before: seq<Item>, now: seq<Item>, f: Item, col: Column, k: nat)
    requires |before| == |now| && k <= |col| && forall j :: 0 <= j < |col| ==> col[j].i < |before|
  {
    && (forall j :: 0 <= j < k ==> now[col[j].i] == Placed(before, f, col, j))
    && (forall i :: 0 <= i < |before| && !InFirst(col, k, i) ==> now[i] == before[i])
  }

  lemma {:induction false} OneMoreItem(before: seq<Item>, now: seq<Item>, f: Item, col: Column, k: nat)
    requires |before| == |now| && k < |col| && Distinct(col) && forall j :: 0 <= j < |col| ==> col[j].i < |before|
    requires ColumnDone(before, now, f, col, k)
    ensures now[col[k].i] == before[col[k].i]
    ensures ColumnDone(before, now[col[k].i := Placed(before, f, col, k)], f, col, k + 1)
  {
    assert !InFirst(col, k, col[k].i);
    forall i | 0 <= i < |before| && !InFirst(col, k + 1, i)
      ensures i != col[k].i && !InFirst(col, k, i)
    {
    }
  }

  /** Stack the items of one column; returns the lowest bottom so far. */
  method LayoutColumn(items: array<Item>, f: Item, col: Column, low: real) returns (lowest: real)
    requires col != [] && Distinct(col) && forall k :: 0 <= k < |col| ==> col[k].i < items.Length
    modifies items
    ensures ColumnDone(old(items[..]), items[..], f, col, |col|)
    ensures lowest == LowestIn(old(items[..]), f, col, |col|, low)
  {
    ghost var before := items[..];
    lowest := low;
    var cursor := Top(f);
    var first := items[col[0].i];
    var left := Clamp(f, first.x, first);
    for k := 0 to |col|
      invariant ColumnDone(before, items[..], f, col, k)
      invariant cursor == Cursor(before, f, col, k) && lowest == LowestIn(before, f, col, k, low)
    {
      ghost var now := items[..];
      OneMoreItem(before, now, f, col, k);
      var item := items[col[k].i];
      var height := EstimatedHeight(item);
      var y := Max(cursor, Top(f));
      items[col[k].i] := item.(x := Clamp(f, left, item), y := y, height := height);
      assert items[..] == now[col[k].i := Placed(before, f, col, k)];
      cursor := y + height + GAP;
      lowest := Max(lowest, y + height);
    }
  }

  /** Item i is in one of the first c columns. */
  ghost predicate InFirstColumns(cols: seq<Column>, c: nat, i: nat) {
    exists d :: 0 <= d < c && d < |cols| && InFirst(cols[d], |cols[d]|, i)
  }

  /** The first c columns have been placed, and nothing else has been touched. */
  ghost predicate ColumnsDone(before: seq<Item>, now: seq<Item>, f: Item, cols: seq<Column>, c: nat)
    requires |before| == |now| && ColumnsOk(before, cols) && c <= |cols|
  {
    && (forall d, k :: 0 <= d < c && 0 <= k < |cols[d]| ==> now[cols[d][k].i] == Placed(before, f, cols[d], k))
    && (forall i :: 0 <= i < |before| && !InFirstColumns(cols, c, i) ==> now[i] == before[i])
  }

  lemma {:induction false} ColumnsApart(cols: seq<Column>, c: nat, k: nat)
    requires Unrepeated(cols) && c < |cols| && k < |cols[c]|
    ensures !InFirstColumns(cols, c, cols[c][k].i)
  {
  }

  lemma {:induction false} ColumnsApartFrom(cols: seq<Column>, c: nat, d: nat, k: nat)
    requires Unrepeated(cols) && d < c < |cols| && k < |cols[d]|
    ensures !InFirst(cols[c], |cols[c]|, cols[d][k].i)
  {
  }

  lemma {:induction false} OneMoreColumn(before: seq<Item>, mid: seq<Item>, after: seq<Item>, f: Item,
                                         cols: seq<Column>, c: nat, low: real)
    requires |before| == |mid| == |after| && ColumnsOk(before, cols) && Unrepeated(cols) && c < |cols|
    requires ColumnsDone(before, mid, f, cols, c) && ColumnDone(mid, after, f, cols[c], |cols[c]|)
    ensures ColumnsDone(before, after, f, cols, c + 1)
    ensures LowestIn(mid, f, cols[c], |cols[c]|, low) == LowestIn(before, f, cols[c], |cols[c]|, low)
  {
    forall k | 0 <= k < |cols[c]|
      ensures mid[cols[c][k].i] == before[cols[c][k].i]
    {
      ColumnsApart(cols, c, k);
    }
    SamePlaces(mid, before, f, cols[c], |cols[c]|, low);
    forall d, k | 0 <= d < c + 1 && 0 <= k < |cols[d]|
      ensures after[cols[d][k].i] == Placed(before, f, cols[d], k)
    {
      if d == c {
        SamePlaces(mid, before, f, cols[c], k, low);
      } else {
        ColumnsApartFrom(cols, c, d, k);
      }
    }
    forall i | 0 <= i < |before| && !InFirstColumns(cols, c + 1, i)
      ensures after[i] == before[i]
    {
      assert !InFirst(cols[c], |cols[c]|, i) && !InFirstColumns(cols, c, i);
    }
  }

  /** Stack every column; returns the lowest bottom of all. */
  method LayoutColumns(items: array<Item>, f: Item, cols: seq<Column>) returns (lowest: real)
    requires ColumnsOk(items[..], cols) && Unrepeated(cols) && forall c :: 0 <= c < |cols| ==> cols[c] != []
    modifies items
    ensures ColumnsDone(old(items[..]), items[..], f, cols, |cols|)
    ensures lowest == Lowest(old(items[..]), f, cols, |cols|)
  {
    ghost var before := items[..];
    lowest := Top(f);
    for c := 0 to |cols|
      invariant ColumnsDone(before, items[..], f, cols, c)
      invariant lowest == Lowest(before, f, cols, c)
    {
      ghost var mid, low := items[..], lowest;
      lowest := LayoutColumn(items, f, cols[c], lowest);
      OneMoreColumn(before, mid, items[..], f, cols, c, low);
    }
  }

  lemma {:induction false} OnlyChildrenInColumns(items: seq<Item>, f: nat, cols: seq<Column>, i: nat)
    requires f < |items| && ColumnsFit(items, items[f].id, cols) && InFirstColumns(cols, |cols|, i)
    ensures ChildOf(items, i, items[f].id)
  {
    var c :| 0 <= c < |cols| && InFirst(cols[c], |cols[c]|, i);
    var k :| 0 <= k < |cols[c]| && cols[c][k].i == i;
  }

  /** Placing all columns of a frame and growing the frame finishes it. */
  lemma {:induction false} ColumnsThenFrame(before: seq<Item>, now: seq<Item>, f: nat, cols: seq<Column>)
    requires f < |before| == |now| && before[f].kind.Frame?
    requires ColumnsFit(before, before[f].id, cols) && cols != []
    requires ColumnsDone(before, now, before[f], cols, |cols|)
    ensures
      var after := now[f := Grown(before[f], Lowest(before, before[f], cols, |cols|))];
      && LaidOut(before, after, f, cols)
      && (forall i :: 0 <= i < |before| && !Touches(before, f, i) ==> after[i] == before[i])
  {
    forall i | 0 <= i < |before| && !Touches(before, f, i)
      ensures now[i] == before[i]
    {
      if InFirstColumns(cols, |cols|, i) {
        OnlyChildrenInColumns(before, f, cols, i);
      }
    }
  }

  /** Lay out the items of one frame, and grow the frame. */
  method LayoutFrame(items: array<Item>, f: nat, children: seq<nat>)
    requires f < items.Length && items[f].kind.Frame?
    requires children == ChildrenUpTo(items[..], items[f].id, items.Length)
    modifies items
    ensures FrameDone(old(items[..]), items[..], f)
    ensures forall i :: 0 <= i < items.Length && !Touches(old(items[..]), f, i) ==> items[i] == old(items[i])
  {
    ghost var before := items[..];
    var frame := items[f];
    ClusterFits(before, frame.id);
    if children == [] {
      NoChildrenNoColumns(before, frame.id);
      return;
    }
    var cols := ClusterFrameColumns(SpotsAt(items[..], children));
    SomeColumns(before, f, cols);
    var lowest := LayoutColumns(items, frame, cols);
    ghost var now := items[..];
    ColumnsThenFrame(before, now, f, cols);
    items[f] := Grown(frame, lowest);
    assert items[..] == now[f := Grown(frame, lowest)];
  }

  lemma {:induction false} NoChildrenNoColumns(items: seq<Item>, id: string)
    requires ChildrenUpTo(items, id, |items|) == []
    ensures Cluster(Spots(items, id)) == []
  {
    assert Spots(items, id) == [];
  }

  lemma {:induction false} SomeColumns(items: seq<Item>, f: nat, cols: seq<Column>)
    requires f < |items| && cols == ColumnsOf(items, f) && ChildrenUpTo(items, items[f].id, |items|) != []
    ensures cols != []
  {
    ChildrenAre(items, items[f].id, |items|);
    ClusterFits(items, items[f].id);
    assert ChildOf(items, ChildrenUpTo(items, items[f].id, |items|)[0], items[f].id);
  }

  /** The children of each named frame among the first n items. */
  function ChildrenOf(board: seq<Item>, ids: set<string>, n: nat): map<string, seq<nat>>
    requires n <= |board|
  {
    map id | id in ids :: ChildrenUpTo(board, id, n)
  }

  lemma {:induction false} ChildrenNext(board: seq<Item>, ids: set<string>, n: nat)
    requires n < |board|
    ensures
      var item, m := board[n], ChildrenOf(board, ids, n);
      ChildrenOf(board, ids, n + 1) ==
        if item.hasParent && item.parent in ids && HoldsText(item) then m[item.parent := m[item.parent] + [n]] else m
  {
    var item: Item, m: map<string, seq<nat>>, more: map<string, seq<nat>> :=
      board[n], ChildrenOf(board, ids, n), ChildrenOf(board, ids, n + 1);
    forall id | id in ids
      ensures more[id] == if ChildOf(board, n, id) then m[id] + [n] else m[id]
    {
    }
    if item.hasParent && item.parent in ids && HoldsText(item) {
      assert more == m[item.parent := m[item.parent] + [n]];
    } else {
      assert more == m;
    }
  }

  /** The children of every frame, collected in one pass over the board. */
  method CollectChildren(items: array<Item>, frames: seq<nat>) returns (byFrame: map<string, seq<nat>>)
    requires forall k :: 0 <= k < |frames| ==> frames[k] < items.Length
    ensures forall k :: 0 <= k < |frames| ==>
      items[frames[k]].id in byFrame
      && byFrame[items[frames[k]].id] == ChildrenUpTo(items[..], items[frames[k]].id, items.Length)
  {
    var ids := set k | 0 <= k < |frames| :: items[frames[k]].id;
    assert forall k :: 0 <= k < |frames| ==> items[frames[k]].id in ids;
    byFrame := Distribute(items[..], ids);
  }

  /** The pass: every item is added to the list of its frame. */
  method Distribute(board: seq<Item>, ids: set<string>) returns (byFrame: map<string, seq<nat>>)
    ensures byFrame == ChildrenOf(board, ids, |board|)
  {
    byFrame := map id | id in ids :: [];
    for i := 0 to |board|
      invariant byFrame == ChildrenOf(board, ids, i)
    {
      ChildrenNext(board, ids, i);
      var item := board[i];
      if item.hasParent && item.parent in byFrame && HoldsText(item) {
        byFrame := byFrame[item.parent := byFrame[item.parent] + [i]];
      }
    }
  }

  /** The frames of the board by id. */
  method CollectFrames(items: array<Item>) returns (frames: seq<nat>)
    ensures frames == FramesUpTo(items[..], items.Length)
  {
    frames := [];
    for i := 0 to items.Length
      invariant frames == FramesUpTo(items[..], i)
    {
      if items[i].kind.Frame? {
        frames := AddFrame(items[..], frames, i);
      }
    }
  }

  /** The first n frames are done, and what belongs to none of them is untouched. */
  ghost predicate BoardDone(before: seq<Item>, now: seq<Item>, frames: seq<nat>, n: nat) {
    && n <= |frames| && SameRoles(before, now)
    && (forall k :: 0 <= k < n ==> frames[k] < |before| && FrameDone(before, now, frames[k]))
    && (forall i: nat :: i < |before| && (forall k :: 0 <= k < n ==> !Touches(before, frames[k], i)) ==>
          now[i] == before[i])
  }

  /** Lay out the board: every frame is done, and what is in no frame stays as it is. */
  method NormalizeLayout(items: array<Item>)
    modifies items
    ensures BoardDone(old(items[..]), items[..], FramesUpTo(old(items[..]), items.Length),
                      |FramesUpTo(old(items[..]), items.Length)|)
  {
    ghost var before := items[..];
    var frames := CollectFrames(items);
    var byFrame := CollectChildren(items, frames);
    FramesHaveDistinctIds(before, items.Length);
    for n := 0 to |frames|
      invariant BoardDone(before, items[..], frames, n)
    {
      ghost var mid := items[..];
      var f := frames[n];
      SameChildren(before, mid, before[f].id, items.Length);
      LayoutFrame(items, f, byFrame[items[f].id]);
      AfterFrame(before, mid, items[..], frames, n);
    }
  }

  /** Frames with different ids share nothing. */
  lemma {:induction false} FramesApart(items: seq<Item>, f: nat, g: nat, i: nat)
    requires f < |items| && g < |items| && items[f].kind.Frame? && items[g].kind.Frame? && items[f].id != items[g].id
    requires Touches(items, f, i)
    ensures !Touches(items, g, i)
  {
  }

  lemma {:induction false} NotTouchedYet(before: seq<Item>, frames: seq<nat>, n: nat)
    requires n < |frames| && DistinctIds(before, frames)
    requires forall k :: 0 <= k < |frames| ==> before[frames[k]].kind.Frame?
    ensures forall i: nat, k :: Touches(before, frames[n], i) && 0 <= k < |frames| && k != n ==>
      !Touches(before, frames[k], i)
  {
    forall i: nat, k | Touches(before, frames[n], i) && 0 <= k < |frames| && k != n
      ensures !Touches(before, frames[k], i)
    {
      FramesApart(before, frames[n], frames[k], i);
    }
  }

  /** What one more frame leaves. */
  lemma {:induction false} AfterFrame(before: seq<Item>, mid: seq<Item>, after: seq<Item>, frames: seq<nat>, n: nat)
    requires BoardDone(before, mid, frames, n) && |after| == |mid| && n < |frames| && DistinctIds(before, frames)
    requires forall k :: 0 <= k < |frames| ==> before[frames[k]].kind.Frame?
    requires FrameDone(mid, after, frames[n])
    requires forall i: nat :: i < |mid| && !Touches(mid, frames[n], i) ==> after[i] == mid[i]
    ensures BoardDone(before, after, frames, n + 1)
  {
    NextFrameDone(before, mid, after, frames, n);
    EarlierFramesStay(before, mid, after, frames, n);
    RolesKept(mid, after, frames[n]);
    forall i: nat | i < |before| && forall k :: 0 <= k < n + 1 ==> !Touches(before, frames[k], i)
      ensures after[i] == before[i]
    {
      SameTouches(before, mid, frames[n], i);
      assert !Touches(before, frames[n], i);
    }
  }

  lemma {:induction false} SameTouches(a: seq<Item>, b: seq<Item>, f: nat, i: nat)
    requires SameRoles(a, b)
    ensures Touches(a, f, i) <==> Touches(b, f, i)
  {
  }

  /** The next frame is laid out as it would have been on the original board. */
  lemma {:induction false} NextFrameDone(before: seq<Item>, mid: seq<Item>, after: seq<Item>, frames: seq<nat>, n: nat)
    requires BoardDone(before, mid, frames, n) && |after| == |mid| && n < |frames| && DistinctIds(before, frames)
    requires forall k :: 0 <= k < |frames| ==> before[frames[k]].kind.Frame?
    requires FrameDone(mid, after, frames[n])
    ensures FrameDone(before, after, frames[n])
  {
    var f := frames[n];
    NotTouchedYet(before, frames, n);
    forall i: nat | Touches(before, f, i)
      ensures mid[i] == before[i]
    {
    }
    forall i: nat | ChildOf(mid, i, mid[f].id)
      ensures mid[i] == before[i]
    {
      SameTouches(before, mid, f, i);
      assert Touches(before, f, i);
    }
    assert Touches(before, f, f);
    SameFrame(mid, before, f, after);
  }

  /** The frames already laid out are not touched again. */
  lemma {:induction false} EarlierFramesStay(before: seq<Item>, mid: seq<Item>, after: seq<Item>, frames: seq<nat>,
      n: nat)
    requires BoardDone(before, mid, frames, n) && |after| == |mid| && n < |frames| && DistinctIds(before, frames)
    requires forall k :: 0 <= k < |frames| ==> before[frames[k]].kind.Frame?
    requires forall i: nat :: i < |mid| && !Touches(mid, frames[n], i) ==> after[i] == mid[i]
    ensures forall k :: 0 <= k < n ==> FrameDone(before, after, frames[k])
  {
    forall k | 0 <= k < n
      ensures FrameDone(before, after, frames[k])
    {
      forall i: nat | i < |mid| && Touches(before, frames[k], i)
        ensures after[i] == mid[i]
      {
        FramesApart(before, frames[k], frames[n], i);
        SameTouches(before, mid, frames[n], i);
      }
      FrameStaysDone(before, mid, after, frames[k]);
    }
  }

  lemma {:induction false} RolesKept(mid: seq<Item>, after: seq<Item>, f: nat)
    requires f < |mid| == |after| && FrameDone(mid, after, f)
    requires forall i: nat :: i < |mid| && !Touches(mid, f, i) ==> after[i] == mid[i]
    ensures SameRoles(mid, after)
  {
    FrameIsTidy(mid, after, f);
    forall i | 0 <= i < |mid|
      ensures mid[i].kind == after[i].kind && mid[i].id == after[i].id
      ensures mid[i].hasParent == after[i].hasParent && mid[i].parent == after[i].parent
    {
      assert Touches(mid, f, i) ==> OnlyMoved(mid[i], after[i]);
    }
  }

  /**
    On the laid-out board every item that was put into a frame lies inside the
    last frame of that id, moved and perhaps grown but otherwise as it was.
   */
  lemma {:induction false} EveryItemFindsItsFrame(before: seq<Item>, after: seq<Item>, i: nat, g: nat) returns (f: nat)
    requires BoardDone(before, after, FramesUpTo(before, |before|), |FramesUpTo(before, |before|)|)
    requires g < |before| && before[g].kind.Frame? && ChildOf(before, i, before[g].id)
    ensures g <= f < |before| && before[f].kind.Frame? && before[f].id == before[g].id
    ensures FrameDone(before, after, f) && Inside(after[f], after[i]) && OnlyMoved(before[i], after[i])
  {
    var k := LastFrameCounts(before, |before|, g);
    f := FramesUpTo(before, |before|)[k];
    FrameIsTidy(before, after, f);
  }
}

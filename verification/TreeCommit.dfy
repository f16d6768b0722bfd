/**
  Storing a validated decision tree as decisions and edges
  (backend/agent/decision_tree_service.py).
 */
module TreeCommit {
  import opened Common
  import opened Graphs
  import opened TreeValidator
  import CycleSearch

  // ---- the order of creation: sorted by (layer, ref) ----

  predicate TextLe(a: string, b: string) {
    a == "" || (b != "" && (a[0] < b[0] || (a[0] == b[0] && TextLe(a[1..], b[1..]))))
  }

  predicate Before(a: Node, b: Node) {
    a.layer < b.layer || (a.layer == b.layer && TextLe(a.ref, b.ref))
  }

  lemma {:induction false} TextLeTotal(a: string, b: string)
    ensures TextLe(a, b) || TextLe(b, a)
  {
    if a != "" && b != "" && a[0] == b[0] {
      TextLeTotal(a[1..], b[1..]);
    }
  }

  lemma {:induction false} TextLeTransitive(a: string, b: string, c: string)
    requires TextLe(a, b) && TextLe(b, c)
    ensures TextLe(a, c)
  {
    if a != "" && a[0] == b[0] && b[0] == c[0] {
      TextLeTransitive(a[1..], b[1..], c[1..]);
    }
  }

  /** Texts compare at their first difference; a text comes before all that it begins. */
  lemma {:induction false} FirstDifferenceDecides(a: string, b: string, i: nat)
    requires i <= |a| && i <= |b| && a[..i] == b[..i]
    requires i < |a| && i < |b| ==> a[i] != b[i]
    ensures TextLe(a, b) <==> i == |a| || (i < |b| && a[i] < b[i])
  {
    if i > 0 {
      assert a[0] == a[..i][0] == b[..i][0] == b[0];
      assert a[1..][..i - 1] == a[..i][1..] == b[..i][1..] == b[1..][..i - 1];
      FirstDifferenceDecides(a[1..], b[1..], i - 1);
    }
  }

  /** How many of the sorted nodes come before n. */
  function Place(n: Node, sorted: seq<Node>): (k: nat)
    ensures k <= |sorted|
    ensures forall j :: 0 <= j < k ==> !Before(n, sorted[j])
    ensures k < |sorted| ==> Before(n, sorted[k])
  {
    if sorted == [] || Before(n, sorted[0]) then 0 else 1 + Place(n, sorted[1..])
  }

  function Insert(n: Node, sorted: seq<Node>): (r: seq<Node>)
    ensures |r| == |sorted| + 1
  {
    var k := Place(n, sorted);
    sorted[..k] + [n] + sorted[k..]
  }

  function Sorted(nodes: seq<Node>): (r: seq<Node>)
    ensures |r| == |nodes|
  {
    if nodes == [] then [] else Insert(nodes[0], Sorted(nodes[1..]))
  }

  ghost predicate Ordered(nodes: seq<Node>) {
    forall i, j :: 0 <= i < j < |nodes| ==> Before(nodes[i], nodes[j])
  }

  lemma {:induction false} BeforeTransitive(a: Node, b: Node, c: Node)
    requires Before(a, b) && Before(b, c)
    ensures Before(a, c)
  {
    if a.layer == b.layer && b.layer == c.layer {
      TextLeTransitive(a.ref, b.ref, c.ref);
    }
  }

  lemma {:induction false} InsertOrders(n: Node, sorted: seq<Node>)
    requires Ordered(sorted)
    ensures Ordered(Insert(n, sorted))
  {
    var k := Place(n, sorted);
    forall j | 0 <= j < |sorted|
      ensures if j < k then Before(sorted[j], n) else Before(n, sorted[j])
    {
      if j < k {
        TextLeTotal(n.ref, sorted[j].ref);
      } else if j > k {
        BeforeTransitive(n, sorted[k], sorted[j]);
      }
    }
    var r := Insert(n, sorted);
    forall i, j | 0 <= i < j < |r|
      ensures Before(r[i], r[j])
    {
      assert i < k ==> r[i] == sorted[i];
      assert j > k ==> r[j] == sorted[j - 1];
      assert i > k ==> r[i] == sorted[i - 1];
    }
  }

  lemma {:induction false} InsertPermutes(n: Node, sorted: seq<Node>)
    ensures multiset(Insert(n, sorted)) == multiset([n] + sorted)
    ensures forall m :: m in Insert(n, sorted) <==> m == n || m in sorted
  {
    var k := Place(n, sorted);
    assert sorted == sorted[..k] + sorted[k..];
  }

  lemma {:induction false} InsertUnique(n: Node, sorted: seq<Node>)
    requires UniqueRefs(sorted) && forall m :: m in sorted ==> m.ref != n.ref
    ensures UniqueRefs(Insert(n, sorted))
  {
    var k, r := Place(n, sorted), Insert(n, sorted);
    forall i, j | 0 <= i < j < |r|
      ensures r[i].ref != r[j].ref
    {
      assert r[i] == if i < k then sorted[i] else if i == k then n else sorted[i - 1];
      assert r[j] == if j < k then sorted[j] else if j == k then n else sorted[j - 1];
      assert i != k ==> r[i] in sorted;
      assert j != k ==> r[j] in sorted;
    }
  }

  /** The sort is one: an ordered permutation. */
  lemma {:induction false} SortedSorts(nodes: seq<Node>)
    ensures Ordered(Sorted(nodes)) && multiset(Sorted(nodes)) == multiset(nodes)
  {
    if nodes != [] {
      assert nodes == [nodes[0]] + nodes[1..];
      SortedSorts(nodes[1..]);
      InsertOrders(nodes[0], Sorted(nodes[1..]));
      InsertPermutes(nodes[0], Sorted(nodes[1..]));
    }
  }

  lemma {:induction false} SortedKeeps(nodes: seq<Node>)
    requires UniqueRefs(nodes)
    ensures UniqueRefs(Sorted(nodes))
    ensures forall m :: m in Sorted(nodes) <==> m in nodes
  {
    if nodes != [] {
      var tail := nodes[1..];
      assert nodes == [nodes[0]] + tail;
      SortedKeeps(tail);
      forall m | m in tail
        ensures m.ref != nodes[0].ref
      {
        var k :| 0 <= k < |tail| && tail[k] == m;
        assert nodes[k + 1] == m;
      }
      InsertUnique(nodes[0], Sorted(tail));
      InsertPermutes(nodes[0], Sorted(tail));
    }
  }

  // ---- ids by ref ----

  /** The map from refs to ids after the first i nodes have been created in order from `base` on. */
  ghost predicate NumbersUpTo(s: seq<Node>, base: nat, ids: map<string, nat>, i: nat)
    requires i <= |s|
  {
    && (forall j :: 0 <= j < i ==> s[j].ref in ids && ids[s[j].ref] == base + j)
    && (forall r :: r in ids ==> base <= ids[r] < base + i)
    && (forall a, b :: a in ids && b in ids && ids[a] == ids[b] ==> a == b)
  }

  ghost predicate Numbers(s: seq<Node>, base: nat, ids: map<string, nat>) {
    NumbersUpTo(s, base, ids, |s|)
  }

  lemma {:induction false} NumbersNext(s: seq<Node>, base: nat, ids: map<string, nat>, i: nat)
    requires i < |s| && UniqueRefs(s) && NumbersUpTo(s, base, ids, i)
    ensures NumbersUpTo(s, base, ids[s[i].ref := base + i], i + 1)
    ensures DecisionsUpTo(s, base, i + 1) == DecisionsUpTo(s, base, i) + [Decision(base + i, Title(s[i]))]
    ensures CreatedUpTo(s, base, i + 1) ==
      CreatedUpTo(s, base, i) + [Created(s[i].ref, base + i, Title(s[i]), s[i].layer)]
  {
    NumberNext(s, base, ids, i);
  }

  lemma {:induction false} NumberNext(s: seq<Node>, base: nat, ids: map<string, nat>, i: nat)
    requires i < |s| && UniqueRefs(s) && NumbersUpTo(s, base, ids, i)
    ensures NumbersUpTo(s, base, ids[s[i].ref := base + i], i + 1)
  {
    var next := ids[s[i].ref := base + i];
    forall j | 0 <= j < i + 1
      ensures s[j].ref in next && next[s[j].ref] == base + j
    {
      assert j < i ==> s[j].ref != s[i].ref;
    }
  }

  /** Every listed parent has been created before its child. */
  ghost predicate ParentsFirst(s: seq<Node>, base: nat, ids: map<string, nat>) {
    forall i, p :: 0 <= i < |s| && p in s[i].parents ==> p in ids && base <= ids[p] < base + i
  }

  /** Some node called p lies below layer `layer`. */
  ghost predicate HasBelow(s: seq<Node>, p: string, layer: int) {
    exists j :: 0 <= j < |s| && s[j].ref == p && s[j].layer < layer
  }

  lemma {:induction false} LowerComesFirst(s: seq<Node>, base: nat, ids: map<string, nat>, i: nat, p: string)
    requires Ordered(s) && Numbers(s, base, ids) && i < |s| && HasBelow(s, p, s[i].layer)
    ensures p in ids && base <= ids[p] < base + i
  {
    var j :| 0 <= j < |s| && s[j].ref == p && s[j].layer < s[i].layer;
  }

  /** Sorting by layer is a topological order of a valid tree. */
  lemma {:induction false} SortIsTopological(nodes: seq<Node>, base: nat, ids: map<string, nat>)
    requires ValidNodes(nodes) && Numbers(Sorted(nodes), base, ids)
    ensures ParentsFirst(Sorted(nodes), base, ids)
  {
    var s := Sorted(nodes);
    SortedKeeps(nodes);
    SortedSorts(nodes);
    forall i, p | 0 <= i < |s| && p in s[i].parents
      ensures p in ids && base <= ids[p] < base + i
    {
      ParentIsBelow(nodes, s[i], p);
      var parent :| parent in nodes && parent.ref == p && parent.layer < s[i].layer;
      assert parent in s;
      LowerComesFirst(s, base, ids, i, p);
    }
  }

  lemma {:induction false} ParentIsBelow(nodes: seq<Node>, n: Node, p: string)
    requires ValidNodes(nodes) && n in nodes && p in n.parents
    ensures exists parent :: parent in nodes && parent.ref == p && parent.layer < n.layer
  {
    assert LayerOk(ByRef(nodes), n);
    assert ByRef(nodes)[p] in nodes;
  }

  // ---- the database ----

  datatype Decision = Decision(id: nat, title: string)
  datatype Edge = Edge(from: nat, to: nat)
  datatype Created = Created(ref: string, id: nat, title: string, layer: int)
  datatype CommitError = UnknownRef | EdgeRejected | DuplicateEdge

  const TITLE_MAX: nat := 255

  function Title(n: Node): string {
    if |n.title| <= TITLE_MAX then n.title else n.title[..TITLE_MAX]
  }

  /** A title of up to 255 characters is stored whole, of a longer one its first 255. */
  lemma {:induction false} TitleIsCut(n: Node)
    ensures Title(n) <= n.title && |Title(n)| == (if |n.title| < 255 then |n.title| else 255)
  {
  }

  function IdOf(ids: map<string, nat>, ref: string): nat {
    if ref in ids then ids[ref] else 0
  }

  /** The edges into `child` from the first k of its parents. */
  function NodeEdges(ids: map<string, nat>, parents: seq<string>, child: nat, k: nat): (es: seq<Edge>)
    requires k <= |parents|
    ensures |es| == k && forall j :: 0 <= j < k ==> es[j] == Edge(IdOf(ids, parents[j]), child)
  {
    seq(k, j requires 0 <= j < k => Edge(IdOf(ids, parents[j]), child))
  }

  function EdgesUpTo(s: seq<Node>, base: nat, ids: map<string, nat>, i: nat): seq<Edge>
    requires i <= |s|
  {
    if i == 0 then []
    else EdgesUpTo(s, base, ids, i - 1) + NodeEdges(ids, s[i - 1].parents, base + i - 1, |s[i - 1].parents|)
  }

  function DecisionsUpTo(s: seq<Node>, base: nat, i: nat): (ds: seq<Decision>)
    requires i <= |s|
    ensures |ds| == i && forall j :: 0 <= j < i ==> ds[j] == Decision(base + j, Title(s[j]))
  {
    seq(i, j requires 0 <= j < i => Decision(base + j, Title(s[j])))
  }

  function CreatedUpTo(s: seq<Node>, base: nat, i: nat): (cs: seq<Created>)
    requires i <= |s|
    ensures |cs| == i && forall j :: 0 <= j < i ==> cs[j] == Created(s[j].ref, base + j, Title(s[j]), s[j].layer)
  {
    seq(i, j requires 0 <= j < i => Created(s[j].ref, base + j, Title(s[j]), s[j].layer))
  }

  /** The first k refs are all different. */
  ghost predicate DistinctUpTo(refs: seq<string>, k: nat)
    requires k <= |refs|
  {
    forall i, j :: 0 <= i < j < k ==> refs[i] != refs[j]
  }

  ghost predicate Distinct(refs: seq<string>) {
    DistinctUpTo(refs, |refs|)
  }

  lemma {:induction false} DistinctNext(refs: seq<string>, k: nat)
    requires k < |refs| && DistinctUpTo(refs, k)
    ensures refs[k] !in refs[..k] ==> DistinctUpTo(refs, k + 1)
    ensures refs[k] in refs[..k] ==> !Distinct(refs)
  {
    if refs[k] in refs[..k] {
      var j :| 0 <= j < k && refs[..k][j] == refs[k];
      assert refs[j] == refs[k];
    } else {
      assert forall j :: 0 <= j < k ==> refs[..k][j] == refs[j];
    }
  }

  /** No node lists the same parent twice. */
  ghost predicate NoRepeatedParent(nodes: seq<Node>) {
    forall n :: n in nodes ==> Distinct(n.parents)
  }

  /** Stored edges as a graph on the ids below `next`. */
  function Children(edges: seq<Edge>, next: nat): Graph<nat> {
    map n: nat | n < next :: Targets(edges, n)
  }

  function Targets(edges: seq<Edge>, n: nat): (ts: seq<nat>)
    ensures forall m :: m in ts <==> Edge(n, m) in edges
  {
    if edges == [] then []
    else
      assert edges == [edges[0]] + edges[1..];
      (if edges[0].from == n then [edges[0].to] else []) + Targets(edges[1..], n)
  }

  ghost predicate EdgesWithin(edges: seq<Edge>, next: nat) {
    forall i :: 0 <= i < |edges| ==> edges[i].from < next && edges[i].to < next
  }

  /** All edges lead upward between ids from `base` to below `next`. */
  ghost predicate NewEdges(edges: seq<Edge>, base: nat, next: nat) {
    forall i :: 0 <= i < |edges| ==> base <= edges[i].from < edges[i].to < next
  }

  /** Edges of ids from `base` on lead to higher ids. */
  ghost predicate Upward(edges: seq<Edge>, base: nat) {
    forall i :: 0 <= i < |edges| && edges[i].from >= base ==> edges[i].to > edges[i].from
  }

  lemma {:induction false} ChildrenClosed(edges: seq<Edge>, next: nat)
    requires EdgesWithin(edges, next)
    ensures Closed(Children(edges, next))
  {
    forall n, m | n in Children(edges, next) && m in Children(edges, next)[n]
      ensures m in Children(edges, next)
    {
      assert Edge(n, m) in edges;
    }
  }

  lemma {:induction false} NoWayDown(edges: seq<Edge>, next: nat, base: nat, child: nat, parent: nat)
    requires EdgesWithin(edges, next) && Upward(edges, base) && base <= child < next && parent < child
    ensures !Reaches(Children(edges, next), child, parent)
  {
    var g := Children(edges, next);
    if Reaches(g, child, parent) {
      var p: seq<nat> :| WalkFromTo(g, p, child, parent);
      var above := set n | n in g && n >= child;
      forall n, m | n in above && n in g && m in g[n]
        ensures m in above
      {
        assert Edge(n, m) in edges;
      }
      WalkStays(g, above, p, |p| - 1);
    }
  }

  /** Adding upward edges between new ids closes no cycle: one would already be among the old edges. */
  lemma {:induction false} NewEdgesCloseNoCycle(older: seq<Edge>, added: seq<Edge>, base: nat, next: nat)
    requires EdgesWithin(older, base) && EdgesWithin(older + added, next) && base <= next
    requires NewEdges(added, base, next)
    requires !HasCycle(Children(older, base))
    ensures !HasCycle(Children(older + added, next))
  {
    var g := Children(older + added, next);
    if HasCycle(g) {
      var p: seq<nat> :| Cycle(g, p);
      if p[0] < base {
        LowCycleIsOld(older, added, base, next, p);
      } else {
        HighCycleClimbs(older, added, base, next, p);
      }
    }
  }

  lemma {:induction false} LowCycleIsOld(older: seq<Edge>, added: seq<Edge>, base: nat, next: nat, p: seq<nat>)
    requires EdgesWithin(older, base) && base <= next
    requires NewEdges(added, base, next)
    requires Cycle(Children(older + added, next), p) && p[0] < base
    ensures Cycle(Children(older, base), p)
  {
    var g, h := Children(older + added, next), Children(older, base);
    var low := set x | x in g && x < base;
    forall x, y | x in low && x in g && y in g[x]
      ensures y in low
    {
      assert Edge(x, y) in older + added;
      assert Edge(x, y) in older;
    }
    forall i | 0 <= i < |p|
      ensures p[i] < base
    {
      WalkStays(g, low, p, i);
    }
    forall i | 0 <= i < |p| - 1
      ensures p[i + 1] in h[p[i]]
    {
      assert p[i + 1] in g[p[i]];
      assert Edge(p[i], p[i + 1]) in older + added;
      assert Edge(p[i], p[i + 1]) in older;
    }
  }

  lemma {:induction false} HighCycleClimbs(older: seq<Edge>, added: seq<Edge>, base: nat, next: nat, p: seq<nat>)
    requires EdgesWithin(older, base) && base <= next
    requires NewEdges(added, base, next)
    requires Walk(Children(older + added, next), p) && |p| >= 2 && p[0] >= base
    ensures p[|p| - 1] > p[0]
  {
    var g := Children(older + added, next);
    assert p[0 + 1] in g[p[0]];
    assert Edge(p[0], p[1]) in older + added;
    var q := p[1..];
    if |q| > 1 {
      forall i | 0 <= i < |q| - 1
        ensures q[i + 1] in g[q[i]]
      {
        assert q[i + 1] == p[i + 1 + 1] && q[i] == p[i + 1];
      }
      HighCycleClimbs(older, added, base, next, q);
    }
  }

  // ---- facts about the edges a tree asks for ----

  /** An edge from parent p to the i-th node. */
  ghost predicate Listed(s: seq<Node>, base: nat, ids: map<string, nat>, i: nat, p: string, e: Edge) {
    i < |s| && p in s[i].parents && e == Edge(IdOf(ids, p), base + i)
  }

  lemma {:induction false} NodeEdgesAreListed(s: seq<Node>, base: nat, ids: map<string, nat>, i: nat, e: Edge)
    requires i < |s|
    ensures e in NodeEdges(ids, s[i].parents, base + i, |s[i].parents|) <==> exists p :: Listed(s, base, ids, i, p, e)
  {
    var ps := s[i].parents;
    var es := NodeEdges(ids, ps, base + i, |ps|);
    if e in es {
      var j :| 0 <= j < |es| && es[j] == e;
      assert Listed(s, base, ids, i, ps[j], e);
    }
    if exists p :: Listed(s, base, ids, i, p, e) {
      var p :| Listed(s, base, ids, i, p, e);
      var j :| 0 <= j < |ps| && ps[j] == p;
      assert es[j] == e;
    }
  }

  /** The edges written are exactly the listed parent-to-child pairs. */
  lemma {:induction false} EdgesAreListed(s: seq<Node>, base: nat, ids: map<string, nat>, n: nat, e: Edge)
    requires n <= |s|
    ensures e in EdgesUpTo(s, base, ids, n) <==> exists i: nat, p :: i < n && Listed(s, base, ids, i, p, e)
  {
    if n > 0 {
      EdgesAreListed(s, base, ids, n - 1, e);
      NodeEdgesAreListed(s, base, ids, n - 1, e);
    }
  }

  lemma {:induction false} EdgesGoUp(s: seq<Node>, base: nat, ids: map<string, nat>, i: nat)
    requires i <= |s| && ParentsFirst(s, base, ids)
    ensures NewEdges(EdgesUpTo(s, base, ids, i), base, base + i)
  {
    if i > 0 {
      EdgesGoUp(s, base, ids, i - 1);
      var es, ps := NodeEdges(ids, s[i - 1].parents, base + i - 1, |s[i - 1].parents|), s[i - 1].parents;
      forall j | 0 <= j < |es|
        ensures base <= es[j].from < es[j].to == base + i - 1
      {
        assert ps[j] in ps;
      }
    }
  }

  lemma {:induction false} WithinAfter(s: seq<Node>, base: nat, ids: map<string, nat>, edges0: seq<Edge>)
    requires ParentsFirst(s, base, ids) && EdgesWithin(edges0, base)
    ensures EdgesWithin(edges0, base + |s|) && EdgesWithin(edges0 + EdgesUpTo(s, base, ids, |s|), base + |s|)
  {
    EdgesGoUp(s, base, ids, |s|);
  }

  /** The stored edges while those into the i-th node are written. */
  function Linked(before: seq<Edge>, ids: map<string, nat>, parents: seq<string>, child: nat, k: nat): seq<Edge>
    requires k <= |parents|
  {
    before + NodeEdges(ids, parents, child, k)
  }

  /** Before the k-th parent is linked: the edge is there already exactly if that parent was listed before. */
  lemma {:induction false} LinkReady(before: seq<Edge>, ids: map<string, nat>, parents: seq<string>, base: nat,
      child: nat, k: nat)
    requires k < |parents| && base <= child && Upward(before, base) && EdgesWithin(before, child)
    requires forall p :: p in parents ==> p in ids && base <= ids[p] < child
    requires forall a, b :: a in ids && b in ids && ids[a] == ids[b] ==> a == b
    ensures
      var edges := Linked(before, ids, parents, child, k);
      && EdgesWithin(edges, child + 1) && Upward(edges, base)
      && (Edge(ids[parents[k]], child) in edges <==> parents[k] in parents[..k])
      && edges + [Edge(ids[parents[k]], child)] == Linked(before, ids, parents, child, k + 1)
  {
    var es := NodeEdges(ids, parents, child, k);
    forall j | 0 <= j < k
      ensures es[j].to == child && base <= es[j].from < child && parents[..k][j] == parents[j]
    {
      assert parents[j] in parents;
    }
    if parents[k] in parents[..k] {
      var j :| 0 <= j < k && parents[..k][j] == parents[k];
      assert es[j] == Edge(ids[parents[k]], child);
    }
    assert NodeEdges(ids, parents, child, k + 1) == es + [Edge(ids[parents[k]], child)];
  }

  /** The edges stored before those into node i. */
  lemma {:induction false} StoredGoUp(s: seq<Node>, base: nat, ids: map<string, nat>, edges0: seq<Edge>, i: nat)
    requires i <= |s| && ParentsFirst(s, base, ids) && EdgesWithin(edges0, base)
    ensures Upward(edges0 + EdgesUpTo(s, base, ids, i), base)
    ensures EdgesWithin(edges0 + EdgesUpTo(s, base, ids, i), base + i)
  {
    EdgesGoUp(s, base, ids, i);
  }

  /** The stored edges lead upward and end before the node, and its parents have been created before it. */
  ghost predicate Linkable(edges: seq<Edge>, ids: map<string, nat>, n: Node, base: nat, child: nat) {
    && base <= child && n.ref in ids && ids[n.ref] == child
    && Upward(edges, base) && EdgesWithin(edges, child)
    && (forall p :: p in n.parents ==> p in ids && base <= ids[p] < child)
    && (forall a, b :: a in ids && b in ids && ids[a] == ids[b] ==> a == b)
  }

  /** Before the edges into node i are written. */
  lemma {:induction false} ChildReady(s: seq<Node>, base: nat, ids: map<string, nat>, edges0: seq<Edge>, i: nat)
    requires i < |s| && Numbers(s, base, ids) && ParentsFirst(s, base, ids) && EdgesWithin(edges0, base)
    ensures
      var es, ps := edges0 + EdgesUpTo(s, base, ids, i), s[i].parents;
      && Linkable(es, ids, s[i], base, base + i)
      && Linked(es, ids, ps, base + i, |ps|) == edges0 + EdgesUpTo(s, base, ids, i + 1)
  {
    StoredGoUp(s, base, ids, edges0, i);
    LinkedIsNext(s, base, ids, edges0, i);
  }

  lemma {:induction false} LinkedIsNext(s: seq<Node>, base: nat, ids: map<string, nat>, edges0: seq<Edge>, i: nat)
    requires i < |s|
    ensures Linked(edges0 + EdgesUpTo(s, base, ids, i), ids, s[i].parents, base + i, |s[i].parents|)
         == edges0 + EdgesUpTo(s, base, ids, i + 1)
  {
    var more := NodeEdges(ids, s[i].parents, base + i, |s[i].parents|);
    assert EdgesUpTo(s, base, ids, i + 1) == EdgesUpTo(s, base, ids, i) + more;
  }

  /** The first n nodes list no parent twice. */
  ghost predicate DistinctFirst(s: seq<Node>, n: nat) {
    forall i :: 0 <= i < n && i < |s| ==> Distinct(s[i].parents)
  }

  lemma {:induction false} DistinctSoFar(s: seq<Node>, i: nat)
    requires i <= |s| && DistinctFirst(s, i)
    ensures i == |s| ==> NoRepeatedParent(s)
    ensures i < |s| && Distinct(s[i].parents) ==> DistinctFirst(s, i + 1)
    ensures i < |s| && !Distinct(s[i].parents) ==> !NoRepeatedParent(s)
  {
  }

  // ---- the commit ----

  class DecisionStore {
    var decisions: seq<Decision>
    var edges: seq<Edge>
    var nextId: nat

    /** Edges join stored ids; the id sequence is ahead of them all. */
    ghost predicate Valid()
      reads this
    {
      EdgesWithin(edges, nextId)
    }

    /**
      Commit a validated tree. It goes through exactly when no node repeats a
      parent: the edge table refuses duplicates, and then everything is rolled
      back (but for the id sequence). No lookup is ever missed and no edge is
      ever rejected for closing a cycle.
     */
    method Commit(nodes: seq<Node>) returns (r: Result<seq<Created>, CommitError>)
      requires Valid() && ValidNodes(nodes)
      modifies this
      ensures Valid() && nextId >= old(nextId)
      ensures r.Ok? <==> NoRepeatedParent(nodes)
      ensures r.Err? ==> r.error == DuplicateEdge && decisions == old(decisions) && edges == old(edges)
      ensures r.Ok? ==>
        var s := Sorted(nodes);
        && decisions == old(decisions) + DecisionsUpTo(s, old(nextId), |s|)
        && (exists ids :: Numbers(s, old(nextId), ids) && edges == old(edges) + EdgesUpTo(s, old(nextId), ids, |s|))
        && nextId == old(nextId) + |s|
        && r.value == CreatedUpTo(s, old(nextId), |s|)
    {
      if nodes == [] {
        assert Numbers([], nextId, map[]);
        return Ok([]);
      }
      var s := Sorted(nodes);
      SortedKeeps(nodes);
      forall ids | Numbers(s, nextId, ids)
        ensures ParentsFirst(s, nextId, ids)
      {
        SortIsTopological(nodes, nextId, ids);
      }
      r := CommitSorted(s);
    }

    /** The transaction. */
    method CommitSorted(s: seq<Node>) returns (r: Result<seq<Created>, CommitError>)
      requires Valid() && UniqueRefs(s)
      requires forall ids :: Numbers(s, nextId, ids) ==> ParentsFirst(s, nextId, ids)
      modifies this
      ensures Valid() && nextId == old(nextId) + |s|
      ensures r.Ok? <==> NoRepeatedParent(s)
      ensures r.Err? ==> r.error == DuplicateEdge && decisions == old(decisions) && edges == old(edges)
      ensures r.Ok? ==>
        && decisions == old(decisions) + DecisionsUpTo(s, old(nextId), |s|)
        && (exists ids :: Numbers(s, old(nextId), ids) && edges == old(edges) + EdgesUpTo(s, old(nextId), ids, |s|))
        && r.value == CreatedUpTo(s, old(nextId), |s|)
    {
      var base, decisions0, edges0 := nextId, decisions, edges;
      var ids, created := CreateDecisions(s);
      WithinAfter(s, base, ids, edges0);
      var error := CreateEdges(s, base, ids, edges0);
      if error.Some? {
        decisions, edges := decisions0, edges0;
        return Err(error.value);
      }
      return Ok(created);
    }

    /** The first loop: one decision per node. */
    method CreateDecisions(s: seq<Node>) returns (ids: map<string, nat>, created: seq<Created>)
      requires UniqueRefs(s)
      modifies this
      ensures edges == old(edges) && nextId == old(nextId) + |s|
      ensures decisions == old(decisions) + DecisionsUpTo(s, old(nextId), |s|)
      ensures created == CreatedUpTo(s, old(nextId), |s|)
      ensures Numbers(s, old(nextId), ids)
    {
      ids, created := map[], [];
      var base := nextId;
      for i := 0 to |s|
        invariant edges == old(edges) && nextId == base + i
        invariant decisions == old(decisions) + DecisionsUpTo(s, base, i)
        invariant created == CreatedUpTo(s, base, i)
        invariant NumbersUpTo(s, base, ids, i)
      {
        var title := Title(s[i]);
        NumbersNext(s, base, ids, i);
        decisions := decisions + [Decision(nextId, title)];
        ids := ids[s[i].ref := nextId];
        created := created + [Created(s[i].ref, nextId, title, s[i].layer)];
        nextId := nextId + 1;
      }
    }

    /** The second loop: the edges into each node in turn. */
    method CreateEdges(s: seq<Node>, base: nat, ids: map<string, nat>, ghost edges0: seq<Edge>)
      returns (error: Option<CommitError>)
      requires Numbers(s, base, ids) && ParentsFirst(s, base, ids) && nextId == base + |s|
      requires EdgesWithin(edges0, base) && edges == edges0
      modifies this`edges
      ensures error.None? ==> edges == edges0 + EdgesUpTo(s, base, ids, |s|)
      ensures error.None? <==> NoRepeatedParent(s)
      ensures error.Some? ==> error.value == DuplicateEdge
    {
      for i := 0 to |s|
        invariant edges == edges0 + EdgesUpTo(s, base, ids, i)
        invariant DistinctFirst(s, i)
      {
        DistinctSoFar(s, i);
        error := LinkNode(s, base, ids, edges0, i);
        if error.Some? {
          return;
        }
      }
      DistinctSoFar(s, |s|);
      return None;
    }

    /** One turn of the second loop. */
    method LinkNode(s: seq<Node>, base: nat, ids: map<string, nat>, ghost edges0: seq<Edge>, i: nat)
      returns (error: Option<CommitError>)
      requires i < |s| && Numbers(s, base, ids) && ParentsFirst(s, base, ids) && nextId == base + |s|
      requires EdgesWithin(edges0, base) && edges == edges0 + EdgesUpTo(s, base, ids, i)
      modifies this`edges
      ensures error.None? ==> edges == edges0 + EdgesUpTo(s, base, ids, i + 1)
      ensures error.None? <==> Distinct(s[i].parents)
      ensures error.Some? ==> error.value == DuplicateEdge
    {
      ghost var was, all := edges, edges0 + EdgesUpTo(s, base, ids, i + 1);
      ChildReady(s, base, ids, edges0, i);
      assert Linked(was, ids, s[i].parents, base + i, |s[i].parents|) == all;
      error := LinkChild(s[i], base, base + i, ids);
      assert error.None? ==> edges == all;
    }

    /** The edges into one node. */
    method LinkChild(n: Node, ghost base: nat, ghost child: nat, ids: map<string, nat>)
      returns (error: Option<CommitError>)
      requires child < nextId && Linkable(edges, ids, n, base, child)
      modifies this`edges
      ensures error.None? ==> edges == Linked(old(edges), ids, n.parents, child, |n.parents|)
      ensures error.None? <==> Distinct(n.parents)
      ensures error.Some? ==> error.value == DuplicateEdge
    {
      var ps := n.parents;
      for k := 0 to |ps|
        invariant edges == Linked(old(edges), ids, ps, child, k)
        invariant DistinctUpTo(ps, k)
      {
        LinkReady(old(edges), ids, ps, base, child, k);
        DistinctNext(ps, k);
        assert ps[k] in ps;
        if ps[k] !in ids {
          return Some(UnknownRef);
        }
        error := CreateEdge(ids[ps[k]], ids[n.ref], base);
        if error.Some? {
          return;
        }
      }
      return None;
    }

    /** Check and write one edge from a parent to a later child. */
    method CreateEdge(parent: nat, child: nat, ghost base: nat) returns (error: Option<CommitError>)
      requires EdgesWithin(edges, nextId) && Upward(edges, base) && base <= child < nextId && parent < child
      modifies this`edges
      ensures error == if Edge(parent, child) in old(edges) then Some(DuplicateEdge) else None
      ensures edges == if Edge(parent, child) in old(edges) then old(edges) else old(edges) + [Edge(parent, child)]
    {
      ChildrenClosed(edges, nextId);
      NoWayDown(edges, nextId, base, child, parent);
      var closes := CycleSearch.HasPath(Children(edges, nextId), child, parent);
      if parent == child || closes {
        return Some(EdgeRejected);
      }
      if Edge(parent, child) in edges {
        return Some(DuplicateEdge);
      }
      edges := edges + [Edge(parent, child)];
      return None;
    }
  }

  /**
    What a successful commit leaves behind: one decision per node, each after
    the decisions of its parents, and no cycle that was not there before.
   */
  lemma {:induction false} CommittedTree(nodes: seq<Node>, s: seq<Node>, base: nat, ids: map<string, nat>,
      edges0: seq<Edge>)
    requires ValidNodes(nodes) && s == Sorted(nodes) && Numbers(s, base, ids)
    requires EdgesWithin(edges0, base) && !HasCycle(Children(edges0, base))
    ensures multiset(s) == multiset(nodes) && ParentsFirst(s, base, ids)
    ensures !HasCycle(Children(edges0 + EdgesUpTo(s, base, ids, |s|), base + |s|))
  {
    SortedSorts(nodes);
    SortIsTopological(nodes, base, ids);
    StoredIsAcyclic(s, base, ids, edges0);
  }

  /** Nodes stored with their parents first close no cycle. */
  lemma {:induction false} StoredIsAcyclic(s: seq<Node>, base: nat, ids: map<string, nat>, edges0: seq<Edge>)
    requires ParentsFirst(s, base, ids) && EdgesWithin(edges0, base) && !HasCycle(Children(edges0, base))
    ensures !HasCycle(Children(edges0 + EdgesUpTo(s, base, ids, |s|), base + |s|))
  {
    EdgesGoUp(s, base, ids, |s|);
    StoredGoUp(s, base, ids, edges0, |s|);
    NewEdgesCloseNoCycle(edges0, EdgesUpTo(s, base, ids, |s|), base, base + |s|);
  }

  /** A valid tree that cannot be stored: b names its parent a twice. */
  lemma {:induction false} ParentNamedTwice()
    ensures
      var nodes := [Node("a", 0, "A", []), Node("b", 1, "B", ["a", "a"])];
      ValidNodes(nodes) && !NoRepeatedParent(nodes)
  {
    var a, b := Node("a", 0, "A", []), Node("b", 1, "B", ["a", "a"]);
    var nodes := [a, b];
    assert "a" != "b" by {
      assert "a"[0] != "b"[0];
    }
    assert nodes[0] == a && nodes[1] == b;
    assert ByRef(nodes) == map["a" := a, "b" := b];
    assert !Distinct(b.parents) by {
      assert b.parents[0] == b.parents[1];
    }
    assert b in nodes;
  }
}

/** Paths and cycles in a finite directed graph given by its successor lists. */
module Graphs {
  type Graph<!N> = map<N, seq<N>>

  /** Every listed successor is a node. */
  ghost predicate Closed<N>(g: Graph<N>) {
    forall n, m :: n in g && m in g[n] ==> m in g
  }

  /** A walk along edges with at least one node. */
  ghost predicate Walk<N>(g: Graph<N>, p: seq<N>) {
    && |p| >= 1
    && (forall i :: 0 <= i < |p| ==> p[i] in g)
    && (forall i :: 0 <= i < |p| - 1 ==> p[i + 1] in g[p[i]])
  }

  ghost predicate WalkFromTo<N>(g: Graph<N>, p: seq<N>, a: N, b: N) {
    Walk(g, p) && p[0] == a && p[|p| - 1] == b
  }

  /** b can be reached from a in any number of steps, zero included. */
  ghost predicate Reaches<N(!new)>(g: Graph<N>, a: N, b: N) {
    exists p :: WalkFromTo(g, p, a, b)
  }

  /** A walk of at least one edge from a node back to itself. */
  ghost predicate Cycle<N>(g: Graph<N>, p: seq<N>) {
    |p| >= 2 && Walk(g, p) && p[0] == p[|p| - 1]
  }

  ghost predicate HasCycle<N(!new)>(g: Graph<N>) {
    exists p :: Cycle(g, p)
  }

  lemma {:induction false} WalkHere<N(!new)>(g: Graph<N>, a: N)
    requires a in g
    ensures Reaches(g, a, a)
  {
    assert WalkFromTo(g, [a], a, a);
  }

  lemma {:induction false} WalkOn<N(!new)>(g: Graph<N>, a: N, b: N, c: N)
    requires Reaches(g, a, b) && c in g && c in g[b]
    ensures Reaches(g, a, c)
  {
    var p :| WalkFromTo(g, p, a, b);
    assert WalkFromTo(g, p + [c], a, c);
  }

  lemma {:induction false} WalkTo<N(!new)>(g: Graph<N>, a: N, b: N, c: N)
    requires a in g && b in g[a] && Reaches(g, b, c)
    ensures Reaches(g, a, c)
  {
    var p :| WalkFromTo(g, p, b, c);
    assert WalkFromTo(g, [a] + p, a, c);
  }

  /** An edge back to where the walk started closes a cycle. */
  lemma {:induction false} WalkBack<N(!new)>(g: Graph<N>, a: N, b: N)
    requires Reaches(g, a, b) && a in g && a in g[b]
    ensures HasCycle(g)
  {
    var p :| WalkFromTo(g, p, a, b);
    assert Cycle(g, p + [a]);
  }

  /** A set that successors do not leave contains every walk that starts in it. */
  lemma {:induction false} WalkStays<N(!new)>(g: Graph<N>, s: set<N>, p: seq<N>, i: nat)
    requires Walk(g, p) && p[0] in s && i < |p|
    requires forall n, m :: n in s && n in g && m in g[n] ==> m in s
    ensures p[i] in s
  {
    if i > 0 {
      WalkStays(g, s, p, i - 1);
      assert p[i] == p[i - 1 + 1];
    }
  }

  /** A walk down a ranking is no longer than the rank it starts from, and a graph with one has no cycle. */
  lemma {:induction false} WalkDescends<N(!new)>(g: Graph<N>, rank: N -> int, p: seq<N>, i: nat)
    requires Walk(g, p) && i < |p|
    requires forall n, m :: n in g && m in g[n] ==> rank(m) < rank(n)
    ensures rank(p[i]) <= rank(p[0]) - i
  {
    if i > 0 {
      WalkDescends(g, rank, p, i - 1);
      assert p[i - 1 + 1] in g[p[i - 1]];
    }
  }

  lemma {:induction false} RankedHasNoCycle<N(!new)>(g: Graph<N>, rank: N -> int)
    requires forall n, m :: n in g && m in g[n] ==> rank(m) < rank(n)
    ensures !HasCycle(g)
  {
    if HasCycle(g) {
      var p :| Cycle(g, p);
      WalkDescends(g, rank, p, |p| - 1);
    }
  }
}

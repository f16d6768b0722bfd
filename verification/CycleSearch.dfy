/**
  The depth-first cycle search over parent references
  (backend/agent/generation_registry.py, _has_cycle) and the reachability
  search that guards a new edge (backend/decision/services.py, _has_path).
 */
module CycleSearch {
  import opened Graphs

  /** Everything below a visited node is visited, and the visited part has no cycle. */
  ghost predicate Explored<N(!new)>(g: Graph<N>, visited: set<N>) {
    && visited <= g.Keys
    && (forall n, m :: n in visited && m in g[n] ==> m in visited)
    && (forall p :: Cycle(g, p) ==> p[0] !in visited)
  }

  /** Every node being visited leads to the current one. */
  ghost predicate LeadTo<N(!new)>(g: Graph<N>, visiting: set<N>, n: N) {
    forall v :: v in visiting ==> v in g && exists m :: m in g && Reaches(g, v, m) && n in g[m]
  }

  lemma {:induction false} ExploredGrows<N(!new)>(g: Graph<N>, visited: set<N>, n: N)
    requires Explored(g, visited) && n in g && n !in visited
    requires forall m :: m in g[n] ==> m in visited
    ensures Explored(g, visited + {n})
  {
    forall p | Cycle(g, p)
      ensures p[0] !in visited + {n}
    {
      if p[0] == n {
        assert p[0 + 1] in g[p[0]];
        assert Walk(g, p[1..]) by {
          forall i | 0 <= i < |p[1..]| - 1
            ensures p[1..][i + 1] in g[p[1..][i]]
          {
            assert p[1..][i + 1] == p[i + 1 + 1] && p[1..][i] == p[i + 1];
          }
        }
        WalkStays(g, visited, p[1..], |p| - 2);
      }
    }
  }

  class Search<N(==,!new)> {
    const parents: Graph<N>
    var visiting: set<N>
    var visited: set<N>

    ghost predicate Valid()
      reads this
    {
      Closed(parents) && visiting <= parents.Keys && visiting !! visited && Explored(parents, visited)
    }

    constructor (parents: Graph<N>)
      requires Closed(parents)
      ensures Valid() && visiting == {} && visited == {} && this.parents == parents
    {
      this.parents := parents;
      visiting, visited := {}, {};
    }

    /** False leaves the node explored; true is never given without a cycle. */
    method HasCycleFrom(n: N) returns (found: bool)
      requires Valid() && n in parents && LeadTo(parents, visiting, n)
      modifies this
      ensures found ==> HasCycle(parents)
      ensures !found ==> Valid() && visiting == old(visiting) && old(visited) + {n} <= visited
      decreases parents.Keys - visiting, 1
    {
      if n in visiting {
        ghost var m :| m in parents && Reaches(parents, n, m) && n in parents[m];
        WalkBack(parents, n, m);
        return true;
      }
      if n in visited {
        return false;
      }
      visiting := visiting + {n};
      found := AnyParentHasCycle(n);
      if found {
        return true;
      }
      visiting := visiting - {n};
      ExploredGrows(parents, visited, n);
      visited := visited + {n};
    }

    /** The loop over the parents of the node that has just been entered. */
    method AnyParentHasCycle(n: N) returns (found: bool)
      requires Valid() && n in visiting && LeadTo(parents, visiting - {n}, n)
      modifies this
      ensures found ==> HasCycle(parents)
      ensures !found ==> Valid() && visiting == old(visiting) && old(visited) <= visited
      ensures !found ==> forall m :: m in parents[n] ==> m in visited
      decreases parents.Keys - visiting, 2
    {
      var ps := parents[n];
      for i := 0 to |ps|
        invariant Valid() && visiting == old(visiting) && old(visited) <= visited
        invariant forall j :: 0 <= j < i ==> ps[j] in visited
      {
        assert LeadTo(parents, visiting, ps[i]) by {
          forall v | v in visiting
            ensures exists m :: m in parents && Reaches(parents, v, m) && ps[i] in parents[m]
          {
            if v == n {
              WalkHere(parents, n);
            } else {
              var m :| m in parents && Reaches(parents, v, m) && n in parents[m];
              WalkOn(parents, v, m, n);
            }
          }
        }
        var sub := HasCycleFrom(ps[i]);
        if sub {
          return true;
        }
      }
      return false;
    }
  }

  /** Over all start nodes, with the sets shared between them: a cycle is reported if and only if there is one. */
  method ContainsCycle<N(==,!new)>(parents: Graph<N>, nodes: seq<N>) returns (found: bool)
    requires Closed(parents) && forall n :: n in parents <==> n in nodes
    ensures found <==> HasCycle(parents)
  {
    var search := new Search(parents);
    for i := 0 to |nodes|
      invariant search.Valid() && search.visiting == {} && search.parents == parents
      invariant forall j :: 0 <= j < i ==> nodes[j] in search.visited
    {
      var sub := search.HasCycleFrom(nodes[i]);
      if sub {
        return true;
      }
    }
    assert forall p :: Cycle(parents, p) ==> p[0] in parents;
    return false;
  }

  /** The iterative search of `_has_path` over the stored edges. */
  method HasPath<N(==,!new)>(children: Graph<N>, start: N, target: N) returns (found: bool)
    requires Closed(children) && start in children && target in children
    ensures found <==> Reaches(children, start, target)
  {
    if start == target {
      WalkHere(children, start);
      return true;
    }
    var visited: set<N> := {};
    var stack := [start];
    WalkHere(children, start);
    while stack != []
      invariant forall x :: x in stack ==> x in children && Reaches(children, start, x)
      invariant visited <= children.Keys && target !in visited
      invariant start in visited || start in stack
      invariant forall n, m :: n in visited && m in children[n] ==> m in visited || m in stack
      decreases children.Keys - visited, |stack|
    {
      var current := stack[|stack| - 1];
      var before := stack;
      stack := stack[..|stack| - 1];
      assert before == stack + [current];
      if current in visited {
        continue;
      }
      visited := visited + {current};
      if current == target {
        return true;
      }
      var cs := children[current];
      for i := 0 to |cs|
        invariant forall x :: x in stack ==> x in children && Reaches(children, start, x)
        invariant forall x :: x in before ==> x == current || x in stack
        invariant forall j :: 0 <= j < i ==> cs[j] in visited || cs[j] in stack
      {
        if cs[i] !in visited {
          WalkOn(children, start, current, cs[i]);
          stack := stack + [cs[i]];
        }
      }
    }
    if Reaches(children, start, target) {
      ghost var p :| WalkFromTo(children, p, start, target);
      WalkStays(children, visited, p, |p| - 1);
    }
    return false;
  }
}

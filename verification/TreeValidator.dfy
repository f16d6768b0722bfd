/**
  Validation of a generated decision tree
  (backend/agent/generation_registry.py, _validate_recommended_decision_tree).
 */
module TreeValidator {
  import opened Common
  import opened Graphs
  import CycleSearch

  /** A decoded JSON value. */
  datatype Py =
    | PNone
    | PBool(b: bool)
    | PInt(i: int)
    | PFloat(r: real)
    | PStr(s: string)
    | PList(items: seq<Py>)
    | PDict(fields: map<string, Py>)

  /** `dict.get` */
  function Get(fields: map<string, Py>, key: string): Py {
    if key in fields then fields[key] else PNone
  }

  const NODE_KEYS: set<string> := {
    "ref", "layer", "title", "parent_refs", "context_summary", "reasoning", "risk_level", "confidence", "topic"
  }
  const RISK_LEVELS: set<string> := {"LOW", "MEDIUM", "HIGH"}

  /** What `str.strip` removes. */
  predicate IsSpace(c: char) {
    || c in "\t\n\U{0B}\U{0C}\r\U{1C}\U{1D}\U{1E}\U{1F} \U{85}\U{A0}"
    || c == '\U{1680}' || '\U{2000}' <= c <= '\U{200A}'
    || c in "\U{2028}\U{2029}\U{202F}\U{205F}\U{3000}"
  }

  predicate NonBlank(v: Py) {
    v.PStr? && exists i :: 0 <= i < |v.s| && !IsSpace(v.s[i])
  }

  /** A text counts as blank exactly if it has no character but white space, listed here by its code points. */
  lemma {:induction false} BlankExactlyWhen(s: string)
    ensures !NonBlank(PStr(s)) <==>
      forall i :: 0 <= i < |s| ==>
        var c := s[i] as int;
        || 9 <= c <= 13 || 28 <= c <= 32 || c in {133, 160, 5760, 8232, 8233, 8239, 8287, 12288}
        || 8192 <= c <= 8202
  {
    forall i | 0 <= i < |s|
      ensures IsSpace(s[i]) <==>
        var c := s[i] as int;
        || 9 <= c <= 13 || 28 <= c <= 32 || c in {133, 160, 5760, 8232, 8233, 8239, 8287, 12288}
        || 8192 <= c <= 8202
    {
      SpaceIs(s[i]);
    }
  }

  lemma {:induction false} SpaceIs(ch: char)
    ensures IsSpace(ch) <==>
      var c := ch as int;
      || 9 <= c <= 13 || 28 <= c <= 32 || c in {133, 160, 5760, 8232, 8233, 8239, 8287, 12288}
      || 8192 <= c <= 8202
  {
    assert ch in "\t\n\U{0B}\U{0C}\r\U{1C}\U{1D}\U{1E}\U{1F} \U{85}\U{A0}" <==>
      || ch == '\t' || ch == '\n' || ch == '\U{0B}' || ch == '\U{0C}' || ch == '\r'
      || ch == '\U{1C}' || ch == '\U{1D}' || ch == '\U{1E}' || ch == '\U{1F}'
      || ch == ' ' || ch == '\U{85}' || ch == '\U{A0}';
    assert ch in "\U{2028}\U{2029}\U{202F}\U{205F}\U{3000}" <==>
      || ch == '\U{2028}' || ch == '\U{2029}' || ch == '\U{202F}' || ch == '\U{205F}' || ch == '\U{3000}';
  }

  /** The part of a node that the structure of the tree depends on. */
  datatype Node = Node(ref: string, layer: int, title: string, parents: seq<string>)

  function Strings(items: seq<Py>): (r: seq<string>)
    requires forall v :: v in items ==> v.PStr?
  {
    seq(|items|, i requires 0 <= i < |items| => items[i].s)
  }

  // ---- one node ----

  predicate OptionalsOk(fields: map<string, Py>) {
    var risk, confidence := Get(fields, "risk_level"), Get(fields, "confidence");
    && (risk == PNone || (risk.PStr? && risk.s in RISK_LEVELS))
    && (confidence == PNone || (confidence.PInt? && 1 <= confidence.i <= 5))
    && (forall k :: k in {"context_summary", "reasoning", "topic"} ==> Get(fields, k) == PNone || Get(fields, k).PStr?)
  }

  /** A node on its own is well formed, and its ref is new. */
  predicate NodeOk(v: Py, taken: set<string>) {
    && v.PDict? && v.fields.Keys <= NODE_KEYS
    && var ref, layer, parents := Get(v.fields, "ref"), Get(v.fields, "layer"), Get(v.fields, "parent_refs");
    && NonBlank(ref) && ref.s !in taken
    && layer.PInt? && layer.i >= 0
    && NonBlank(Get(v.fields, "title"))
    && parents.PList? && (forall p :: p in parents.items ==> NonBlank(p) && p != ref)
    && OptionalsOk(v.fields)
  }

  /** What an accepted node may hold, and must. */
  lemma {:induction false} AcceptedFields(v: Py, taken: set<string>)
    requires NodeOk(v, taken)
    ensures v.PDict? && "ref" in v.fields && "layer" in v.fields && "title" in v.fields && "parent_refs" in v.fields
    ensures |v.fields.Keys - {"ref", "layer", "title", "parent_refs"}
              - {"context_summary", "reasoning", "risk_level", "confidence", "topic"}| == 0
    ensures v.fields["ref"].PStr? && v.fields["ref"].s != "" && v.fields["ref"].s !in taken
    ensures v.fields["title"].PStr? && v.fields["title"].s != ""
    ensures v.fields["layer"].PInt? && v.fields["layer"].i >= 0
    ensures v.fields["parent_refs"].PList?
    ensures forall p :: p in v.fields["parent_refs"].items ==> p.PStr? && p.s != "" && p != v.fields["ref"]
    ensures "risk_level" in v.fields ==>
      v.fields["risk_level"] in {PNone, PStr("LOW"), PStr("MEDIUM"), PStr("HIGH")}
    ensures "confidence" in v.fields ==>
      v.fields["confidence"] in {PNone, PInt(1), PInt(2), PInt(3), PInt(4), PInt(5)}
    ensures forall k :: k in {"context_summary", "reasoning", "topic"} && k in v.fields ==>
      v.fields[k].PNone? || v.fields[k].PStr?
  {
    assert v.fields.Keys - {"ref", "layer", "title", "parent_refs"}
      - {"context_summary", "reasoning", "risk_level", "confidence", "topic"} == {};
    forall k | k in {"context_summary", "reasoning", "topic"} && k in v.fields
      ensures v.fields[k].PNone? || v.fields[k].PStr?
    {
      assert Get(v.fields, k) == v.fields[k];
    }
  }

  /** A node with nothing but non-blank texts, a layer and parents other than itself is accepted. */
  lemma {:induction false} PlainNodeAccepted(ref: string, layer: nat, title: string, parents: seq<Py>,
      taken: set<string>)
    requires NonBlank(PStr(ref)) && NonBlank(PStr(title)) && ref !in taken
    requires forall p :: p in parents ==> NonBlank(p) && p != PStr(ref)
    ensures NodeOk(PDict(map["ref" := PStr(ref), "layer" := PInt(layer), "title" := PStr(title),
                             "parent_refs" := PList(parents)]), taken)
  {
    var fields := map["ref" := PStr(ref), "layer" := PInt(layer), "title" := PStr(title),
                      "parent_refs" := PList(parents)];
    assert fields.Keys == {"ref", "layer", "title", "parent_refs"};
    assert forall k :: k in {"risk_level", "confidence", "context_summary", "reasoning", "topic"} ==> k !in fields;
  }

  /** What an optional field may hold. */
  predicate Permitted(key: string, value: Py) {
    || (key == "risk_level" && value in {PNone, PStr("LOW"), PStr("MEDIUM"), PStr("HIGH")})
    || (key == "confidence" && value in {PNone, PInt(1), PInt(2), PInt(3), PInt(4), PInt(5)})
    || (key in {"context_summary", "reasoning", "topic"} && (value.PNone? || value.PStr?))
  }

  /** Adding an optional field to an accepted node leaves it accepted exactly if the value is permitted. */
  lemma {:induction false} OptionalAcceptedExactlyWhen(fields: map<string, Py>, taken: set<string>, key: string,
      value: Py)
    requires NodeOk(PDict(fields), taken)
    requires key !in {"ref", "layer", "title", "parent_refs"}
    ensures NodeOk(PDict(fields[key := value]), taken) <==> Permitted(key, value)
  {
    var more := fields[key := value];
    assert more.Keys == fields.Keys + {key};
    assert key in NODE_KEYS <==>
      key in {"risk_level", "confidence", "context_summary", "reasoning", "topic"};
    assert forall k :: k != key ==> Get(more, k) == Get(fields, k);
    assert Get(more, key) == value;
  }

  function AsNode(v: Py): Node
    requires NodeOk(v, {})
  {
    Node(v.fields["ref"].s, v.fields["layer"].i, v.fields["title"].s, Strings(v.fields["parent_refs"].items))
  }

  /** The nodes of `items` as far as they are well formed with distinct refs. */
  function Nodes(items: seq<Py>): Option<seq<Node>> {
    if items == [] then Some([])
    else
      var n := |items| - 1;
      match Nodes(items[..n])
      case None => None
      case Some(nodes) => if NodeOk(items[n], Refs(nodes)) then Some(nodes + [AsNode(items[n])]) else None
  }

  function Refs(nodes: seq<Node>): set<string> {
    set n | n in nodes :: n.ref
  }

  // ---- the layer checks ----

  /** The nodes by ref. */
  function ByRef(nodes: seq<Node>): (m: map<string, Node>)
    ensures m.Keys == Refs(nodes)
    ensures forall r :: r in m ==> m[r] in nodes && m[r].ref == r
  {
    if nodes == [] then map[]
    else
      var n := |nodes| - 1;
      assert nodes == nodes[..n] + [nodes[n]];
      ByRef(nodes[..n])[nodes[n].ref := nodes[n]]
  }

  /** A node without parents is at layer 0, every other lies above all its parents. */
  predicate LayerOk(refs: map<string, Node>, n: Node) {
    if n.parents == [] then n.layer == 0
    else forall p :: p in n.parents ==> p in refs && refs[p].layer < n.layer
  }

  ghost predicate UniqueRefs(nodes: seq<Node>) {
    forall i, j :: 0 <= i < j < |nodes| ==> nodes[i].ref != nodes[j].ref
  }

  /** What is left of the tree's validity once its nodes are well formed. */
  ghost predicate ValidNodes(nodes: seq<Node>) {
    && UniqueRefs(nodes)
    && forall n :: n in nodes ==> n.layer >= 0 && LayerOk(ByRef(nodes), n)
  }

  ghost predicate ValidTree(value: Py) {
    && value.PDict? && value.fields.Keys == {"nodes"} && value.fields["nodes"].PList?
    && Nodes(value.fields["nodes"].items).Some?
    && ValidNodes(Nodes(value.fields["nodes"].items).value)
  }

  function ParentGraph(nodes: seq<Node>): Graph<string> {
    map r | r in ByRef(nodes) :: ByRef(nodes)[r].parents
  }

  lemma {:induction false} NodesWellFormed(items: seq<Py>)
    requires Nodes(items).Some?
    ensures
      var nodes := Nodes(items).value;
      |nodes| == |items| && UniqueRefs(nodes) && forall n :: n in nodes ==> n.layer >= 0
  {
    if items != [] {
      NodesWellFormed(items[..|items| - 1]);
      var before := Nodes(items[..|items| - 1]).value;
      assert forall m :: m in before ==> m.ref in Refs(before);
    }
  }

  lemma {:induction false} NodesPrefix(items: seq<Py>, i: nat)
    requires i <= |items| && Nodes(items).Some?
    ensures Nodes(items[..i]).Some?
  {
    if i < |items| {
      var n := |items| - 1;
      NodesPrefix(items[..n], i);
      assert items[..n][..i] == items[..i];
    } else {
      assert items[..i] == items;
    }
  }

  // ---- what validity means for the graph ----

  lemma {:induction false} ParentGraphClosed(nodes: seq<Node>)
    requires ValidNodes(nodes)
    ensures Closed(ParentGraph(nodes))
  {
  }

  function Layer(nodes: seq<Node>): string -> int {
    r => if r in ByRef(nodes) then ByRef(nodes)[r].layer else 0
  }

  /** The layer checks alone rule out cycles. */
  lemma {:induction false} LayersImplyAcyclic(nodes: seq<Node>)
    requires ValidNodes(nodes)
    ensures !HasCycle(ParentGraph(nodes))
  {
    RankedHasNoCycle(ParentGraph(nodes), Layer(nodes));
  }

  /** A chain of parent references from a node has at most as many steps as the node's layer. */
  lemma {:induction false} ChainsAreShort(nodes: seq<Node>, p: seq<string>)
    requires ValidNodes(nodes) && Walk(ParentGraph(nodes), p)
    ensures |p| - 1 <= ByRef(nodes)[p[0]].layer
  {
    WalkDescends(ParentGraph(nodes), Layer(nodes), p, |p| - 1);
    assert ByRef(nodes)[p[|p| - 1]].layer >= 0;
  }

  /** Every node leads up to a root at layer 0. */
  lemma {:induction false} EveryNodeHasRoot(nodes: seq<Node>, ref: string)
    requires ValidNodes(nodes) && ref in ByRef(nodes)
    ensures exists root :: root in ByRef(nodes) && ByRef(nodes)[root].layer == 0 && ByRef(nodes)[root].parents == []
                           && Reaches(ParentGraph(nodes), ref, root)
    decreases ByRef(nodes)[ref].layer
  {
    var n := ByRef(nodes)[ref];
    if n.parents == [] {
      WalkHere(ParentGraph(nodes), ref);
    } else {
      var p := n.parents[0];
      assert p in n.parents;
      EveryNodeHasRoot(nodes, p);
      var root :| root in ByRef(nodes) && ByRef(nodes)[root].layer == 0 && ByRef(nodes)[root].parents == []
                  && Reaches(ParentGraph(nodes), p, root);
      WalkTo(ParentGraph(nodes), ref, p, root);
    }
  }

  // ---- the validator ----

  datatype Problem =
    | NotATree                  // no object with a `nodes` list and nothing else
    | BadNode(index: nat)
    | BadLayer(ref: string)
    | CyclicParents

  /**
    Accepts exactly the valid trees, names the first malformed node or the
    first node out of layer, and never gets to reject in the cycle search.
   */
  method ValidateTree(value: Py) returns (problem: Option<Problem>)
    ensures problem.None? <==> ValidTree(value)
    ensures problem != Some(CyclicParents)
    ensures problem.Some? && problem.value.BadNode? ==>
      && value.PDict? && Get(value.fields, "nodes").PList?
      && FirstBadNode(value.fields["nodes"].items, problem.value.index)
    ensures problem.Some? && problem.value.BadLayer? ==>
      && value.PDict? && Get(value.fields, "nodes").PList? && Nodes(value.fields["nodes"].items).Some?
      && FirstBadLayer(Nodes(value.fields["nodes"].items).value, problem.value.ref)
  {
    if !value.PDict? || !Get(value.fields, "nodes").PList? || value.fields.Keys != {"nodes"} {
      return Some(NotATree);
    }
    var items := value.fields["nodes"].items;
    var read := CheckNodes(items);
    if read.Err? {
      return Some(BadNode(read.error));
    }
    NodesWellFormed(items);
    var misplaced := CheckLayers(read.value);
    if misplaced.Some? {
      return Some(BadLayer(misplaced.value));
    }
    var cyclic := CheckCycles(read.value);
    return if cyclic then Some(CyclicParents) else None;
  }

  ghost predicate FirstBadNode(items: seq<Py>, i: nat) {
    i < |items| && Nodes(items[..i]).Some? && !NodeOk(items[i], Refs(Nodes(items[..i]).value))
  }

  ghost predicate FirstBadLayer(nodes: seq<Node>, ref: string) {
    exists i :: 0 <= i < |nodes| && nodes[i].ref == ref && !LayerOk(ByRef(nodes), nodes[i])
                && forall j :: 0 <= j < i ==> LayerOk(ByRef(nodes), nodes[j])
  }

  /** The first pass: read the nodes one by one. */
  method CheckNodes(items: seq<Py>) returns (r: Result<seq<Node>, nat>)
    ensures r.Ok? <==> Nodes(items).Some?
    ensures r.Ok? ==> Nodes(items) == Some(r.value)
    ensures r.Err? ==> FirstBadNode(items, r.error)
  {
    var nodes: seq<Node> := [];
    var refs: set<string> := {};
    for i := 0 to |items|
      invariant Nodes(items[..i]) == Some(nodes)
      invariant refs == Refs(nodes)
    {
      assert items[..i + 1][..i] == items[..i];
      if !NodeOk(items[i], refs) {
        if Nodes(items).Some? {
          NodesPrefix(items, i + 1);
        }
        return Err(i);
      }
      var node := AsNode(items[i]);
      assert Refs(nodes + [node]) == Refs(nodes) + {node.ref} by {
        assert forall n :: n in nodes + [node] <==> n in nodes || n == node;
      }
      nodes := nodes + [node];
      refs := refs + {node.ref};
    }
    assert items[..|items|] == items;
    return Ok(nodes);
  }

  /** The second pass: every node against its parents. */
  method CheckLayers(nodes: seq<Node>) returns (misplaced: Option<string>)
    requires UniqueRefs(nodes) && forall n :: n in nodes ==> n.layer >= 0
    ensures misplaced.None? <==> ValidNodes(nodes)
    ensures misplaced.Some? ==> FirstBadLayer(nodes, misplaced.value)
  {
    var refs := ByRef(nodes);
    for i := 0 to |nodes|
      invariant forall j :: 0 <= j < i ==> LayerOk(refs, nodes[j])
    {
      var ok := CheckLayer(refs, nodes[i]);
      if !ok {
        assert nodes[i] in nodes;
        return Some(nodes[i].ref);
      }
    }
    return None;
  }

  /** The third pass: the cycle search from every node in turn. */
  method CheckCycles(nodes: seq<Node>) returns (cyclic: bool)
    requires ValidNodes(nodes)
    ensures !cyclic
  {
    LayersImplyAcyclic(nodes);
    ParentGraphClosed(nodes);
    var order := seq(|nodes|, i requires 0 <= i < |nodes| => nodes[i].ref);
    forall r
      ensures r in ParentGraph(nodes) <==> r in order
    {
      if r in ParentGraph(nodes) {
        var k :| 0 <= k < |nodes| && nodes[k] == ByRef(nodes)[r];
        assert order[k] == r;
      }
      if r in order {
        var k :| 0 <= k < |nodes| && order[k] == r;
        assert nodes[k] in nodes;
      }
    }
    cyclic := CycleSearch.ContainsCycle(ParentGraph(nodes), order);
  }

  method CheckLayer(refs: map<string, Node>, n: Node) returns (ok: bool)
    ensures ok == LayerOk(refs, n)
  {
    if n.parents == [] {
      return n.layer == 0;
    }
    var highest := -1;
    for i := 0 to |n.parents|
      invariant forall j :: 0 <= j < i ==> n.parents[j] in refs && refs[n.parents[j]].layer < n.layer
      invariant highest == -1 || highest < n.layer
    {
      var p := n.parents[i];
      if p !in refs || refs[p].layer >= n.layer {
        assert p in n.parents;
        return false;
      }
      highest := if refs[p].layer > highest then refs[p].layer else highest;
    }
    // The code repeats the test against the highest parent; it cannot fail any more.
    return true;
  }
}

/** The call graph's construction (crates/vilan-core/src/call_graph.rs) on values: what `build` lays
    out, what `restricted` cuts, and what `extend` adds back.

    A walk of a body is taken as given: what the collector finds in it, in order.  The maps that are
    always written together under one id are one map of walks. */
module CallGraphs {
  type Id = nat

  datatype Target = Function(id: Id) | Closure(id: Id) | External(id: Id) | Variant(id: Id) | Indirect

  datatype Call = Call(callId: Id, target: Target)

  datatype Walk = Walk(
    calls: seq<Call>,
    nested: seq<Id>,
    globals: seq<(Id, Id)>,
    functions: seq<(Id, Id)>,
    awaits: seq<Id>)

  datatype Node = FunctionNode(id: Id) | ClosureNode(id: Id)

  datatype Program = Program(
    functions: seq<Id>,
    withBody: set<Id>,
    closures: seq<Id>,
    bindings: seq<Id>,    // the module-level bindings
    initial: map<Id, Id>, // a binding's initializer
    constExprs: seq<Id>,
    walks: map<Id, Walk>)

  datatype Graph = Graph(
    bodies: map<Id, Walk>,
    callers: map<Id, seq<Node>>,
    parent: map<Id, Id>,
    children: map<Id, seq<Id>>,
    awaits: set<Id>,
    nodes: seq<Node>,
    initializers: map<Id, Walk>,
    constants: map<Id, Walk>,
    regions: seq<Id>)

  const EMPTY := Graph(map[], map[], map[], map[], {}, [], map[], map[], [])

  function WalkOf(p: Program, id: Id): Walk {
    if id in p.walks then p.walks[id] else Walk([], [], [], [], [])
  }

  predicate NoRepeat<T(==)>(s: seq<T>) {
    forall i, j :: 0 <= i < j < |s| ==> s[i] != s[j]
  }

  /** Ids are unique across functions, closures, bindings and expressions. */
  ghost predicate WellFormed(p: Program) {
    && NoRepeat(p.functions) && NoRepeat(p.closures) && NoRepeat(p.bindings)
    && (forall f :: f in p.functions ==> f !in p.closures)
    && (forall b :: b in p.bindings ==> b !in p.constExprs)
  }

  // ----- adding nodes -----

  function FunctionNodes(p: Program, ids: seq<Id>, admit: Id -> bool): seq<Node> {
    if ids == [] then []
    else
      var id := ids[|ids| - 1];
      FunctionNodes(p, ids[..|ids| - 1], admit) + if id in p.withBody && admit(id) then [FunctionNode(id)] else []
  }

  function ClosureNodes(ids: seq<Id>, admit: Id -> bool): seq<Node> {
    if ids == [] then []
    else
      var id := ids[|ids| - 1];
      ClosureNodes(ids[..|ids| - 1], admit) + if admit(id) then [ClosureNode(id)] else []
  }

  /** The functions, then the closures, that the walk adds. */
  function NodesOf(p: Program, admit: Id -> bool): seq<Node> {
    FunctionNodes(p, p.functions, admit) + ClosureNodes(p.closures, admit)
  }

  function Adopted(parent: map<Id, Id>, nested: seq<Id>, id: Id): map<Id, Id> {
    map c | c in parent.Keys + (set x | x in nested) :: if c in nested then id else parent[c]
  }

  function ChildrenIn(children: map<Id, seq<Id>>, id: Id): seq<Id> {
    if id in children then children[id] else []
  }

  function WithChildren(children: map<Id, seq<Id>>, id: Id, nested: seq<Id>): map<Id, seq<Id>> {
    if nested == [] then children else children[id := ChildrenIn(children, id) + nested]
  }

  function WithNode(g: Graph, node: Node, w: Walk): Graph {
    g.(nodes := g.nodes + [node],
       parent := Adopted(g.parent, w.nested, node.id),
       children := WithChildren(g.children, node.id, w.nested),
       awaits := if w.awaits == [] then g.awaits else g.awaits + {node.id},
       bodies := g.bodies[node.id := w])
  }

  function WithNodes(g: Graph, p: Program, nodes: seq<Node>): Graph {
    if nodes == [] then g
    else
      var last := nodes[|nodes| - 1];
      WithNode(WithNodes(g, p, nodes[..|nodes| - 1]), last, WalkOf(p, last.id))
  }

  // ----- adding initializers and const regions -----

  function WithBinding(g: Graph, p: Program, b: Id): Graph {
    if b !in p.initial then g
    else if p.initial[b] in p.constExprs then g.(constants := g.constants[b := WalkOf(p, p.initial[b])])
    else g.(initializers := g.initializers[b := WalkOf(p, p.initial[b])])
  }

  function WithBindings(g: Graph, p: Program, bindings: seq<Id>, admit: Id -> bool): Graph {
    if bindings == [] then g
    else
      var b := bindings[|bindings| - 1];
      var before := WithBindings(g, p, bindings[..|bindings| - 1], admit);
      if admit(b) then WithBinding(before, p, b) else before
  }

  function WithBindingRegions(g: Graph, bindings: seq<Id>, admit: Id -> bool): Graph {
    if bindings == [] then g
    else
      var b := bindings[|bindings| - 1];
      var before := WithBindingRegions(g, bindings[..|bindings| - 1], admit);
      if admit(b) && b in before.constants then before.(regions := before.regions + [b]) else before
  }

  /** The initializer of a binding: its edges are under the binding. */
  predicate ConstInitializer(p: Program, r: Id) {
    exists b :: b in p.bindings && b in p.initial && p.initial[b] == r
  }

  function WithRegions(g: Graph, p: Program, exprs: seq<Id>, admit: Id -> bool): Graph {
    if exprs == [] then g
    else
      var r := exprs[|exprs| - 1];
      var before := WithRegions(g, p, exprs[..|exprs| - 1], admit);
      if !admit(r) || ConstInitializer(p, r) || r in before.regions then before
      else before.(constants := before.constants[r := WalkOf(p, r)], regions := before.regions + [r])
  }

  function WithAll(g: Graph, p: Program, admit: Id -> bool): Graph {
    var walked := WithNodes(g, p, NodesOf(p, admit));
    var bound := WithBindings(walked, p, p.bindings, admit);
    WithRegions(WithBindingRegions(bound, p.bindings, admit), p, p.constExprs, admit)
  }

  // ----- reverse edges -----

  /** How `node` calls `callee`: once for each call. */
  function CallsTo(calls: seq<Call>, node: Node, callee: Id): seq<Node> {
    if calls == [] then []
    else
      var t := calls[|calls| - 1].target;
      CallsTo(calls[..|calls| - 1], node, callee)
      + if (t.Function? || t.Closure?) && t.id == callee then [node] else []
  }

  /** The callers of `callee`, in the order of `nodes`. */
  function CallersIn(bodies: map<Id, Walk>, nodes: seq<Node>, callee: Id): seq<Node> {
    if nodes == [] then []
    else
      var n := nodes[|nodes| - 1];
      CallersIn(bodies, nodes[..|nodes| - 1], callee)
      + if n.id in bodies then CallsTo(bodies[n.id].calls, n, callee) else []
  }

  function CallersOf(callers: map<Id, seq<Node>>, callee: Id): seq<Node> {
    if callee in callers then callers[callee] else []
  }

  /** `callers` answers every callee as its nodes' calls say. */
  ghost predicate Reversed(g: Graph) {
    && (forall callee :: CallersOf(g.callers, callee) == CallersIn(g.bodies, g.nodes, callee))
    && (forall callee :: callee in g.callers ==> g.callers[callee] != [])
  }

  // ----- the order a clean build lays out -----

  function FunctionsIn(ids: seq<Id>, bodies: map<Id, Walk>): seq<Node> {
    if ids == [] then []
    else FunctionsIn(ids[..|ids| - 1], bodies) + if ids[|ids| - 1] in bodies then [FunctionNode(ids[|ids| - 1])] else []
  }

  function ClosuresIn(ids: seq<Id>, bodies: map<Id, Walk>): seq<Node> {
    if ids == [] then []
    else ClosuresIn(ids[..|ids| - 1], bodies) + if ids[|ids| - 1] in bodies then [ClosureNode(ids[|ids| - 1])] else []
  }

  function BindingsIn(ids: seq<Id>, regions: set<Id>): seq<Id> {
    if ids == [] then []
    else BindingsIn(ids[..|ids| - 1], regions) + if ids[|ids| - 1] in regions then [ids[|ids| - 1]] else []
  }

  function RegionsIn(ids: seq<Id>, regions: set<Id>, before: seq<Id>): seq<Id> {
    if ids == [] then before
    else
      var r := ids[|ids| - 1];
      var so := RegionsIn(ids[..|ids| - 1], regions, before);
      if r in regions && r !in so then so + [r] else so
  }

  function Members(s: seq<Id>): set<Id> {
    set x | x in s
  }

  function InOrder(g: Graph, p: Program): Graph {
    g.(nodes := FunctionsIn(p.functions, g.bodies) + ClosuresIn(p.closures, g.bodies),
       regions := RegionsIn(p.constExprs, Members(g.regions), BindingsIn(p.bindings, Members(g.regions))))
  }

  // ----- the cut -----

  function Kept<V>(m: map<Id, V>, keep: Id -> bool): map<Id, V> {
    map id | id in m && keep(id) :: m[id]
  }

  function KeptNodes(nodes: seq<Node>, keep: Id -> bool): seq<Node> {
    if nodes == [] then []
    else KeptNodes(nodes[..|nodes| - 1], keep) + if keep(nodes[|nodes| - 1].id) then [nodes[|nodes| - 1]] else []
  }

  function KeptIds(ids: seq<Id>, keep: Id -> bool): seq<Id> {
    if ids == [] then []
    else KeptIds(ids[..|ids| - 1], keep) + if keep(ids[|ids| - 1]) then [ids[|ids| - 1]] else []
  }

  /** The subgraph over what `keep` admits, its reverse edges still to be built. */
  function Cut(g: Graph, keep: Id -> bool): Graph {
    Graph(Kept(g.bodies, keep), map[], Kept(g.parent, keep), Kept(g.children, keep),
          (set id | id in g.awaits && keep(id)), KeptNodes(g.nodes, keep),
          Kept(g.initializers, keep), Kept(g.constants, keep), KeptIds(g.regions, keep))
  }
}

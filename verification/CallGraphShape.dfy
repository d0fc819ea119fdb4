/** What a build of the call graph lays out, read off the program's tables alone
    (crates/vilan-core/src/call_graph.rs): which nodes and regions in which order, what each map says of
    whom, and how often a function is listed among another's callers. */
module CallGraphShape {
  import opened CallGraphs
  import opened CallGraphCut

  // ----- the nodes -----

  ghost predicate IsNode(p: Program, admit: Id -> bool, n: Node) {
    match n
    case FunctionNode(f) => f in p.functions && f in p.withBody && admit(f)
    case ClosureNode(c) => c in p.closures && admit(c)
  }

  ghost predicate Before(ids: seq<Id>, a: Id, b: Id) {
    exists i, j :: 0 <= i < j < |ids| && ids[i] == a && ids[j] == b
  }

  /** Functions before closures, each in its table's order. */
  ghost predicate Precedes(p: Program, a: Node, b: Node) {
    match (a, b)
    case (FunctionNode(_), ClosureNode(_)) => true
    case (FunctionNode(f), FunctionNode(g)) => Before(p.functions, f, g)
    case (ClosureNode(c), ClosureNode(d)) => Before(p.closures, c, d)
    case (ClosureNode(_), FunctionNode(_)) => false
  }

  lemma BeforeGrows(ids: seq<Id>, id: Id, a: Id, b: Id)
    ensures Before(ids, a, b) ==> Before(ids + [id], a, b)
    ensures a in ids ==> Before(ids + [id], a, id)
  {
    if Before(ids, a, b) {
      var i, j :| 0 <= i < j < |ids| && ids[i] == a && ids[j] == b;
      assert (ids + [id])[i] == a && (ids + [id])[j] == b;
    }
    if a in ids {
      var i :| 0 <= i < |ids| && ids[i] == a;
      assert (ids + [id])[i] == a && (ids + [id])[|ids|] == id;
    }
  }

  ghost predicate FunctionsOrdered(ids: seq<Id>, nodes: seq<Node>) {
    && (forall n :: n in nodes ==> n.FunctionNode? && n.id in ids)
    && (forall i, j :: 0 <= i < j < |nodes| ==> Before(ids, nodes[i].id, nodes[j].id))
  }

  lemma {:induction false} FunctionNodesOrdered(p: Program, ids: seq<Id>, admit: Id -> bool)
    ensures FunctionsOrdered(ids, FunctionNodes(p, ids, admit))
  {
    if ids != [] {
      var before, id := ids[..|ids| - 1], ids[|ids| - 1];
      assert ids == before + [id];
      FunctionNodesOrdered(p, before, admit);
      forall a, b ensures (Before(before, a, b) ==> Before(ids, a, b)) && (a in before ==> Before(ids, a, id)) {
        BeforeGrows(before, id, a, b);
      }
    }
  }

  ghost predicate ClosuresOrdered(ids: seq<Id>, nodes: seq<Node>) {
    && (forall n :: n in nodes ==> n.ClosureNode? && n.id in ids)
    && (forall i, j :: 0 <= i < j < |nodes| ==> Before(ids, nodes[i].id, nodes[j].id))
  }

  lemma {:induction false} ClosureNodesOrdered(ids: seq<Id>, admit: Id -> bool)
    ensures ClosuresOrdered(ids, ClosureNodes(ids, admit))
  {
    if ids != [] {
      var before, id := ids[..|ids| - 1], ids[|ids| - 1];
      assert ids == before + [id];
      ClosureNodesOrdered(before, admit);
      forall a, b ensures (Before(before, a, b) ==> Before(ids, a, b)) && (a in before ==> Before(ids, a, id)) {
        BeforeGrows(before, id, a, b);
      }
    }
  }

  ghost predicate NodesLaidOut(p: Program, admit: Id -> bool, nodes: seq<Node>) {
    && (forall n :: n in nodes <==> IsNode(p, admit, n))
    && (forall i, j :: 0 <= i < j < |nodes| ==> nodes[i].id != nodes[j].id && Precedes(p, nodes[i], nodes[j]))
  }

  lemma NodesAreLaidOut(p: Program, admit: Id -> bool)
    requires WellFormed(p)
    ensures NodesLaidOut(p, admit, NodesOf(p, admit))
  {
    var fs, cs := FunctionNodes(p, p.functions, admit), ClosureNodes(p.closures, admit);
    FunctionNodesAre(p, p.functions, admit);
    ClosureNodesAre(p.closures, admit);
    NodesAre(p, admit);
    FunctionNodesOrdered(p, p.functions, admit);
    ClosureNodesOrdered(p.closures, admit);
    var nodes := NodesOf(p, admit);
    assert nodes == fs + cs;
    forall i, j | 0 <= i < j < |nodes| ensures Precedes(p, nodes[i], nodes[j]) {
      if j < |fs| {
        assert nodes[i] == fs[i] && nodes[j] == fs[j];
      } else if i < |fs| {
        assert nodes[i] == fs[i] && nodes[j] == cs[j - |fs|];
        assert fs[i] in fs && cs[j - |fs|] in cs;
      } else {
        assert nodes[i] == cs[i - |fs|] && nodes[j] == cs[j - |fs|];
        assert cs[i - |fs|] in cs && cs[j - |fs|] in cs;
      }
    }
  }

  // ----- who defines whom -----

  /** `i` is the last node whose body holds the closure `c`. */
  ghost predicate LastDefiner(p: Program, nodes: seq<Node>, c: Id, i: nat) {
    && i < |nodes| && c in WalkOf(p, nodes[i].id).nested
    && forall j :: i < j < |nodes| ==> c !in WalkOf(p, nodes[j].id).nested
  }

  ghost predicate DefinedIn(p: Program, nodes: seq<Node>, c: Id) {
    exists i :: 0 <= i < |nodes| && c in WalkOf(p, nodes[i].id).nested
  }

  lemma {:induction false} DefinerIsLast(p: Program, nodes: seq<Node>, c: Id)
    ensures if DefinedIn(p, nodes, c)
            then exists i: nat :: LastDefiner(p, nodes, c, i) && Definer(p, nodes, c) == [nodes[i].id]
            else Definer(p, nodes, c) == []
  {
    if nodes != [] {
      var before, n := nodes[..|nodes| - 1], |nodes| - 1;
      if c in WalkOf(p, nodes[n].id).nested {
        assert LastDefiner(p, nodes, c, n);
      } else {
        DefinerIsLast(p, before, c);
        if DefinedIn(p, nodes, c) {
          var i :| 0 <= i < |nodes| && c in WalkOf(p, nodes[i].id).nested;
          assert before[i] == nodes[i];
          var last: nat :| LastDefiner(p, before, c, last) && Definer(p, before, c) == [before[last].id];
          assert LastDefiner(p, nodes, c, last);
        }
      }
    }
  }

  ghost predicate ParentsLaidOut(p: Program, nodes: seq<Node>, parent: map<Id, Id>) {
    && (forall c :: c in parent <==> DefinedIn(p, nodes, c))
    && (forall c :: c in parent ==> exists i: nat :: LastDefiner(p, nodes, c, i) && parent[c] == nodes[i].id)
  }

  lemma ParentsAreLaidOut(p: Program, nodes: seq<Node>)
    ensures ParentsLaidOut(p, nodes, WithNodes(EMPTY, p, nodes).parent)
  {
    var parent := WithNodes(EMPTY, p, nodes).parent;
    forall c
      ensures c in parent <==> DefinedIn(p, nodes, c)
      ensures c in parent ==> exists i: nat :: LastDefiner(p, nodes, c, i) && parent[c] == nodes[i].id
    {
      ParentsAdded(EMPTY, p, nodes, c);
      DefinerIsLast(p, nodes, c);
    }
  }

  // ----- the bodies -----

  ghost predicate BodiesLaidOut(p: Program, admit: Id -> bool, g: Graph) {
    && (forall id :: id in g.bodies <==> IsBody(p, admit, id))
    && (forall id :: id in g.bodies ==> g.bodies[id] == WalkOf(p, id))
    && (forall id :: id in g.children <==> IsBody(p, admit, id) && WalkOf(p, id).nested != [])
    && (forall id :: id in g.children ==> g.children[id] == WalkOf(p, id).nested)
    && (forall id :: id in g.awaits <==> IsBody(p, admit, id) && WalkOf(p, id).awaits != [])
  }

  ghost predicate IsBody(p: Program, admit: Id -> bool, id: Id) {
    admit(id) && ((id in p.functions && id in p.withBody) || id in p.closures)
  }

  lemma IdsAreBodies(p: Program, admit: Id -> bool, id: Id)
    requires WellFormed(p)
    ensures id in Ids(NodesOf(p, admit)) <==> IsBody(p, admit, id)
  {
    NodesAreLaidOut(p, admit);
    if IsBody(p, admit, id) {
      if id in p.closures {
        assert ClosureNode(id) in NodesOf(p, admit);
      } else {
        assert FunctionNode(id) in NodesOf(p, admit);
      }
    }
  }

  lemma BodiesAreLaidOut(p: Program, admit: Id -> bool)
    requires WellFormed(p)
    ensures BodiesLaidOut(p, admit, WithAll(EMPTY, p, admit))
  {
    BodiesFieldsAdded(EMPTY, p, admit);
    forall id ensures id in Ids(NodesOf(p, admit)) <==> IsBody(p, admit, id) {
      IdsAreBodies(p, admit, id);
    }
  }

  // ----- initializers and regions -----

  /** A binding with an initializer the walk takes, `marked` const or not. */
  ghost predicate Initialized(p: Program, admit: Id -> bool, b: Id, marked: bool) {
    b in p.bindings && admit(b) && b in p.initial && (p.initial[b] in p.constExprs <==> marked)
  }

  /** A const expression that initializes no module binding. */
  ghost predicate OwnRegion(p: Program, admit: Id -> bool, r: Id) {
    r in p.constExprs && admit(r) && forall b :: b in p.bindings && b in p.initial ==> p.initial[b] != r
  }

  /** The expression a region is walked from. */
  function RegionExpr(p: Program, r: Id): Id {
    if r in p.bindings && r in p.initial then p.initial[r] else r
  }

  ghost predicate InitializersLaidOut(p: Program, admit: Id -> bool, initializers: map<Id, Walk>) {
    && (forall b :: b in initializers <==> Initialized(p, admit, b, false))
    && (forall b :: b in initializers ==> initializers[b] == WalkOf(p, p.initial[b]))
  }

  /** The regions: the bindings whose initializer is const, and the const expressions that initialize none. */
  ghost predicate ConstantsLaidOut(p: Program, admit: Id -> bool, constants: map<Id, Walk>) {
    && (forall r :: r in constants <==> Initialized(p, admit, r, true) || OwnRegion(p, admit, r))
    && (forall r :: r in constants ==> constants[r] == WalkOf(p, RegionExpr(p, r)))
  }

  ghost predicate RegionsLaidOut(p: Program, admit: Id -> bool, g: Graph) {
    && InitializersLaidOut(p, admit, g.initializers) && ConstantsLaidOut(p, admit, g.constants)
    && (forall r :: r in g.regions <==> r in g.constants)
    && NoRepeat(g.regions)
  }

  lemma OwnRegionsAre(p: Program, admit: Id -> bool, r: Id)
    ensures r in OwnRegions(p, p.constExprs, admit) <==> OwnRegion(p, admit, r)
  {
  }

  lemma {:induction false} KeptOnce(ids: seq<Id>, keep: Id -> bool)
    requires NoRepeat(ids)
    ensures NoRepeat(KeptIds(ids, keep))
  {
    if ids != [] {
      KeptOnce(ids[..|ids| - 1], keep);
      KeptAre(ids[..|ids| - 1], keep);
      assert ids[|ids| - 1] !in ids[..|ids| - 1];
    }
  }

  lemma {:induction false} RegionsOnce(g: Graph, p: Program, exprs: seq<Id>, admit: Id -> bool)
    requires NoRepeat(g.regions)
    ensures NoRepeat(WithRegions(g, p, exprs, admit).regions)
  {
    if exprs != [] { RegionsOnce(g, p, exprs[..|exprs| - 1], admit); }
  }

  lemma AllRegionsOnce(p: Program, admit: Id -> bool)
    requires WellFormed(p)
    ensures NoRepeat(WithAll(EMPTY, p, admit).regions)
  {
    var walked := WithNodes(EMPTY, p, NodesOf(p, admit));
    var bound := WithBindings(walked, p, p.bindings, admit);
    NodesAdded(EMPTY, p, NodesOf(p, admit));
    BindingsAdded(walked, p, p.bindings, admit);
    BindingRegionsAdded(bound, p.bindings, admit);
    KeptOnce(p.bindings, (b: Id) => admit(b) && b in bound.constants);
    assert [] + KeptIds(p.bindings, (b: Id) => admit(b) && b in bound.constants)
        == KeptIds(p.bindings, (b: Id) => admit(b) && b in bound.constants);
    RegionsOnce(WithBindingRegions(bound, p.bindings, admit), p, p.constExprs, admit);
  }

  lemma InitializersAre(p: Program, admit: Id -> bool)
    ensures InitializersLaidOut(p, admit, InitializersOf(p, p.bindings, admit))
  {
  }

  lemma BindingConstants(p: Program, admit: Id -> bool, r: Id)
    ensures r in ConstantsOf(p, p.bindings, admit) <==> Initialized(p, admit, r, true)
    ensures r in ConstantsOf(p, p.bindings, admit) ==>
              ConstantsOf(p, p.bindings, admit)[r] == WalkOf(p, RegionExpr(p, r))
  {
  }

  lemma ConstantsAre(p: Program, admit: Id -> bool)
    requires WellFormed(p)
    ensures ConstantsLaidOut(p, admit,
              ConstantsOf(p, p.bindings, admit) + BodiesOf(p, OwnRegions(p, p.constExprs, admit)))
  {
    forall r
      ensures r in OwnRegions(p, p.constExprs, admit) <==> OwnRegion(p, admit, r)
      ensures r in ConstantsOf(p, p.bindings, admit) <==> Initialized(p, admit, r, true)
      ensures r in ConstantsOf(p, p.bindings, admit) ==>
                ConstantsOf(p, p.bindings, admit)[r] == WalkOf(p, RegionExpr(p, r))
    {
      OwnRegionsAre(p, admit, r);
      BindingConstants(p, admit, r);
    }
  }

  lemma RegionsAreLaidOut(p: Program, admit: Id -> bool)
    requires WellFormed(p)
    ensures RegionsLaidOut(p, admit, WithAll(EMPTY, p, admit))
  {
    var g := WithAll(EMPTY, p, admit);
    RegionFieldsAdded(EMPTY, p, admit);
    NothingBefore(InitializersOf(p, p.bindings, admit));
    NothingBefore(ConstantsOf(p, p.bindings, admit));
    AllRegionsOnce(p, admit);
    InitializersAre(p, admit);
    ConstantsAre(p, admit);
    forall r ensures r in g.regions <==> r in g.constants {
      assert r in g.regions <==> r in Members(g.regions);
    }
  }

  ghost predicate Covers(p: Program, g: Graph, r: Id, e: Id) {
    r in g.regions && RegionExpr(p, r) == e
  }

  /** Every const expression is walked under one region, and under one only unless two module bindings
      share it as their initializer. */
  lemma OneRegionEach(p: Program, e: Id)
    requires WellFormed(p) && e in p.constExprs
    ensures exists r :: Covers(p, Whole(p), r, e)
    ensures forall r, q :: Covers(p, Whole(p), r, e) && Covers(p, Whole(p), q, e) ==>
              || r == q
              || (r in p.bindings && q in p.bindings && r in p.initial && q in p.initial
                  && p.initial[r] == p.initial[q])
  {
    RegionsAreLaidOut(p, Everything());
    if OwnRegion(p, Everything(), e) {
      assert Covers(p, Whole(p), e, e);
    } else {
      var b :| b in p.bindings && b in p.initial && p.initial[b] == e;
      assert Initialized(p, Everything(), b, true);
      assert Covers(p, Whole(p), b, e);
    }
  }

  // ----- the whole -----

  ghost predicate LaidOut(p: Program, admit: Id -> bool, g: Graph) {
    && NodesLaidOut(p, admit, g.nodes) && ParentsLaidOut(p, g.nodes, g.parent)
    && BodiesLaidOut(p, admit, g) && RegionsLaidOut(p, admit, g)
  }

  /** The walk over what is admitted lays out exactly that. */
  lemma WalkLaysOut(p: Program, admit: Id -> bool)
    requires WellFormed(p)
    ensures LaidOut(p, admit, WithAll(EMPTY, p, admit))
  {
    var nodes := NodesOf(p, admit);
    BodiesFieldsAdded(EMPTY, p, admit);
    assert EMPTY.nodes + nodes == nodes;
    NodesAreLaidOut(p, admit);
    ParentsAreLaidOut(p, nodes);
    BodiesAreLaidOut(p, admit);
    RegionsAreLaidOut(p, admit);
  }

  // ----- the callers -----

  /** The calls of a function or a closure by name; no other target has callers. */
  ghost function CallsOn(calls: seq<Call>, callee: Id): set<int> {
    set i | 0 <= i < |calls| && (calls[i].target == Function(callee) || calls[i].target == Closure(callee))
  }

  lemma CallsOnGrow(calls: seq<Call>, call: Call, callee: Id)
    ensures CallsOn(calls + [call], callee)
         == CallsOn(calls, callee)
            + if call.target == Function(callee) || call.target == Closure(callee) then {|calls|} else {}
  {
  }

  lemma {:induction false} CallsCounted(calls: seq<Call>, node: Node, callee: Id)
    ensures |CallsTo(calls, node, callee)| == |CallsOn(calls, callee)|
    ensures forall n :: n in CallsTo(calls, node, callee) ==> n == node
  {
    if calls == [] {
      assert CallsOn(calls, callee) == {};
    } else {
      var before, call := calls[..|calls| - 1], calls[|calls| - 1];
      assert calls == before + [call];
      CallsCounted(before, node, callee);
      CallsOnGrow(before, call, callee);
      assert |before| !in CallsOn(before, callee);
    }
  }

  lemma CountOne(nodes: seq<Node>, node: Node)
    requires forall n :: n in nodes ==> n == node
    ensures multiset(nodes)[node] == |nodes| && forall m :: m != node ==> multiset(nodes)[m] == 0
  {
    if nodes != [] {
      var before := nodes[..|nodes| - 1];
      forall m | m in before ensures m == node {
        assert m in nodes;
      }
      CountOne(before, node);
      assert nodes == before + [nodes[|nodes| - 1]] && nodes[|nodes| - 1] in nodes;
    }
  }

  /** A node is among a function's callers once for each of its calls of the function, and no other is. */
  lemma {:induction false} CallersCounted(bodies: map<Id, Walk>, nodes: seq<Node>, callee: Id, n: Node)
    requires DistinctIds(nodes)
    ensures multiset(CallersIn(bodies, nodes, callee))[n]
         == if n in nodes && n.id in bodies then |CallsOn(bodies[n.id].calls, callee)| else 0
  {
    if nodes != [] {
      var before, last := nodes[..|nodes| - 1], nodes[|nodes| - 1];
      assert nodes == before + [last];
      CallersCounted(bodies, before, callee, n);
      if last.id in bodies {
        CallsCounted(bodies[last.id].calls, last, callee);
        CountOne(CallsTo(bodies[last.id].calls, last, callee), last);
      }
    }
  }

  ghost predicate CallersLaidOut(p: Program, admit: Id -> bool, callers: map<Id, seq<Node>>) {
    forall callee, n :: multiset(CallersOf(callers, callee))[n]
                        == if IsNode(p, admit, n) then |CallsOn(WalkOf(p, n.id).calls, callee)| else 0
  }

  lemma CallerCount(p: Program, admit: Id -> bool, bodies: map<Id, Walk>, nodes: seq<Node>, callee: Id, n: Node)
    requires NodesLaidOut(p, admit, nodes)
    requires forall id :: id in bodies <==> IsBody(p, admit, id)
    requires forall id :: id in bodies ==> bodies[id] == WalkOf(p, id)
    ensures multiset(CallersIn(bodies, nodes, callee))[n]
         == if IsNode(p, admit, n) then |CallsOn(WalkOf(p, n.id).calls, callee)| else 0
  {
    CallersCounted(bodies, nodes, callee, n);
    assert n in nodes <==> IsNode(p, admit, n);
  }

  lemma CallersAreLaidOut(p: Program, admit: Id -> bool, g: Graph)
    requires NodesLaidOut(p, admit, g.nodes) && BodiesLaidOut(p, admit, g) && Reversed(g)
    ensures CallersLaidOut(p, admit, g.callers)
  {
    forall callee, n
      ensures multiset(CallersOf(g.callers, callee))[n]
           == if IsNode(p, admit, n) then |CallsOn(WalkOf(p, n.id).calls, callee)| else 0
    {
      CallerCount(p, admit, g.bodies, g.nodes, callee, n);
    }
  }

  lemma CallersAside(p: Program, admit: Id -> bool, g: Graph, callers: map<Id, seq<Node>>)
    requires LaidOut(p, admit, g)
    ensures LaidOut(p, admit, g.(callers := callers))
  {
  }

  /** The graph a build leaves, its reverse edges included. */
  lemma BuildLaysOut(p: Program, g: Graph)
    requires WellFormed(p) && g == Whole(p).(callers := g.callers) && Reversed(g)
    ensures LaidOut(p, Everything(), g) && CallersLaidOut(p, Everything(), g.callers)
  {
    WalkLaysOut(p, Everything());
    CallersAside(p, Everything(), Whole(p), g.callers);
    CallersAreLaidOut(p, Everything(), g);
  }
}

/** The call graph as the source fills it in place (crates/vilan-core/src/call_graph.rs). */
module CallGraphBuild {
  import opened CallGraphs
  import opened CallGraphCut
  import opened CallGraphReplay

  class CallGraph {
    var bodies: map<Id, Walk>
    var callers: map<Id, seq<Node>>
    var parent: map<Id, Id>
    var children: map<Id, seq<Id>>
    var awaits: set<Id>
    var nodes: seq<Node>
    var initializers: map<Id, Walk>
    var constants: map<Id, Walk>
    var regions: seq<Id>

    ghost function State(): Graph
      reads this
    {
      Graph(bodies, callers, parent, children, awaits, nodes, initializers, constants, regions)
    }

    constructor (g: Graph)
      ensures State() == g
    {
      bodies, callers, parent, children, awaits := g.bodies, g.callers, g.parent, g.children, g.awaits;
      nodes, initializers, constants, regions := g.nodes, g.initializers, g.constants, g.regions;
    }

    /** The parent link of every closure the body defines, and its children in order. */
    method Adopt(id: Id, nested: seq<Id>)
      modifies this`parent, this`children
      ensures parent == Adopted(old(parent), nested, id)
      ensures children == WithChildren(old(children), id, nested)
    {
      for i := 0 to |nested|
        invariant parent == Adopted(old(parent), nested[..i], id)
        invariant children == WithChildren(old(children), id, nested[..i])
      {
        assert nested[..i + 1] == nested[..i] + [nested[i]];
        OneMoreParent(old(parent), id, nested[..i], nested[i]);
        OneMoreChild(old(children), id, nested[..i], nested[i]);
        parent := parent[nested[i] := id];
        children := children[id := ChildrenIn(children, id) + [nested[i]]];
      }
      assert nested[..|nested|] == nested;
    }

    method AddNode(node: Node, w: Walk)
      modifies this
      ensures State() == WithNode(old(State()), node, w)
    {
      nodes := nodes + [node];
      Adopt(node.id, w.nested);
      if w.awaits != [] {
        awaits := awaits + {node.id};
      }
      bodies := bodies[node.id := w];
    }

    method AddFunctions(p: Program, admit: Id -> bool)
      modifies this
      ensures State() == WithNodes(old(State()), p, FunctionNodes(p, p.functions, admit))
    {
      ghost var before := State();
      for i := 0 to |p.functions|
        invariant State() == WithNodes(before, p, FunctionNodes(p, p.functions[..i], admit))
      {
        var id := p.functions[i];
        OneMoreFunction(before, p, p.functions[..i], id, admit);
        assert p.functions[..i + 1] == p.functions[..i] + [id];
        if id !in p.withBody || !admit(id) {
          continue;
        }
        AddNode(FunctionNode(id), WalkOf(p, id));
      }
      assert p.functions[..|p.functions|] == p.functions;
    }

    method AddClosures(p: Program, admit: Id -> bool)
      modifies this
      ensures State() == WithNodes(old(State()), p, ClosureNodes(p.closures, admit))
    {
      ghost var before := State();
      for i := 0 to |p.closures|
        invariant State() == WithNodes(before, p, ClosureNodes(p.closures[..i], admit))
      {
        var id := p.closures[i];
        OneMoreClosure(before, p, p.closures[..i], id, admit);
        assert p.closures[..i + 1] == p.closures[..i] + [id];
        if !admit(id) {
          continue;
        }
        AddNode(ClosureNode(id), WalkOf(p, id));
      }
      assert p.closures[..|p.closures|] == p.closures;
    }

    method AddBindings(p: Program, admit: Id -> bool)
      modifies this
      ensures State() == WithBindings(old(State()), p, p.bindings, admit)
    {
      ghost var before := State();
      for i := 0 to |p.bindings|
        invariant State() == WithBindings(before, p, p.bindings[..i], admit)
      {
        var b := p.bindings[i];
        assert p.bindings[..i + 1][..i] == p.bindings[..i];
        if !admit(b) || b !in p.initial {
          continue;
        }
        if p.initial[b] in p.constExprs {
          constants := constants[b := WalkOf(p, p.initial[b])];
          continue;
        }
        initializers := initializers[b := WalkOf(p, p.initial[b])];
      }
      assert p.bindings[..|p.bindings|] == p.bindings;
    }

    method AddBindingRegions(p: Program, admit: Id -> bool)
      modifies this`regions
      ensures State() == WithBindingRegions(old(State()), p.bindings, admit)
    {
      ghost var before := State();
      for i := 0 to |p.bindings|
        invariant State() == WithBindingRegions(before, p.bindings[..i], admit)
      {
        assert p.bindings[..i + 1][..i] == p.bindings[..i];
        if admit(p.bindings[i]) && p.bindings[i] in constants {
          regions := regions + [p.bindings[i]];
        }
      }
      assert p.bindings[..|p.bindings|] == p.bindings;
    }

    method AddRegions(p: Program, admit: Id -> bool)
      modifies this
      ensures State() == WithRegions(old(State()), p, p.constExprs, admit)
    {
      ghost var before := State();
      for i := 0 to |p.constExprs|
        invariant State() == WithRegions(before, p, p.constExprs[..i], admit)
      {
        var r := p.constExprs[i];
        assert p.constExprs[..i + 1][..i] == p.constExprs[..i];
        if !admit(r) || ConstInitializer(p, r) || r in regions {
          continue;
        }
        constants := constants[r := WalkOf(p, r)];
        regions := regions + [r];
      }
      assert p.constExprs[..|p.constExprs|] == p.constExprs;
    }

    /** The walk `build` is made of, over what `admit` names. */
    method AddAll(p: Program, admit: Id -> bool)
      modifies this
      ensures State() == WithAll(old(State()), p, admit)
    {
      NodesInTwo(State(), p, FunctionNodes(p, p.functions, admit), ClosureNodes(p.closures, admit));
      AddFunctions(p, admit);
      AddClosures(p, admit);
      AddBindings(p, admit);
      AddBindingRegions(p, admit);
      AddRegions(p, admit);
    }

    method BuildReverseEdges()
      modifies this`callers
      ensures Reversed(State())
    {
      var reversed: map<Id, seq<Node>> := map[];
      for i := 0 to |nodes|
        invariant forall callee :: CallersOf(reversed, callee) == CallersIn(bodies, nodes[..i], callee)
        invariant NoneEmpty(reversed)
      {
        assert nodes[..i + 1][..i] == nodes[..i];
        if nodes[i].id in bodies {
          reversed := AddCallers(reversed, bodies[nodes[i].id].calls, nodes[i]);
        }
      }
      assert nodes[..|nodes|] == nodes;
      callers := reversed;
    }

    static method AddCallers(before: map<Id, seq<Node>>, calls: seq<Call>, node: Node)
      returns (reversed: map<Id, seq<Node>>)
      requires NoneEmpty(before)
      ensures Adds(before, reversed, calls, node) && NoneEmpty(reversed)
    {
      reversed := before;
      for i := 0 to |calls|
        invariant Adds(before, reversed, calls[..i], node) && NoneEmpty(reversed)
      {
        var target := calls[i].target;
        OneMoreCaller(before, reversed, calls[..i], calls[i], node);
        assert calls[..i + 1] == calls[..i] + [calls[i]];
        if target.Function? || target.Closure? {
          reversed := reversed[target.id := CallersOf(reversed, target.id) + [node]];
        }
      }
      assert calls[..|calls|] == calls;
    }

    /** The order a clean build lays the nodes and the regions out in. */
    method RestoreOrder(p: Program)
      modifies this`nodes, this`regions
      ensures State() == InOrder(old(State()), p)
    {
      nodes := FunctionsIn(p.functions, bodies) + ClosuresIn(p.closures, bodies);
      var inRegions := Members(regions);
      var relaid: seq<Id> := [];
      for i := 0 to |p.bindings|
        invariant relaid == BindingsIn(p.bindings[..i], inRegions)
      {
        assert p.bindings[..i + 1][..i] == p.bindings[..i];
        if p.bindings[i] in inRegions {
          relaid := relaid + [p.bindings[i]];
        }
      }
      assert p.bindings[..|p.bindings|] == p.bindings;
      for i := 0 to |p.constExprs|
        invariant relaid == RegionsIn(p.constExprs[..i], inRegions, BindingsIn(p.bindings, inRegions))
      {
        assert p.constExprs[..i + 1][..i] == p.constExprs[..i];
        if p.constExprs[i] in inRegions && p.constExprs[i] !in relaid {
          relaid := relaid + [p.constExprs[i]];
        }
      }
      assert p.constExprs[..|p.constExprs|] == p.constExprs;
      regions := relaid;
    }

    static method Build(p: Program) returns (g: CallGraph)
      ensures fresh(g) && Reversed(g.State())
      ensures g.State() == Whole(p).(callers := g.callers)
    {
      g := new CallGraph(EMPTY);
      g.AddAll(p, Everything());
      g.BuildReverseEdges();
    }

    method Restricted(keep: Id -> bool) returns (g: CallGraph)
      ensures fresh(g) && Reversed(g.State())
      ensures g.State() == Cut(State(), keep).(callers := g.callers)
    {
      g := new CallGraph(Graph(Kept(bodies, keep), map[], Kept(parent, keep), Kept(children, keep),
                               (set id | id in awaits && keep(id)), KeptNodes(nodes, keep),
                               Kept(initializers, keep), Kept(constants, keep), KeptIds(regions, keep)));
      g.BuildReverseEdges();
    }

    /** The calls in every list are renumbered where they are; who calls whom stands. */
    method RemapMinted(from: Id, to: Id)
      modifies this
      ensures State() == Remapped(old(State()), from, to)
    {
      if from == to {
        SameBase(State(), from);
        return;
      }
      bodies := ShiftedWalks(bodies, from, to);
      initializers := ShiftedWalks(initializers, from, to);
      constants := ShiftedWalks(constants, from, to);
    }

    /** The reverse edges are built before the order is restored, so a function's callers keep the
        order they were added in. */
    method Extend(p: Program, admit: Id -> bool)
      modifies this
      ensures State() == InOrder(WithAll(old(State()), p, admit), p).(callers := callers)
      ensures forall callee :: CallersOf(callers, callee)
                == CallersIn(WithAll(old(State()), p, admit).bodies, WithAll(old(State()), p, admit).nodes, callee)
    {
      AddAll(p, admit);
      BuildReverseEdges();
      RestoreOrder(p);
    }
  }

  lemma OneMoreNode(g: Graph, p: Program, nodes: seq<Node>, node: Node)
    ensures WithNodes(g, p, nodes + [node]) == WithNode(WithNodes(g, p, nodes), node, WalkOf(p, node.id))
  {
    assert (nodes + [node])[..|nodes|] == nodes;
  }

  lemma OneMoreFunction(g: Graph, p: Program, ids: seq<Id>, id: Id, admit: Id -> bool)
    ensures WithNodes(g, p, FunctionNodes(p, ids + [id], admit))
         == if id in p.withBody && admit(id)
            then WithNode(WithNodes(g, p, FunctionNodes(p, ids, admit)), FunctionNode(id), WalkOf(p, id))
            else WithNodes(g, p, FunctionNodes(p, ids, admit))
  {
    assert (ids + [id])[..|ids|] == ids;
    assert FunctionNodes(p, ids + [id], admit)
        == if id in p.withBody && admit(id) then FunctionNodes(p, ids, admit) + [FunctionNode(id)]
           else FunctionNodes(p, ids, admit);
    OneMoreNode(g, p, FunctionNodes(p, ids, admit), FunctionNode(id));
  }

  lemma OneMoreClosure(g: Graph, p: Program, ids: seq<Id>, id: Id, admit: Id -> bool)
    ensures WithNodes(g, p, ClosureNodes(ids + [id], admit))
         == if admit(id) then WithNode(WithNodes(g, p, ClosureNodes(ids, admit)), ClosureNode(id), WalkOf(p, id))
            else WithNodes(g, p, ClosureNodes(ids, admit))
  {
    assert (ids + [id])[..|ids|] == ids;
    assert ClosureNodes(ids + [id], admit)
        == if admit(id) then ClosureNodes(ids, admit) + [ClosureNode(id)] else ClosureNodes(ids, admit);
    OneMoreNode(g, p, ClosureNodes(ids, admit), ClosureNode(id));
  }

  /** The calls of one node, added to the callers there were. */
  ghost predicate Adds(before: map<Id, seq<Node>>, reversed: map<Id, seq<Node>>, calls: seq<Call>, node: Node) {
    forall callee :: CallersOf(reversed, callee) == CallersOf(before, callee) + CallsTo(calls, node, callee)
  }

  ghost predicate NoneEmpty(callers: map<Id, seq<Node>>) {
    forall callee :: callee in callers ==> callers[callee] != []
  }

  lemma OneMoreCaller(before: map<Id, seq<Node>>, reversed: map<Id, seq<Node>>, calls: seq<Call>, call: Call,
                      node: Node)
    requires Adds(before, reversed, calls, node) && NoneEmpty(reversed)
    ensures var t := call.target;
            var next := if t.Function? || t.Closure? then reversed[t.id := CallersOf(reversed, t.id) + [node]]
                        else reversed;
            Adds(before, next, calls + [call], node) && NoneEmpty(next)
  {
    assert (calls + [call])[..|calls|] == calls;
    var t := call.target;
    var next := if t.Function? || t.Closure? then reversed[t.id := CallersOf(reversed, t.id) + [node]] else reversed;
    forall callee ensures CallersOf(next, callee) == CallersOf(before, callee) + CallsTo(calls + [call], node, callee) {
      var more := if (t.Function? || t.Closure?) && t.id == callee then [node] else [];
      assert CallersOf(next, callee) == CallersOf(reversed, callee) + more;
      assert (CallersOf(before, callee) + CallsTo(calls, node, callee)) + more
          == CallersOf(before, callee) + (CallsTo(calls, node, callee) + more);
    }
  }

  lemma OneMoreParent(parent: map<Id, Id>, id: Id, nested: seq<Id>, c: Id)
    ensures Adopted(parent, nested + [c], id) == Adopted(parent, nested, id)[c := id]
  {
  }

  lemma OneMoreChild(children: map<Id, seq<Id>>, id: Id, nested: seq<Id>, c: Id)
    ensures var so := WithChildren(children, id, nested);
            WithChildren(children, id, nested + [c]) == so[id := ChildrenIn(so, id) + [c]]
  {
    assert (ChildrenIn(children, id) + nested) + [c] == ChildrenIn(children, id) + (nested + [c]);
    if nested == [] { assert nested + [c] == [c]; }
    assert nested != [] ==> ChildrenIn(WithChildren(children, id, nested), id) == ChildrenIn(children, id) + nested;
  }

  lemma {:induction false} NodesInTwo(g: Graph, p: Program, a: seq<Node>, b: seq<Node>)
    ensures WithNodes(g, p, a + b) == WithNodes(WithNodes(g, p, a), p, b)
  {
    if b == [] {
      assert a + b == a;
    } else {
      assert (a + b)[..|a + b| - 1] == a + b[..|b| - 1];
      NodesInTwo(g, p, a, b[..|b| - 1]);
    }
  }

  /** The graph of `q` built whole, and the graph of an earlier `p` cut to `keep`, renumbered and extended
      over the rest of `q`: the two are the same graph, but that a function's callers are the same nodes,
      as often, with the kept first. */
  method BuildTwice(p: Program, q: Program, keep: Id -> bool, from: Id, to: Id)
    returns (built: CallGraph, replayed: CallGraph)
    requires WellFormed(p) && WellFormed(q) && SameKept(p, q, keep, from, to)
    requires KeepsWithParent(p, keep) && KeepsWithParent(q, keep)
    ensures replayed.State() == built.State().(callers := replayed.callers)
    ensures forall callee :: CallersOf(replayed.callers, callee)
              == KeptNodes(CallersOf(built.callers, callee), keep)
                 + KeptNodes(CallersOf(built.callers, callee), Rest(keep))
    ensures forall callee :: multiset(CallersOf(replayed.callers, callee)) == multiset(CallersOf(built.callers, callee))
    ensures forall callee :: CallersOf(replayed.callers, callee) == CallersOf(built.callers, callee)
              <==> KeptFirst(CallersOf(built.callers, callee), keep)
  {
    built := CallGraph.Build(q);
    var earlier := CallGraph.Build(p);
    replayed := earlier.Restricted(keep);
    replayed.RemapMinted(from, to);
    CallersAside(Remapped(Cut(Whole(p), keep), from, to), replayed.callers, q, Rest(keep));
    replayed.Extend(q, Rest(keep));
    CutThenExtended(p, q, keep, from, to);
    CallersMatch(replayed.callers, built.callers, keep);
  }

  lemma CallersMatch(replayed: map<Id, seq<Node>>, built: map<Id, seq<Node>>, keep: Id -> bool)
    requires forall callee :: CallersOf(replayed, callee)
               == KeptNodes(CallersOf(built, callee), keep) + KeptNodes(CallersOf(built, callee), Rest(keep))
    ensures forall callee :: CallersOf(replayed, callee) == CallersOf(built, callee)
              <==> KeptFirst(CallersOf(built, callee), keep)
  {
    forall callee
      ensures CallersOf(replayed, callee) == CallersOf(built, callee) <==> KeptFirst(CallersOf(built, callee), keep)
    {
      KeptFirstStands(CallersOf(built, callee), keep);
    }
  }

  /** A walk neither reads nor writes the reverse edges. */
  lemma CallersAside(g: Graph, callers: map<Id, seq<Node>>, p: Program, admit: Id -> bool)
    ensures WithAll(g.(callers := callers), p, admit) == WithAll(g, p, admit).(callers := callers)
  {
    var h := g.(callers := callers);
    NodesAside(g, callers, p, NodesOf(p, admit));
    var w, v := WithNodes(g, p, NodesOf(p, admit)), WithNodes(h, p, NodesOf(p, admit));
    BindingsAdded(w, p, p.bindings, admit);
    BindingsAdded(v, p, p.bindings, admit);
    BindingRegionsAdded(WithBindings(w, p, p.bindings, admit), p.bindings, admit);
    BindingRegionsAdded(WithBindings(v, p, p.bindings, admit), p.bindings, admit);
    RegionsAside(WithBindingRegions(WithBindings(w, p, p.bindings, admit), p.bindings, admit), callers, p, p.constExprs,
                 admit);
  }

  lemma {:induction false} NodesAside(g: Graph, callers: map<Id, seq<Node>>, p: Program, nodes: seq<Node>)
    ensures WithNodes(g.(callers := callers), p, nodes) == WithNodes(g, p, nodes).(callers := callers)
  {
    if nodes != [] { NodesAside(g, callers, p, nodes[..|nodes| - 1]); }
  }

  lemma {:induction false} RegionsAside(g: Graph, callers: map<Id, seq<Node>>, p: Program, exprs: seq<Id>,
                                        admit: Id -> bool)
    ensures WithRegions(g.(callers := callers), p, exprs, admit) == WithRegions(g, p, exprs, admit).(callers := callers)
  {
    if exprs != [] { RegionsAside(g, callers, p, exprs[..|exprs| - 1], admit); }
  }
}

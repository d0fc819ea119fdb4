/** Cutting a call graph to some ids and extending it over the rest is building it whole, but for the
    order of a function's callers (crates/vilan-core/src/call_graph.rs). */
module CallGraphCut {
  import opened CallGraphs

  function Everything(): Id -> bool {
    _ => true
  }

  function Rest(keep: Id -> bool): Id -> bool {
    (id: Id) => !keep(id)
  }

  function Ids(nodes: seq<Node>): set<Id> {
    set n | n in nodes :: n.id
  }

  ghost predicate DistinctIds(nodes: seq<Node>) {
    forall i, j :: 0 <= i < j < |nodes| ==> nodes[i].id != nodes[j].id
  }

  /** A closure is kept exactly when the body it is defined in is. */
  ghost predicate KeepsWithParent(p: Program, keep: Id -> bool) {
    forall n, c :: n in NodesOf(p, Everything()) && c in WalkOf(p, n.id).nested ==> (keep(c) <==> keep(n.id))
  }

  // ----- what adding nodes leaves, field by field -----

  function BodiesOf(p: Program, ids: set<Id>): map<Id, Walk> {
    map id | id in ids :: WalkOf(p, id)
  }

  function NestedOf(p: Program, ids: set<Id>): map<Id, seq<Id>> {
    map id | id in ids && WalkOf(p, id).nested != [] :: WalkOf(p, id).nested
  }

  function AwaitingOf(p: Program, ids: set<Id>): set<Id> {
    set id | id in ids && WalkOf(p, id).awaits != []
  }

  /** The last of `nodes` that defines `c`. */
  function Definer(p: Program, nodes: seq<Node>, c: Id): (r: seq<Id>)
    ensures |r| <= 1
  {
    if nodes == [] then []
    else if c in WalkOf(p, nodes[|nodes| - 1].id).nested then [nodes[|nodes| - 1].id]
    else Definer(p, nodes[..|nodes| - 1], c)
  }

  lemma Last(nodes: seq<Node>)
    requires nodes != []
    ensures nodes == nodes[..|nodes| - 1] + [nodes[|nodes| - 1]]
    ensures Ids(nodes) == Ids(nodes[..|nodes| - 1]) + {nodes[|nodes| - 1].id}
  {
  }

  lemma PutLast<V>(g: map<Id, V>, m: map<Id, V>, id: Id, v: V)
    ensures (g + m)[id := v] == g + m[id := v]
  {
  }

  lemma PutNone<V>(g: map<Id, V>, m: map<Id, V>)
    requires m == map[]
    ensures g + m == g
  {
  }

  lemma BodiesPut(p: Program, ids: set<Id>, id: Id)
    ensures BodiesOf(p, ids + {id}) == BodiesOf(p, ids)[id := WalkOf(p, id)]
  {
  }

  lemma NestedPut(p: Program, ids: set<Id>, id: Id)
    requires id !in ids
    ensures NestedOf(p, ids + {id})
         == if WalkOf(p, id).nested == [] then NestedOf(p, ids) else NestedOf(p, ids)[id := WalkOf(p, id).nested]
  {
  }

  lemma AwaitingPut(p: Program, ids: set<Id>, id: Id)
    ensures AwaitingOf(p, ids + {id}) == AwaitingOf(p, ids) + if WalkOf(p, id).awaits == [] then {} else {id}
  {
  }

  lemma {:induction false} NodesAdded(g: Graph, p: Program, nodes: seq<Node>)
    ensures var r := WithNodes(g, p, nodes);
            && r.nodes == g.nodes + nodes && r.callers == g.callers && r.initializers == g.initializers
            && r.constants == g.constants && r.regions == g.regions
  {
    if nodes != [] {
      NodesAdded(g, p, nodes[..|nodes| - 1]);
      Last(nodes);
      assert g.nodes + nodes == (g.nodes + nodes[..|nodes| - 1]) + [nodes[|nodes| - 1]];
    }
  }

  lemma {:induction false} BodiesAdded(g: Graph, p: Program, nodes: seq<Node>)
    ensures WithNodes(g, p, nodes).bodies == g.bodies + BodiesOf(p, Ids(nodes))
  {
    if nodes == [] {
      PutNone(g.bodies, BodiesOf(p, Ids(nodes)));
    } else {
      var n := |nodes| - 1;
      BodiesAdded(g, p, nodes[..n]);
      Last(nodes);
      BodiesPut(p, Ids(nodes[..n]), nodes[n].id);
      PutLast(g.bodies, BodiesOf(p, Ids(nodes[..n])), nodes[n].id, WalkOf(p, nodes[n].id));
    }
  }

  lemma {:induction false} AwaitsAdded(g: Graph, p: Program, nodes: seq<Node>)
    ensures WithNodes(g, p, nodes).awaits == g.awaits + AwaitingOf(p, Ids(nodes))
  {
    if nodes == [] {
      assert AwaitingOf(p, Ids(nodes)) == {};
    } else {
      var n := |nodes| - 1;
      AwaitsAdded(g, p, nodes[..n]);
      Last(nodes);
      AwaitingPut(p, Ids(nodes[..n]), nodes[n].id);
    }
  }

  lemma {:induction false} ParentsAdded(g: Graph, p: Program, nodes: seq<Node>, c: Id)
    ensures var r := WithNodes(g, p, nodes).parent;
            if Definer(p, nodes, c) != [] then c in r && r[c] == Definer(p, nodes, c)[0]
            else (c in r <==> c in g.parent) && (c in r ==> r[c] == g.parent[c])
  {
    if nodes != [] { ParentsAdded(g, p, nodes[..|nodes| - 1], c); }
  }

  lemma {:induction false} ChildrenAdded(g: Graph, p: Program, nodes: seq<Node>)
    requires DistinctIds(nodes) && forall id :: id in Ids(nodes) ==> id !in g.children
    ensures WithNodes(g, p, nodes).children == g.children + NestedOf(p, Ids(nodes))
  {
    if nodes == [] {
      PutNone(g.children, NestedOf(p, Ids(nodes)));
    } else {
      var n := |nodes| - 1;
      var ids, id := Ids(nodes[..n]), nodes[n].id;
      ChildrenAdded(g, p, nodes[..n]);
      Last(nodes);
      assert id !in ids && id in Ids(nodes);
      NestedPut(p, ids, id);
      PutLast(g.children, NestedOf(p, ids), id, WalkOf(p, id).nested);
      assert ChildrenIn(WithNodes(g, p, nodes[..n]).children, id) + WalkOf(p, id).nested == WalkOf(p, id).nested;
    }
  }

  // ----- initializers and regions -----

  function InitializersOf(p: Program, bindings: seq<Id>, admit: Id -> bool): map<Id, Walk> {
    map b | b in bindings && admit(b) && b in p.initial && p.initial[b] !in p.constExprs :: WalkOf(p, p.initial[b])
  }

  function ConstantsOf(p: Program, bindings: seq<Id>, admit: Id -> bool): map<Id, Walk> {
    map b | b in bindings && admit(b) && b in p.initial && p.initial[b] in p.constExprs :: WalkOf(p, p.initial[b])
  }

  lemma BindingPut(p: Program, bindings: seq<Id>, b: Id, admit: Id -> bool)
    ensures InitializersOf(p, bindings + [b], admit)
         == if admit(b) && b in p.initial && p.initial[b] !in p.constExprs
            then InitializersOf(p, bindings, admit)[b := WalkOf(p, p.initial[b])]
            else InitializersOf(p, bindings, admit)
    ensures ConstantsOf(p, bindings + [b], admit)
         == if admit(b) && b in p.initial && p.initial[b] in p.constExprs
            then ConstantsOf(p, bindings, admit)[b := WalkOf(p, p.initial[b])]
            else ConstantsOf(p, bindings, admit)
  {
  }

  lemma {:induction false} BindingsAdded(g: Graph, p: Program, bindings: seq<Id>, admit: Id -> bool)
    ensures WithBindings(g, p, bindings, admit)
         == g.(initializers := g.initializers + InitializersOf(p, bindings, admit),
               constants := g.constants + ConstantsOf(p, bindings, admit))
  {
    if bindings == [] {
      PutNone(g.initializers, InitializersOf(p, bindings, admit));
      PutNone(g.constants, ConstantsOf(p, bindings, admit));
    } else {
      var before, b := bindings[..|bindings| - 1], bindings[|bindings| - 1];
      BindingsAdded(g, p, before, admit);
      assert bindings == before + [b];
      BindingPut(p, before, b, admit);
      if b in p.initial {
        PutLast(g.initializers, InitializersOf(p, before, admit), b, WalkOf(p, p.initial[b]));
        PutLast(g.constants, ConstantsOf(p, before, admit), b, WalkOf(p, p.initial[b]));
      }
    }
  }

  lemma {:induction false} BindingRegionsAdded(g: Graph, bindings: seq<Id>, admit: Id -> bool)
    ensures WithBindingRegions(g, bindings, admit)
         == g.(regions := g.regions + KeptIds(bindings, (b: Id) => admit(b) && b in g.constants))
  {
    if bindings != [] {
      var n := |bindings| - 1;
      BindingRegionsAdded(g, bindings[..n], admit);
    }
  }

  function OwnRegions(p: Program, exprs: seq<Id>, admit: Id -> bool): set<Id> {
    set r | r in exprs && admit(r) && !ConstInitializer(p, r)
  }

  lemma OwnRegionPut(p: Program, exprs: seq<Id>, r: Id, admit: Id -> bool)
    ensures OwnRegions(p, exprs + [r], admit)
         == if admit(r) && !ConstInitializer(p, r)
            then OwnRegions(p, exprs, admit) + {r} else OwnRegions(p, exprs, admit)
  {
  }

  /** What a walk of the const expressions left. */
  ghost predicate RegionsFrom(g: Graph, t: Graph, p: Program, own: set<Id>) {
    && t == g.(constants := t.constants, regions := t.regions)
    && t.constants == g.constants + BodiesOf(p, own)
    && Members(t.regions) == Members(g.regions) + own
  }

  lemma OneRegion(g: Graph, t: Graph, p: Program, own: set<Id>, r: Id)
    requires RegionsFrom(g, t, p, own) && r !in g.regions
    ensures r in t.regions <==> r in own
    ensures RegionsFrom(g, if r in t.regions then t
                           else t.(constants := t.constants[r := WalkOf(p, r)], regions := t.regions + [r]),
                        p, own + {r})
  {
    assert r in t.regions <==> r in Members(t.regions);
    BodiesPut(p, own, r);
    PutLast(g.constants, BodiesOf(p, own), r, WalkOf(p, r));
    MembersJoin(t.regions, [r]);
    assert Members([r]) == {r};
    if r in own { assert own + {r} == own; }
  }

  lemma {:induction false} RegionsAdded(g: Graph, p: Program, exprs: seq<Id>, admit: Id -> bool)
    requires forall r :: r in OwnRegions(p, exprs, admit) ==> r !in g.regions
    ensures RegionsFrom(g, WithRegions(g, p, exprs, admit), p, OwnRegions(p, exprs, admit))
  {
    if exprs == [] {
      PutNone(g.constants, BodiesOf(p, OwnRegions(p, exprs, admit)));
    } else {
      var before, r := exprs[..|exprs| - 1], exprs[|exprs| - 1];
      assert exprs == before + [r];
      OwnRegionPut(p, before, r, admit);
      RegionsAdded(g, p, before, admit);
      if admit(r) && !ConstInitializer(p, r) {
        OneRegion(g, WithRegions(g, p, before, admit), p, OwnRegions(p, before, admit), r);
      }
    }
  }

  // ----- the nodes of a walk -----

  lemma {:induction false} FunctionNodesAre(p: Program, ids: seq<Id>, admit: Id -> bool)
    requires NoRepeat(ids)
    ensures forall n :: n in FunctionNodes(p, ids, admit)
              <==> n.FunctionNode? && n.id in ids && n.id in p.withBody && admit(n.id)
    ensures DistinctIds(FunctionNodes(p, ids, admit))
  {
    if ids != [] {
      FunctionNodesAre(p, ids[..|ids| - 1], admit);
      assert ids == ids[..|ids| - 1] + [ids[|ids| - 1]];
    }
  }

  lemma {:induction false} ClosureNodesAre(ids: seq<Id>, admit: Id -> bool)
    requires NoRepeat(ids)
    ensures forall n :: n in ClosureNodes(ids, admit) <==> n.ClosureNode? && n.id in ids && admit(n.id)
    ensures DistinctIds(ClosureNodes(ids, admit))
  {
    if ids != [] {
      ClosureNodesAre(ids[..|ids| - 1], admit);
      assert ids == ids[..|ids| - 1] + [ids[|ids| - 1]];
    }
  }

  lemma NodesAre(p: Program, admit: Id -> bool)
    requires WellFormed(p)
    ensures forall n :: n in NodesOf(p, admit) <==> n in NodesOf(p, Everything()) && admit(n.id)
    ensures DistinctIds(NodesOf(p, admit))
  {
    FunctionNodesAre(p, p.functions, admit);
    FunctionNodesAre(p, p.functions, Everything());
    ClosureNodesAre(p.closures, admit);
    ClosureNodesAre(p.closures, Everything());
    var fs, cs := FunctionNodes(p, p.functions, admit), ClosureNodes(p.closures, admit);
    var all := NodesOf(p, admit);
    forall i, j | 0 <= i < j < |all| ensures all[i].id != all[j].id {
      if i < |fs| <= j { assert fs[i] in fs && cs[j - |fs|] in cs; }
    }
  }

  lemma {:induction false} KeptJoin(a: seq<Node>, b: seq<Node>, keep: Id -> bool)
    ensures KeptNodes(a + b, keep) == KeptNodes(a, keep) + KeptNodes(b, keep)
  {
    if b == [] {
      assert a + b == a;
    } else {
      assert (a + b)[..|a + b| - 1] == a + b[..|b| - 1];
      KeptJoin(a, b[..|b| - 1], keep);
    }
  }

  lemma {:induction false} KeptFunctionNodes(p: Program, ids: seq<Id>, keep: Id -> bool)
    ensures KeptNodes(FunctionNodes(p, ids, Everything()), keep) == FunctionNodes(p, ids, keep)
  {
    if ids != [] {
      var n := |ids| - 1;
      KeptFunctionNodes(p, ids[..n], keep);
      var more := if ids[n] in p.withBody then [FunctionNode(ids[n])] else [];
      KeptJoin(FunctionNodes(p, ids[..n], Everything()), more, keep);
    }
  }

  lemma {:induction false} KeptClosureNodes(ids: seq<Id>, keep: Id -> bool)
    ensures KeptNodes(ClosureNodes(ids, Everything()), keep) == ClosureNodes(ids, keep)
  {
    if ids != [] {
      var n := |ids| - 1;
      KeptClosureNodes(ids[..n], keep);
      KeptJoin(ClosureNodes(ids[..n], Everything()), [ClosureNode(ids[n])], keep);
    }
  }

  /** The walk over part of the ids adds the nodes of the whole walk that part keeps. */
  lemma KeptNodesOf(p: Program, keep: Id -> bool)
    ensures KeptNodes(NodesOf(p, Everything()), keep) == NodesOf(p, keep)
  {
    KeptJoin(FunctionNodes(p, p.functions, Everything()), ClosureNodes(p.closures, Everything()), keep);
    KeptFunctionNodes(p, p.functions, keep);
    KeptClosureNodes(p.closures, keep);
  }

  lemma {:induction false} DefinerOfKept(p: Program, nodes: seq<Node>, keep: Id -> bool, c: Id)
    requires forall n :: n in nodes && c in WalkOf(p, n.id).nested ==> (keep(c) <==> keep(n.id))
    ensures Definer(p, KeptNodes(nodes, keep), c) == if keep(c) then Definer(p, nodes, c) else []
  {
    if nodes != [] {
      var n := |nodes| - 1;
      assert nodes == nodes[..n] + [nodes[n]];
      DefinerOfKept(p, nodes[..n], keep, c);
      if keep(nodes[n].id) {
        assert KeptNodes(nodes, keep)[..|KeptNodes(nodes[..n], keep)|] == KeptNodes(nodes[..n], keep);
      } else {
        assert KeptNodes(nodes, keep) == KeptNodes(nodes[..n], keep);
      }
    }
  }

  // ----- the whole -----

  /** What a walk over part of the ids leaves of the nodes' fields of the graph it adds to. */
  lemma BodiesFieldsAdded(g: Graph, p: Program, admit: Id -> bool)
    requires WellFormed(p) && forall id :: id in g.children ==> !admit(id)
    ensures var t, nodes := WithAll(g, p, admit), NodesOf(p, admit);
            && t.bodies == g.bodies + BodiesOf(p, Ids(nodes)) && t.awaits == g.awaits + AwaitingOf(p, Ids(nodes))
            && t.children == g.children + NestedOf(p, Ids(nodes)) && t.parent == WithNodes(g, p, nodes).parent
            && t.nodes == g.nodes + nodes && t.callers == g.callers
  {
    var nodes := NodesOf(p, admit);
    NodesAre(p, admit);
    NodesAdded(g, p, nodes);
    BodiesAdded(g, p, nodes);
    AwaitsAdded(g, p, nodes);
    ChildrenAdded(g, p, nodes);
    OnlyRegions(WithNodes(g, p, nodes), p, admit);
  }

  lemma {:induction false} RegionsTouch(g: Graph, p: Program, exprs: seq<Id>, admit: Id -> bool)
    ensures var t := WithRegions(g, p, exprs, admit); t == g.(constants := t.constants, regions := t.regions)
  {
    if exprs != [] { RegionsTouch(g, p, exprs[..|exprs| - 1], admit); }
  }

  lemma OnlyRegions(g: Graph, p: Program, admit: Id -> bool)
    ensures var bound := WithBindingRegions(WithBindings(g, p, p.bindings, admit), p.bindings, admit);
            var t := WithRegions(bound, p, p.constExprs, admit);
            t == g.(initializers := t.initializers, constants := t.constants, regions := t.regions)
  {
    BindingsAdded(g, p, p.bindings, admit);
    BindingRegionsAdded(WithBindings(g, p, p.bindings, admit), p.bindings, admit);
    RegionsTouch(WithBindingRegions(WithBindings(g, p, p.bindings, admit), p.bindings, admit), p, p.constExprs, admit);
  }

  /** And of the initializers' and const regions'. */
  lemma RegionFieldsAdded(g: Graph, p: Program, admit: Id -> bool)
    requires WellFormed(p) && forall r :: r in g.regions ==> !admit(r)
    requires forall b :: b in p.bindings && admit(b) ==> b !in g.constants
    ensures var t := WithAll(g, p, admit);
            && t.initializers == g.initializers + InitializersOf(p, p.bindings, admit)
            && t.constants
               == g.constants + ConstantsOf(p, p.bindings, admit) + BodiesOf(p, OwnRegions(p, p.constExprs, admit))
            && Members(t.regions)
               == Members(g.regions) + ConstantsOf(p, p.bindings, admit).Keys + OwnRegions(p, p.constExprs, admit)
  {
    var walked := WithNodes(g, p, NodesOf(p, admit));
    NodesAdded(g, p, NodesOf(p, admit));
    BindingsAdded(walked, p, p.bindings, admit);
    var bound := WithBindings(walked, p, p.bindings, admit);
    BindingRegionsAdded(bound, p.bindings, admit);
    RegionsOfBindings(p, admit, bound.constants, g.constants);
    var before := WithBindingRegions(bound, p.bindings, admit);
    MembersJoin(g.regions, KeptIds(p.bindings, (b: Id) => admit(b) && b in bound.constants));
    KeptAre(p.bindings, (b: Id) => admit(b) && b in bound.constants);
    RegionsAdded(before, p, p.constExprs, admit);
  }

  lemma MembersJoin(a: seq<Id>, b: seq<Id>)
    ensures Members(a + b) == Members(a) + Members(b)
  {
  }

  lemma {:induction false} KeptAre(ids: seq<Id>, keep: Id -> bool)
    ensures forall id :: id in KeptIds(ids, keep) <==> id in ids && keep(id)
  {
    if ids != [] {
      KeptAre(ids[..|ids| - 1], keep);
      assert ids == ids[..|ids| - 1] + [ids[|ids| - 1]];
    }
  }

  lemma RegionsOfBindings(p: Program, admit: Id -> bool, constants: map<Id, Walk>, was: map<Id, Walk>)
    requires constants == was + ConstantsOf(p, p.bindings, admit)
    requires forall b :: b in p.bindings && admit(b) ==> b !in was
    ensures Members(KeptIds(p.bindings, (b: Id) => admit(b) && b in constants))
              == ConstantsOf(p, p.bindings, admit).Keys
  {
    KeptAre(p.bindings, (b: Id) => admit(b) && b in constants);
  }

  // ----- cutting, then extending -----

  lemma IdsAre(p: Program, admit: Id -> bool)
    requires WellFormed(p)
    ensures forall id :: id in Ids(NodesOf(p, admit)) <==> id in Ids(NodesOf(p, Everything())) && admit(id)
  {
    NodesAre(p, admit);
    forall id | id in Ids(NodesOf(p, Everything())) && admit(id) ensures id in Ids(NodesOf(p, admit)) {
      var n :| n in NodesOf(p, Everything()) && n.id == id;
      assert n in NodesOf(p, admit);
    }
    forall id | id in Ids(NodesOf(p, admit)) ensures id in Ids(NodesOf(p, Everything())) && admit(id) {
      var n :| n in NodesOf(p, admit) && n.id == id;
    }
  }

  ghost function Whole(p: Program): Graph {
    WithAll(EMPTY, p, Everything())
  }

  lemma NothingBefore<V>(m: map<Id, V>)
    ensures map[] + m == m
  {
  }

  lemma WholeFields(p: Program)
    requires WellFormed(p)
    ensures var b, ids := Whole(p), Ids(NodesOf(p, Everything()));
            && b.bodies == BodiesOf(p, ids) && b.awaits == AwaitingOf(p, ids) && b.children == NestedOf(p, ids)
            && b.nodes == NodesOf(p, Everything()) && b.callers == map[]
            && b.parent == WithNodes(EMPTY, p, b.nodes).parent
  {
    var nodes := NodesOf(p, Everything());
    BodiesFieldsAdded(EMPTY, p, Everything());
    NothingBefore(BodiesOf(p, Ids(nodes)));
    NothingBefore(NestedOf(p, Ids(nodes)));
  }

  lemma WholeRegionFields(p: Program)
    requires WellFormed(p)
    ensures var b, own := Whole(p), OwnRegions(p, p.constExprs, Everything());
            && b.initializers == InitializersOf(p, p.bindings, Everything())
            && b.constants == ConstantsOf(p, p.bindings, Everything()) + BodiesOf(p, own)
            && Members(b.regions) == ConstantsOf(p, p.bindings, Everything()).Keys + own
  {
    RegionFieldsAdded(EMPTY, p, Everything());
    NothingBefore(InitializersOf(p, p.bindings, Everything()));
    NothingBefore(ConstantsOf(p, p.bindings, Everything()));
  }

  lemma CutIsSpent(p: Program, keep: Id -> bool)
    requires WellFormed(p)
    ensures var c := Cut(Whole(p), keep);
            && (forall r :: r in c.regions ==> !Rest(keep)(r)) && (forall id :: id in c.children ==> !Rest(keep)(id))
            && (forall b :: b in p.bindings && Rest(keep)(b) ==> b !in c.constants)
            && Members(c.regions) == set r | r in Members(Whole(p).regions) && keep(r)
  {
    KeptAre(Whole(p).regions, keep);
  }

  ghost function Rejoined(p: Program, keep: Id -> bool): Graph {
    WithAll(Cut(Whole(p), keep), p, Rest(keep))
  }

  lemma Rejoins<V>(all: map<Id, V>, rest: map<Id, V>, keep: Id -> bool)
    requires rest == Kept(all, Rest(keep))
    ensures Kept(all, keep) + rest == all
  {
  }

  lemma RestBodies(p: Program, ids: set<Id>, rest: set<Id>, keep: Id -> bool)
    requires rest == set id | id in ids && keep(id)
    ensures BodiesOf(p, rest) == Kept(BodiesOf(p, ids), keep) && NestedOf(p, rest) == Kept(NestedOf(p, ids), keep)
    ensures AwaitingOf(p, rest) == set id | id in AwaitingOf(p, ids) && keep(id)
  {
  }

  lemma AwaitsRejoin(all: set<Id>, rest: set<Id>, keep: Id -> bool)
    requires rest == set id | id in all && Rest(keep)(id)
    ensures (set id | id in all && keep(id)) + rest == all
  {
  }

  lemma CutAdds(p: Program, keep: Id -> bool)
    requires WellFormed(p)
    ensures var x, cut, rest := Rejoined(p, keep), Cut(Whole(p), keep), NodesOf(p, Rest(keep));
            && x.bodies == cut.bodies + BodiesOf(p, Ids(rest)) && x.awaits == cut.awaits + AwaitingOf(p, Ids(rest))
            && x.children == cut.children + NestedOf(p, Ids(rest)) && x.parent == WithNodes(cut, p, rest).parent
            && x.nodes == cut.nodes + rest && x.callers == map[]
  {
    CutIsSpent(p, keep);
    BodiesFieldsAdded(Cut(Whole(p), keep), p, Rest(keep));
  }

  /** The bodies, children and awaits come back whole. */
  lemma BodiesRejoin(p: Program, keep: Id -> bool)
    requires WellFormed(p)
    ensures var x, b := Rejoined(p, keep), Whole(p);
            x.bodies == b.bodies && x.children == b.children && x.awaits == b.awaits && x.callers == map[]
            && x.nodes == KeptNodes(b.nodes, keep) + KeptNodes(b.nodes, Rest(keep))
  {
    WholeFields(p);
    CutAdds(p, keep);
    KeptNodesOf(p, Rest(keep));
    var ids := Ids(NodesOf(p, Everything()));
    var rest := Ids(NodesOf(p, Rest(keep)));
    RestIds(p, Rest(keep));
    RestBodies(p, ids, rest, Rest(keep));
    Rejoins(BodiesOf(p, ids), BodiesOf(p, rest), keep);
    Rejoins(NestedOf(p, ids), NestedOf(p, rest), keep);
    AwaitsRejoin(AwaitingOf(p, ids), AwaitingOf(p, rest), keep);
  }

  lemma RestIds(p: Program, keep: Id -> bool)
    requires WellFormed(p)
    ensures Ids(NodesOf(p, keep)) == set id | id in Ids(NodesOf(p, Everything())) && keep(id)
  {
    IdsAre(p, keep);
  }

  lemma ParentRejoins(p: Program, cut: Graph, nodes: seq<Node>, rest: seq<Node>, keep: Id -> bool, c: Id)
    requires cut.parent == Kept(WithNodes(EMPTY, p, nodes).parent, keep) && rest == KeptNodes(nodes, Rest(keep))
    requires forall n :: n in nodes && c in WalkOf(p, n.id).nested ==> (keep(c) <==> keep(n.id))
    ensures var x, b := WithNodes(cut, p, rest).parent, WithNodes(EMPTY, p, nodes).parent;
            (c in x <==> c in b) && (c in b ==> x[c] == b[c])
  {
    ParentsAdded(EMPTY, p, nodes, c);
    ParentsAdded(cut, p, rest, c);
    DefinerOfKept(p, nodes, Rest(keep), c);
  }

  lemma SameMap<V>(a: map<Id, V>, b: map<Id, V>)
    requires forall c :: (c in a <==> c in b) && (c in b ==> a[c] == b[c])
    ensures a == b
  {
  }

  /** So do the parent links, a closure being kept with the body it is in. */
  lemma ParentsRejoin(p: Program, keep: Id -> bool)
    requires WellFormed(p) && KeepsWithParent(p, keep)
    ensures Rejoined(p, keep).parent == Whole(p).parent
  {
    WholeFields(p);
    CutAdds(p, keep);
    KeptNodesOf(p, Rest(keep));
    var cut, nodes, rest := Cut(Whole(p), keep), NodesOf(p, Everything()), NodesOf(p, Rest(keep));
    forall c ensures var x, b := WithNodes(cut, p, rest).parent, WithNodes(EMPTY, p, nodes).parent;
                     (c in x <==> c in b) && (c in b ==> x[c] == b[c]) {
      ParentRejoins(p, cut, nodes, rest, keep, c);
    }
    SameMap(WithNodes(cut, p, rest).parent, WithNodes(EMPTY, p, nodes).parent);
  }

  lemma RestBindings(p: Program, keep: Id -> bool)
    ensures InitializersOf(p, p.bindings, keep) == Kept(InitializersOf(p, p.bindings, Everything()), keep)
    ensures ConstantsOf(p, p.bindings, keep) == Kept(ConstantsOf(p, p.bindings, Everything()), keep)
    ensures OwnRegions(p, p.constExprs, keep) == set r | r in OwnRegions(p, p.constExprs, Everything()) && keep(r)
  {
  }

  lemma InitializersRejoin(p: Program, keep: Id -> bool)
    requires WellFormed(p)
    ensures Rejoined(p, keep).initializers == Whole(p).initializers
  {
    WholeRegionFields(p);
    CutIsSpent(p, keep);
    RegionFieldsAdded(Cut(Whole(p), keep), p, Rest(keep));
    RestBindings(p, Rest(keep));
    Rejoins(InitializersOf(p, p.bindings, Everything()), InitializersOf(p, p.bindings, Rest(keep)), keep);
  }

  lemma KeptSum<V>(a: map<Id, V>, b: map<Id, V>, keep: Id -> bool)
    ensures Kept(a + b, keep) == Kept(a, keep) + Kept(b, keep)
  {
  }

  lemma SumAssociates<V>(a: map<Id, V>, b: map<Id, V>, c: map<Id, V>)
    ensures a + b + c == a + (b + c)
  {
  }

  lemma ConstantsRejoin(p: Program, keep: Id -> bool)
    requires WellFormed(p)
    ensures Rejoined(p, keep).constants == Whole(p).constants
  {
    WholeRegionFields(p);
    CutIsSpent(p, keep);
    RegionFieldsAdded(Cut(Whole(p), keep), p, Rest(keep));
    RestBindings(p, Rest(keep));
    var own := OwnRegions(p, p.constExprs, Everything());
    var bound := ConstantsOf(p, p.bindings, Everything());
    RestBodies(p, own, OwnRegions(p, p.constExprs, Rest(keep)), Rest(keep));
    KeptSum(bound, BodiesOf(p, own), Rest(keep));
    SumAssociates(Kept(bound + BodiesOf(p, own), keep), Kept(bound, Rest(keep)), Kept(BodiesOf(p, own), Rest(keep)));
    Rejoins(bound + BodiesOf(p, own), Kept(bound + BodiesOf(p, own), Rest(keep)), keep);
  }

  lemma KeptKeys<V>(m: map<Id, V>, keep: Id -> bool)
    ensures Kept(m, keep).Keys == set id | id in m.Keys && keep(id)
  {
  }

  lemma RegionsAre(p: Program, keep: Id -> bool)
    requires WellFormed(p)
    ensures Members(Rejoined(p, keep).regions)
         == Members(Cut(Whole(p), keep).regions) + ConstantsOf(p, p.bindings, Rest(keep)).Keys
            + OwnRegions(p, p.constExprs, Rest(keep))
  {
    CutIsSpent(p, keep);
    RegionFieldsAdded(Cut(Whole(p), keep), p, Rest(keep));
  }

  lemma RestConstants(p: Program, keep: Id -> bool)
    ensures ConstantsOf(p, p.bindings, keep).Keys
         == set b | b in ConstantsOf(p, p.bindings, Everything()).Keys && keep(b)
    ensures OwnRegions(p, p.constExprs, keep) == set r | r in OwnRegions(p, p.constExprs, Everything()) && keep(r)
  {
    RestBindings(p, keep);
    KeptKeys(ConstantsOf(p, p.bindings, Everything()), keep);
  }

  lemma RegionsRejoin(p: Program, keep: Id -> bool)
    requires WellFormed(p)
    ensures Members(Rejoined(p, keep).regions) == Members(Whole(p).regions)
  {
    RegionsAre(p, keep);
    RestConstants(p, Rest(keep));
    CutIsSpent(p, keep);
    var all := Members(Whole(p).regions);
    WholeRegionFields(p);
    SetsRejoin(ConstantsOf(p, p.bindings, Everything()).Keys, OwnRegions(p, p.constExprs, Everything()), all, keep);
  }

  lemma SetsRejoin(bound: set<Id>, own: set<Id>, all: set<Id>, keep: Id -> bool)
    requires all == bound + own
    ensures (set r | r in all && keep(r)) + (set b | b in bound && Rest(keep)(b)) + (set r | r in own && Rest(keep)(r))
         == all
  {
  }

  // ----- the order -----

  lemma {:induction false} FunctionsRelaid(p: Program, ids: seq<Id>, bodies: map<Id, Walk>)
    requires forall id :: id in ids ==> (id in bodies <==> id in p.withBody)
    ensures FunctionsIn(ids, bodies) == FunctionNodes(p, ids, Everything())
  {
    if ids != [] {
      assert ids == ids[..|ids| - 1] + [ids[|ids| - 1]];
      FunctionsRelaid(p, ids[..|ids| - 1], bodies);
    }
  }

  lemma {:induction false} ClosuresRelaid(ids: seq<Id>, bodies: map<Id, Walk>)
    requires forall id :: id in ids ==> id in bodies
    ensures ClosuresIn(ids, bodies) == ClosureNodes(ids, Everything())
  {
    if ids != [] {
      assert ids == ids[..|ids| - 1] + [ids[|ids| - 1]];
      ClosuresRelaid(ids[..|ids| - 1], bodies);
    }
  }

  lemma NodesRelaid(p: Program)
    requires WellFormed(p)
    ensures InOrder(Whole(p), p).nodes == Whole(p).nodes
  {
    WholeFields(p);
    FunctionNodesAre(p, p.functions, Everything());
    ClosureNodesAre(p.closures, Everything());
    var fs, cs := FunctionNodes(p, p.functions, Everything()), ClosureNodes(p.closures, Everything());
    var bodies := Whole(p).bodies;
    forall id | id in p.functions ensures id in bodies <==> id in p.withBody {
      if id in p.withBody { assert FunctionNode(id) in fs; assert FunctionNode(id) in NodesOf(p, Everything()); }
    }
    forall id | id in p.closures ensures id in bodies {
      assert ClosureNode(id) in cs;
      assert ClosureNode(id) in NodesOf(p, Everything());
    }
    FunctionsRelaid(p, p.functions, bodies);
    ClosuresRelaid(p.closures, bodies);
  }

  lemma {:induction false} BindingsRelaid(ids: seq<Id>, regions: set<Id>, keep: Id -> bool)
    requires forall id :: id in ids ==> (id in regions <==> keep(id))
    ensures BindingsIn(ids, regions) == KeptIds(ids, keep)
  {
    if ids != [] {
      assert ids == ids[..|ids| - 1] + [ids[|ids| - 1]];
      BindingsRelaid(ids[..|ids| - 1], regions, keep);
    }
  }

  lemma {:induction false} RegionsRelaid(g: Graph, p: Program, exprs: seq<Id>, regions: set<Id>)
    requires forall r :: r in exprs ==> (r in regions <==> !ConstInitializer(p, r))
    ensures RegionsIn(exprs, regions, g.regions) == WithRegions(g, p, exprs, Everything()).regions
  {
    if exprs != [] {
      assert exprs == exprs[..|exprs| - 1] + [exprs[|exprs| - 1]];
      RegionsRelaid(g, p, exprs[..|exprs| - 1], regions);
    }
  }

  /** The order that `extend` restores is the one a clean build lays the regions out in. */
  lemma RegionsInBuildOrder(p: Program)
    requires WellFormed(p)
    ensures InOrder(Whole(p), p).regions == Whole(p).regions
  {
    var walked := WithNodes(EMPTY, p, NodesOf(p, Everything()));
    var bound := WithBindings(walked, p, p.bindings, Everything());
    var keep := (b: Id) => Everything()(b) && b in bound.constants;
    NodesAdded(EMPTY, p, NodesOf(p, Everything()));
    BindingsAdded(walked, p, p.bindings, Everything());
    NothingBefore(ConstantsOf(p, p.bindings, Everything()));
    BindingRegionsAdded(bound, p.bindings, Everything());
    WholeRegionFields(p);
    RelaidFrom(p, WithBindingRegions(bound, p.bindings, Everything()), bound.constants, keep,
               Members(Whole(p).regions));
  }

  lemma RelaidFrom(p: Program, before: Graph, bound: map<Id, Walk>, keep: Id -> bool, regions: set<Id>)
    requires WellFormed(p) && before.regions == KeptIds(p.bindings, keep)
    requires bound == ConstantsOf(p, p.bindings, Everything())
    requires forall b :: keep(b) <==> b in bound
    requires regions == bound.Keys + OwnRegions(p, p.constExprs, Everything())
    ensures RegionsIn(p.constExprs, regions, BindingsIn(p.bindings, regions))
         == WithRegions(before, p, p.constExprs, Everything()).regions
  {
    BindingsRelaid(p.bindings, regions, keep);
    RegionsRelaid(before, p, p.constExprs, regions);
  }

  // ----- the reverse edges -----

  lemma {:induction false} KeptCalls(calls: seq<Call>, node: Node, callee: Id, keep: Id -> bool)
    ensures KeptNodes(CallsTo(calls, node, callee), keep) == if keep(node.id) then CallsTo(calls, node, callee) else []
  {
    if calls != [] {
      var n := |calls| - 1;
      KeptCalls(calls[..n], node, callee, keep);
      var t := calls[n].target;
      var more := if (t.Function? || t.Closure?) && t.id == callee then [node] else [];
      KeptJoin(CallsTo(calls[..n], node, callee), more, keep);
    }
  }

  lemma {:induction false} KeptCallers(bodies: map<Id, Walk>, nodes: seq<Node>, callee: Id, keep: Id -> bool)
    ensures CallersIn(bodies, KeptNodes(nodes, keep), callee) == KeptNodes(CallersIn(bodies, nodes, callee), keep)
  {
    if nodes != [] {
      var n := nodes[|nodes| - 1];
      var before := nodes[..|nodes| - 1];
      var last := if n.id in bodies then CallsTo(bodies[n.id].calls, n, callee) else [];
      KeptCallers(bodies, before, callee, keep);
      KeptJoin(CallersIn(bodies, before, callee), last, keep);
      if n.id in bodies { KeptCalls(bodies[n.id].calls, n, callee, keep); }
      if keep(n.id) {
        assert KeptNodes(nodes, keep)[..|KeptNodes(before, keep)|] == KeptNodes(before, keep);
      } else {
        assert KeptNodes(nodes, keep) == KeptNodes(before, keep);
      }
    }
  }

  lemma {:induction false} CallersJoin(bodies: map<Id, Walk>, a: seq<Node>, b: seq<Node>, callee: Id)
    ensures CallersIn(bodies, a + b, callee) == CallersIn(bodies, a, callee) + CallersIn(bodies, b, callee)
  {
    if b == [] {
      assert a + b == a;
    } else {
      assert (a + b)[..|a + b| - 1] == a + b[..|b| - 1];
      CallersJoin(bodies, a, b[..|b| - 1], callee);
    }
  }

  lemma {:induction false} KeptAndRest(nodes: seq<Node>, keep: Id -> bool)
    ensures multiset(KeptNodes(nodes, keep) + KeptNodes(nodes, Rest(keep))) == multiset(nodes)
  {
    if nodes != [] {
      KeptAndRest(nodes[..|nodes| - 1], keep);
      assert nodes == nodes[..|nodes| - 1] + [nodes[|nodes| - 1]];
    }
  }

  /** Cutting a graph to the ids `keep` admits, a closure with the body it is in, and extending the cut
      over the rest is building it: the same walks, parents, children, awaits, initializers and const
      regions, in the same order.  A function's callers are those of the build, the kept ones first. */
  lemma CutRejoins(p: Program, keep: Id -> bool)
    requires WellFormed(p) && KeepsWithParent(p, keep)
    ensures InOrder(Rejoined(p, keep), p) == Whole(p)
    ensures forall callee ::
              var x, built := Rejoined(p, keep), CallersIn(Whole(p).bodies, Whole(p).nodes, callee);
              && CallersIn(x.bodies, x.nodes, callee) == KeptNodes(built, keep) + KeptNodes(built, Rest(keep))
              && multiset(CallersIn(x.bodies, x.nodes, callee)) == multiset(built)
  {
    BodiesRejoin(p, keep);
    ParentsRejoin(p, keep);
    InitializersRejoin(p, keep);
    ConstantsRejoin(p, keep);
    RegionsRejoin(p, keep);
    NodesRelaid(p);
    RegionsInBuildOrder(p);
    WholeFields(p);
    var b, x := Whole(p), Rejoined(p, keep);
    forall callee
      ensures var built := CallersIn(b.bodies, b.nodes, callee);
              && CallersIn(x.bodies, x.nodes, callee) == KeptNodes(built, keep) + KeptNodes(built, Rest(keep))
              && multiset(CallersIn(x.bodies, x.nodes, callee)) == multiset(built)
    {
      CallersJoin(b.bodies, KeptNodes(b.nodes, keep), KeptNodes(b.nodes, Rest(keep)), callee);
      KeptCallers(b.bodies, b.nodes, callee, keep);
      KeptCallers(b.bodies, b.nodes, callee, Rest(keep));
      KeptAndRest(CallersIn(b.bodies, b.nodes, callee), keep);
    }
  }

  /** The callers' order is the build's exactly when it already has the kept ones first. */
  ghost predicate KeptFirst(nodes: seq<Node>, keep: Id -> bool) {
    forall i, j :: 0 <= i < j < |nodes| && keep(nodes[j].id) ==> keep(nodes[i].id)
  }

  lemma {:induction false} KeptFirstStands(nodes: seq<Node>, keep: Id -> bool)
    ensures nodes == KeptNodes(nodes, keep) + KeptNodes(nodes, Rest(keep)) <==> KeptFirst(nodes, keep)
  {
    AllKept(nodes, keep);
    AllKept(nodes, Rest(keep));
    if KeptFirst(nodes, keep) { KeptLead(nodes, keep); }
  }

  lemma {:induction false} AllKept(nodes: seq<Node>, keep: Id -> bool)
    ensures forall n :: n in KeptNodes(nodes, keep) ==> keep(n.id)
  {
    if nodes != [] { AllKept(nodes[..|nodes| - 1], keep); }
  }

  lemma {:induction false} KeptLead(nodes: seq<Node>, keep: Id -> bool)
    requires KeptFirst(nodes, keep)
    ensures nodes == KeptNodes(nodes, keep) + KeptNodes(nodes, Rest(keep))
    ensures nodes != [] && keep(nodes[|nodes| - 1].id) ==> KeptNodes(nodes, Rest(keep)) == []
  {
    if nodes != [] {
      var n := |nodes| - 1;
      KeptLead(nodes[..n], keep);
      assert nodes == nodes[..n] + [nodes[n]];
      if keep(nodes[n].id) && n > 0 { assert keep(nodes[..n][n - 1].id); }
    }
  }
}

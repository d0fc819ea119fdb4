/** Replaying a recorded call graph: the graph of one program, cut to the kept ids, renumbered and
    extended over the rest of a later one, is the later one's
    (crates/vilan-core/src/call_graph.rs, crates/vilan-core/src/context.rs). */
module CallGraphReplay {
  import opened CallGraphs
  import opened CallGraphCut

  // ----- renumbering -----

  function Shifted(id: Id, from: Id, to: Id): Id {
    if id >= from then id - from + to else id
  }

  function ShiftedCalls(calls: seq<Call>, from: Id, to: Id): (r: seq<Call>)
    ensures |r| == |calls| && forall i :: 0 <= i < |calls| ==> r[i].target == calls[i].target
  {
    seq(|calls|, i requires 0 <= i < |calls| => calls[i].(callId := Shifted(calls[i].callId, from, to)))
  }

  function ShiftedWalk(w: Walk, from: Id, to: Id): Walk {
    w.(calls := ShiftedCalls(w.calls, from, to))
  }

  function ShiftedWalks(m: map<Id, Walk>, from: Id, to: Id): map<Id, Walk> {
    map id | id in m :: ShiftedWalk(m[id], from, to)
  }

  /** The call ids at or past `from`, which a rewrite minted, moved onto the base `to`. */
  function Remapped(g: Graph, from: Id, to: Id): Graph {
    g.(bodies := ShiftedWalks(g.bodies, from, to),
       initializers := ShiftedWalks(g.initializers, from, to),
       constants := ShiftedWalks(g.constants, from, to))
  }

  /** `now` is `was` with the calls below the base as they were, and the others as far past the new base
      as they were past the old. */
  ghost predicate Moved(was: Call, now: Call, from: Id, to: Id) {
    && now.target == was.target
    && (was.callId < from ==> now.callId == was.callId)
    && (was.callId >= from ==> now.callId >= to && now.callId - to == was.callId - from)
  }

  ghost predicate MovedWalk(was: Walk, now: Walk, from: Id, to: Id) {
    && now.nested == was.nested && now.globals == was.globals
    && now.functions == was.functions && now.awaits == was.awaits
    && |now.calls| == |was.calls| && forall i :: 0 <= i < |was.calls| ==> Moved(was.calls[i], now.calls[i], from, to)
  }

  ghost predicate MovedWalks(was: map<Id, Walk>, now: map<Id, Walk>, from: Id, to: Id) {
    now.Keys == was.Keys && forall id :: id in was ==> MovedWalk(was[id], now[id], from, to)
  }

  /** Every call of every list is where it was, under its moved id. */
  lemma RemapMoves(g: Graph, from: Id, to: Id)
    ensures var r := Remapped(g, from, to);
            && r == g.(bodies := r.bodies, initializers := r.initializers, constants := r.constants)
            && MovedWalks(g.bodies, r.bodies, from, to) && MovedWalks(g.initializers, r.initializers, from, to)
            && MovedWalks(g.constants, r.constants, from, to)
  {
  }

  /** No call has an id in the range. */
  ghost predicate NoneIn(m: map<Id, Walk>, from: Id, to: Id) {
    forall id, i :: id in m && 0 <= i < |m[id].calls| ==> !(from <= m[id].calls[i].callId < to)
  }

  lemma WalkBack(w: Walk, from: Id, to: Id)
    ensures ShiftedWalk(ShiftedWalk(w, from, to), to, from) == w
       <==> forall i :: 0 <= i < |w.calls| ==> !(to <= w.calls[i].callId < from)
  {
    var back := ShiftedWalk(ShiftedWalk(w, from, to), to, from);
    forall i | 0 <= i < |w.calls| ensures back.calls[i] == w.calls[i] <==> !(to <= w.calls[i].callId < from) {
    }
    if forall i :: 0 <= i < |w.calls| ==> !(to <= w.calls[i].callId < from) {
      assert back.calls == w.calls;
    }
  }

  lemma WalksBack(m: map<Id, Walk>, from: Id, to: Id)
    ensures ShiftedWalks(ShiftedWalks(m, from, to), to, from) == m <==> NoneIn(m, to, from)
  {
    var back := ShiftedWalks(ShiftedWalks(m, from, to), to, from);
    forall id | id in m
      ensures back[id] == m[id] <==> forall i :: 0 <= i < |m[id].calls| ==> !(to <= m[id].calls[i].callId < from)
    {
      WalkBack(m[id], from, to);
    }
    if NoneIn(m, to, from) {
      assert back == m;
    } else {
      var id, i :| id in m && 0 <= i < |m[id].calls| && to <= m[id].calls[i].callId < from;
      assert back[id] != m[id];
    }
  }

  /** Renumbering back gives every id again exactly when none lies from the new base to the old one: what
      `names_entities_in` rules out of a graph before it is recorded. */
  lemma RemapBack(g: Graph, from: Id, to: Id)
    ensures Remapped(Remapped(g, from, to), to, from) == g
       <==> NoneIn(g.bodies, to, from) && NoneIn(g.initializers, to, from) && NoneIn(g.constants, to, from)
  {
    WalksBack(g.bodies, from, to);
    WalksBack(g.initializers, from, to);
    WalksBack(g.constants, from, to);
  }

  /** A base that stands moves nothing: the source returns early. */
  lemma SameBase(g: Graph, base: Id)
    ensures Remapped(g, base, base) == g
  {
    SameBaseWalks(g.bodies, base);
    SameBaseWalks(g.initializers, base);
    SameBaseWalks(g.constants, base);
  }

  lemma SameBaseWalks(m: map<Id, Walk>, base: Id)
    ensures ShiftedWalks(m, base, base) == m
  {
    forall id | id in m ensures ShiftedWalk(m[id], base, base) == m[id] {
      assert ShiftedCalls(m[id].calls, base, base) == m[id].calls;
    }
  }

  // ----- two programs with the same kept part -----

  ghost predicate SameWalk(p: Program, q: Program, id: Id, from: Id, to: Id) {
    WalkOf(q, id) == ShiftedWalk(WalkOf(p, id), from, to)
  }

  ghost predicate SameInitializer(p: Program, q: Program, b: Id, from: Id, to: Id) {
    && (b in p.initial <==> b in q.initial)
    && (b in p.initial ==>
          && p.initial[b] == q.initial[b] && (p.initial[b] in p.constExprs <==> p.initial[b] in q.constExprs)
          && SameWalk(p, q, p.initial[b], from, to))
  }

  /** What `keep` admits is in both programs, in the same order, and is walked alike but for the ids past
      `from`, which the later one numbers from `to`. */
  ghost predicate SameKept(p: Program, q: Program, keep: Id -> bool, from: Id, to: Id) {
    && KeptIds(p.functions, keep) == KeptIds(q.functions, keep)
    && KeptIds(p.closures, keep) == KeptIds(q.closures, keep)
    && KeptIds(p.bindings, keep) == KeptIds(q.bindings, keep)
    && KeptIds(p.constExprs, keep) == KeptIds(q.constExprs, keep)
    && (forall f :: f in p.functions && keep(f) ==> (f in p.withBody <==> f in q.withBody))
    && (forall id :: keep(id) && (id in p.functions || id in p.closures || id in p.constExprs)
          ==> SameWalk(p, q, id, from, to))
    && (forall b :: b in p.bindings && keep(b) ==> SameInitializer(p, q, b, from, to))
    && (forall r :: r in p.constExprs && keep(r) ==> (ConstInitializer(p, r) <==> ConstInitializer(q, r)))
  }

  // ----- the nodes -----

  lemma FunctionNodesPut(p: Program, ids: seq<Id>, id: Id, admit: Id -> bool)
    ensures FunctionNodes(p, ids + [id], admit)
         == FunctionNodes(p, ids, admit) + if id in p.withBody && admit(id) then [FunctionNode(id)] else []
  {
    assert (ids + [id])[..|ids|] == ids;
  }

  lemma ClosureNodesPut(ids: seq<Id>, id: Id, admit: Id -> bool)
    ensures ClosureNodes(ids + [id], admit) == ClosureNodes(ids, admit) + if admit(id) then [ClosureNode(id)] else []
  {
    assert (ids + [id])[..|ids|] == ids;
  }

  lemma {:induction false} FunctionNodesOfKept(p: Program, ids: seq<Id>, keep: Id -> bool)
    ensures FunctionNodes(p, KeptIds(ids, keep), keep) == FunctionNodes(p, ids, keep)
  {
    if ids != [] {
      var before, id := ids[..|ids| - 1], ids[|ids| - 1];
      FunctionNodesOfKept(p, before, keep);
      if keep(id) {
        FunctionNodesPut(p, KeptIds(before, keep), id, keep);
      } else {
        assert KeptIds(ids, keep) == KeptIds(before, keep);
      }
    }
  }

  lemma {:induction false} ClosureNodesOfKept(ids: seq<Id>, keep: Id -> bool)
    ensures ClosureNodes(KeptIds(ids, keep), keep) == ClosureNodes(ids, keep)
  {
    if ids != [] {
      var before, id := ids[..|ids| - 1], ids[|ids| - 1];
      ClosureNodesOfKept(before, keep);
      if keep(id) {
        ClosureNodesPut(KeptIds(before, keep), id, keep);
      } else {
        assert KeptIds(ids, keep) == KeptIds(before, keep);
      }
    }
  }

  lemma {:induction false} SameBodies(p: Program, q: Program, ids: seq<Id>, keep: Id -> bool)
    requires forall f :: f in ids && keep(f) ==> (f in p.withBody <==> f in q.withBody)
    ensures FunctionNodes(p, ids, keep) == FunctionNodes(q, ids, keep)
  {
    if ids != [] {
      assert ids == ids[..|ids| - 1] + [ids[|ids| - 1]];
      SameBodies(p, q, ids[..|ids| - 1], keep);
    }
  }

  lemma SameNodes(p: Program, q: Program, keep: Id -> bool, from: Id, to: Id)
    requires SameKept(p, q, keep, from, to)
    ensures NodesOf(p, keep) == NodesOf(q, keep)
  {
    KeptAre(p.functions, keep);
    FunctionNodesOfKept(p, p.functions, keep);
    FunctionNodesOfKept(q, q.functions, keep);
    SameBodies(p, q, KeptIds(p.functions, keep), keep);
    ClosureNodesOfKept(p.closures, keep);
    ClosureNodesOfKept(q.closures, keep);
  }

  lemma SameNodeWalk(p: Program, q: Program, keep: Id -> bool, from: Id, to: Id, n: Node)
    requires SameKept(p, q, keep, from, to) && WellFormed(p) && n in NodesOf(p, keep)
    ensures SameWalk(p, q, n.id, from, to)
  {
    FunctionNodesAre(p, p.functions, keep);
    ClosureNodesAre(p.closures, keep);
  }

  // ----- the cut, field by field -----

  lemma CutBodies(p: Program, keep: Id -> bool)
    requires WellFormed(p)
    ensures var c, ids := Cut(Whole(p), keep), Ids(NodesOf(p, keep));
            && c.bodies == BodiesOf(p, ids) && c.children == NestedOf(p, ids) && c.awaits == AwaitingOf(p, ids)
            && c.nodes == NodesOf(p, keep) && c.callers == map[]
  {
    WholeFields(p);
    RestIds(p, keep);
    RestBodies(p, Ids(NodesOf(p, Everything())), Ids(NodesOf(p, keep)), keep);
    KeptNodesOf(p, keep);
  }

  lemma CutBindings(p: Program, keep: Id -> bool)
    requires WellFormed(p)
    ensures var c := Cut(Whole(p), keep);
            && c.initializers == InitializersOf(p, p.bindings, keep)
            && c.constants == ConstantsOf(p, p.bindings, keep) + BodiesOf(p, OwnRegions(p, p.constExprs, keep))
  {
    WholeRegionFields(p);
    RestBindings(p, keep);
    var own := OwnRegions(p, p.constExprs, Everything());
    RestBodies(p, own, OwnRegions(p, p.constExprs, keep), keep);
    KeptSum(ConstantsOf(p, p.bindings, Everything()), BodiesOf(p, own), keep);
  }

  lemma CutParent(p: Program, keep: Id -> bool, c: Id)
    requires WellFormed(p) && KeepsWithParent(p, keep)
    ensures var cut, definer := Cut(Whole(p), keep).parent, Definer(p, NodesOf(p, keep), c);
            && (c in cut <==> definer != []) && (c in cut ==> cut[c] == definer[0])
  {
    WholeFields(p);
    KeptNodesOf(p, keep);
    ParentsAdded(EMPTY, p, NodesOf(p, Everything()), c);
    DefinerOfKept(p, NodesOf(p, Everything()), keep, c);
  }

  lemma {:induction false} SameDefiner(p: Program, q: Program, nodes: seq<Node>, c: Id)
    requires forall n :: n in nodes ==> WalkOf(p, n.id).nested == WalkOf(q, n.id).nested
    ensures Definer(p, nodes, c) == Definer(q, nodes, c)
  {
    if nodes != [] {
      assert nodes == nodes[..|nodes| - 1] + [nodes[|nodes| - 1]];
      SameDefiner(p, q, nodes[..|nodes| - 1], c);
    }
  }

  // ----- the regions -----

  lemma BindingsInPut(ids: seq<Id>, id: Id, regions: set<Id>)
    ensures BindingsIn(ids + [id], regions) == BindingsIn(ids, regions) + if id in regions then [id] else []
  {
    assert (ids + [id])[..|ids|] == ids;
  }

  lemma RegionsInPut(ids: seq<Id>, id: Id, regions: set<Id>, before: seq<Id>)
    ensures var so := RegionsIn(ids, regions, before);
            RegionsIn(ids + [id], regions, before) == if id in regions && id !in so then so + [id] else so
  {
    assert (ids + [id])[..|ids|] == ids;
  }

  lemma OneKept(id: Id, keep: Id -> bool)
    ensures KeptIds([id], keep) == if keep(id) then [id] else []
  {
    assert [id][..0] == [];
  }

  lemma {:induction false} KeptBindingsIn(ids: seq<Id>, regions: set<Id>, keep: Id -> bool)
    ensures KeptIds(BindingsIn(ids, regions), keep) == BindingsIn(KeptIds(ids, keep), regions)
  {
    if ids != [] {
      var before, id := ids[..|ids| - 1], ids[|ids| - 1];
      KeptBindingsIn(before, regions, keep);
      if id in regions {
        KeptIdsJoin(BindingsIn(before, regions), [id], keep);
        OneKept(id, keep);
      } else {
        assert BindingsIn(ids, regions) == BindingsIn(before, regions);
      }
      if keep(id) {
        BindingsInPut(KeptIds(before, keep), id, regions);
      } else {
        assert KeptIds(ids, keep) == KeptIds(before, keep);
      }
    }
  }

  lemma {:induction false} KeptIdsJoin(a: seq<Id>, b: seq<Id>, keep: Id -> bool)
    ensures KeptIds(a + b, keep) == KeptIds(a, keep) + KeptIds(b, keep)
  {
    if b == [] {
      assert a + b == a;
    } else {
      assert (a + b)[..|a + b| - 1] == a + b[..|b| - 1];
      KeptIdsJoin(a, b[..|b| - 1], keep);
    }
  }

  lemma {:induction false} KeptRegionsIn(ids: seq<Id>, regions: set<Id>, before: seq<Id>, keep: Id -> bool)
    ensures KeptIds(RegionsIn(ids, regions, before), keep)
              == RegionsIn(KeptIds(ids, keep), regions, KeptIds(before, keep))
  {
    if ids != [] {
      var those, id := ids[..|ids| - 1], ids[|ids| - 1];
      var so := RegionsIn(those, regions, before);
      KeptRegionsIn(those, regions, before, keep);
      KeptAre(so, keep);
      if id in regions && id !in so {
        KeptIdsJoin(so, [id], keep);
        OneKept(id, keep);
      }
      if keep(id) {
        RegionsInPut(KeptIds(those, keep), id, regions, KeptIds(before, keep));
      } else {
        assert KeptIds(ids, keep) == KeptIds(those, keep);
      }
    }
  }

  lemma {:induction false} SameBindingsIn(ids: seq<Id>, a: set<Id>, b: set<Id>)
    requires forall id :: id in ids ==> (id in a <==> id in b)
    ensures BindingsIn(ids, a) == BindingsIn(ids, b)
  {
    if ids != [] {
      assert ids == ids[..|ids| - 1] + [ids[|ids| - 1]];
      SameBindingsIn(ids[..|ids| - 1], a, b);
    }
  }

  lemma {:induction false} SameRegionsIn(ids: seq<Id>, a: set<Id>, b: set<Id>, before: seq<Id>)
    requires forall id :: id in ids ==> (id in a <==> id in b)
    ensures RegionsIn(ids, a, before) == RegionsIn(ids, b, before)
  {
    if ids != [] {
      assert ids == ids[..|ids| - 1] + [ids[|ids| - 1]];
      SameRegionsIn(ids[..|ids| - 1], a, b, before);
    }
  }

  lemma CutRegions(p: Program, keep: Id -> bool)
    requires WellFormed(p)
    ensures var regions := Members(Whole(p).regions);
            Cut(Whole(p), keep).regions ==
            RegionsIn(KeptIds(p.constExprs, keep), regions, BindingsIn(KeptIds(p.bindings, keep), regions))
  {
    var regions := Members(Whole(p).regions);
    RegionsInBuildOrder(p);
    KeptRegionsIn(p.constExprs, regions, BindingsIn(p.bindings, regions), keep);
    KeptBindingsIn(p.bindings, regions, keep);
  }

  /** Which bindings and const expressions have a region. */
  lemma InRegions(p: Program, id: Id)
    requires WellFormed(p)
    ensures id in p.bindings ==> (id in Members(Whole(p).regions) <==> id in p.initial && p.initial[id] in p.constExprs)
    ensures id in p.constExprs ==> (id in Members(Whole(p).regions) <==> !ConstInitializer(p, id))
  {
    WholeRegionFields(p);
  }

  lemma SameRegions(p: Program, q: Program, keep: Id -> bool, from: Id, to: Id)
    requires WellFormed(p) && WellFormed(q) && SameKept(p, q, keep, from, to)
    ensures Cut(Whole(p), keep).regions == Cut(Whole(q), keep).regions
  {
    var a, b := Members(Whole(p).regions), Members(Whole(q).regions);
    CutRegions(p, keep);
    CutRegions(q, keep);
    KeptAre(p.bindings, keep);
    KeptAre(q.bindings, keep);
    KeptAre(p.constExprs, keep);
    KeptAre(q.constExprs, keep);
    forall id | id in KeptIds(p.bindings, keep) + KeptIds(p.constExprs, keep) ensures id in a <==> id in b {
      InRegions(p, id);
      InRegions(q, id);
      if id in p.bindings && keep(id) { assert SameInitializer(p, q, id, from, to); }
    }
    SameBindingsIn(KeptIds(p.bindings, keep), a, b);
    SameRegionsIn(KeptIds(p.constExprs, keep), a, b, BindingsIn(KeptIds(p.bindings, keep), a));
  }

  // ----- the cuts agree -----

  lemma SameIds(p: Program, q: Program, keep: Id -> bool, from: Id, to: Id, ids: set<Id>)
    requires WellFormed(p) && SameKept(p, q, keep, from, to) && ids == Ids(NodesOf(p, keep))
    ensures forall id :: id in ids ==> SameWalk(p, q, id, from, to)
  {
    forall id | id in ids ensures SameWalk(p, q, id, from, to) {
      var n :| n in NodesOf(p, keep) && n.id == id;
      SameNodeWalk(p, q, keep, from, to, n);
    }
  }

  lemma SameFieldsOf(p: Program, q: Program, from: Id, to: Id, ids: set<Id>)
    requires forall id :: id in ids ==> SameWalk(p, q, id, from, to)
    ensures ShiftedWalks(BodiesOf(p, ids), from, to) == BodiesOf(q, ids)
    ensures NestedOf(p, ids) == NestedOf(q, ids) && AwaitingOf(p, ids) == AwaitingOf(q, ids)
  {
  }

  lemma SameBodyFields(p: Program, q: Program, keep: Id -> bool, from: Id, to: Id)
    requires WellFormed(p) && WellFormed(q) && SameKept(p, q, keep, from, to)
    ensures var a, b := Cut(Whole(p), keep), Cut(Whole(q), keep);
            && ShiftedWalks(a.bodies, from, to) == b.bodies && a.children == b.children && a.awaits == b.awaits
            && a.nodes == b.nodes && a.callers == b.callers
  {
    CutBodies(p, keep);
    CutBodies(q, keep);
    SameNodes(p, q, keep, from, to);
    SameIds(p, q, keep, from, to, Ids(NodesOf(p, keep)));
    SameFieldsOf(p, q, from, to, Ids(NodesOf(p, keep)));
  }

  lemma SameParents(p: Program, q: Program, keep: Id -> bool, from: Id, to: Id)
    requires WellFormed(p) && WellFormed(q) && SameKept(p, q, keep, from, to)
    requires KeepsWithParent(p, keep) && KeepsWithParent(q, keep)
    ensures Cut(Whole(p), keep).parent == Cut(Whole(q), keep).parent
  {
    var a, b := Cut(Whole(p), keep).parent, Cut(Whole(q), keep).parent;
    SameNodes(p, q, keep, from, to);
    forall n | n in NodesOf(p, keep) ensures WalkOf(p, n.id).nested == WalkOf(q, n.id).nested {
      SameNodeWalk(p, q, keep, from, to, n);
    }
    forall c ensures (c in a <==> c in b) && (c in b ==> a[c] == b[c]) {
      CutParent(p, keep, c);
      CutParent(q, keep, c);
      SameDefiner(p, q, NodesOf(p, keep), c);
    }
    SameMap(a, b);
  }

  lemma SameBindings(p: Program, q: Program, keep: Id -> bool, from: Id, to: Id, b: Id)
    requires SameKept(p, q, keep, from, to) && keep(b)
    ensures b in p.bindings <==> b in q.bindings
    ensures b in p.bindings ==> SameInitializer(p, q, b, from, to)
  {
    KeptAre(p.bindings, keep);
    KeptAre(q.bindings, keep);
    assert b in KeptIds(p.bindings, keep) <==> b in KeptIds(q.bindings, keep);
  }

  ghost predicate SameBindingAt(p: Program, q: Program, from: Id, to: Id, b: Id) {
    (b in p.bindings <==> b in q.bindings) && (b in p.bindings ==> SameInitializer(p, q, b, from, to))
  }

  lemma SameInitializersOf(p: Program, q: Program, keep: Id -> bool, from: Id, to: Id)
    requires forall b :: keep(b) ==> SameBindingAt(p, q, from, to, b)
    ensures ShiftedWalks(InitializersOf(p, p.bindings, keep), from, to) == InitializersOf(q, q.bindings, keep)
  {
  }

  lemma SameConstantsOf(p: Program, q: Program, keep: Id -> bool, from: Id, to: Id)
    requires forall b :: keep(b) ==> SameBindingAt(p, q, from, to, b)
    ensures ShiftedWalks(ConstantsOf(p, p.bindings, keep), from, to) == ConstantsOf(q, q.bindings, keep)
  {
  }

  lemma SameInitializers(p: Program, q: Program, keep: Id -> bool, from: Id, to: Id)
    requires SameKept(p, q, keep, from, to)
    ensures ShiftedWalks(InitializersOf(p, p.bindings, keep), from, to) == InitializersOf(q, q.bindings, keep)
    ensures ShiftedWalks(ConstantsOf(p, p.bindings, keep), from, to) == ConstantsOf(q, q.bindings, keep)
  {
    forall b | keep(b) ensures SameBindingAt(p, q, from, to, b) {
      SameBindings(p, q, keep, from, to, b);
    }
    SameInitializersOf(p, q, keep, from, to);
    SameConstantsOf(p, q, keep, from, to);
  }

  lemma SameOwnRegions(p: Program, q: Program, keep: Id -> bool, from: Id, to: Id)
    requires SameKept(p, q, keep, from, to)
    ensures OwnRegions(p, p.constExprs, keep) == OwnRegions(q, q.constExprs, keep)
    ensures ShiftedWalks(BodiesOf(p, OwnRegions(p, p.constExprs, keep)), from, to)
              == BodiesOf(q, OwnRegions(q, q.constExprs, keep))
  {
    KeptAre(p.constExprs, keep);
    KeptAre(q.constExprs, keep);
    forall r ensures r in p.constExprs && keep(r) <==> r in q.constExprs && keep(r) {
      assert r in KeptIds(p.constExprs, keep) <==> r in KeptIds(q.constExprs, keep);
    }
    assert OwnRegions(p, p.constExprs, keep) == OwnRegions(q, q.constExprs, keep);
  }

  lemma ShiftedSum(a: map<Id, Walk>, b: map<Id, Walk>, from: Id, to: Id)
    ensures ShiftedWalks(a + b, from, to) == ShiftedWalks(a, from, to) + ShiftedWalks(b, from, to)
  {
  }

  lemma SameBindingFields(p: Program, q: Program, keep: Id -> bool, from: Id, to: Id)
    requires WellFormed(p) && WellFormed(q) && SameKept(p, q, keep, from, to)
    ensures var a, b := Cut(Whole(p), keep), Cut(Whole(q), keep);
            ShiftedWalks(a.initializers, from, to) == b.initializers
            && ShiftedWalks(a.constants, from, to) == b.constants
  {
    CutBindings(p, keep);
    CutBindings(q, keep);
    SameInitializers(p, q, keep, from, to);
    SameOwnRegions(p, q, keep, from, to);
    ShiftedSum(ConstantsOf(p, p.bindings, keep), BodiesOf(p, OwnRegions(p, p.constExprs, keep)), from, to);
  }

  /** The recorded cut, renumbered, is the cut of the later program's own graph. */
  lemma CutsAgree(p: Program, q: Program, keep: Id -> bool, from: Id, to: Id)
    requires WellFormed(p) && WellFormed(q) && SameKept(p, q, keep, from, to)
    requires KeepsWithParent(p, keep) && KeepsWithParent(q, keep)
    ensures Remapped(Cut(Whole(p), keep), from, to) == Cut(Whole(q), keep)
  {
    SameBodyFields(p, q, keep, from, to);
    SameParents(p, q, keep, from, to);
    SameBindingFields(p, q, keep, from, to);
    SameRegions(p, q, keep, from, to);
  }

  /** The graph of `p` cut to the ids `keep` admits, a closure with the body it is in, renumbered, and
      extended over the rest of a later `q` whose kept part is the same, is the graph of `q`: the same
      walks, parents, children, awaits, initializers and const regions, in the same order.  A function's
      callers are those of the build, the kept ones first. */
  lemma CutThenExtended(p: Program, q: Program, keep: Id -> bool, from: Id, to: Id)
    requires WellFormed(p) && WellFormed(q) && SameKept(p, q, keep, from, to)
    requires KeepsWithParent(p, keep) && KeepsWithParent(q, keep)
    ensures InOrder(WithAll(Remapped(Cut(Whole(p), keep), from, to), q, Rest(keep)), q) == Whole(q)
    ensures forall callee ::
              var x := WithAll(Remapped(Cut(Whole(p), keep), from, to), q, Rest(keep));
              var built := CallersIn(Whole(q).bodies, Whole(q).nodes, callee);
              && CallersIn(x.bodies, x.nodes, callee) == KeptNodes(built, keep) + KeptNodes(built, Rest(keep))
              && multiset(CallersIn(x.bodies, x.nodes, callee)) == multiset(built)
  {
    CutsAgree(p, q, keep, from, to);
    CutRejoins(q, keep);
  }
}

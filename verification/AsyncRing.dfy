/** A program whose round of the instance worklist need not end, taken off the top of the stack as the
    source takes it: the remark that flags only move from false to true
    (crates/vilan-core/src/async_infer.rs:1798-1799) does not hold, and rests the termination on it.

        fun f(p1: || i32, p2: || i32) -> i32 { p1() }
        fun g_j(q: || i32) -> i32 {            // j = 0, 1, 2, indices modulo 3
          let c = || g_{j+1}(q);
          let e = || g_{j+2}(q);
          let d = || f(q, c);
          d()
        }
        let a = f(work, work);                 // an initializer: names (f, {p1, p2})
        let b = g_0(work);                     // and (g_0, {q})

    While (f, {p1, p2}) waits below them, each (g_j, {q}) is the negation of the next: with `c` async
    the bits of the call of `f` grow to the waiting instance. */
module AsyncRing {
  import opened Basics
  import opened AsyncProgram
  import opened AsyncFixpoint
  import opened AsyncEvaluate
  import opened AsyncRound
  import opened AsyncRingRun
  import Iterates

  function Next(j: nat): nat {
    (j + 1) % 3
  }

  const F: Id := 1
  const P1: Id := 2
  const P2: Id := 3
  const WORK: Id := 6
  const INIT: Id := 8

  function G(j: nat): Id { 10 + j }
  function Q(j: nat): Id { 20 + j }
  function C(j: nat): Id { 30 + j }
  function E(j: nat): Id { 40 + j }
  function D(j: nat): Id { 50 + j }

  function ExprAt(x: Id): Expr {
    if x == 4 then Local(P1)
    else if x == 7 then Closure(WORK)
    else if 80 <= x < 83 then Local(Q(x - 80))       // the argument `q`
    else if 90 <= x < 93 then Closure(C(x - 90))     // what `c` holds
    else if 100 <= x < 103 then Local(60 + x - 100)  // the argument `c`
    else if 110 <= x < 113 then Closure(D(x - 110))  // what `d` holds
    else if 120 <= x < 123 then Local(70 + x - 120)  // the subject `d`
    else Other
  }

  function CallAt(x: Id): FunctionCall {
    if x == 5 then FunctionCall(4, [])
    else if x == 9 then FunctionCall(0, [7, 7])
    else if x == 170 then FunctionCall(0, [7])
    else if 130 <= x < 133 then FunctionCall(120 + x - 130, [])
    else if 140 <= x < 143 then FunctionCall(0, [80 + x - 140])
    else if 150 <= x < 153 then FunctionCall(0, [80 + x - 150])
    else if 160 <= x < 163 then FunctionCall(0, [80 + x - 160, 100 + x - 160])
    else FunctionCall(0, [])
  }

  function CallsAt(x: Id): seq<CallSite> {
    if x == F then [CallSite(5, Indirect(Value))]
    else if 10 <= x < 13 then [CallSite(130 + x - 10, Indirect(Value))]
    else if 30 <= x < 33 then [CallSite(140 + x - 30, Function(G(Next(x - 30))))]
    else if 40 <= x < 43 then [CallSite(150 + x - 40, Function(G(Next(Next(x - 40)))))]
    else if 50 <= x < 53 then [CallSite(160 + x - 50, Function(F))]
    else []
  }

  function ParametersAt(x: Id): seq<Id> {
    if x == F then [P1, P2] else if 10 <= x < 13 then [Q(x - 10)] else []
  }

  function HeldAt(x: Id): seq<Id> {
    if 60 <= x < 63 then [90 + x - 60] else if 70 <= x < 73 then [110 + x - 70] else []
  }

  function ChildrenAt(x: Id): seq<Id> {
    if 10 <= x < 13 then [C(x - 10), E(x - 10), D(x - 10)] else []
  }

  const NODES := [F, WORK, G(0), C(0), E(0), D(0), G(1), C(1), E(1), D(1), G(2), C(2), E(2), D(2)]

  const RING := Program(
    map x: nat | x < 200 && (x == F || 10 <= x < 13) :: ParametersAt(x),
    {}, {}, {P1, P2, Q(0), Q(1), Q(2)}, {}, {},
    map x: nat | x < 200 :: ExprAt(x),
    map x: nat | x < 200 :: CallAt(x),
    map x: nat | x < 200 && 60 <= x < 80 :: HeldAt(x),
    map[], map[], map[], map[],
    NODES,
    map x: nat | x < 200 :: CallsAt(x),
    map x: nat | x < 200 :: ChildrenAt(x),
    map[INIT := [CallSite(9, Function(F)), CallSite(170, Function(G(0)))]],
    {})

  const W := World(RING, false, None)

  function K(j: nat): Key { Key(G(j), {Q(j)}) }
  const F1 := Key(F, {P1})
  const F12 := Key(F, {P1, P2})

  function RingFrame(j: nat, trues: set<Key>): Frame {
    Frame(RING, false, {WORK}, {Q(j)}, trues)
  }

  lemma RingAdaptive(j: nat)
    requires j < 3
    ensures Adaptive(RING, G(j)) == {Q(j)} && Adaptive(RING, F) == {P1, P2}
  {
    assert RING.functions[G(j)] == [Q(j)] && RING.functions[F] == [P1, P2];
  }

  // ----- the four calls of an instance of g_j -----

  lemma RootHolds(j: nat)
    requires j < 3
    ensures 130 + j in RING.functionCalls && RING.functionCalls[130 + j].subject == 120 + j
    ensures 120 + j in RING.entities && RING.entities[120 + j] == Local(70 + j) && 70 + j !in RING.asyncValues
    ensures 70 + j in RING.held && RING.held[70 + j] == [110 + j]
    ensures 110 + j in RING.entities && RING.entities[110 + j] == Closure(D(j))
  {
  }

  lemma RootCall(j: nat, flags: set<Id>, trues: set<Key>)
    requires j < 3
    ensures CallsOf(RING, G(j)) == [CallSite(130 + j, Indirect(Value))]
    ensures Awaits(RingFrame(j, trues), flags, CallSite(130 + j, Indirect(Value))) <==> D(j) in flags
    ensures MetBy(RingFrame(j, trues), flags, CallSite(130 + j, Indirect(Value))) == []
  {
    var c := CallSite(130 + j, Indirect(Value));
    RootHolds(j);
    assert HoldsFlagged(RING, flags, 110 + j) <==> D(j) in flags;
    assert !HeldAwaits(RING, false, {WORK}, 110 + j, 0);
    assert SubjectAdaptedHere(RING, flags, {Q(j)}, 130 + j) <==> D(j) in flags;
    assert !SubjectAwaits(RING, false, {WORK}, 120 + j);
  }

  lemma PassesQ(j: nat, k: nat, callId: Id, flags: set<Id>)
    requires j < 3 && k < 3 && callId < 200
    requires CallAt(callId) == FunctionCall(0, [80 + j])
    ensures BitsForCall(RING, false, {WORK}, flags, {Q(j)}, G(k), callId) == {Q(k)}
  {
    RingAdaptive(k);
    assert RING.functionCalls[callId] == CallAt(callId) && RING.functions[G(k)] == [Q(k)];
    assert RING.entities[80 + j] == Local(Q(j));
    assert Adapts(RING, false, {WORK}, flags, {Q(j)}, G(k), callId, 0);
  }

  lemma NextCall(j: nat, k: nat, callId: Id, flags: set<Id>, trues: set<Key>)
    requires j < 3 && k < 3 && callId < 200 && CallAt(callId) == FunctionCall(0, [80 + j])
    ensures var c := CallSite(callId, Function(G(k)));
            && (Awaits(RingFrame(j, trues), flags, c) <==> K(k) in trues)
            && MetBy(RingFrame(j, trues), flags, c) == [K(k)]
  {
    PassesQ(j, k, callId, flags);
  }

  lemma PassesC(j: nat, flags: set<Id>)
    requires j < 3
    ensures ValueAsync(RING, false, {WORK}, flags, {Q(j)}, 100 + j) <==> C(j) in flags
  {
    assert RING.entities[100 + j] == Local(60 + j) && RING.held[60 + j] == [90 + j];
    assert RING.entities[90 + j] == Closure(C(j));
    assert 90 + j in RING.held[60 + j];
    assert HeldValueAsync(RING, {WORK}, flags, 90 + j) <==> C(j) in flags;
  }

  lemma FBits(j: nat, flags: set<Id>)
    requires j < 3
    ensures BitsForCall(RING, false, {WORK}, flags, {Q(j)}, F, 160 + j) == if C(j) in flags then {P1, P2} else {P1}
  {
    var callId := 160 + j;
    assert Adaptive(RING, F) == {P1, P2} by { RingAdaptive(j); }
    assert RING.functionCalls[callId] == FunctionCall(0, [80 + j, 100 + j]) && RING.functions[F] == [P1, P2];
    assert ValueAsync(RING, false, {WORK}, flags, {Q(j)}, 80 + j) by {
      assert RING.entities[80 + j] == Local(Q(j));
    }
    PassesC(j, flags);
    assert Paired(RING, F, callId) == 2;
    assert Adapts(RING, false, {WORK}, flags, {Q(j)}, F, callId, 0);
    assert Adapts(RING, false, {WORK}, flags, {Q(j)}, F, callId, 1) <==> C(j) in flags;
  }

  lemma FCall(j: nat, flags: set<Id>, trues: set<Key>)
    requires j < 3
    ensures var key := if C(j) in flags then F12 else F1;
            var c := CallSite(160 + j, Function(F));
            && (Awaits(RingFrame(j, trues), flags, c) <==> key in trues)
            && MetBy(RingFrame(j, trues), flags, c) == [key]
  {
    FBits(j, flags);
  }

  // ----- one evaluation of an instance of g_j -----

  lemma Nesting(p: Program, g: Id, c: Id, e: Id, d: Id)
    requires ChildrenOf(p, g) == [c, e, d] && ChildrenOf(p, c) == ChildrenOf(p, e) == ChildrenOf(p, d) == []
    requires |AllChildren(p)| >= 4
    ensures Component(p, g) == [g, c, e, d]
  {
    var n := |AllChildren(p)| + 1;
    var ms := [g, c, e, d];
    assert [g] + [c, e, d] == ms && ms + [] == ms;
    assert Descend(p, [g], 0, n) == Descend(p, ms, 1, n - 1);
    assert Descend(p, ms, 1, n - 1) == Descend(p, ms, 2, n - 2);
    assert Descend(p, ms, 2, n - 2) == Descend(p, ms, 3, n - 3);
    assert Descend(p, ms, 3, n - 3) == Descend(p, ms, 4, n - 4);
  }

  lemma RingNests(j: nat)
    requires j < 3
    ensures Component(RING, G(j)) == [G(j), C(j), E(j), D(j)]
  {
    RingHasChildren();
    Nesting(RING, G(j), C(j), E(j), D(j));
  }

  lemma RingHasChildren()
    ensures |AllChildren(RING)| >= 4
  {
    assert ChildrenOf(RING, G(0)) == [C(0), E(0), D(0)] && ChildrenOf(RING, G(1)) == [C(1), E(1), D(1)];
    FourChildren(RING, G(0), G(1), C(0), E(0), D(0), C(1));
  }

  lemma FourChildren(p: Program, g: Id, h: Id, c: Id, e: Id, d: Id, x: Id)
    requires c in ChildrenOf(p, g) && e in ChildrenOf(p, g) && d in ChildrenOf(p, g) && x in ChildrenOf(p, h)
    requires c != e && c != d && e != d && x != c && x != e && x != d
    ensures |AllChildren(p)| >= 4
  {
    var four := {c, e, d, x};
    assert four <= AllChildren(p);
    Iterates.Smaller(four, AllChildren(p));
  }

  /** A root whose closure `d` awaits, once `c` is settled, through one of two instances: `one` when `c`
      is not async, `both` when it is; `c` and `e` await `next` and `other`. */
  datatype Shape = Shape(g: Id, c: Id, e: Id, d: Id, next: Key, other: Key, one: Key, both: Key)

  ghost predicate Shaped(f: Frame, h: Shape) {
    && h.g != h.c && h.g != h.d && h.c != h.e && h.c != h.d && h.g != h.e && h.e != h.d
    && h.g !in f.known && h.c !in f.known && h.e !in f.known && h.d !in f.known
    && |CallsOf(f.p, h.g)| == |CallsOf(f.p, h.c)| == |CallsOf(f.p, h.e)| == |CallsOf(f.p, h.d)| == 1
    && forall flags :: ShapedAt(f, h, flags)
  }

  ghost predicate ShapedAt(f: Frame, h: Shape, flags: set<Id>)
    requires |CallsOf(f.p, h.g)| == |CallsOf(f.p, h.c)| == |CallsOf(f.p, h.e)| == |CallsOf(f.p, h.d)| == 1
  {
    && (Awaits(f, flags, CallsOf(f.p, h.g)[0]) <==> h.d in flags) && MetBy(f, flags, CallsOf(f.p, h.g)[0]) == []
    && (Awaits(f, flags, CallsOf(f.p, h.c)[0]) <==> h.next in f.trues)
    && MetBy(f, flags, CallsOf(f.p, h.c)[0]) == [h.next]
    && (Awaits(f, flags, CallsOf(f.p, h.e)[0]) <==> h.other in f.trues)
    && MetBy(f, flags, CallsOf(f.p, h.e)[0]) == [h.other]
    && (Awaits(f, flags, CallsOf(f.p, h.d)[0]) <==> (if h.c in flags then h.both else h.one) in f.trues)
    && MetBy(f, flags, CallsOf(f.p, h.d)[0]) == [if h.c in flags then h.both else h.one]
  }

  function If(b: bool, i: Id): set<Id> {
    if b then {i} else {}
  }

  function Chosen(f: Frame, h: Shape): Key {
    if h.next in f.trues then h.both else h.one
  }

  lemma OneCall(f: Frame, m: Id, e: Eval)
    requires |CallsOf(f.p, m)| == 1
    ensures VisitCalls(f, m, CallsOf(f.p, m), e) == VisitCall(f, m, CallsOf(f.p, m)[0], e)
  {
    assert CallsOf(f.p, m)[..0] == [];
    assert VisitCalls(f, m, [], e) == e;
  }

  lemma OneMember(f: Frame, ms: seq<Id>, m: Id, e: Eval)
    ensures VisitMembers(f, ms + [m], e) == VisitCalls(f, m, CallsOf(f.p, m), VisitMembers(f, ms, e))
  {
    assert (ms + [m])[..|ms|] == ms;
  }

  /** A pass over four members of one call each. */
  function FourCalls(f: Frame, a: Id, b: Id, c: Id, d: Id, e: Eval): Eval
    requires |CallsOf(f.p, a)| == |CallsOf(f.p, b)| == |CallsOf(f.p, c)| == |CallsOf(f.p, d)| == 1
  {
    var e1 := VisitCall(f, a, CallsOf(f.p, a)[0], e);
    var e2 := VisitCall(f, b, CallsOf(f.p, b)[0], e1);
    var e3 := VisitCall(f, c, CallsOf(f.p, c)[0], e2);
    VisitCall(f, d, CallsOf(f.p, d)[0], e3)
  }

  lemma AddMember(f: Frame, ms: seq<Id>, m: Id, e: Eval, r: Eval)
    requires VisitMembers(f, ms, e) == r && |CallsOf(f.p, m)| == 1
    ensures VisitMembers(f, ms + [m], e) == VisitCall(f, m, CallsOf(f.p, m)[0], r)
  {
    OneMember(f, ms, m, e);
    OneCall(f, m, r);
  }

  lemma FourMembers(f: Frame, a: Id, b: Id, c: Id, d: Id, e: Eval)
    requires |CallsOf(f.p, a)| == |CallsOf(f.p, b)| == |CallsOf(f.p, c)| == |CallsOf(f.p, d)| == 1
    ensures VisitMembers(f, [] + [a] + [b] + [c] + [d], e) == FourCalls(f, a, b, c, d, e)
  {
    var e1 := VisitCall(f, a, CallsOf(f.p, a)[0], e);
    var e2 := VisitCall(f, b, CallsOf(f.p, b)[0], e1);
    var e3 := VisitCall(f, c, CallsOf(f.p, c)[0], e2);
    AddMember(f, [], a, e, e);
    AddMember(f, [] + [a], b, e, e1);
    AddMember(f, [] + [a] + [b], c, e, e2);
    AddMember(f, [] + [a] + [b] + [c], d, e, e3);
  }

  lemma FourListed(a: Id, b: Id, c: Id, d: Id)
    ensures [] + [a] + [b] + [c] + [d] == [a, b, c, d]
  {
  }

  lemma ShapedCalls(f: Frame, h: Shape, e: Eval)
    requires Shaped(f, h) && (h.c in e.flags ==> h.next in f.trues)
    ensures var r := FourCalls(f, h.g, h.c, h.e, h.d, e);
            && r.flags == e.flags + If(h.d in e.flags, h.g) + If(h.next in f.trues, h.c)
                          + If(h.other in f.trues, h.e) + If(Chosen(f, h) in f.trues, h.d)
            && r.met == e.met + [] + [h.next] + [h.other] + [Chosen(f, h)]
  {
    var e1 := VisitCall(f, h.g, CallsOf(f.p, h.g)[0], e);
    var e2 := VisitCall(f, h.c, CallsOf(f.p, h.c)[0], e1);
    var e3 := VisitCall(f, h.e, CallsOf(f.p, h.e)[0], e2);
    assert ShapedAt(f, h, e.flags) && ShapedAt(f, h, e1.flags) && ShapedAt(f, h, e2.flags) && ShapedAt(f, h, e3.flags);
    OneVisit(f, h.g, e, h.d in e.flags, []);
    OneVisit(f, h.c, e1, h.next in f.trues, [h.next]);
    OneVisit(f, h.e, e2, h.other in f.trues, [h.other]);
    assert h.c in e3.flags <==> h.next in f.trues;
    OneVisit(f, h.d, e3, Chosen(f, h) in f.trues, [Chosen(f, h)]);
  }

  lemma OneVisit(f: Frame, m: Id, e: Eval, awaits: bool, met: seq<Key>)
    requires |CallsOf(f.p, m)| == 1 && Awaits(f, e.flags, CallsOf(f.p, m)[0]) == awaits
    requires MetBy(f, e.flags, CallsOf(f.p, m)[0]) == met
    ensures var r := VisitCall(f, m, CallsOf(f.p, m)[0], e); r.flags == e.flags + If(awaits, m) && r.met == e.met + met
  {
  }

  /** What a pass leaves: `d` reads whether `c` was flagged, the root whether `d` already was. */
  lemma ShapedPass(f: Frame, h: Shape, e: Eval)
    requires Shaped(f, h) && (h.c in e.flags ==> h.next in f.trues)
    ensures var r := VisitMembers(f, [h.g, h.c, h.e, h.d], e);
            && r.flags == e.flags + If(h.d in e.flags, h.g) + If(h.next in f.trues, h.c)
                          + If(h.other in f.trues, h.e) + If(Chosen(f, h) in f.trues, h.d)
            && r.met == e.met + [] + [h.next] + [h.other] + [Chosen(f, h)]
  {
    FourMembers(f, h.g, h.c, h.e, h.d, e);
    FourListed(h.g, h.c, h.e, h.d);
    ShapedCalls(f, h, e);
  }

  /** The flags an evaluation settles at. */
  function ShapedFlags(f: Frame, h: Shape): set<Id> {
    If(Chosen(f, h) in f.trues, h.g) + If(h.next in f.trues, h.c)
    + If(h.other in f.trues, h.e) + If(Chosen(f, h) in f.trues, h.d)
  }

  lemma ShapedNext(f: Frame, h: Shape, e: Eval)
    requires Shaped(f, h) && e.flags <= ShapedFlags(f, h)
    requires forall k :: k in e.met ==> k in {h.next, h.other, Chosen(f, h)}
    ensures var r := VisitMembers(f, [h.g, h.c, h.e, h.d], e);
            && r.flags <= ShapedFlags(f, h)
            && (r.flags == e.flags ==> r.flags == ShapedFlags(f, h))
            && MetExactly(r.met, {h.next, h.other, Chosen(f, h)})
  {
    ShapedPass(f, h, e);
  }

  lemma {:induction false} ShapedSettles(f: Frame, h: Shape, ms: seq<Id>, e: Eval)
    requires Shaped(f, h) && ms == [h.g, h.c, h.e, h.d] && e.flags <= ShapedFlags(f, h)
    requires forall k :: k in e.met ==> k in {h.next, h.other, Chosen(f, h)}
    ensures var r := Settle(f, ms, e);
            r.flags == ShapedFlags(f, h) && MetExactly(r.met, {h.next, h.other, Chosen(f, h)})
    decreases |Unflagged(ms, e.flags)|
  {
    ShapedNext(f, h, e);
    var next := VisitMembers(f, ms, e);
    if next.flags != e.flags {
      FewerUnflagged(ms, e.flags, next.flags);
      ShapedSettles(f, h, ms, next);
    }
  }

  lemma ShapedEvaluates(f: Frame, h: Shape)
    requires Shaped(f, h) && Component(f.p, h.g) == [h.g, h.c, h.e, h.d]
    ensures var e := Evaluate(f, h.g);
            e.flags == ShapedFlags(f, h) && MetExactly(e.met, {h.next, h.other, Chosen(f, h)})
  {
    var ms := Component(f.p, h.g);
    assert Begin(f, ms).flags == {};
    ShapedSettles(f, h, ms, Begin(f, ms));
  }

  function RingShape(j: nat): Shape {
    Shape(G(j), C(j), E(j), D(j), K(Next(j)), K(Next(Next(j))), F1, F12)
  }

  lemma RingCalls(j: nat)
    requires j < 3
    ensures CallsOf(RING, G(j)) == [CallSite(130 + j, Indirect(Value))]
    ensures CallsOf(RING, C(j)) == [CallSite(140 + j, Function(G(Next(j))))]
    ensures CallsOf(RING, E(j)) == [CallSite(150 + j, Function(G(Next(Next(j)))))]
    ensures CallsOf(RING, D(j)) == [CallSite(160 + j, Function(F))]
  {
  }

  lemma RingShaped(j: nat, trues: set<Key>)
    requires j < 3
    ensures Shaped(RingFrame(j, trues), RingShape(j))
  {
    RingCalls(j);
    forall flags ensures ShapedAt(RingFrame(j, trues), RingShape(j), flags) {
      RootCall(j, flags, trues);
      NextCall(j, Next(j), 140 + j, flags, trues);
      NextCall(j, Next(Next(j)), 150 + j, flags, trues);
      FCall(j, flags, trues);
    }
  }

  /** `root` awaits exactly when the instance it chooses does, `both` once `next` awaits; and it names
      that one, `next` and `other`. */
  ghost predicate Chooses(f: Frame, root: Id, next: Key, other: Key, one: Key, both: Key) {
    var e := Evaluate(f, root);
    var chosen := if next in f.trues then both else one;
    (root in e.flags <==> chosen in f.trues) && MetExactly(e.met, {next, other, chosen})
  }

  /** An instance of g_j awaits exactly when the instance of f it names does: the waiting one when the
      next g's instance awaits. */
  lemma RingEvaluates(j: nat, trues: set<Key>)
    requires j < 3
    ensures Chooses(RingFrame(j, trues), G(j), K(Next(j)), K(Next(Next(j))), F1, F12)
  {
    RingNests(j);
    RingShaped(j, trues);
    ShapedEvaluates(RingFrame(j, trues), RingShape(j));
    ShapeChooses(RingFrame(j, trues), RingShape(j));
  }

  lemma ShapeChooses(f: Frame, h: Shape)
    requires Shaped(f, h)
    requires var e := Evaluate(f, h.g);
             e.flags == ShapedFlags(f, h) && MetExactly(e.met, {h.next, h.other, Chosen(f, h)})
    ensures Chooses(f, h.g, h.next, h.other, h.one, h.both)
  {
  }

  /** An instance of f whose first parameter is async awaits: its body calls it. */
  lemma FEvaluates(trues: set<Key>)
    ensures var e := Evaluate(Frame(RING, false, {WORK}, {P1}, trues), F);
            F in e.flags && MetExactly(e.met, {})
  {
    var f := Frame(RING, false, {WORK}, {P1}, trues);
    FComponent();
    FCallsParameter(trues);
    FSettles(f, Begin(f, [F]));
  }

  lemma FComponent()
    ensures Component(RING, F) == [F]
  {
    assert ChildrenOf(RING, F) == [] && [F] + [] == [F];
    RingHasChildren();
    var n := |AllChildren(RING)| + 1;
    assert Descend(RING, [F], 0, n) == Descend(RING, [F], 1, n - 1);
  }

  ghost predicate Plain(f: Frame) {
    && |CallsOf(f.p, F)| == 1
    && forall flags :: Awaits(f, flags, CallsOf(f.p, F)[0]) && MetBy(f, flags, CallsOf(f.p, F)[0]) == []
  }

  lemma FCallsParameter(trues: set<Key>)
    ensures Plain(Frame(RING, false, {WORK}, {P1}, trues))
  {
    assert CallsOf(RING, F) == [CallSite(5, Indirect(Value))];
    assert RING.functionCalls[5].subject == 4 && RING.entities[4] == Local(P1);
  }

  lemma FPass(f: Frame, e: Eval)
    requires Plain(f)
    ensures var r := VisitMembers(f, [F], e); r.flags == e.flags + {F} && r.met == e.met
  {
    assert [] + [F] == [F];
    assert VisitMembers(f, [], e) == e;
    AddMember(f, [], F, e, e);
  }

  lemma {:induction false} FSettles(f: Frame, e: Eval)
    requires Plain(f) && e.met == []
    ensures F in Settle(f, [F], e).flags && MetExactly(Settle(f, [F], e).met, {})
    decreases |Unflagged([F], e.flags)|
  {
    FPass(f, e);
    var next := VisitMembers(f, [F], e);
    if next.flags != e.flags {
      FewerUnflagged([F], e.flags, next.flags);
      FSettles(f, next);
    }
  }

  // ----- nothing suspends outside an instance -----

  /** A call through a local that holds one closure suspends only when the closure does. */
  lemma HeldClosureWaits(p: Program, known: set<Id>, callId: Id, subject: Id, binding: Id, value: Id, c: Id)
    requires callId in p.functionCalls && p.functionCalls[callId].subject == subject
    requires subject in p.entities && p.entities[subject] == Local(binding) && binding !in p.asyncValues
    requires binding in p.held && p.held[binding] == [value] && value in p.entities && p.entities[value] == Closure(c)
    requires c !in known
    ensures !CallSuspends(p, false, known, CallSite(callId, Indirect(Value)))
  {
    assert !HeldAwaits(p, false, known, value, 0);
  }

  lemma RootSuspendsNothing(j: nat)
    requires j < 3
    ensures !Suspends(RING, false, {WORK}, G(j))
  {
    RingCalls(j);
    RootHolds(j);
    HeldClosureWaits(RING, {WORK}, 130 + j, 120 + j, 70 + j, 110 + j, D(j));
  }

  lemma ClosuresSuspendNothing(j: nat)
    requires j < 3
    ensures !Suspends(RING, false, {WORK}, C(j)) && !Suspends(RING, false, {WORK}, E(j))
    ensures !Suspends(RING, false, {WORK}, D(j))
  {
    RingCalls(j);
  }

  lemma FSuspendsNothing()
    ensures !Suspends(RING, false, {WORK}, F) && !Suspends(RING, false, {WORK}, WORK)
  {
    assert CallsOf(RING, F) == [CallSite(5, Indirect(Value))] && CallsOf(RING, WORK) == [];
    assert RING.functionCalls[5].subject == 4 && RING.entities[4] == Local(P1) && P1 !in RING.held;
  }

  predicate IsNode(n: Id) {
    n == F || n == WORK || 10 <= n < 13 || 30 <= n < 33 || 40 <= n < 43 || 50 <= n < 53
  }

  lemma NodesAre(n: Id)
    ensures n in NODES <==> IsNode(n)
  {
  }

  lemma NodeSuspendsNothing(n: Id)
    requires IsNode(n)
    ensures !Suspends(RING, false, {WORK}, n)
  {
    if n == F || n == WORK {
      FSuspendsNothing();
    } else if n < 13 {
      RootSuspendsNothing(n - 10);
    } else {
      ClosuresSuspendNothing(n % 10);
    }
  }

  /** What `base_fixpoint` leaves of an async set that holds `work` alone: no body suspends by itself. */
  lemma RingIsBaseClosed()
    ensures BaseClosed(RING, false, {WORK})
  {
    forall n | n in RING.nodes ensures !Suspends(RING, false, {WORK}, n) {
      assert RING.nodes == NODES;
      NodesAre(n);
      NodeSuspendsNothing(n);
    }
  }
}

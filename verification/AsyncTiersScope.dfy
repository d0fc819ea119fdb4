/** How far AsyncTiers' condition reaches.  It holds where no call passes on a closure of its own body
    that may still turn async; the program of AsyncRing violates it, however its functions are numbered;
    and it is not necessary: where nothing is async at all every schedule ends, and that program, its
    `work` not async, is such a one. */
module AsyncTiersScope {
  import opened Basics
  import opened AsyncProgram
  import opened AsyncEvaluate
  import opened AsyncRound
  import opened AsyncInfer
  import opened AsyncTiers
  import opened AsyncTiersEnd
  import opened AsyncRing
  import opened Weights
  import Iterates
  import Schedules

  // ----- calls that pass on no closure of their own body -----

  /** What the argument is, or as a local holds, that is the closure `x`. */
  predicate Passes(p: Program, a: Id, x: Id) {
    a in p.entities &&
    match p.entities[a]
    case Closure(c) => c == x
    case Async(c) => c == x
    case Local(t) => t !in p.asyncValues && t in p.held
                     && exists v :: v in p.held[t] && v in p.entities && p.entities[v] == Closure(x)
    case _ => false
  }

  /** `i` meets an adaptive parameter of the call's callee. */
  predicate AdaptiveAt(p: Program, c: CallSite, i: nat) {
    c.target.Function? && i < Paired(p, c.target.id, c.callId)
    && p.functions[c.target.id][i] in Adaptive(p, c.target.id)
  }

  /** The call passes to an adaptive parameter no closure of the caller's component but one that is async
      already. */
  ghost predicate KeepsOwn(p: Program, start: set<Id>, root: Id, c: CallSite) {
    forall i: nat, x :: AdaptiveAt(p, c, i) && Passes(p, p.functionCalls[c.callId].arguments[i], x)
                        && x in Component(p, root)
      ==> x in start
  }

  /** No body names a closure nested in another function. */
  ghost predicate Scoped(p: Program, cold: bool, root: Id, c: CallSite) {
    forall i: nat, x :: AdaptiveAt(p, c, i) && Passes(p, p.functionCalls[c.callId].arguments[i], x)
                        && Nested(p, cold, x)
      ==> x in Component(p, root)
  }

  lemma KeepsOwnValue(p: Program, cold: bool, start: set<Id>, root: Id, a: Id)
    requires forall x :: Passes(p, a, x) ==> x in start || !Nested(p, cold, x)
    ensures SteadyValue(Ground(p, cold, start, None), root, a)
  {
    var g := Ground(p, cold, start, None);
    if a in p.entities {
      match p.entities[a]
      case Closure(c) => assert Passes(p, a, c);
      case Async(c) => assert Passes(p, a, c);
      case Local(t) =>
        if t !in p.asyncValues && t in p.held {
          forall v | v in p.held[t] ensures SteadyHeld(g, root, v) {
            if v in p.entities && p.entities[v].Closure? { assert Passes(p, a, p.entities[v].id); }
          }
        }
      case _ =>
    }
  }

  lemma KeepsOwnSteady(p: Program, cold: bool, start: set<Id>, root: Id, c: CallSite)
    requires KeepsOwn(p, start, root, c) && Scoped(p, cold, root, c)
    ensures SteadyCall(Ground(p, cold, start, None), root, c)
  {
    if c.target.Function? {
      forall i: nat | i < Paired(p, c.target.id, c.callId) && p.functions[c.target.id][i] in Adaptive(p, c.target.id)
        ensures SteadyValue(Ground(p, cold, start, None), root, p.functionCalls[c.callId].arguments[i])
      {
        assert AdaptiveAt(p, c, i);
        KeepsOwnValue(p, cold, start, root, p.functionCalls[c.callId].arguments[i]);
      }
    }
  }

  /** Every call of the view keeps its own closures to itself. */
  ghost predicate OwnClosuresKept(p: Program, cold: bool, start: set<Id>) {
    forall f, m, c :: f in p.functions && InView(p, cold, f) && m in Component(p, f) && c in CallsOf(p, m)
      ==> KeepsOwn(p, start, f, c) && Scoped(p, cold, f, c)
  }

  const ONE_TIER := Tiers(_ => 0, 0)

  /** A program none of whose calls passes on a closure of its own body is tiered, in one tier. */
  lemma OwnClosuresKeptIsTiered(p: Program, cold: bool, start: set<Id>)
    requires OwnClosuresKept(p, cold, start)
    ensures Tiered(Ground(p, cold, start, None), ONE_TIER)
  {
    var g := Ground(p, cold, start, None);
    forall f, m, c | f in p.functions && InView(p, cold, f) && m in Component(p, f) && c in CallsOf(p, m)
                     && MayName(p, cold, c)
      ensures Descends(g, ONE_TIER, f, c)
    {
      KeepsOwnSteady(p, cold, start, f, c);
    }
  }

  // ----- the ring is not tiered -----

  lemma RingNested(j: nat)
    requires j < 3
    ensures G(j) in RING.functions && C(j) in Component(RING, G(j)) && D(j) in Component(RING, G(j))
    ensures Nested(RING, false, C(j))
  {
    RingNests(j);
    assert G(j) in RING.functions && InView(RING, false, G(j)) && C(j) in Component(RING, G(j));
  }

  /** A local that holds a closure which wavers makes an argument unsteady. */
  lemma HeldWavers(g: Ground, root: Id, a: Id, binding: Id, v: Id, x: Id)
    requires a in g.p.entities && g.p.entities[a] == Local(binding) && binding !in g.p.asyncValues
    requires binding in g.p.held && v in g.p.held[binding] && v in g.p.entities && g.p.entities[v] == Closure(x)
    requires Wavers(g, root, x)
    ensures !SteadyValue(g, root, a)
  {
    assert !SteadyHeld(g, root, v);
  }

  lemma RingHoldsC(j: nat)
    requires j < 3
    ensures 100 + j in RING.entities && RING.entities[100 + j] == Local(60 + j) && 60 + j !in RING.asyncValues
    ensures 60 + j in RING.held && 90 + j in RING.held[60 + j]
    ensures 90 + j in RING.entities && RING.entities[90 + j] == Closure(C(j))
  {
  }

  lemma RingPassesC(j: nat, start: set<Id>)
    requires j < 3 && C(j) !in start
    ensures !SteadyValue(Ground(RING, false, start, None), G(j), 100 + j)
  {
    RingNested(j);
    RingHoldsC(j);
    HeldWavers(Ground(RING, false, start, None), G(j), 100 + j, 60 + j, 90 + j, C(j));
  }

  lemma RingCallsF(j: nat, start: set<Id>)
    requires j < 3 && C(j) !in start
    ensures var c := CallSite(160 + j, Function(F));
            MayName(RING, false, c) && !SteadyCall(Ground(RING, false, start, None), G(j), c)
  {
    RingAdaptive(j);
    RingPassesC(j, start);
    assert RING.functionCalls[160 + j] == FunctionCall(0, [80 + j, 100 + j]) && RING.functions[F] == [P1, P2];
    assert Paired(RING, F, 160 + j) == 2 && RING.functions[F][1] in Adaptive(RING, F);
    assert RING.functionCalls[160 + j].arguments[1] == 100 + j && MayBeAsync(RING, 100 + j);
  }

  lemma RingCallsNext(j: nat)
    requires j < 3
    ensures MayName(RING, false, CallSite(140 + j, Function(G(Next(j)))))
  {
    var k := Next(j);
    RingAdaptive(k);
    assert RING.functionCalls[140 + j] == FunctionCall(0, [80 + j]) && RING.functions[G(k)] == [Q(k)];
    assert Paired(RING, G(k), 140 + j) == 1 && RING.entities[80 + j] == Local(Q(j));
    assert RING.functions[G(k)][0] in Adaptive(RING, G(k))
           && MayBeAsync(RING, RING.functionCalls[140 + j].arguments[0]);
  }

  lemma CallDescends(g: Ground, t: Tiers, f: Id, m: Id, c: CallSite)
    requires TieredAt(g, t, f) && m in Component(g.p, f) && c in CallsOf(g.p, m) && MayName(g.p, g.cold, c)
    ensures Descends(g, t, f, c)
  {
  }

  /** A root with an unsteady call is not numbered 0, so all it calls is numbered lower. */
  lemma OnlyDown(g: Ground, t: Tiers, f: Id, unsteady: CallSite, c: CallSite)
    requires Descends(g, t, f, unsteady) && !SteadyCall(g, f, unsteady) && Descends(g, t, f, c)
    ensures t.rank(c.target.id) < t.rank(f)
  {
  }

  lemma RingDescends(j: nat, start: set<Id>, t: Tiers)
    requires j < 3 && C(j) !in start && TieredAt(Ground(RING, false, start, None), t, G(j))
    ensures t.rank(G(Next(j))) < t.rank(G(j))
  {
    var g := Ground(RING, false, start, None);
    var f, next := CallSite(160 + j, Function(F)), CallSite(140 + j, Function(G(Next(j))));
    RingNested(j);
    RingCalls(j);
    RingCallsF(j, start);
    RingCallsNext(j);
    CallDescends(g, t, G(j), D(j), f);
    CallDescends(g, t, G(j), C(j), next);
    OnlyDown(g, t, G(j), f, next);
  }

  /** No numbering tiers the program of AsyncRing, unless `c` is async from the start somewhere. */
  lemma RingUntiered(start: set<Id>, t: Tiers)
    requires C(0) !in start && C(1) !in start && C(2) !in start
    ensures !Tiered(Ground(RING, false, start, None), t)
  {
    assert Next(0) == 1 && Next(1) == 2 && Next(2) == 0;
    if Tiered(Ground(RING, false, start, None), t) {
      RingNumbered(0, start, t);
      RingNumbered(1, start, t);
      RingNumbered(2, start, t);
      assert false;
    }
  }

  lemma RingNumbered(j: nat, start: set<Id>, t: Tiers)
    requires j < 3 && C(j) !in start && Tiered(Ground(RING, false, start, None), t)
    ensures t.rank(G(Next(j))) < t.rank(G(j))
  {
    RingNested(j);
    assert TieredAt(Ground(RING, false, start, None), t, G(j));
    RingDescends(j, start, t);
  }

  // ----- where nothing is async, every schedule ends -----

  /** Nothing is typed or marked async. */
  predicate Inert(p: Program) {
    p.asyncValues == {} && p.asyncFields == {} && p.asyncReturning == {}
  }

  lemma {:induction false} InertHolds(p: Program, cold: bool, binding: Id, depth: nat)
    requires Inert(p)
    ensures !BindingHoldsAsync(p, cold, {}, binding, depth)
    decreases DEPTH_CAP + 1 - depth
  {
    if BindingHoldsAsync(p, cold, {}, binding, depth) {
      var v :| v in p.held[binding] && InView(p, cold, v) && HeldAwaits(p, cold, {}, v, depth);
      if p.entities[v].Local? { InertHolds(p, cold, p.entities[v].id, depth + 1); }
    }
  }

  lemma InertBits(p: Program, cold: bool, callee: Id, callId: Id)
    requires Inert(p)
    ensures BitsForCall(p, cold, {}, {}, {}, callee, callId) == {}
  {
  }

  /** Outside every context no call awaits or names an instance. */
  lemma InertCall(p: Program, cold: bool, trues: set<Key>, c: CallSite)
    requires Inert(p)
    ensures !CallAwaits(p, cold, {}, {}, {}, trues, c) && Met(p, cold, {}, {}, {}, c) == None
  {
    match c.target
    case Function(callee) => InertBits(p, cold, callee, c.callId);
    case External(_) =>
    case Indirect(GenericMember) =>
    case Indirect(TraitDispatch) =>
    case _ =>
      if c.callId in p.functionCalls {
        var subject := p.functionCalls[c.callId].subject;
        if subject in p.entities && p.entities[subject].Local? { InertHolds(p, cold, p.entities[subject].id, 0); }
      }
  }

  ghost predicate Still(e: Eval) {
    e.flags == {} && e.met == []
  }

  lemma {:induction false} InertCalls(f: Frame, m: Id, cs: seq<CallSite>, e: Eval)
    requires Inert(f.p) && f.known == {} && f.bits == {} && Still(e)
    ensures Still(VisitCalls(f, m, cs, e))
  {
    if cs != [] {
      InertCalls(f, m, cs[..|cs| - 1], e);
      InertCall(f.p, f.cold, f.trues, cs[|cs| - 1]);
    }
  }

  lemma {:induction false} InertMembers(f: Frame, ms: seq<Id>, e: Eval)
    requires Inert(f.p) && f.known == {} && f.bits == {} && Still(e)
    ensures Still(VisitMembers(f, ms, e))
  {
    if ms != [] {
      InertMembers(f, ms[..|ms| - 1], e);
      InertCalls(f, ms[|ms| - 1], CallsOf(f.p, ms[|ms| - 1]), VisitMembers(f, ms[..|ms| - 1], e));
    }
  }

  lemma InertEvaluates(f: Frame, root: Id)
    requires Inert(f.p) && f.known == {} && f.bits == {}
    ensures Still(Evaluate(f, root))
  {
    var ms := Component(f.p, root);
    assert Still(Begin(f, ms));
    InertMembers(f, ms, Begin(f, ms));
  }

  /** Only the functions' own instances are queued. */
  predicate Quiescent(p: Program, s: Round) {
    s.known == {} && s.seeding == UNSTARTED && forall k :: k in s.queued ==> k.bits == {}
  }

  lemma InertPop(p: Program, s: Round, k: Key)
    requires Inert(p) && Quiescent(p, s) && k in s.queued
    ensures var s' := TakeKey(World(p, false, None), s, k); Quiescent(p, s') && s'.queued == s.queued - {k}
  {
    InertEvaluates(Answering(World(p, false, None), s, k), k.root);
  }

  ghost function QuiescentOf(p: Program): Round -> bool {
    (s: Round) => Quiescent(p, s)
  }

  function QueuedOf(s: Round): nat {
    |s.queued|
  }

  lemma InertStep(p: Program, s: Round, s': Round)
    requires Inert(p) && Quiescent(p, s) && RoundStep(World(p, false, None), s, s')
    ensures Quiescent(p, s') && QueuedOf(s') < QueuedOf(s)
  {
    var k :| k in s.queued && s' == TakeKey(World(p, false, None), s, k);
    InertPop(p, s, k);
  }

  lemma InertUses(p: Program, run: Schedules.Run<Round>, i: nat)
    requires Inert(p) && Pops(World(p, false, None), run, i)
    ensures UsesUp(run, QuiescentOf(p), Finished, QueuedOf, i)
  {
    if Quiescent(p, run(i)) && !Finished(run(i)) { InertStep(p, run(i), run(i + 1)); }
  }

  lemma InertNames(p: Program)
    requires Inert(p)
    ensures Named(p, false, {}) == {}
  {
    forall c ensures Met(p, false, {}, {}, {}, c) == None {
      InertCall(p, false, {}, c);
    }
  }

  function BasesOf(fs: set<Id>): set<Key> {
    set f | f in fs :: Key(f, {})
  }

  lemma {:induction false} BasesCount(fs: set<Id>)
    ensures |BasesOf(fs)| <= |fs|
  {
    if fs != {} {
      var f :| f in fs;
      BasesCount(fs - {f});
      assert BasesOf(fs) == BasesOf(fs - {f}) + {Key(f, {})};
    }
  }

  lemma InertOpens(p: Program)
    requires Inert(p)
    ensures Quiescent(p, BeginRound(World(p, false, None), UNSTARTED, {}))
    ensures |BeginRound(World(p, false, None), UNSTARTED, {}).queued| <= |p.functions|
  {
    var w := World(p, false, None);
    InertNames(p);
    assert BeginRound(w, UNSTARTED, {}) == OpenRound(w, UNSTARTED, {}, Roster(w), {});
    assert BeginRound(w, UNSTARTED, {}).queued == Roster(w) == BasesOf(p.functions.Keys);
    BasesCount(p.functions.Keys);
  }

  /** A round over an empty async set ends, whatever is taken when, within one pop for each function. */
  lemma InertRoundEnds(p: Program, run: Schedules.Run<Round>)
    requires Inert(p) && run(0) == BeginRound(World(p, false, None), UNSTARTED, {})
    requires AnyRun(World(p, false, None), run)
    ensures run(|p.functions|).queued == {}
  {
    InertOpens(p);
    forall i: nat ensures UsesUp(run, QuiescentOf(p), Finished, QueuedOf, i) {
      assert Pops(World(p, false, None), run, i);
      InertUses(p, run, i);
    }
    EndsInTime(run, QuiescentOf(p), Finished, QueuedOf, |p.functions|);
  }

  /** AsyncRing's program over an empty async set: not tiered, and every schedule ends. */
  lemma UntieredYetEnds(t: Tiers, run: Schedules.Run<Round>)
    requires run(0) == BeginRound(World(RING, false, None), UNSTARTED, {}) && AnyRun(World(RING, false, None), run)
    ensures !Tiered(Ground(RING, false, {}, None), t) && run(|RING.functions|).queued == {}
  {
    RingUntiered({}, t);
    InertRoundEnds(RING, run);
  }
}

/** Programs whose worklist rounds end on every schedule (`adaptation_worklist`,
    crates/vilan-core/src/async_infer.rs): those whose functions can be numbered so that a call that
    may name an instance leads to a lower number - or stays among the functions numbered 0, where no
    call's adapted parameters depend on what the round is still settling. */
module AsyncTiers {
  import opened Basics
  import opened AsyncProgram
  import opened AsyncFixpoint
  import opened AsyncEvaluate
  import opened AsyncRound
  import opened AsyncRoundProof

  /** What the condition is asked of: the program and the view, the async set a round starts from, and
      - over a record - what the record's world settled. */
  datatype Ground = Ground(p: Program, cold: bool, start: set<Id>, settled: Option<set<Id>>)

  function GroundOf(w: World, start: set<Id>): Ground {
    Ground(w.p, w.cold, start, if w.rec.Some? then Some(w.rec.value.settled) else None)
  }

  /** A body of the view: a function's own, or a closure's nested in it. */
  predicate Nested(p: Program, cold: bool, x: Id) {
    exists f :: f in p.functions && InView(p, cold, f) && x in Component(p, f)
  }

  /** A root the record vouches for: its calls must name what they named in the record's world. */
  predicate Recorded(g: Ground, root: Id) {
    g.settled.Some? && root in g.p.coldIds
  }

  /** Whether the closure is async may change while the round runs, or have changed since the record. */
  predicate Wavers(g: Ground, root: Id, x: Id) {
    if Recorded(g, root) then x !in g.settled.value else x !in g.start && Nested(g.p, g.cold, x)
  }

  /** A held value that could be async by its own shape. */
  predicate Asyncish(p: Program, v: Id) {
    v in p.entities &&
    match p.entities[v]
    case Closure(_) => true
    case Field(s, i) => (s, i) in p.asyncFields
    case Call(inner) => CallReturnsAsync(p, inner)
    case _ => false
  }

  predicate SteadyHeld(g: Ground, root: Id, v: Id) {
    && (v in g.p.entities && g.p.entities[v].Closure? ==> !Wavers(g, root, g.p.entities[v].id))
    && (Recorded(g, root) && v !in g.p.coldIds ==> !Asyncish(g.p, v))
  }

  /** The argument is no closure that wavers, nor a local that holds one. */
  predicate SteadyValue(g: Ground, root: Id, a: Id) {
    a in g.p.entities ==>
      match g.p.entities[a]
      case Closure(x) => !Wavers(g, root, x)
      case Async(x) => !Wavers(g, root, x)
      case Local(t) => t in g.p.asyncValues
                       || (t in g.p.held ==> forall v :: v in g.p.held[t] ==> SteadyHeld(g, root, v))
      case _ => true
  }

  /** What the call passes to its callee's adaptive parameters is steady. */
  predicate SteadyCall(g: Ground, root: Id, c: CallSite) {
    c.target.Function? ==>
      forall i: nat :: i < Paired(g.p, c.target.id, c.callId)
                       && g.p.functions[c.target.id][i] in Adaptive(g.p, c.target.id)
        ==> SteadyValue(g, root, g.p.functionCalls[c.callId].arguments[i])
  }

  /** A value some context could find async. */
  predicate MayBeAsync(p: Program, a: Id) {
    a in p.entities &&
    match p.entities[a]
    case Closure(_) => true
    case Async(_) => true
    case Local(_) => true
    case Field(s, i) => (s, i) in p.asyncFields
    case Call(inner) => CallReturnsAsync(p, inner)
    case Other => false
  }

  /** The call passes something that may be async to an adaptive parameter of a function of the view. */
  predicate MayName(p: Program, cold: bool, c: CallSite) {
    && c.target.Function? && InView(p, cold, c.target.id)
    && exists i: nat :: i < Paired(p, c.target.id, c.callId) && p.functions[c.target.id][i] in Adaptive(p, c.target.id)
                        && MayBeAsync(p, p.functionCalls[c.callId].arguments[i])
  }

  /** A numbering of the functions, none above `top`. */
  datatype Tiers = Tiers(rank: Id -> nat, top: nat)

  predicate Descends(g: Ground, t: Tiers, root: Id, c: CallSite) {
    c.target.Function?
    && (|| t.rank(c.target.id) < t.rank(root)
        || (t.rank(root) == 0 == t.rank(c.target.id) && SteadyCall(g, root, c)))
  }

  ghost predicate TieredAt(g: Ground, t: Tiers, f: Id) {
    && t.rank(f) <= t.top
    && forall m, c :: m in Component(g.p, f) && c in CallsOf(g.p, m) && MayName(g.p, g.cold, c) ==> Descends(g, t, f, c)
  }

  ghost predicate Tiered(g: Ground, t: Tiers) {
    forall f :: f in g.p.functions && InView(g.p, g.cold, f) ==> TieredAt(g, t, f)
  }

  // ----- the condition over more, and over less -----

  lemma SteadierValue(g: Ground, g': Ground, root: Id, a: Id)
    requires g'.p == g.p && SteadyValue(g, root, a) && (Recorded(g', root) ==> Recorded(g, root))
    requires forall x :: Wavers(g', root, x) ==> Wavers(g, root, x)
    ensures SteadyValue(g', root, a)
  {
    if a in g.p.entities && g.p.entities[a].Local? {
      var t := g.p.entities[a].id;
      if t !in g.p.asyncValues && t in g.p.held {
        forall v | v in g.p.held[t] ensures SteadyHeld(g', root, v) {
          assert SteadyHeld(g, root, v);
        }
      }
    }
  }

  lemma SteadierCall(g: Ground, g': Ground, root: Id, c: CallSite)
    requires g'.p == g.p && SteadyCall(g, root, c) && (Recorded(g', root) ==> Recorded(g, root))
    requires forall x :: Wavers(g', root, x) ==> Wavers(g, root, x)
    ensures SteadyCall(g', root, c)
  {
    if c.target.Function? {
      forall i: nat | i < Paired(g.p, c.target.id, c.callId)
                      && g.p.functions[c.target.id][i] in Adaptive(g.p, c.target.id)
        ensures SteadyValue(g', root, g.p.functionCalls[c.callId].arguments[i])
      {
        SteadierValue(g, g', root, g.p.functionCalls[c.callId].arguments[i]);
      }
    }
  }

  /** `g'` asks no more: a view as small, an async set as large, a record's world as settled or none. */
  ghost predicate AsksNoMore(g: Ground, g': Ground) {
    && g'.p == g.p && (g.cold ==> g'.cold)
    && (g'.settled.Some? ==> g.settled.Some? && g.settled.value <= g'.settled.value)
    && (forall i :: i in g.start && InView(g.p, g'.cold, i) ==> i in g'.start)
    && (g.settled.Some? ==> g.settled.value <= g.start && g.settled.value <= g'.start)
  }

  lemma WaversLess(g: Ground, g': Ground, root: Id, x: Id)
    requires AsksNoMore(g, g') && Wavers(g', root, x) && (g'.cold ==> ColdComponents(g.p) && root in g.p.coldIds)
    ensures Wavers(g, root, x)
  {
    if !Recorded(g', root) {
      var f :| f in g.p.functions && InView(g.p, g'.cold, f) && x in Component(g.p, f);
      assert InView(g.p, g.cold, f);
      if g'.cold { DescendCold(g.p, [f], 0, |AllChildren(g.p)| + 1); }
    }
  }

  lemma TieredStill(g: Ground, g': Ground, t: Tiers)
    requires Tiered(g, t) && AsksNoMore(g, g') && (g'.cold ==> ColdComponents(g.p))
    ensures Tiered(g', t)
  {
    forall f | f in g.p.functions && InView(g.p, g'.cold, f) ensures TieredAt(g', t, f) {
      assert InView(g.p, g.cold, f) && TieredAt(g, t, f);
      forall m, c | m in Component(g.p, f) && c in CallsOf(g.p, m) && MayName(g.p, g'.cold, c)
        ensures Descends(g', t, f, c)
      {
        assert MayName(g.p, g.cold, c) && Descends(g, t, f, c);
        if SteadyCall(g, f, c) {
          forall x | Wavers(g', f, x) ensures Wavers(g, f, x) {
            WaversLess(g, g', f, x);
          }
          SteadierCall(g, g', f, c);
        }
      }
    }
  }

  // ----- steady calls name one instance -----

  /** An async set the round over `g` may reach: the start, and bodies of the view. */
  ghost predicate Grown(g: Ground, known: set<Id>) {
    && g.start <= known && (forall i :: i in known && i !in g.start ==> Nested(g.p, g.cold, i))
    && (g.settled.Some? ==> g.settled.value <= g.start)
  }

  lemma SteadyClosure(g: Ground, root: Id, x: Id, known: set<Id>, flags: set<Id>, known': set<Id>, flags': set<Id>)
    requires root in g.p.functions && InView(g.p, g.cold, root) && !Wavers(g, root, x)
    requires Grown(g, known) && Grown(g, known')
    requires forall m :: m in flags + flags' ==> m in Component(g.p, root)
    ensures ClosureAsync(known, flags, x) <==> ClosureAsync(known', flags', x)
  {
    if !Recorded(g, root) && x !in g.start {
      assert x !in flags + flags';
    }
  }

  lemma SteadyArgument(g: Ground, root: Id, a: Id, bits: set<Id>,
                       known: set<Id>, flags: set<Id>, known': set<Id>, flags': set<Id>)
    requires root in g.p.functions && InView(g.p, g.cold, root) && SteadyValue(g, root, a)
    requires Grown(g, known) && Grown(g, known')
    requires forall m :: m in flags + flags' ==> m in Component(g.p, root)
    ensures ValueAsync(g.p, g.cold, known, flags, bits, a) <==> ValueAsync(g.p, g.cold, known', flags', bits, a)
  {
    if a in g.p.entities {
      match g.p.entities[a]
      case Closure(x) => SteadyClosure(g, root, x, known, flags, known', flags');
      case Async(x) => SteadyClosure(g, root, x, known, flags, known', flags');
      case Local(t) =>
        if t !in g.p.asyncValues && t in g.p.held {
          forall v | v in g.p.held[t]
            ensures HeldValueAsync(g.p, known, flags, v) <==> HeldValueAsync(g.p, known', flags', v)
          {
            assert SteadyHeld(g, root, v);
            if v in g.p.entities && g.p.entities[v].Closure? {
              SteadyClosure(g, root, g.p.entities[v].id, known, flags, known', flags');
            }
          }
        }
      case _ =>
    }
  }

  /** A steady call's adapted parameters are the same throughout the round. */
  lemma SteadyBits(g: Ground, root: Id, c: CallSite, bits: set<Id>,
                   known: set<Id>, flags: set<Id>, known': set<Id>, flags': set<Id>)
    requires root in g.p.functions && InView(g.p, g.cold, root) && SteadyCall(g, root, c) && c.target.Function?
    requires Grown(g, known) && Grown(g, known')
    requires forall m :: m in flags + flags' ==> m in Component(g.p, root)
    ensures BitsForCall(g.p, g.cold, known, flags, bits, c.target.id, c.callId)
         == BitsForCall(g.p, g.cold, known', flags', bits, c.target.id, c.callId)
  {
    var callee, callId := c.target.id, c.callId;
    forall i: nat | i < Paired(g.p, callee, callId)
      ensures Adapts(g.p, g.cold, known, flags, bits, callee, callId, i)
         <==> Adapts(g.p, g.cold, known', flags', bits, callee, callId, i)
    {
      if g.p.functions[callee][i] in Adaptive(g.p, callee) {
        SteadyArgument(g, root, g.p.functionCalls[callId].arguments[i], bits, known, flags, known', flags');
      }
    }
  }

  lemma NamesNothing(p: Program, cold: bool, known: set<Id>, flags: set<Id>, bits: set<Id>, c: CallSite)
    requires c.target.Function? && InView(p, cold, c.target.id) && !MayName(p, cold, c)
    ensures BitsForCall(p, cold, known, flags, bits, c.target.id, c.callId) == {}
  {
  }

  lemma MetMayName(p: Program, cold: bool, known: set<Id>, flags: set<Id>, bits: set<Id>, c: CallSite)
    requires Met(p, cold, known, flags, bits, c).Some?
    ensures MayName(p, cold, c) && Met(p, cold, known, flags, bits, c).value.root == c.target.id
  {
    if !MayName(p, cold, c) { NamesNothing(p, cold, known, flags, bits, c); }
  }

  // ----- among the functions numbered 0 an evaluation only grows -----

  /** Every true instance of tier 0 stays true. */
  ghost predicate GroundTrues(g: Ground, t: Tiers, trues: set<Key>, trues': set<Key>) {
    forall k :: k in trues && t.rank(k.root) == 0 ==> k in trues'
  }

  lemma GroundAwaits(g: Ground, t: Tiers, root: Id, bits: set<Id>, m: Id, c: CallSite,
                     known: set<Id>, flags: set<Id>, trues: set<Key>,
                     known': set<Id>, flags': set<Id>, trues': set<Key>)
    requires root in g.p.functions && InView(g.p, g.cold, root) && TieredAt(g, t, root) && t.rank(root) == 0
    requires m in Component(g.p, root) && c in CallsOf(g.p, m)
    requires Grown(g, known) && Grown(g, known') && known <= known' && flags <= flags'
    requires forall x :: x in flags' ==> x in Component(g.p, root)
    requires g.cold ==> known' <= g.p.coldIds
    requires GroundTrues(g, t, trues, trues')
    requires CallAwaits(g.p, g.cold, known, flags, bits, trues, c)
    ensures CallAwaits(g.p, g.cold, known', flags', bits, trues', c)
  {
    match c.target
    case Function(callee) =>
      if MayName(g.p, g.cold, c) {
        assert Descends(g, t, root, c);
        SteadyBits(g, root, c, bits, known, flags, known', flags');
      } else if InView(g.p, g.cold, callee) {
        NamesNothing(g.p, g.cold, known, flags, bits, c);
        NamesNothing(g.p, g.cold, known', flags', bits, c);
      }
    case External(_) =>
    case Indirect(GenericMember) =>
    case Indirect(TraitDispatch) =>
    case _ =>
      if c.callId in g.p.functionCalls {
        SubjectMono(g.p, g.cold, known, g.cold, known', g.p.functionCalls[c.callId].subject);
      }
  }

  /** Whatever flags it is asked under, an awaiting call's member is in `bound`. */
  ghost predicate Bounds(f: Frame, ms: seq<Id>, bound: set<Id>) {
    forall m, c, flags :: m in ms && c in CallsOf(f.p, m) && flags <= bound && Awaits(f, flags, c) ==> m in bound
  }

  lemma {:induction false} CallsWithin(f: Frame, ms: seq<Id>, bound: set<Id>, m: Id, cs: seq<CallSite>, e: Eval)
    requires Bounds(f, ms, bound) && m in ms && (forall c :: c in cs ==> c in CallsOf(f.p, m)) && e.flags <= bound
    ensures VisitCalls(f, m, cs, e).flags <= bound
  {
    if cs != [] {
      CallsWithin(f, ms, bound, m, cs[..|cs| - 1], e);
      assert cs[|cs| - 1] in CallsOf(f.p, m);
    }
  }

  lemma {:induction false} MembersWithin(f: Frame, ms: seq<Id>, bound: set<Id>, part: seq<Id>, e: Eval)
    requires Bounds(f, ms, bound) && (forall m :: m in part ==> m in ms) && e.flags <= bound
    ensures VisitMembers(f, part, e).flags <= bound
  {
    if part != [] {
      var n := |part| - 1;
      MembersWithin(f, ms, bound, part[..n], e);
      CallsWithin(f, ms, bound, part[n], CallsOf(f.p, part[n]), VisitMembers(f, part[..n], e));
    }
  }

  lemma {:induction false} SettlesWithin(f: Frame, ms: seq<Id>, bound: set<Id>, e: Eval)
    requires Bounds(f, ms, bound) && e.flags <= bound
    ensures Settle(f, ms, e).flags <= bound
    decreases |Unflagged(ms, e.flags)|
  {
    MembersWithin(f, ms, bound, ms, e);
    var next := VisitMembers(f, ms, e);
    if next.flags != e.flags {
      FewerUnflagged(ms, e.flags, next.flags);
      SettlesWithin(f, ms, bound, next);
    }
  }

  /** Two frames one instance is evaluated in, the second after the first. */
  ghost predicate Later(g: Ground, t: Tiers, f: Frame, f': Frame) {
    && f.p == f'.p == g.p && f.cold == f'.cold == g.cold && f.bits == f'.bits
    && Grown(g, f.known) && Grown(g, f'.known) && f.known <= f'.known && (g.cold ==> f'.known <= g.p.coldIds)
    && GroundTrues(g, t, f.trues, f'.trues)
  }

  lemma GroundBounds(g: Ground, t: Tiers, f: Frame, f': Frame, root: Id)
    requires root in g.p.functions && InView(g.p, g.cold, root) && TieredAt(g, t, root) && t.rank(root) == 0
    requires Later(g, t, f, f')
    ensures Bounds(f, Component(g.p, root), Evaluate(f', root).flags)
  {
    var ms, e := Component(g.p, root), Evaluate(f', root);
    SettleSettles(f', ms, Begin(f', ms));
    forall m, c, flags | m in ms && c in CallsOf(f.p, m) && flags <= e.flags && Awaits(f, flags, c)
      ensures m in e.flags
    {
      GroundAwaits(g, t, root, f.bits, m, c, f.known, flags, f.trues, f'.known, e.flags, f'.trues);
      assert Heard(f', e.flags, e.met, e.logged, m, c);
    }
  }

  lemma EvaluationGrows(g: Ground, t: Tiers, f: Frame, f': Frame, root: Id)
    requires root in g.p.functions && InView(g.p, g.cold, root) && TieredAt(g, t, root) && t.rank(root) == 0
    requires Later(g, t, f, f')
    ensures Evaluate(f, root).flags <= Evaluate(f', root).flags
  {
    var ms := Component(g.p, root);
    GroundBounds(g, t, f, f', root);
    SettleSettles(f', ms, Begin(f', ms));
    SettlesWithin(f, ms, Evaluate(f', root).flags, Begin(f, ms));
  }
}

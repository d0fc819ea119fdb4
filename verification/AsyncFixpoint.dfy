/** The reference answer of async inference: the least flags of every instance over an async set,
    and the least async set.  Nothing here follows the worklist; every schedule is measured
    against it. */
module AsyncFixpoint {
  import opened AsyncProgram
  import opened Iterates

  /** Flagged members of instances. */
  type Flagged = set<(Key, Id)>

  ghost function Row(s: Flagged, k: Key): set<Id> {
    set pr | pr in s && pr.0 == k :: pr.1
  }

  /** The instances whose root is flagged: the ones that await. */
  ghost function Roots(s: Flagged): set<Key> {
    set pr | pr in s && pr.1 == pr.0.root :: pr.0
  }

  ghost function Universe(p: Program, cold: bool): Flagged {
    set k, m | k in Keys(p, cold) && m in Component(p, k.root) :: (k, m)
  }

  ghost predicate Justified(p: Program, cold: bool, known: set<Id>, s: Flagged, k: Key, m: Id) {
    || m in known
    || exists c :: c in CallsOf(p, m) && CallAwaits(p, cold, known, Row(s, k), k.bits, Roots(s), c)
  }

  ghost function Step(p: Program, cold: bool, known: set<Id>, s: Flagged): Flagged {
    set pr | pr in Universe(p, cold) && Justified(p, cold, known, s, pr.0, pr.1)
  }

  ghost predicate Closed(p: Program, cold: bool, known: set<Id>, s: Flagged) {
    Step(p, cold, known, s) <= s
  }

  /** The members the async set already holds. */
  ghost function Start(p: Program, cold: bool, known: set<Id>): Flagged {
    set pr | pr in Universe(p, cold) && pr.1 in known
  }

  ghost function Kleene(p: Program, cold: bool, known: set<Id>, n: nat): Flagged {
    Iter(s => Step(p, cold, known, s), Start(p, cold, known), n)
  }

  /** The least flags of every instance at once. */
  ghost function Least(p: Program, cold: bool, known: set<Id>): Flagged {
    Kleene(p, cold, known, |Universe(p, cold)|)
  }

  ghost predicate BitsClosed(p: Program, cold: bool, s: Flagged) {
    forall k, k': Key, m :: (k, m) in s && k' in Keys(p, cold) && k'.root == k.root && k.bits <= k'.bits
      ==> (k', m) in s
  }

  lemma RowsGrow(s: Flagged, s': Flagged, k: Key)
    requires s <= s'
    ensures Row(s, k) <= Row(s', k) && Roots(s) <= Roots(s')
  {
    forall m | m in Row(s, k) ensures m in Row(s', k) {
      assert (k, m) in s';
    }
    forall x | x in Roots(s) ensures x in Roots(s') {
      assert (x, x.root) in s';
    }
  }

  lemma RowBits(p: Program, cold: bool, s: Flagged, k: Key, k': Key)
    requires BitsClosed(p, cold, s) && k' in Keys(p, cold) && k'.root == k.root && k.bits <= k'.bits
    ensures Row(s, k) <= Row(s, k')
  {
    forall m | m in Row(s, k) ensures m in Row(s, k') {
      assert (k', m) in s;
    }
  }

  lemma RootsWiden(p: Program, cold: bool, s: Flagged, s': Flagged)
    requires s <= Universe(p, cold) && s <= s' && BitsClosed(p, cold, s)
    ensures Widens(p, Roots(s), Roots(s'))
  {
    forall k: Key, k': Key | k in Roots(s) && k'.root == k.root && k.bits <= k'.bits <= Adaptive(p, k.root)
      ensures k' in Roots(s')
    {
      assert (k, k.root) in s;
      assert k in Keys(p, cold);
      assert k' in Keys(p, cold);
      assert (k', k'.root) in s;
    }
  }

  lemma ClosedSeeded(p: Program, cold: bool, known: set<Id>, s: Flagged)
    requires Closed(p, cold, known, s)
    ensures Seeded(p, cold, known, Roots(s))
  {
    forall k | k in Keys(p, cold) && k.root in known ensures k in Roots(s) {
      assert (k, k.root) in Universe(p, cold);
      assert (k, k.root) in Step(p, cold, known, s);
      assert (k, k.root) in s;
    }
  }

  ghost predicate Regular(p: Program, cold: bool, known: set<Id>, s: Flagged) {
    && s <= Universe(p, cold)
    && BitsClosed(p, cold, s)
    && (forall pr :: pr in Universe(p, cold) && pr.1 in known ==> pr in s)
  }

  lemma RegularSeeded(p: Program, cold: bool, known: set<Id>, s: Flagged)
    requires forall pr :: pr in Universe(p, cold) && pr.1 in known ==> pr in s
    ensures Seeded(p, cold, known, Roots(s))
  {
    forall k | k in Keys(p, cold) && k.root in known ensures k in Roots(s) {
      assert (k, k.root) in Universe(p, cold);
      assert (k, k.root) in s;
    }
  }

  lemma StepRegular(p: Program, cold: bool, known: set<Id>, s: Flagged)
    requires (cold ==> known <= p.coldIds) && Regular(p, cold, known, s)
    ensures Regular(p, cold, known, Step(p, cold, known, s))
  {
    var t := Step(p, cold, known, s);
    forall k: Key, k': Key, m | (k, m) in t && k' in Keys(p, cold) && k'.root == k.root && k.bits <= k'.bits
      ensures (k', m) in t
    {
      assert (k', m) in Universe(p, cold);
      if m !in known {
        var c :| c in CallsOf(p, m) && CallAwaits(p, cold, known, Row(s, k), k.bits, Roots(s), c);
        RowBits(p, cold, s, k, k');
        RootsWiden(p, cold, s, s);
        RegularSeeded(p, cold, known, s);
        AwaitsLift(p, cold, known, Row(s, k), k.bits, Roots(s), cold, known, Row(s, k'), k'.bits, Roots(s), c);
      }
      assert Justified(p, cold, known, s, k', m);
    }
  }

  lemma StartRegular(p: Program, cold: bool, known: set<Id>)
    ensures Regular(p, cold, known, Start(p, cold, known))
  {
    var t := Start(p, cold, known);
    forall k: Key, k': Key, m | (k, m) in t && k' in Keys(p, cold) && k'.root == k.root && k.bits <= k'.bits
      ensures (k', m) in t
    {
      assert (k', m) in Universe(p, cold);
    }
  }

  lemma StepMono(p: Program, cold: bool, known: set<Id>, s: Flagged, t: Flagged)
    requires cold ==> known <= p.coldIds
    requires Regular(p, cold, known, s) && Regular(p, cold, known, t) && s <= t
    ensures Step(p, cold, known, s) <= Step(p, cold, known, t)
  {
    forall pr | pr in Step(p, cold, known, s) ensures pr in Step(p, cold, known, t) {
      var (k, m) := pr;
      if m !in known {
        var c :| c in CallsOf(p, m) && CallAwaits(p, cold, known, Row(s, k), k.bits, Roots(s), c);
        RowsGrow(s, t, k);
        RootsWiden(p, cold, s, t);
        RegularSeeded(p, cold, known, t);
        AwaitsLift(p, cold, known, Row(s, k), k.bits, Roots(s), cold, known, Row(t, k), k.bits, Roots(t), c);
      }
      assert Justified(p, cold, known, t, k, m);
    }
  }

  /** One step from a regular set below a set closed in a wider view stays below it. */
  lemma StepBelow(p: Program, cold: bool, known: set<Id>, cold': bool, known': set<Id>, q: Flagged, s: Flagged)
    requires (cold' ==> cold) && known <= known' && (cold ==> known <= p.coldIds)
    requires Regular(p, cold, known, q) && q <= s && Closed(p, cold', known', s)
    ensures Step(p, cold, known, q) <= s
  {
    forall pr | pr in Step(p, cold, known, q) ensures pr in s {
      var (k, m) := pr;
      assert pr in Universe(p, cold');
      if m !in known {
        var c :| c in CallsOf(p, m) && CallAwaits(p, cold, known, Row(q, k), k.bits, Roots(q), c);
        RowsGrow(q, s, k);
        RootsWiden(p, cold, q, s);
        ClosedSeeded(p, cold', known', s);
        AwaitsLift(p, cold, known, Row(q, k), k.bits, Roots(q), cold', known', Row(s, k), k.bits, Roots(s), c);
      }
      assert Justified(p, cold', known', s, k, m);
      assert pr in Step(p, cold', known', s);
    }
  }

  lemma KleeneClimbs(p: Program, cold: bool, known: set<Id>)
    requires cold ==> known <= p.coldIds
    ensures Climbs((s: Flagged) => Step(p, cold, known, s), Start(p, cold, known),
                   (s: Flagged) => Regular(p, cold, known, s))
  {
    StartRegular(p, cold, known);
    forall s | Regular(p, cold, known, s) ensures Regular(p, cold, known, Step(p, cold, known, s)) {
      StepRegular(p, cold, known, s);
    }
    forall s, t | Regular(p, cold, known, s) && Regular(p, cold, known, t) && s <= t
      ensures Step(p, cold, known, s) <= Step(p, cold, known, t)
    {
      StepMono(p, cold, known, s, t);
    }
  }

  /** The iterates lie below every closed set of a wider view over a larger async set. */
  lemma KleeneBelow(p: Program, cold: bool, known: set<Id>, cold': bool, known': set<Id>, t: Flagged, n: nat)
    requires (cold' ==> cold) && known <= known' && (cold ==> known <= p.coldIds)
    requires Closed(p, cold', known', t)
    ensures Kleene(p, cold, known, n) <= t
  {
    KleeneClimbs(p, cold, known);
    forall s | Regular(p, cold, known, s) && s <= t ensures Step(p, cold, known, s) <= t {
      StepBelow(p, cold, known, cold', known', s, t);
    }
    forall pr | pr in Start(p, cold, known) ensures pr in t {
      assert pr in Universe(p, cold') && Justified(p, cold', known', t, pr.0, pr.1);
      assert pr in Step(p, cold', known', t);
    }
    IterBelow((s: Flagged) => Step(p, cold, known, s), Start(p, cold, known),
              (s: Flagged) => Regular(p, cold, known, s), t, n);
  }

  lemma KleeneRegular(p: Program, cold: bool, known: set<Id>, n: nat)
    requires cold ==> known <= p.coldIds
    ensures Regular(p, cold, known, Kleene(p, cold, known, n))
  {
    KleeneClimbs(p, cold, known);
    IterKeeps((s: Flagged) => Step(p, cold, known, s), Start(p, cold, known),
              (s: Flagged) => Regular(p, cold, known, s), n);
  }

  lemma KleeneOrdered(p: Program, cold: bool, known: set<Id>, m: nat, n: nat)
    requires m <= n && (cold ==> known <= p.coldIds)
    ensures Kleene(p, cold, known, m) <= Kleene(p, cold, known, n)
  {
    KleeneClimbs(p, cold, known);
    IterOrdered((s: Flagged) => Step(p, cold, known, s), Start(p, cold, known),
                (s: Flagged) => Regular(p, cold, known, s), m, n);
  }

  lemma KleeneNext(p: Program, cold: bool, known: set<Id>, n: nat)
    requires n > 0
    ensures Kleene(p, cold, known, n) == Step(p, cold, known, Kleene(p, cold, known, n - 1))
  {
  }

  /** The least flags are closed, below every closed set, and monotone in the bits. */
  lemma LeastIsLeast(p: Program, cold: bool, known: set<Id>)
    requires cold ==> known <= p.coldIds
    ensures Step(p, cold, known, Least(p, cold, known)) == Least(p, cold, known)
    ensures Regular(p, cold, known, Least(p, cold, known))
    ensures forall s :: Closed(p, cold, known, s) ==> Least(p, cold, known) <= s
  {
    KleeneClimbs(p, cold, known);
    KleeneRegular(p, cold, known, |Universe(p, cold)|);
    IterStands((s: Flagged) => Step(p, cold, known, s), Start(p, cold, known),
               (s: Flagged) => Regular(p, cold, known, s), Universe(p, cold));
    forall s | Closed(p, cold, known, s) ensures Least(p, cold, known) <= s {
      KleeneBelow(p, cold, known, cold, known, s, |Universe(p, cold)|);
    }
  }

  lemma LeastInUniverse(p: Program, cold: bool, known: set<Id>)
    requires cold ==> known <= p.coldIds
    ensures Least(p, cold, known) <= Universe(p, cold)
  {
    KleeneRegular(p, cold, known, |Universe(p, cold)|);
  }

  /** A wider view over a larger async set flags at least as much. */
  lemma LeastMono(p: Program, cold: bool, known: set<Id>, cold': bool, known': set<Id>)
    requires (cold' ==> cold) && known <= known'
    requires (cold ==> known <= p.coldIds) && (cold' ==> known' <= p.coldIds)
    ensures Least(p, cold, known) <= Least(p, cold', known')
  {
    LeastIsLeast(p, cold', known');
    KleeneBelow(p, cold, known, cold', known', Least(p, cold', known'), |Universe(p, cold)|);
  }

  /** The least flags answer every growth of an awaiting instance, and every async function's. */
  lemma LeastAnswers(p: Program, cold: bool, known: set<Id>)
    requires cold ==> known <= p.coldIds
    ensures var t := Roots(Least(p, cold, known)); Widens(p, t, t) && Seeded(p, cold, known, t)
  {
    LeastIsLeast(p, cold, known);
    var s := Least(p, cold, known);
    RootsWiden(p, cold, s, s);
    ClosedSeeded(p, cold, known, s);
  }

  // ----- the outer fixpoint: the async set -----

  /** Closed under suspending calls: the plain, single-bit fixpoint's condition. */
  ghost predicate BaseClosed(p: Program, cold: bool, known: set<Id>) {
    forall n :: n in p.nodes && InView(p, cold, n) && Suspends(p, cold, known, n) ==> n in known
  }

  predicate Suspends(p: Program, cold: bool, known: set<Id>, n: Id) {
    exists c :: c in CallsOf(p, n) && CallSuspends(p, cold, known, c)
  }

  /** Contains every member flagged in a base instance. */
  ghost predicate InstancesClosed(p: Program, cold: bool, known: set<Id>) {
    forall f :: f in p.functions && InView(p, cold, f) ==> Row(Least(p, cold, known), Key(f, {})) <= known
  }

  ghost predicate OuterClosed(p: Program, cold: bool, seeds: set<Id>, known: set<Id>) {
    && (cold ==> known <= p.coldIds)
    && (forall i :: i in seeds && InView(p, cold, i) ==> i in known)
    && BaseClosed(p, cold, known)
    && InstancesClosed(p, cold, known)
  }

  /** A body's closures are cold exactly when it is. */
  predicate ColdComponents(p: Program) {
    forall n, c :: n in p.children && c in p.children[n] ==> (c in p.coldIds <==> n in p.coldIds)
  }

  /** Every id an async set could hold. */
  ghost function Ids(p: Program, cold: bool, seeds: set<Id>): set<Id> {
    set i | i in seeds + (set n | n in p.nodes) + (set f, m | f in p.functions.Keys && m in Component(p, f) :: m)
            && InView(p, cold, i)
  }

  /** The least async set. */
  ghost function LeastAsync(p: Program, cold: bool, seeds: set<Id>): set<Id> {
    set i | i in Ids(p, cold, seeds) && forall x :: OuterClosed(p, cold, seeds, x) ==> i in x
  }

  lemma {:induction false} DescendCold(p: Program, members: seq<Id>, cursor: nat, fuel: nat)
    requires ColdComponents(p) && forall m :: m in members ==> m in p.coldIds
    ensures forall m :: m in Descend(p, members, cursor, fuel) ==> m in p.coldIds
    decreases fuel
  {
    if fuel > 0 && cursor < |members| {
      assert members[cursor] in members;
      DescendCold(p, members + ChildrenOf(p, members[cursor]), cursor + 1, fuel - 1);
    }
  }

  lemma RowInIds(p: Program, cold: bool, seeds: set<Id>, known: set<Id>, f: Id)
    requires ColdComponents(p) && f in p.functions && InView(p, cold, f) && (cold ==> known <= p.coldIds)
    ensures Row(Least(p, cold, known), Key(f, {})) <= Ids(p, cold, seeds)
  {
    LeastIsLeast(p, cold, known);
    if cold { DescendCold(p, [f], 0, |AllChildren(p)| + 1); }
    forall m | m in Row(Least(p, cold, known), Key(f, {})) ensures m in Ids(p, cold, seeds) {
      assert (Key(f, {}), m) in Universe(p, cold);
    }
  }

  /** The least async set is outer-closed, and lies in every outer-closed set. */
  lemma LeastAsyncClosed(p: Program, cold: bool, seeds: set<Id>)
    requires ColdComponents(p)
    ensures OuterClosed(p, cold, seeds, LeastAsync(p, cold, seeds))
    ensures forall x :: OuterClosed(p, cold, seeds, x) ==> LeastAsync(p, cold, seeds) <= x
  {
    var a := LeastAsync(p, cold, seeds);
    forall n | n in p.nodes && InView(p, cold, n) && Suspends(p, cold, a, n) ensures n in a {
      var c :| c in CallsOf(p, n) && CallSuspends(p, cold, a, c);
      forall x | OuterClosed(p, cold, seeds, x) ensures n in x {
        SuspendsMono(p, cold, a, cold, x, c);
        assert Suspends(p, cold, x, n);
      }
    }
    forall f | f in p.functions && InView(p, cold, f) ensures Row(Least(p, cold, a), Key(f, {})) <= a {
      RowInIds(p, cold, seeds, a, f);
      forall x | OuterClosed(p, cold, seeds, x) ensures Row(Least(p, cold, a), Key(f, {})) <= x {
        LeastMono(p, cold, a, cold, x);
        RowsGrow(Least(p, cold, a), Least(p, cold, x), Key(f, {}));
      }
    }
  }
}

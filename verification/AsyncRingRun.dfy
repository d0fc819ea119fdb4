/** A stack-driven run of five instances that never ends: three, each the negation of the next, above
    one that waits at the bottom.  What the instances are is AsyncRing's; here they are only distinct,
    and `take` answers for them as `Law` says. */
module AsyncRingRun {
  import opened Basics
  import opened AsyncProgram
  import opened AsyncEvaluate
  import opened AsyncRound
  import opened AsyncInfer

  // ----- what a step leaves -----

  ghost predicate MetExactly(met: seq<Key>, keys: set<Key>) {
    (forall k :: k in met ==> k in keys) && (forall k :: k in keys ==> k in met)
  }

  function Waking(s: Round, k: Key, met: set<Key>, x: Key): set<Key> {
    DependentsOf(s.dependents, x) + (if x in met then {k} else {})
  }

  lemma NothingRewalked(w: World, s: Round, k: Key, e: Eval, met: set<Key>)
    requires w.rec.None? && MetExactly(e.met, met)
    ensures SeedingAfter(w, s, k, e) == s.seeding
    ensures Fresh(w, s, e.met) == met - s.verdicts.Keys
  {
  }

  lemma WakesReaders(s: Round, k: Key, e: Eval, met: set<Key>, x: Key)
    requires MetExactly(e.met, met)
    ensures DependentsOf(DependentsAfter(s, k, e), x) == Waking(s, k, met, x)
  {
  }

  lemma Answers(w: World, s: Round, k: Key, e: Eval, met: set<Key>)
    requires w.rec.None? && MetExactly(e.met, met)
    ensures var v := VerdictsAfter(w, s, k, e);
            && v.Keys == s.verdicts.Keys + met + {k}
            && (forall x :: x in v ==>
                  (v[x] <==> if x == k then k.root in e.flags else x in s.verdicts && s.verdicts[x]))
  {
    NothingRewalked(w, s, k, e, met);
  }

  lemma Queues(w: World, s: Round, k: Key, e: Eval, met: set<Key>)
    requires w.rec.None? && MetExactly(e.met, met) && k !in met
    ensures QueuedAfter(w, s, k, e)
         == s.queued - {k} + (met - s.verdicts.Keys)
            + (if k.root in e.flags && !(k in s.verdicts && s.verdicts[k]) then Waking(s, k, met, k) else {})
  {
    NothingRewalked(w, s, k, e, met);
    WakesReaders(s, k, e, met, k);
  }

  /** `s'` is `s` after `k` answered `flag` having met exactly `met`. */
  ghost predicate Advanced(s: Round, k: Key, flag: bool, met: set<Key>, s': Round) {
    && s'.known == s.known
    && s'.verdicts.Keys == s.verdicts.Keys + met + {k}
    && (forall x :: x in s'.verdicts
          ==> (s'.verdicts[x] <==> if x == k then flag else x in s.verdicts && s.verdicts[x]))
    && (forall x :: DependentsOf(s'.dependents, x) == Waking(s, k, met, x))
    && s'.queued == s.queued - {k} + (met - s.verdicts.Keys)
         + (if flag && !(k in s.verdicts && s.verdicts[k]) then Waking(s, k, met, k) else {})
  }

  lemma AdaptedStep(w: World, s: Round, k: Key, e: Eval, met: set<Key>)
    requires w.rec.None? && k.bits != {} && MetExactly(e.met, met) && k !in met
    ensures Advanced(s, k, k.root in e.flags, met, Absorb(w, s, k, e))
  {
    Answers(w, s, k, e, met);
    Queues(w, s, k, e, met);
    forall x ensures DependentsOf(DependentsAfter(s, k, e), x) == Waking(s, k, met, x) {
      WakesReaders(s, k, e, met, x);
    }
  }

  lemma TakeAdvances(w: World, s: Round, k: Key, f: Frame, flag: bool, met: set<Key>)
    requires w.rec.None? && k.bits != {} && Answering(w, s, k) == f && k !in met
    requires (k.root in Evaluate(f, k.root).flags <==> flag) && MetExactly(Evaluate(f, k.root).met, met)
    ensures Advanced(s, k, flag, met, TakeKey(w, s, k))
  {
    AdaptedStep(w, s, k, Evaluate(f, k.root), met);
  }

  // ----- the cast -----

  /** `a`, `b`, `c` in a ring; each names `one`, or `both` once the next awaits; `both` waits in `base`. */
  datatype Cast = Cast(base: seq<Key>, one: Key, both: Key, a: Key, b: Key, c: Key)

  ghost predicate Distinct(r: Cast) {
    && r.a != r.b && r.b != r.c && r.a != r.c
    && r.one !in {r.a, r.b, r.c, r.both} && r.both !in {r.a, r.b, r.c}
    && r.one !in r.base && r.a !in r.base && r.b !in r.base && r.c !in r.base
  }

  /** How `x` answers: `next` follows it in the ring, `other` follows that. */
  ghost predicate Inverts(take: (Round, Key) -> Round, r: Cast, s: Round, x: Key, next: Key, other: Key) {
    var chosen := if next in TrueKeys(s.verdicts) then r.both else r.one;
    Advanced(s, x, chosen in TrueKeys(s.verdicts), {next, other, chosen}, take(s, x))
  }

  ghost predicate Law(take: (Round, Key) -> Round, r: Cast, known: set<Id>) {
    && Distinct(r)
    && (forall s: Round {:trigger take(s, r.a)} :: s.known == known ==> Inverts(take, r, s, r.a, r.b, r.c))
    && (forall s: Round {:trigger take(s, r.b)} :: s.known == known ==> Inverts(take, r, s, r.b, r.c, r.a))
    && (forall s: Round {:trigger take(s, r.c)} :: s.known == known ==> Inverts(take, r, s, r.c, r.a, r.b))
    && (forall s: Round {:trigger take(s, r.one)} :: s.known == known ==> Advanced(s, r.one, true, {}, take(s, r.one)))
  }

  /** One turn as the source takes it: off the top of the stack, what it queues on top of the rest. */
  ghost predicate LifoStep(take: (Round, Key) -> Round, s: Round, stack: seq<Key>, s': Round, stack': seq<Key>) {
    && stack != [] && s' == take(s, stack[|stack| - 1])
    && stack[..|stack| - 1] <= stack' && Stacked(stack', s'.queued)
  }

  /** What the round holds and answers, who reads whom, and what is on the stack above the base. */
  ghost predicate At(r: Cast, known: set<Id>, s: Round, stack: seq<Key>, above: seq<Key>, held: set<Key>,
                     trues: set<Key>,
                     da: set<Key>, db: set<Key>, dc: set<Key>)
  {
    && s.known == known && stack == r.base + above && Stacked(stack, s.queued)
    && s.verdicts.Keys == held && TrueKeys(s.verdicts) == trues
    && DependentsOf(s.dependents, r.a) == da && DependentsOf(s.dependents, r.b) == db
    && DependentsOf(s.dependents, r.c) == dc
  }

  // ----- the stack -----

  lemma StackPush(stack: seq<Key>, queued: set<Key>, more: seq<Key>, added: set<Key>)
    requires Stacked(stack, queued) && (forall i, j :: 0 <= i < j < |more| ==> more[i] != more[j])
    requires (forall k :: k in more ==> k !in stack) && (forall x :: x in more <==> x in added)
    ensures Stacked(stack + more, queued + added)
  {
    var all := stack + more;
    forall i, j | 0 <= i < j < |all| ensures all[i] != all[j] {
      if |stack| <= j {
        assert all[j] == more[j - |stack|] && more[j - |stack|] in more;
        if |stack| <= i {
          assert all[i] == more[i - |stack|];
        } else {
          assert all[i] == stack[i];
        }
      } else {
        assert all[i] == stack[i] && all[j] == stack[j];
      }
    }
  }

  lemma PopLast(under: seq<Key>, k: Key, queued: set<Key>)
    requires Stacked(under + [k], queued)
    ensures Stacked(under, queued - {k})
  {
    PopStacked(under + [k], queued);
    assert (under + [k])[..|under|] == under;
  }

  /** The top of the stack gives way to `more`. */
  lemma StackSwap(base: seq<Key>, rest: seq<Key>, k: Key, more: seq<Key>, queued: set<Key>, added: set<Key>)
    requires Stacked(base + (rest + [k]), queued)
    requires forall i, j :: 0 <= i < j < |more| ==> more[i] != more[j]
    requires forall x :: x in more ==> x !in base && x !in rest
    requires forall x :: x in more <==> x in added
    ensures Stacked(base + (rest + more), queued - {k} + added)
  {
    assert base + (rest + [k]) == (base + rest) + [k] && base + (rest + more) == (base + rest) + more;
    PopLast(base + rest, k, queued);
    StackPush(base + rest, queued - {k}, more, added);
  }

  function Adding(k: Key, met: set<Key>, x: Key): set<Key> {
    if x in met then {k} else {}
  }

  /** From a state `At` describes: `k` is taken off the top, answers `flag`, and `more` is pushed. */
  lemma AtTurn(take: (Round, Key) -> Round, r: Cast, known: set<Id>, s: Round, stack: seq<Key>, rest: seq<Key>, k: Key,
               held: set<Key>, trues: set<Key>, da: set<Key>, db: set<Key>, dc: set<Key>,
               flag: bool, met: set<Key>, woken: set<Key>, more: seq<Key>)
    requires At(r, known, s, stack, rest + [k], held, trues, da, db, dc) && Advanced(s, k, flag, met, take(s, k))
    requires woken == if flag && k !in trues then Waking(s, k, met, k) else {}
    requires forall i, j :: 0 <= i < j < |more| ==> more[i] != more[j]
    requires forall x :: x in more ==> x !in r.base && x !in rest
    requires forall x :: x in more <==> x in (met - held) + woken
    ensures LifoStep(take, s, stack, take(s, k), r.base + (rest + more))
    ensures At(r, known, take(s, k), r.base + (rest + more), rest + more,
               held + met + {k}, if flag then trues + {k} else trues - {k},
               da + Adding(k, met, r.a), db + Adding(k, met, r.b), dc + Adding(k, met, r.c))
  {
    var s' := take(s, k);
    StackSwap(r.base, rest, k, more, s.queued, (met - held) + woken);
    assert k in trues <==> k in s.verdicts && s.verdicts[k];
    assert s.queued - {k} + ((met - held) + woken) == s'.queued;
    assert stack == (r.base + rest) + [k] && stack[..|stack| - 1] == r.base + rest;
    assert r.base + (rest + more) == (r.base + rest) + more;
    AnswersTrue(s, k, flag, met, s');
  }

  lemma AnswersTrue(s: Round, k: Key, flag: bool, met: set<Key>, s': Round)
    requires Advanced(s, k, flag, met, s')
    ensures TrueKeys(s'.verdicts) == if flag then TrueKeys(s.verdicts) + {k} else TrueKeys(s.verdicts) - {k}
  {
  }

  // ----- the ring -----

  /** The state the ring keeps coming back to: `a` and `b` answer true, `c` false; `a` is on top, `c`
      below it, and each is read by the other two. */
  ghost predicate RingAt(r: Cast, known: set<Id>, s: Round, stack: seq<Key>) {
    At(r, known, s, stack, [r.c] + [r.a], {r.both, r.one, r.a, r.b, r.c}, {r.one, r.a, r.b}, {r.b, r.c}, {r.a, r.c},
       {r.a, r.b})
  }

  /** The ring turned by one. */
  function Turned(r: Cast): Cast {
    r.(a := r.b, b := r.c, c := r.a)
  }

  /** `a` falls back: its next awaits now. */
  lemma Dips(take: (Round, Key) -> Round, r: Cast, known: set<Id>, s: Round, stack: seq<Key>)
    requires Law(take, r, known) && RingAt(r, known, s, stack)
    ensures LifoStep(take, s, stack, take(s, r.a), r.base + [r.c])
    ensures At(r, known, take(s, r.a), r.base + [r.c], [] + [r.c], {r.both, r.one, r.a, r.b, r.c}, {r.one, r.b},
               {r.b, r.c}, {r.a, r.c}, {r.a, r.b})
  {
    var held, met := {r.both, r.one, r.a, r.b, r.c}, {r.b, r.c, r.both};
    assert Inverts(take, r, s, r.a, r.b, r.c);
    assert met - held == {};
    AtTurn(take, r, known, s, stack, [r.c], r.a, held, {r.one, r.a, r.b}, {r.b, r.c}, {r.a, r.c}, {r.a, r.b},
           false, met, {}, []);
    assert [r.c] + [] == [r.c] == [] + [r.c];
    assert held + met + {r.a} == held && {r.one, r.a, r.b} - {r.a} == {r.one, r.b};
    assert {r.b, r.c} + Adding(r.a, met, r.a) == {r.b, r.c} && {r.a, r.c} + Adding(r.a, met, r.b) == {r.a, r.c};
    assert {r.a, r.b} + Adding(r.a, met, r.c) == {r.a, r.b};
  }

  lemma RisesAt(take: (Round, Key) -> Round, r: Cast, known: set<Id>, s: Round, stack: seq<Key>)
    requires Law(take, r, known)
    requires At(r, known, s, stack, [] + [r.c], {r.both, r.one, r.a, r.b, r.c}, {r.one, r.b}, {r.b, r.c}, {r.a, r.c},
                {r.a, r.b})
    ensures LifoStep(take, s, stack, take(s, r.c), r.base + ([r.a] + [r.b]))
    ensures At(r, known, take(s, r.c), r.base + ([r.a] + [r.b]), [r.a] + [r.b],
               {r.both, r.one, r.a, r.b, r.c}, {r.one, r.b, r.c}, {r.b, r.c}, {r.a, r.c}, {r.a, r.b})
  {
    var held, met := {r.both, r.one, r.a, r.b, r.c}, {r.a, r.b, r.one};
    assert Inverts(take, r, s, r.c, r.a, r.b);
    RisesSets(r.both, r.one, r.a, r.b, r.c);
    assert Waking(s, r.c, met, r.c) == {r.a, r.b};
    AtTurn(take, r, known, s, stack, [], r.c, held, {r.one, r.b}, {r.b, r.c}, {r.a, r.c}, {r.a, r.b},
           true, met, {r.a, r.b}, [r.a] + [r.b]);
    assert [] + ([r.a] + [r.b]) == [r.a] + [r.b];
  }

  /** What `c`'s rise adds to what is held, true and read: `met` are the instances it names. */
  lemma RisesSets(both: Key, one: Key, a: Key, b: Key, c: Key)
    requires a != b && b != c && a != c && one !in {a, b, c, both} && both !in {a, b, c}
    ensures var held, met := {both, one, a, b, c}, {a, b, one};
            && met - held == {} && held + met + {c} == held && {one, b} + {c} == {one, b, c}
            && {b, c} + Adding(c, met, a) == {b, c} && {a, c} + Adding(c, met, b) == {a, c}
            && {a, b} + Adding(c, met, c) == {a, b}
  {
  }

  lemma TurnedAt(r: Cast, known: set<Id>, s: Round, stack: seq<Key>)
    requires At(r, known, s, stack, [r.a] + [r.b], {r.both, r.one, r.a, r.b, r.c}, {r.one, r.b, r.c}, {r.b, r.c},
                {r.a, r.c}, {r.a, r.b})
    ensures RingAt(Turned(r), known, s, stack)
  {
    assert {r.both, r.one, r.a, r.b, r.c} == {r.both, r.one, r.b, r.c, r.a};
    assert {r.b, r.c} == {r.c, r.b} && {r.a, r.c} == {r.c, r.a} && {r.a, r.b} == {r.b, r.a};
  }

  /** `c` rises, its next having fallen back, and re-queues both. */
  lemma Rises(take: (Round, Key) -> Round, r: Cast, known: set<Id>, s: Round, stack: seq<Key>)
    requires Law(take, r, known)
    requires At(r, known, s, stack, [] + [r.c], {r.both, r.one, r.a, r.b, r.c}, {r.one, r.b}, {r.b, r.c}, {r.a, r.c},
                {r.a, r.b})
    ensures LifoStep(take, s, stack, take(s, r.c), r.base + ([r.a] + [r.b]))
    ensures RingAt(Turned(r), known, take(s, r.c), r.base + ([r.a] + [r.b]))
  {
    RisesAt(take, r, known, s, stack);
    TurnedAt(r, known, take(s, r.c), r.base + ([r.a] + [r.b]));
  }

  lemma TurnedLaw(take: (Round, Key) -> Round, r: Cast, known: set<Id>)
    requires Law(take, r, known)
    ensures Law(take, Turned(r), known)
  {
    var q := Turned(r);
    forall s: Round | s.known == known
      ensures Inverts(take, q, s, r.a, r.b, r.c) && Inverts(take, q, s, r.b, r.c, r.a)
      ensures Inverts(take, q, s, r.c, r.a, r.b)
    {
      assert Inverts(take, r, s, r.a, r.b, r.c) && Inverts(take, r, s, r.b, r.c, r.a)
             && Inverts(take, r, s, r.c, r.a, r.b);
    }
  }

  // ----- the five turns that lead into the ring -----

  /** The round as it opens: `a` named above the base, nothing read yet. */
  ghost predicate Opening(r: Cast, known: set<Id>, s: Round, stack: seq<Key>) {
    && At(r, known, s, stack, [] + [r.a], {r.both, r.a}, {}, {}, {}, {})
    && DependentsOf(s.dependents, r.one) == {}
  }

  ghost function All(r: Cast): set<Key> {
    {r.both, r.one, r.a, r.b, r.c}
  }

  lemma First(take: (Round, Key) -> Round, r: Cast, known: set<Id>, s: Round, stack: seq<Key>)
    requires Law(take, r, known) && Opening(r, known, s, stack)
    ensures LifoStep(take, s, stack, take(s, r.a), r.base + ([r.b] + [r.c] + [r.one]))
    ensures At(r, known, take(s, r.a), r.base + ([r.b] + [r.c] + [r.one]), [r.b] + [r.c] + [r.one], All(r), {}, {},
               {r.a}, {r.a})
    ensures DependentsOf(take(s, r.a).dependents, r.one) == {r.a}
  {
    var met, more := {r.b, r.c, r.one}, [r.b] + [r.c] + [r.one];
    assert Inverts(take, r, s, r.a, r.b, r.c);
    assert Waking(s, r.a, met, r.one) == {r.a};
    FirstSets(r.both, r.one, r.a, r.b, r.c);
    AtTurn(take, r, known, s, stack, [], r.a, {r.both, r.a}, {}, {}, {}, {}, false, met, {}, more);
    assert [] + more == more;
  }

  lemma FirstSets(both: Key, one: Key, a: Key, b: Key, c: Key)
    requires a != b && b != c && a != c && one !in {a, b, c, both} && both !in {a, b, c}
    ensures var held, met: set<Key> := {both, a}, {b, c, one};
            && met - held == met && held + met + {a} == {both, one, a, b, c}
            && Adding(a, met, a) == {} && Adding(a, met, b) == {a} && Adding(a, met, c) == {a}
  {
  }

  lemma Second(take: (Round, Key) -> Round, r: Cast, known: set<Id>, s: Round, stack: seq<Key>)
    requires Law(take, r, known) && DependentsOf(s.dependents, r.one) == {r.a}
    requires At(r, known, s, stack, [r.b] + [r.c] + [r.one], All(r), {}, {}, {r.a}, {r.a})
    ensures LifoStep(take, s, stack, take(s, r.one), r.base + ([r.b] + [r.c] + [r.a]))
    ensures At(r, known, take(s, r.one), r.base + ([r.b] + [r.c] + [r.a]), [r.b] + [r.c] + [r.a], All(r), {r.one}, {},
               {r.a}, {r.a})
  {
    assert Advanced(s, r.one, true, {}, take(s, r.one));
    assert Waking(s, r.one, {}, r.one) == {r.a};
    AtTurn(take, r, known, s, stack, [r.b] + [r.c], r.one, All(r), {}, {}, {r.a}, {r.a}, true, {}, {r.a}, [r.a]);
    assert All(r) + {} + {r.one} == All(r);
  }

  lemma Third(take: (Round, Key) -> Round, r: Cast, known: set<Id>, s: Round, stack: seq<Key>)
    requires Law(take, r, known)
    requires At(r, known, s, stack, [r.b] + [r.c] + [r.a], All(r), {r.one}, {}, {r.a}, {r.a})
    ensures LifoStep(take, s, stack, take(s, r.a), r.base + ([r.b] + [r.c]))
    ensures At(r, known, take(s, r.a), r.base + ([r.b] + [r.c]), [r.b] + [r.c], All(r), {r.one, r.a}, {}, {r.a}, {r.a})
  {
    var met := {r.b, r.c, r.one};
    assert Inverts(take, r, s, r.a, r.b, r.c);
    assert met - All(r) == {} && Waking(s, r.a, met, r.a) == {};
    AtTurn(take, r, known, s, stack, [r.b] + [r.c], r.a, All(r), {r.one}, {}, {r.a}, {r.a}, true, met, {}, []);
    assert [r.b] + [r.c] + [] == [r.b] + [r.c] && All(r) + met + {r.a} == All(r) && {r.one} + {r.a} == {r.one, r.a};
    assert {r.a} + Adding(r.a, met, r.b) == {r.a} == {r.a} + Adding(r.a, met, r.c);
  }

  lemma Fourth(take: (Round, Key) -> Round, r: Cast, known: set<Id>, s: Round, stack: seq<Key>)
    requires Law(take, r, known)
    requires At(r, known, s, stack, [r.b] + [r.c], All(r), {r.one, r.a}, {}, {r.a}, {r.a})
    ensures LifoStep(take, s, stack, take(s, r.c), r.base + ([] + [r.b]))
    ensures At(r, known, take(s, r.c), r.base + ([] + [r.b]), [] + [r.b], All(r), {r.one, r.a}, {r.c}, {r.a, r.c},
               {r.a})
  {
    var met := {r.a, r.b, r.both};
    assert Inverts(take, r, s, r.c, r.a, r.b);
    assert met - All(r) == {};
    AtTurn(take, r, known, s, stack, [r.b], r.c, All(r), {r.one, r.a}, {}, {r.a}, {r.a}, false, met, {}, []);
    assert [r.b] + [] == [] + [r.b] && All(r) + met + {r.c} == All(r) && {r.one, r.a} - {r.c} == {r.one, r.a};
    assert {} + Adding(r.c, met, r.a) == {r.c} && {r.a} + Adding(r.c, met, r.b) == {r.a, r.c};
    assert {r.a} + Adding(r.c, met, r.c) == {r.a};
  }

  lemma Fifth(take: (Round, Key) -> Round, r: Cast, known: set<Id>, s: Round, stack: seq<Key>)
    requires Law(take, r, known)
    requires At(r, known, s, stack, [] + [r.b], All(r), {r.one, r.a}, {r.c}, {r.a, r.c}, {r.a})
    ensures LifoStep(take, s, stack, take(s, r.b), r.base + ([r.c] + [r.a]))
    ensures RingAt(r, known, take(s, r.b), r.base + ([r.c] + [r.a]))
  {
    var met := {r.c, r.a, r.one};
    assert Inverts(take, r, s, r.b, r.c, r.a);
    FifthSets(r.both, r.one, r.a, r.b, r.c);
    assert Waking(s, r.b, met, r.b) == {r.a, r.c};
    AtTurn(take, r, known, s, stack, [], r.b, All(r), {r.one, r.a}, {r.c}, {r.a, r.c}, {r.a}, true, met, {r.a, r.c},
           [r.c] + [r.a]);
    assert [] + ([r.c] + [r.a]) == [r.c] + [r.a];
  }

  lemma FifthSets(both: Key, one: Key, a: Key, b: Key, c: Key)
    requires a != b && b != c && a != c && one !in {a, b, c, both} && both !in {a, b, c}
    ensures var held, met := {both, one, a, b, c}, {c, a, one};
            && met - held == {} && held + met + {b} == held && {one, a} + {b} == {one, a, b}
            && {c} + Adding(b, met, a) == {b, c} && {a, c} + Adding(b, met, b) == {a, c}
            && {a} + Adding(b, met, c) == {a, b}
  {
  }

  // ----- the run -----

  /** The ring turned `m` times. */
  function Spun(r: Cast, m: nat): Cast {
    if m == 0 then r else Turned(Spun(r, m - 1))
  }

  /** The first turn of a spin takes its `a`, the second its `c`. */
  function SpinTaken(q: Cast, first: bool): Key {
    if first then q.a else q.c
  }

  function SpinStack(q: Cast, first: bool): seq<Key> {
    if first then [q.c] + [q.a] else [] + [q.c]
  }

  /** What is taken at turn `n`: five turns lead in, and then the ring's instances in turn. */
  function Taken(r: Cast, n: nat): Key {
    if n == 0 then r.a
    else if n == 1 then r.one
    else if n == 2 then r.a
    else if n == 3 then r.c
    else if n == 4 then r.b
    else SpinTaken(Spun(r, (n - 5) / 2), n % 2 == 1)
  }

  /** The round after `n` turns. */
  function RunFrom(take: (Round, Key) -> Round, r: Cast, s: Round, n: nat): Round {
    if n == 0 then s else take(RunFrom(take, r, s, n - 1), Taken(r, n - 1))
  }

  /** And its stack. */
  function StackAt(r: Cast, n: nat): seq<Key> {
    r.base + if n == 0 then [] + [r.a]
             else if n == 1 then [r.b] + [r.c] + [r.one]
             else if n == 2 then [r.b] + [r.c] + [r.a]
             else if n == 3 then [r.b] + [r.c]
             else if n == 4 then [] + [r.b]
             else SpinStack(Spun(r, (n - 5) / 2), n % 2 == 1)
  }

  lemma {:induction false} SpunLaw(take: (Round, Key) -> Round, r: Cast, known: set<Id>, m: nat)
    requires Law(take, r, known)
    ensures Law(take, Spun(r, m), known)
    ensures var q := Spun(r, m); q.base == r.base && q.one == r.one && q.both == r.both
  {
    if m > 0 {
      SpunLaw(take, r, known, m - 1);
      TurnedLaw(take, Spun(r, m - 1), known);
    }
  }

  /** The state between the two turns of a spin. */
  ghost predicate DippedAt(r: Cast, known: set<Id>, s: Round, stack: seq<Key>) {
    At(r, known, s, stack, [] + [r.c], {r.both, r.one, r.a, r.b, r.c}, {r.one, r.b}, {r.b, r.c}, {r.a, r.c}, {r.a, r.b})
  }

  /** One turn of the run: off the top of the stack, what it queues pushed on the rest. */
  ghost predicate TurnAt(take: (Round, Key) -> Round, r: Cast, known: set<Id>, s: Round, n: nat) {
    && RunFrom(take, r, s, n).known == known && Stacked(StackAt(r, n), RunFrom(take, r, s, n).queued)
    && LifoStep(take, RunFrom(take, r, s, n), StackAt(r, n), RunFrom(take, r, s, n + 1), StackAt(r, n + 1))
    && StackAt(r, n)[|StackAt(r, n)| - 1] == Taken(r, n)
  }

  lemma LeadsInto(take: (Round, Key) -> Round, r: Cast, known: set<Id>, s: Round)
    requires Law(take, r, known) && Opening(r, known, s, StackAt(r, 0))
    ensures TurnAt(take, r, known, s, 0)
    ensures At(r, known, RunFrom(take, r, s, 1), StackAt(r, 1), [r.b] + [r.c] + [r.one], All(r), {}, {}, {r.a}, {r.a})
    ensures DependentsOf(RunFrom(take, r, s, 1).dependents, r.one) == {r.a}
  {
    First(take, r, known, s, StackAt(r, 0));
    assert RunFrom(take, r, s, 1) == take(s, r.a);
  }

  lemma LeadsThrough(take: (Round, Key) -> Round, r: Cast, known: set<Id>, s: Round)
    requires Law(take, r, known) && DependentsOf(RunFrom(take, r, s, 1).dependents, r.one) == {r.a}
    requires At(r, known, RunFrom(take, r, s, 1), StackAt(r, 1), [r.b] + [r.c] + [r.one], All(r), {}, {}, {r.a}, {r.a})
    ensures TurnAt(take, r, known, s, 1)
    ensures At(r, known, RunFrom(take, r, s, 2), StackAt(r, 2), [r.b] + [r.c] + [r.a], All(r), {r.one}, {}, {r.a},
               {r.a})
  {
    Second(take, r, known, RunFrom(take, r, s, 1), StackAt(r, 1));
    assert RunFrom(take, r, s, 2) == take(RunFrom(take, r, s, 1), r.one);
  }

  lemma LeadsIn(take: (Round, Key) -> Round, r: Cast, known: set<Id>, s: Round)
    requires Law(take, r, known)
    requires At(r, known, RunFrom(take, r, s, 2), StackAt(r, 2), [r.b] + [r.c] + [r.a], All(r), {r.one}, {}, {r.a},
                {r.a})
    ensures TurnAt(take, r, known, s, 2)
    ensures At(r, known, RunFrom(take, r, s, 3), StackAt(r, 3), [r.b] + [r.c], All(r), {r.one, r.a}, {}, {r.a}, {r.a})
  {
    Third(take, r, known, RunFrom(take, r, s, 2), StackAt(r, 2));
    assert RunFrom(take, r, s, 3) == take(RunFrom(take, r, s, 2), r.a);
  }

  lemma LeadsOn(take: (Round, Key) -> Round, r: Cast, known: set<Id>, s: Round)
    requires Law(take, r, known)
    requires At(r, known, RunFrom(take, r, s, 3), StackAt(r, 3), [r.b] + [r.c], All(r), {r.one, r.a}, {}, {r.a}, {r.a})
    ensures TurnAt(take, r, known, s, 3) && TurnAt(take, r, known, s, 4)
    ensures RingAt(r, known, RunFrom(take, r, s, 5), StackAt(r, 5))
  {
    Fourth(take, r, known, RunFrom(take, r, s, 3), StackAt(r, 3));
    assert RunFrom(take, r, s, 4) == take(RunFrom(take, r, s, 3), r.c);
    Fifth(take, r, known, RunFrom(take, r, s, 4), StackAt(r, 4));
    assert RunFrom(take, r, s, 5) == take(RunFrom(take, r, s, 4), r.b);
  }

  /** After `m` spins the ring is where it was, turned `m` times. */
  ghost predicate SpunAt(take: (Round, Key) -> Round, r: Cast, known: set<Id>, s: Round, m: nat) {
    RingAt(Spun(r, m), known, RunFrom(take, r, s, 5 + 2 * m), StackAt(r, 5 + 2 * m))
  }

  lemma SpinFalls(take: (Round, Key) -> Round, r: Cast, known: set<Id>, s: Round, m: nat)
    requires Law(take, r, known) && SpunAt(take, r, known, s, m)
    ensures TurnAt(take, r, known, s, 5 + 2 * m)
    ensures DippedAt(Spun(r, m), known, RunFrom(take, r, s, 6 + 2 * m), StackAt(r, 6 + 2 * m))
  {
    var n, q := 5 + 2 * m, Spun(r, m);
    SpunLaw(take, r, known, m);
    Parity(r, m);
    Dips(take, q, known, RunFrom(take, r, s, n), StackAt(r, n));
    assert RunFrom(take, r, s, n + 1) == take(RunFrom(take, r, s, n), q.a);
    assert q.base + [q.c] == q.base + ([] + [q.c]);
  }

  lemma SpinRises(take: (Round, Key) -> Round, r: Cast, known: set<Id>, s: Round, m: nat)
    requires Law(take, r, known)
    requires DippedAt(Spun(r, m), known, RunFrom(take, r, s, 6 + 2 * m), StackAt(r, 6 + 2 * m))
    ensures TurnAt(take, r, known, s, 6 + 2 * m) && SpunAt(take, r, known, s, m + 1)
  {
    var n, q := 6 + 2 * m, Spun(r, m);
    SpunLaw(take, r, known, m);
    Parity(r, m);
    Rises(take, q, known, RunFrom(take, r, s, n), StackAt(r, n));
    assert RunFrom(take, r, s, n + 1) == take(RunFrom(take, r, s, n), q.c);
    assert 5 + 2 * (m + 1) == n + 1;
  }

  /** A spin: the top falls back, the next rises and re-queues both. */
  lemma Spins(take: (Round, Key) -> Round, r: Cast, known: set<Id>, s: Round, m: nat)
    requires Law(take, r, known) && SpunAt(take, r, known, s, m)
    ensures TurnAt(take, r, known, s, 5 + 2 * m) && TurnAt(take, r, known, s, 6 + 2 * m)
    ensures SpunAt(take, r, known, s, m + 1)
  {
    SpinFalls(take, r, known, s, m);
    SpinRises(take, r, known, s, m);
  }

  lemma Halves(m: nat)
    ensures (5 + 2 * m - 5) / 2 == m && (6 + 2 * m - 5) / 2 == m && (7 + 2 * m - 5) / 2 == m + 1
    ensures (5 + 2 * m) % 2 == 1 && (6 + 2 * m) % 2 == 0 && (7 + 2 * m) % 2 == 1
  {
  }

  lemma InSpin(r: Cast, n: nat, m: nat, first: bool)
    requires n >= 5 && (n - 5) / 2 == m && (n % 2 == 1 <==> first)
    ensures Taken(r, n) == SpinTaken(Spun(r, m), first) && StackAt(r, n) == r.base + SpinStack(Spun(r, m), first)
  {
  }

  lemma Parity(r: Cast, m: nat)
    ensures var n, q := 5 + 2 * m, Spun(r, m);
            && Taken(r, n) == q.a && Taken(r, n + 1) == q.c
            && StackAt(r, n) == r.base + ([q.c] + [q.a]) && StackAt(r, n + 1) == r.base + ([] + [q.c])
            && StackAt(r, n + 2) == r.base + ([Turned(q).c] + [Turned(q).a])
  {
    Halves(m);
    InSpin(r, 5 + 2 * m, m, true);
    InSpin(r, 6 + 2 * m, m, false);
    InSpin(r, 7 + 2 * m, m + 1, true);
  }

  /** The five turns that lead in. */
  lemma LeadIn(take: (Round, Key) -> Round, r: Cast, known: set<Id>, s: Round)
    requires Law(take, r, known) && Opening(r, known, s, StackAt(r, 0))
    ensures SpunAt(take, r, known, s, 0)
  {
    LeadsInto(take, r, known, s);
    LeadsThrough(take, r, known, s);
    LeadsIn(take, r, known, s);
    LeadsOn(take, r, known, s);
    assert Spun(r, 0) == r;
  }

  lemma {:induction false} RingReached(take: (Round, Key) -> Round, r: Cast, known: set<Id>, s: Round, m: nat)
    requires Law(take, r, known) && Opening(r, known, s, StackAt(r, 0))
    ensures SpunAt(take, r, known, s, m)
  {
    if m == 0 {
      LeadIn(take, r, known, s);
    } else {
      RingReached(take, r, known, s, m - 1);
      Spins(take, r, known, s, m - 1);
    }
  }

  lemma GoesOnLeading(take: (Round, Key) -> Round, r: Cast, known: set<Id>, s: Round, n: nat)
    requires Law(take, r, known) && Opening(r, known, s, StackAt(r, 0)) && n < 5
    ensures TurnAt(take, r, known, s, n)
  {
    LeadsInto(take, r, known, s);
    if n > 0 { LeadsThrough(take, r, known, s); }
    if n > 1 { LeadsIn(take, r, known, s); }
    if n > 2 { LeadsOn(take, r, known, s); }
  }

  lemma GoesOnSpinning(take: (Round, Key) -> Round, r: Cast, known: set<Id>, s: Round, n: nat, m: nat)
    requires Law(take, r, known) && Opening(r, known, s, StackAt(r, 0)) && (n == 5 + 2 * m || n == 6 + 2 * m)
    ensures TurnAt(take, r, known, s, n)
  {
    RingReached(take, r, known, s, m);
    SpinFalls(take, r, known, s, m);
    if n == 6 + 2 * m { SpinRises(take, r, known, s, m); }
  }

  /** From the opening the run goes on at every turn, taken off the top of the stack, the async set
      unchanged. */
  lemma GoesOn(take: (Round, Key) -> Round, r: Cast, known: set<Id>, s: Round, n: nat)
    requires Law(take, r, known) && Opening(r, known, s, StackAt(r, 0))
    ensures TurnAt(take, r, known, s, n)
  {
    if n < 5 {
      GoesOnLeading(take, r, known, s, n);
    } else {
      GoesOnSpinning(take, r, known, s, n, (n - 5) / 2);
    }
  }

  /** And what waits below is never taken. */
  lemma BaseWaits(take: (Round, Key) -> Round, r: Cast, known: set<Id>, s: Round, n: nat, k: Key)
    requires Law(take, r, known) && Opening(r, known, s, StackAt(r, 0)) && k in r.base
    ensures k in RunFrom(take, r, s, n).queued && Taken(r, n) != k
  {
    GoesOn(take, r, known, s, n);
    assert k in StackAt(r, n);
    var i :| 0 <= i < |r.base| && r.base[i] == k;
    assert StackAt(r, n)[i] == k && i < |StackAt(r, n)| - 1;
  }
}

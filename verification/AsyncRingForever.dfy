/** The round of AsyncRing's program, from its opening state, on one run that never ends.

    Two turns of a spin push a two-element set of readers each: {a, b}, {b, c} and {c, a} in turn, the
    ring's next before the one after it.  The source iterates a hash set there
    (crates/vilan-core/src/async_infer.rs:1844).  With a seed for each table each set has an order of its
    own (crates/vilan-core/src/fx.rs:168-183); with the one constant seed a key's slot is the same in the
    three, which then, collisions aside, agree on one order of the three keys. */
module AsyncRingForever {
  import opened Basics
  import opened AsyncProgram
  import opened AsyncFixpoint
  import opened AsyncEvaluate
  import opened AsyncRound
  import opened AsyncInfer
  import opened AsyncRing
  import opened AsyncRingRun
  import opened AsyncSchedule
  import opened Schedules

  /** The instances that wait below: the functions' own, then the one the first initializer names. */
  const BASE := [Key(F, {}), Key(G(0), {}), Key(G(1), {}), Key(G(2), {}), F12]

  const CAST := Cast(BASE, F1, F12, K(0), K(1), K(2))

  /** A step of this program's round. */
  function Take(s: Round, k: Key): Round {
    TakeKey(W, s, k)
  }

  lemma AnsweringRing(s: Round, k: Key)
    requires s.known == {WORK}
    ensures Answering(W, s, k) == Frame(RING, false, {WORK}, k.bits, TrueKeys(s.verdicts))
  {
    assert Trues(W, s.verdicts, s.seeding) == TrueKeys(s.verdicts);
  }

  lemma TurnG(s: Round, j: nat)
    requires j < 3 && s.known == {WORK}
    ensures Inverts(Take, CAST, s, K(j), K(Next(j)), K(Next(Next(j))))
  {
    var f := RingFrame(j, TrueKeys(s.verdicts));
    AnsweringRing(s, K(j));
    RingEvaluates(j, f.trues);
    RingDistinct(j);
    InvertsAs(W, s, f, CAST, Take, K(j), K(Next(j)), K(Next(Next(j))));
  }

  lemma RingDistinct(j: nat)
    requires j < 3
    ensures K(j) != K(Next(j)) && K(j) != K(Next(Next(j))) && K(j) != F1 && K(j) != F12
  {
    assert K(j).root == G(j) == 10 + j && K(Next(j)).root == 10 + Next(j)
           && K(Next(Next(j))).root == 10 + Next(Next(j));
    assert F1.root == 1 == F12.root;
  }

  lemma InvertsAs(w: World, s: Round, f: Frame, r: Cast, take: (Round, Key) -> Round, k: Key, next: Key, other: Key)
    requires w.rec.None? && k.bits != {} && Answering(w, s, k) == f && f.trues == TrueKeys(s.verdicts)
    requires take(s, k) == TakeKey(w, s, k) && k != next && k != other && k != r.one && k != r.both
    requires Chooses(f, k.root, next, other, r.one, r.both)
    ensures Inverts(take, r, s, k, next, other)
  {
    var chosen := if next in f.trues then r.both else r.one;
    TakeAdvances(w, s, k, f, chosen in f.trues, {next, other, chosen});
  }

  lemma TurnF(s: Round)
    requires s.known == {WORK}
    ensures Advanced(s, F1, true, {}, Take(s, F1))
  {
    var trues := TrueKeys(s.verdicts);
    AnsweringRing(s, F1);
    FEvaluates(trues);
    TakeAdvances(W, s, F1, Frame(RING, false, {WORK}, {P1}, trues), true, {});
  }

  lemma RingLaw()
    ensures Law(Take, CAST, {WORK})
  {
    forall s: Round | s.known == {WORK}
      ensures Inverts(Take, CAST, s, K(0), K(1), K(2)) && Inverts(Take, CAST, s, K(1), K(2), K(0))
              && Inverts(Take, CAST, s, K(2), K(0), K(1)) && Advanced(s, F1, true, {}, Take(s, F1))
    {
      TurnG(s, 0);
      TurnG(s, 1);
      TurnG(s, 2);
      TurnF(s);
    }
  }

  /** What the initializers name, with `work` async. */
  lemma InitializersName()
    ensures Named(RING, false, {WORK}) == {F12, K(0)}
  {
    assert RING.initializers == map[INIT := [CallSite(9, Function(F)), CallSite(170, Function(G(0)))]];
    WorkAdapts();
    NamesTwo(RING, {WORK}, INIT, CallSite(9, Function(F)), CallSite(170, Function(G(0))), F12, K(0));
  }

  lemma NamesTwo(p: Program, known: set<Id>, i: Id, c1: CallSite, c2: CallSite, k1: Key, k2: Key)
    requires p.initializers == map[i := [c1, c2]]
    requires Met(p, false, known, {}, {}, c1) == Some(k1) && Met(p, false, known, {}, {}, c2) == Some(k2)
    ensures Named(p, false, known) == {k1, k2}
  {
    assert c1 in p.initializers[i] && c2 in p.initializers[i];
  }

  /** An argument that is an async closure adapts the parameter it meets. */
  lemma ClosureAdapts(p: Program, known: set<Id>, callee: Id, callId: Id, i: nat)
    requires i < Paired(p, callee, callId) && p.functions[callee][i] in Adaptive(p, callee)
    requires var x := p.functionCalls[callId].arguments[i];
             x in p.entities && p.entities[x].Closure? && p.entities[x].id in known
    ensures p.functions[callee][i] in BitsForCall(p, false, known, {}, {}, callee, callId)
  {
    assert Adapts(p, false, known, {}, {}, callee, callId, i);
  }

  lemma WorkAdapts()
    ensures Met(RING, false, {WORK}, {}, {}, CallSite(9, Function(F))) == Some(F12)
    ensures Met(RING, false, {WORK}, {}, {}, CallSite(170, Function(G(0)))) == Some(K(0))
  {
    RingAdaptive(0);
    assert RING.entities[7] == Closure(WORK);
    FAdapts();
    GAdapts();
  }

  lemma FAdapts()
    requires Adaptive(RING, F) == {P1, P2} && RING.entities[7] == Closure(WORK)
    ensures BitsForCall(RING, false, {WORK}, {}, {}, F, 9) == {P1, P2}
  {
    assert RING.functionCalls[9] == FunctionCall(0, [7, 7]) && RING.functions[F] == [P1, P2];
    ClosureAdapts(RING, {WORK}, F, 9, 0);
    ClosureAdapts(RING, {WORK}, F, 9, 1);
  }

  lemma GAdapts()
    requires Adaptive(RING, G(0)) == {Q(0)} && RING.entities[7] == Closure(WORK)
    ensures BitsForCall(RING, false, {WORK}, {}, {}, G(0), 170) == {Q(0)}
  {
    assert RING.functionCalls[170] == FunctionCall(0, [7]) && RING.functions[G(0)] == [Q(0)];
    ClosureAdapts(RING, {WORK}, G(0), 170, 0);
  }

  lemma RingRoster()
    ensures Roster(W) == {Key(F, {}), Key(G(0), {}), Key(G(1), {}), Key(G(2), {})}
  {
    assert RING.functions.Keys == {F, G(0), G(1), G(2)};
  }

  /** The opening state of the source's round, its stack holding the functions first and then, in
      order, what the initializers name. */
  lemma RingOpens()
    ensures Opening(CAST, {WORK}, BeginRound(W, UNSTARTED, {WORK}), BASE + [K(0)])
  {
    RingRoster();
    InitializersName();
    OpensWith(W, {WORK}, Roster(W), F12, K(0));
    OpeningStack(Roster(W) + {F12, K(0)});
    OpensCast(CAST, {WORK}, BeginRound(W, UNSTARTED, {WORK}), Roster(W));
  }

  lemma OpensWith(w: World, known: set<Id>, roster: set<Key>, k1: Key, k2: Key)
    requires w.rec.None? && Roster(w) == roster && Named(w.p, w.cold, known) == {k1, k2}
    ensures OpenAt(BeginRound(w, UNSTARTED, known), known, roster, {k1, k2})
  {
    OpensAt(w, known, roster, {k1, k2});
  }

  ghost predicate OpenAt(s: Round, known: set<Id>, roster: set<Key>, named: set<Key>) {
    && s.known == known && s.queued == roster + named && s.dependents == map[]
    && s.verdicts.Keys == named && TrueKeys(s.verdicts) == {}
  }

  lemma OpensAt(w: World, known: set<Id>, roster: set<Key>, named: set<Key>)
    requires w.rec.None?
    ensures OpenAt(OpenRound(w, UNSTARTED, known, roster, named), known, roster, named)
  {
    assert (set k | k in named && !Serves(w, UNSTARTED, k)) == named;
  }

  lemma OpensCast(r: Cast, known: set<Id>, s: Round, roster: set<Key>)
    requires OpenAt(s, known, roster, {r.both, r.a}) && Stacked(r.base + [r.a], roster + {r.both, r.a})
    ensures Opening(r, known, s, r.base + [r.a])
  {
    assert r.base + [r.a] == r.base + ([] + [r.a]);
  }

  lemma OpeningStack(queued: set<Key>)
    requires queued == {Key(F, {}), Key(G(0), {}), Key(G(1), {}), Key(G(2), {}), F12, K(0)}
    ensures Stacked(BASE + [K(0)], queued)
  {
    assert BASE + [K(0)] == [Key(F, {}), Key(G(0), {}), Key(G(1), {}), Key(G(2), {}), F12, K(0)];
  }

  // ----- the run, as a schedule of the round -----

  /** The round after `n` turns. */
  function Endless(n: nat): Round {
    RunFrom(Take, CAST, BeginRound(W, UNSTARTED, {WORK}), n)
  }

  lemma RingIsWorld()
    ensures WorldOk(W, map[])
  {
    assert RING.coldIds == {};
  }

  lemma EndlessTurns(n: nat)
    ensures TurnAt(Take, CAST, {WORK}, BeginRound(W, UNSTARTED, {WORK}), n)
    ensures F12 in Endless(n).queued && Taken(CAST, n) != F12
  {
    RingLaw();
    RingOpens();
    assert StackAt(CAST, 0) == BASE + [K(0)];
    GoesOn(Take, CAST, {WORK}, BeginRound(W, UNSTARTED, {WORK}), n);
    assert BASE[4] == F12;
    BaseWaits(Take, CAST, {WORK}, BeginRound(W, UNSTARTED, {WORK}), n, F12);
  }

  lemma EndlessSteps(n: nat)
    ensures Took(RoundMachine(W, map[], {WORK}), Endless, n, Taken(CAST, n)) && Endless(n).known == {WORK}
  {
    EndlessTurns(n);
    var s, stack := Endless(n), StackAt(CAST, n);
    assert Endless(n + 1) == Take(s, Taken(CAST, n));
    assert stack[|stack| - 1] in stack;
  }

  /** A turn records the last flags of the instance it takes, and nobody else's. */
  lemma {:induction false} F12NeverEvaluated(n: nat)
    ensures F12 !in Endless(n).last
  {
    if n > 0 {
      F12NeverEvaluated(n - 1);
      EndlessTurns(n - 1);
      assert Endless(n) == Take(Endless(n - 1), Taken(CAST, n - 1));
    }
  }

  lemma NotTaken(n: nat)
    ensures !Took(RoundMachine(W, map[], {WORK}), Endless, n, F12)
  {
    F12NeverEvaluated(n + 1);
    assert F12 in TakeKey(W, Endless(n), F12).last;
  }

  lemma EndlessRuns()
    ensures RoundRun(W, map[], {WORK}, Endless)
  {
    RingIsWorld();
    BeginAlways(W, map[], UNSTARTED, {WORK});
    BeginSettling(W, map[], UNSTARTED, {WORK});
    assert Endless(0) == BeginRound(W, UNSTARTED, {WORK});
    forall n: nat ensures Stepped(RoundMachine(W, map[], {WORK}), Endless, n) && Endless(n).known == {WORK} {
      EndlessSteps(n);
    }
  }

  /** One run of this program's round, over an async set that base_fixpoint leaves and no turn grows,
      never ends, though each turn takes the top of the stack and pushes what it queues on the rest: the
      instance the first initializer names waits below for ever. */
  lemma RoundRunsForever()
    ensures BaseClosed(RING, false, {WORK}) && Endless(0) == BeginRound(W, UNSTARTED, {WORK})
    ensures RoundRun(W, map[], {WORK}, Endless) && !Ends(RoundMachine(W, map[], {WORK}), Endless)
    ensures forall n: nat :: LifoStep(Take, Endless(n), StackAt(CAST, n), Endless(n + 1), StackAt(CAST, n + 1))
    ensures forall n: nat :: F12 in Endless(n).queued && !Took(RoundMachine(W, map[], {WORK}), Endless, n, F12)
  {
    RingIsBaseClosed();
    EndlessRuns();
    forall n: nat
      ensures LifoStep(Take, Endless(n), StackAt(CAST, n), Endless(n + 1), StackAt(CAST, n + 1))
      ensures F12 in Endless(n).queued && !Took(RoundMachine(W, map[], {WORK}), Endless, n, F12)
    {
      EndlessTurns(n);
      NotTaken(n);
    }
  }
}

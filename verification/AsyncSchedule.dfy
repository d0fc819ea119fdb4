/** When a round of the instance worklist ends (`adaptation_worklist`,
    crates/vilan-core/src/async_infer.rs).

    A verdict can fall back: an evaluation whose callee's bits grew reads an instance not evaluated
    yet, and `TakeKey` overwrites the old verdict.  So verdicts do not only rise, and a round that adds
    nothing to the async set ends exactly when its schedule starves no queued instance. */
module AsyncSchedule {
  import opened Basics
  import opened AsyncProgram
  import opened AsyncFixpoint
  import opened AsyncEvaluate
  import opened AsyncQuiet
  import opened AsyncRound
  import opened AsyncRoundProof
  import opened AsyncRoundEnd
  import opened Schedules

  // ----- the answers of a round -----

  function ServedKeys(w: World, sd: Seeding): set<Key> {
    if w.rec.Some? then set k | k in w.rec.value.flags && k !in sd.rewalked else {}
  }

  /** Every instance the round answers, its own and the record's. */
  function Answers(w: World, s: Round): map<Key, bool> {
    map k | k in s.verdicts.Keys + ServedKeys(w, s.seeding) :: Answer(w, s.verdicts, s.seeding, k)
  }

  lemma AnswersAre(w: World, s: Round, k: Key)
    ensures k in Answers(w, s) <==> Holds(w, s, k)
    ensures k in Answers(w, s) ==> (Answers(w, s)[k] <==> k in Trues(w, s.verdicts, s.seeding))
  {
  }

  // ----- a level of the least flags, once reached below, is reached -----

  /** Every instance the round answers whose root is flagged in `level` answers true. */
  ghost predicate LevelTrue(w: World, s: Round, level: Flagged) {
    forall k :: Holds(w, s, k) && k in Roots(level) ==> k in Trues(w, s.verdicts, s.seeding)
  }

  /** The iterate below the `r`th; nothing is below the first. */
  ghost function Below(w: World, known: set<Id>, r: nat): Flagged {
    if r == 0 then {} else Kleene(w.p, w.cold, known, r - 1)
  }

  /** `row` is settled for `k` and names only instances the round answers. */
  ghost predicate RowHolds(w: World, s: Round, k: Key, row: set<Id>) {
    && (forall m :: m in Component(w.p, k.root) && m in s.known ==> m in row)
    && (forall m, c :: m in Component(w.p, k.root) && c in CallsOf(w.p, m) ==> CallHolds(w, s, k, row, m, c))
  }

  ghost predicate CallHolds(w: World, s: Round, k: Key, row: set<Id>, m: Id, c: CallSite) {
    && (Awaits(Answering(w, s, k), row, c) ==> m in row)
    && (match Met(w.p, w.cold, s.known, row, k.bits, c) case None => true case Some(x) => Holds(w, s, x))
  }

  lemma CallReaches(w: World, s: Round, k: Key, row: set<Id>, q: Flagged, level: Flagged, m: Id, c: CallSite)
    requires (w.cold ==> s.known <= w.p.coldIds) && LevelTrue(w, s, level)
    requires Regular(w.p, w.cold, s.known, q) && q <= level && Row(q, k) <= row
    requires CallHolds(w, s, k, row, m, c)
    requires CallAwaits(w.p, w.cold, s.known, Row(q, k), k.bits, Roots(q), c)
    ensures m in row
  {
    RootsWiden(w.p, w.cold, q, q);
    RegularSeeded(w.p, w.cold, s.known, q);
    AwaitsLift(w.p, w.cold, s.known, Row(q, k), k.bits, Roots(q), w.cold, s.known, row, k.bits, Roots(q), c);
    RowsGrow(q, level, k);
    AwaitsLocal(w.p, w.cold, s.known, row, k.bits, Roots(q), Trues(w, s.verdicts, s.seeding), c);
  }

  lemma StepReaches(w: World, s: Round, k: Key, row: set<Id>, q: Flagged, level: Flagged, m: Id)
    requires (w.cold ==> s.known <= w.p.coldIds) && LevelTrue(w, s, level)
    requires Regular(w.p, w.cold, s.known, q) && q <= level && Row(q, k) <= row
    requires RowHolds(w, s, k, row) && (k, m) in Step(w.p, w.cold, s.known, q)
    ensures m in row
  {
    assert (k, m) in Universe(w.p, w.cold);
    if m !in s.known {
      var c :| c in CallsOf(w.p, m) && CallAwaits(w.p, w.cold, s.known, Row(q, k), k.bits, Roots(q), c);
      assert CallHolds(w, s, k, row, m, c);
      CallReaches(w, s, k, row, q, level, m, c);
    }
  }

  lemma StartReaches(w: World, s: Round, k: Key, row: set<Id>)
    requires RowHolds(w, s, k, row)
    ensures Row(Start(w.p, w.cold, s.known), k) <= row
  {
    forall m | m in Row(Start(w.p, w.cold, s.known), k) ensures m in row {
      assert (k, m) in Start(w.p, w.cold, s.known);
    }
  }

  lemma RowReachesNext(w: World, s: Round, k: Key, row: set<Id>, q: Flagged, level: Flagged)
    requires (w.cold ==> s.known <= w.p.coldIds) && LevelTrue(w, s, level)
    requires Regular(w.p, w.cold, s.known, q) && q <= level && Row(q, k) <= row && RowHolds(w, s, k, row)
    ensures Row(Step(w.p, w.cold, s.known, q), k) <= row
  {
    forall m | m in Row(Step(w.p, w.cold, s.known, q), k) ensures m in row {
      assert (k, m) in Step(w.p, w.cold, s.known, q);
      StepReaches(w, s, k, row, q, level, m);
    }
  }

  /** `level` climbs from the start by the step, inside `top` below its `n`th. */
  ghost predicate Climb(w: World, known: set<Id>, level: nat -> Flagged, top: Flagged, n: nat) {
    && level(0) == Start(w.p, w.cold, known)
    && (forall i: nat :: i < n ==> level(i + 1) == Step(w.p, w.cold, known, level(i)))
    && (forall i: nat :: i < n ==> Regular(w.p, w.cold, known, level(i)) && level(i) <= top)
  }

  lemma {:induction false} RowReachesAlong(w: World, s: Round, k: Key, row: set<Id>, level: nat -> Flagged,
                                           top: Flagged, n: nat)
    requires (w.cold ==> s.known <= w.p.coldIds) && LevelTrue(w, s, top) && RowHolds(w, s, k, row)
    requires Climb(w, s.known, level, top, n)
    ensures Row(level(n), k) <= row
  {
    if n == 0 {
      StartReaches(w, s, k, row);
    } else {
      RowReachesAlong(w, s, k, row, level, top, n - 1);
      RowReachesNext(w, s, k, row, level(n - 1), top);
    }
  }

  lemma KleeneWithin(w: World, known: set<Id>, top: Flagged, n: nat, i: nat)
    requires i < n && (w.cold ==> known <= w.p.coldIds) && Kleene(w.p, w.cold, known, n - 1) <= top
    ensures Kleene(w.p, w.cold, known, i) <= top
  {
    KleeneOrdered(w.p, w.cold, known, i, n - 1);
  }

  lemma KleeneIsClimb(w: World, known: set<Id>, top: Flagged, n: nat)
    requires (w.cold ==> known <= w.p.coldIds) && (n > 0 ==> Kleene(w.p, w.cold, known, n - 1) <= top)
    ensures Climb(w, known, i => Kleene(w.p, w.cold, known, i), top, n)
  {
    forall i: nat | i < n
      ensures Kleene(w.p, w.cold, known, i + 1) == Step(w.p, w.cold, known, Kleene(w.p, w.cold, known, i))
      ensures Regular(w.p, w.cold, known, Kleene(w.p, w.cold, known, i)) && Kleene(w.p, w.cold, known, i) <= top
    {
      KleeneNext(w.p, w.cold, known, i + 1);
      KleeneRegular(w.p, w.cold, known, i);
      KleeneWithin(w, known, top, n, i);
    }
  }

  lemma RowReaches(w: World, s: Round, k: Key, row: set<Id>, level: Flagged, n: nat)
    requires (w.cold ==> s.known <= w.p.coldIds) && LevelTrue(w, s, level)
    requires n > 0 ==> Kleene(w.p, w.cold, s.known, n - 1) <= level
    requires RowHolds(w, s, k, row)
    ensures Row(Kleene(w.p, w.cold, s.known, n), k) <= row
  {
    KleeneIsClimb(w, s.known, level, n);
    RowReachesAlong(w, s, k, row, i => Kleene(w.p, w.cold, s.known, i), level, n);
  }

  lemma RowRoot(w: World, s: Round, k: Key, row: set<Id>, r: nat)
    requires (w.cold ==> s.known <= w.p.coldIds) && LevelTrue(w, s, Below(w, s.known, r))
    requires RowHolds(w, s, k, row) && k in Roots(Kleene(w.p, w.cold, s.known, r))
    ensures k.root in row
  {
    RowReaches(w, s, k, row, Below(w, s.known, r), r);
    assert (k, k.root) in Kleene(w.p, w.cold, s.known, r);
    assert k.root in Row(Kleene(w.p, w.cold, s.known, r), k);
  }

  // ----- three ways an instance answers -----

  lemma EvaluationHolds(w: World, s: Round, k: Key, e: Eval)
    requires Fair(w, s, k, e) && Fresh(w, s, e.met) == {}
    ensures RowHolds(w, s, k, e.flags)
  {
    forall m, c | m in Component(w.p, k.root) && c in CallsOf(w.p, m) ensures CallHolds(w, s, k, e.flags, m, c) {
      assert Heard(Answering(w, s, k), e.flags, e.met, e.logged, m, c);
      var x := Met(w.p, w.cold, s.known, e.flags, k.bits, c);
      if x.Some? {
        assert MetBy(Answering(w, s, k), e.flags, c) == [x.value];
        assert x.value in e.met && x.value !in Fresh(w, s, e.met);
      }
    }
  }

  /** An evaluation that discovers nothing answers true at the level above. */
  lemma TakenAnswersTrue(w: World, rows: map<Key, set<Id>>, s: Round, k: Key, e: Eval, r: nat)
    requires WorldOk(w, rows) && Sound(w, s) && Fair(w, s, k, e) && LevelTrue(w, s, Below(w, s.known, r))
    requires k in Roots(Kleene(w.p, w.cold, s.known, r)) && Fresh(w, s, e.met) == {}
    ensures k.root in e.flags
  {
    EvaluationHolds(w, s, k, e);
    RowRoot(w, s, k, e.flags, r);
  }

  /** An instance of the round off the queue answers true at the level above. */
  lemma RestingAnswersTrue(w: World, s: Round, k: Key, r: nat)
    requires Sound(w, s) && Answered(w, s) && Standing(w, s) && LevelTrue(w, s, Below(w, s.known, r))
    requires k in s.verdicts && k !in s.queued && k in Roots(Kleene(w.p, w.cold, s.known, r))
    ensures s.verdicts[k]
  {
    assert LiveKeyOk(w, s, k, s.last[k]);
    forall m, c | m in Component(w.p, k.root) && c in CallsOf(w.p, m) ensures CallHolds(w, s, k, s.last[k], m, c) {
      assert LiveCallOk(w, s, k, s.last[k], m, c);
    }
    RowRoot(w, s, k, s.last[k], r);
  }

  /** A served instance's recorded flags are settled here too: nothing it read has moved. */
  lemma ServedCallHolds(w: World, rows: map<Key, set<Id>>, s: Round, k: Key, m: Id, c: CallSite)
    requires WorldOk(w, rows) && Sound(w, s) && Answered(w, s) && ServedOk(w, s) && Serves(w, s.seeding, k) && k in rows
    requires m in Component(w.p, k.root) && c in CallsOf(w.p, m)
    ensures CallHolds(w, s, k, rows[k], m, c)
  {
    var rec := w.rec.value;
    assert RecordedKeyOk(w.p, rec, k, rows[k]);
    assert RecordedCallOk(w.p, rec, k, rows[k], m, c);
    var trues := Trues(w, s.verdicts, s.seeding);
    var met := Met(w.p, true, rec.settled, rows[k], k.bits, c);
    if met.Some? && met.value in trues {
      assert Reading(rec, k, met.value);
      assert RecordedFlag(w, met.value);
    }
    QuietCall(w.p, rec.settled, s.known, rows[k], k.bits, TrueKeys(rec.flags), trues, c, rec.logs[k]);
  }

  lemma ServedHolds(w: World, rows: map<Key, set<Id>>, s: Round, k: Key)
    requires WorldOk(w, rows) && Sound(w, s) && Answered(w, s) && ServedOk(w, s) && Serves(w, s.seeding, k) && k in rows
    ensures RowHolds(w, s, k, rows[k])
  {
    var rec := w.rec.value;
    assert RecordedKeyOk(w.p, rec, k, rows[k]);
    QuietWithin(w.p, rec.settled, s.known, MemberReads(w.p, rec.settled, Component(w.p, k.root)), rec.logs[k]);
    forall m, c | m in Component(w.p, k.root) && c in CallsOf(w.p, m) ensures CallHolds(w, s, k, rows[k], m, c) {
      ServedCallHolds(w, rows, s, k, m, c);
    }
  }

  /** A served instance answers true at the level above. */
  lemma ServedAnswersTrue(w: World, rows: map<Key, set<Id>>, s: Round, k: Key, r: nat)
    requires WorldOk(w, rows) && Sound(w, s) && Answered(w, s) && ServedOk(w, s) && Apart(w, s)
    requires LevelTrue(w, s, Below(w, s.known, r))
    requires Serves(w, s.seeding, k) && k in Roots(Kleene(w.p, w.cold, s.known, r))
    ensures k in Trues(w, s.verdicts, s.seeding)
  {
    RecordedRoot(w, rows, k);
    ServedHolds(w, rows, s, k);
    RowRoot(w, s, k, rows[k], r);
  }

  // ----- a round is a lawful worklist -----

  /** A round over an unchanging async set, from scratch or over a record. */
  ghost predicate Round0(w: World, rows: map<Key, set<Id>>, start: set<Id>, s: Round) {
    WorldOk(w, rows) && Inv(w, start, s) && s.known == start
  }

  ghost function RoundMachine(w: World, rows: map<Key, set<Id>>, start: set<Id>): Machine<Round, Key> {
    Machine((s: Round, k: Key) => TakeKey(w, s, k),
            (s: Round) => Answers(w, s),
            (s: Round) => s.queued,
            (s: Round) => Round0(w, rows, start, s),
            (r: nat) => Roots(Kleene(w.p, w.cold, start, r)),
            |Universe(w.p, w.cold)|,
            Keys(w.p, w.cold))
  }

  lemma RoundKeeps(w: World, rows: map<Key, set<Id>>, start: set<Id>, s: Round, k: Key)
    requires Round0(w, rows, start, s) && k in s.queued
    ensures Keeps(RoundMachine(w, rows, start), s, k)
  {
    var e := Evaluate(Answering(w, s, k), k.root);
    SeedingGrows(w, s, k, e);
    forall x | x in Answers(w, s)
      ensures x in Answers(w, Absorb(w, s, k, e))
      ensures x != k ==> (Answers(w, Absorb(w, s, k, e))[x] <==> Answers(w, s)[x])
    {
      AnswersAre(w, s, x);
      KeepsAnswer(w, s, k, e, x);
      AnswersAre(w, Absorb(w, s, k, e), x);
    }
  }

  /** A re-walked instance keeps its recorded verdict. */
  lemma KeepsAnswer(w: World, s: Round, k: Key, e: Eval, x: Key)
    requires Apart(w, s) && Holds(w, s, x) && k in s.queued
    requires s.seeding.rewalked <= SeedingAfter(w, s, k, e).rewalked
    ensures var s' := Absorb(w, s, k, e);
            && Holds(w, s', x)
            && (x != k ==> (x in Trues(w, s'.verdicts, s'.seeding) <==> x in Trues(w, s.verdicts, s.seeding)))
  {
    HoldsAfter(w, s, k, e, x);
  }

  lemma MetIsHeld(w: World, s: Round, k: Key, e: Eval, x: Key)
    requires x in e.met
    ensures Holds(w, Absorb(w, s, k, e), x)
  {
    if Holds(w, s, x) { HoldsAfter(w, s, k, e, x); }
  }

  lemma NothingFresh(w: World, s: Round, k: Key, e: Eval)
    requires Answers(w, Absorb(w, s, k, e)).Keys == Answers(w, s).Keys
    ensures Fresh(w, s, e.met) == {}
    ensures Holds(w, s, k)
  {
    AnswersAre(w, s, k);
    AnswersAre(w, Absorb(w, s, k, e), k);
    assert k in Answers(w, Absorb(w, s, k, e)).Keys;
    forall x | x in e.met ensures Holds(w, s, x) {
      MetIsHeld(w, s, k, e, x);
      AnswersAre(w, s, x);
      AnswersAre(w, Absorb(w, s, k, e), x);
      assert x in Answers(w, Absorb(w, s, k, e)).Keys;
    }
  }

  lemma ClimbsTaken(w: World, rows: map<Key, set<Id>>, start: set<Id>, s: Round, k: Key, r: nat)
    requires Round0(w, rows, start, s) && LevelTrue(w, s, Below(w, start, r))
    requires k in Roots(Kleene(w.p, w.cold, start, r))
    requires k in s.queued && Answers(w, TakeKey(w, s, k)).Keys == Answers(w, s).Keys
    ensures k in Answers(w, TakeKey(w, s, k)) && Answers(w, TakeKey(w, s, k))[k]
  {
    var e := Evaluate(Answering(w, s, k), k.root);
    EvaluatedFair(w, rows, s, k);
    NothingFresh(w, s, k, e);
    TakenAnswersTrue(w, rows, s, k, e, r);
    AnswersAre(w, Absorb(w, s, k, e), k);
    assert VerdictsAfter(w, s, k, e)[k];
  }

  lemma ClimbsResting(w: World, rows: map<Key, set<Id>>, start: set<Id>, s: Round, k: Key, r: nat)
    requires Round0(w, rows, start, s) && LevelTrue(w, s, Below(w, start, r))
    requires k in Roots(Kleene(w.p, w.cold, start, r))
    requires k !in s.queued && k in Answers(w, s)
    ensures Answers(w, s)[k]
  {
    AnswersAre(w, s, k);
    if k in s.verdicts { RestingAnswersTrue(w, s, k, r); } else { ServedAnswersTrue(w, rows, s, k, r); }
  }

  lemma LevelsAgree(w: World, rows: map<Key, set<Id>>, start: set<Id>, s: Round, r: nat)
    ensures Schedules.LevelTrue(RoundMachine(w, rows, start), s, r) <==> LevelTrue(w, s, Below(w, start, r))
  {
    var m := RoundMachine(w, rows, start);
    if r == 0 {
      assert Roots({}) == {};
    } else {
      assert m.level(r - 1) == Roots(Below(w, start, r)) && m.verdicts(s) == Answers(w, s);
      if LevelTrue(w, s, Below(w, start, r)) {
        forall k | k in m.verdicts(s) && k in m.level(r - 1) ensures m.verdicts(s)[k] {
          AnswersAre(w, s, k);
        }
      }
      if Schedules.LevelTrue(m, s, r) {
        forall k | Holds(w, s, k) && k in Roots(Below(w, start, r)) ensures k in Trues(w, s.verdicts, s.seeding) {
          AnswersAre(w, s, k);
          assert k in m.verdicts(s) && k in m.level(r - 1);
        }
      }
    }
  }

  lemma RoundClimbs(w: World, rows: map<Key, set<Id>>, start: set<Id>, s: Round, k: Key, r: nat)
    requires Round0(w, rows, start, s)
    ensures Climbing(RoundMachine(w, rows, start), s, k, r)
  {
    LevelsAgree(w, rows, start, s, r);
    if LevelTrue(w, s, Below(w, start, r)) && k in Roots(Kleene(w.p, w.cold, start, r)) {
      if k in s.queued {
        if Answers(w, TakeKey(w, s, k)).Keys == Answers(w, s).Keys { ClimbsTaken(w, rows, start, s, k, r); }
      } else if k in Answers(w, s) {
        ClimbsResting(w, rows, start, s, k, r);
      }
    }
  }

  /** When every answer is final, a step that leaves the async set re-walks nothing and only takes from
      the queue. */
  lemma FinalStepShrinks(w: World, rows: map<Key, set<Id>>, start: set<Id>, s: Round, k: Key, e: Eval)
    requires Round0(w, rows, start, s) && k in s.queued && Fair(w, s, k, e) && KnownAfter(s, k, e) == start
    requires Fresh(w, s, e.met) == {} && Holds(w, s, k)
    requires LevelTrue(w, s, Least(w.p, w.cold, start))
    ensures QueuedAfter(w, s, k, e) == s.queued - {k}
  {
    if k.root in e.flags {
      assert (k, k.root) in Least(w.p, w.cold, start);
      assert k in Roots(Least(w.p, w.cold, start));
    }
    assert !Rose(w, s, e.met, k, k.root in e.flags);
    assert KnownAfter(s, k, e) - s.known == {};
  }

  lemma RoundShrinks(w: World, rows: map<Key, set<Id>>, start: set<Id>, s: Round, k: Key)
    requires Round0(w, rows, start, s) && k in s.queued && Answers(w, TakeKey(w, s, k)).Keys == Answers(w, s).Keys
    requires LevelTrue(w, s, Least(w.p, w.cold, start)) && TakeKey(w, s, k).known == start
    ensures TakeKey(w, s, k).queued == s.queued - {k}
  {
    var e := Evaluate(Answering(w, s, k), k.root);
    EvaluatedFair(w, rows, s, k);
    NothingFresh(w, s, k, e);
    FinalStepShrinks(w, rows, start, s, k, e);
  }

  lemma AnswersInKeys(w: World, rows: map<Key, set<Id>>, start: set<Id>, s: Round)
    requires Round0(w, rows, start, s)
    ensures Answers(w, s).Keys <= Keys(w.p, w.cold)
  {
    if w.rec.Some? { RecordedKeys(w, rows); }
  }

  lemma RoundIsLawful(w: World, rows: map<Key, set<Id>>, start: set<Id>)
    ensures Lawful(RoundMachine(w, rows, start))
  {
    var m := RoundMachine(w, rows, start);
    forall s | m.inv(s) ensures m.verdicts(s).Keys <= m.keys {
      AnswersInKeys(w, rows, start, s);
    }
    forall s, k | m.inv(s) && k in m.queued(s) ensures Keeps(m, s, k) {
      RoundKeeps(w, rows, start, s, k);
    }
    forall s, k, r | m.inv(s) ensures Climbing(m, s, k, r) {
      RoundClimbs(w, rows, start, s, k, r);
    }
    forall s, k | m.inv(s) && k in m.queued(s) && !Discovers(m, s, k) && Schedules.LevelTrue(m, s, m.top + 1)
                  && m.inv(m.take(s, k))
      ensures m.queued(m.take(s, k)) == m.queued(s) - {k}
    {
      LevelsAgree(w, rows, start, s, m.top + 1);
      RoundShrinks(w, rows, start, s, k);
    }
  }

  // ----- runs -----

  /** A run of one round over an unchanging async set, from scratch or over a record, by any schedule. */
  ghost predicate RoundRun(w: World, rows: map<Key, set<Id>>, start: set<Id>, run: Run<Round>) {
    && WorldOk(w, rows) && Inv(w, start, run(0))
    && (forall i: nat {:trigger run(i)} :: run(i).known == start)
    && (forall i: nat {:trigger Stepped(RoundMachine(w, rows, start), run, i)} ::
          Stepped(RoundMachine(w, rows, start), run, i))
  }

  lemma RunStep(w: World, rows: map<Key, set<Id>>, start: set<Id>, run: Run<Round>, i: nat)
    requires RoundRun(w, rows, start, run)
    ensures Stepped(RoundMachine(w, rows, start), run, i) && run(i + 1).known == start
  {
  }

  lemma NextInside(w: World, rows: map<Key, set<Id>>, start: set<Id>, run: Run<Round>, i: nat)
    requires Round0(w, rows, start, run(i)) && Stepped(RoundMachine(w, rows, start), run, i)
    requires run(i + 1).known == start
    ensures Round0(w, rows, start, run(i + 1))
  {
    if run(i).queued != {} {
      var k :| Took(RoundMachine(w, rows, start), run, i, k);
      assert RoundStep(w, run(i), run(i + 1));
      StepKeepsInv(w, rows, start, run(i), run(i + 1));
    }
  }

  lemma RunInside(w: World, rows: map<Key, set<Id>>, start: set<Id>, run: Run<Round>, i: nat)
    requires RoundRun(w, rows, start, run)
    ensures RoundMachine(w, rows, start).inv(run(i))
  {
    var m := RoundMachine(w, rows, start);
    forall j: nat ensures InsideNext(m, run, j) {
      RunStep(w, rows, start, run, j);
      if Round0(w, rows, start, run(j)) { NextInside(w, rows, start, run, j); }
    }
    StaysInside(m, run, i);
  }

  /** A round that adds nothing to the async set, from scratch or over a valid record, ends exactly when
      its schedule starves nothing it queued. */
  lemma RoundEndsIffUnstarved(w: World, rows: map<Key, set<Id>>, start: set<Id>, run: Run<Round>)
    requires RoundRun(w, rows, start, run)
    ensures Ends(RoundMachine(w, rows, start), run) <==> Unstarved(RoundMachine(w, rows, start), run)
  {
    var m := RoundMachine(w, rows, start);
    RoundIsLawful(w, rows, start);
    forall i: nat ensures m.inv(run(i)) && Stepped(m, run, i) {
      RunInside(w, rows, start, run, i);
      RunStep(w, rows, start, run, i);
    }
    EndsIffUnstarved(m, run);
  }
}

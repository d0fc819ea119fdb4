/** A step of the round keeps the invariants, and a round that ends without growing the async set
    answers every instance it holds with its least verdict - whatever was taken off the queue when. */
module AsyncRoundProof {
  import opened Basics
  import opened AsyncProgram
  import opened AsyncFixpoint
  import opened AsyncEvaluate
  import opened AsyncQuiet
  import opened AsyncRound
  import opened Iterates

  /** A verdict is read only at the instance the call names. */
  lemma AwaitsLocal(p: Program, cold: bool, known: set<Id>, flags: set<Id>, bits: set<Id>,
                    t: set<Key>, t': set<Key>, c: CallSite)
    requires var k := Met(p, cold, known, flags, bits, c); k.Some? ==> k.value in t ==> k.value in t'
    ensures CallAwaits(p, cold, known, flags, bits, t, c) ==> CallAwaits(p, cold, known, flags, bits, t', c)
  {
  }

  /** What one evaluation gives the step. */
  ghost predicate Fair(w: World, s: Round, k: Key, e: Eval) {
    && Settled(Answering(w, s, k), Component(w.p, k.root), e.flags, e.met, e.logged)
    && e.flags <= Row(Least(w.p, w.cold, s.known), k)
    && AllKeys(w.p, w.cold, e.met)
    && Within(MemberReads(w.p, s.known, Component(w.p, k.root)), e.logged)
    && (forall m :: m in Component(w.p, k.root) && m in s.known ==> m in e.flags)
    && (forall m :: m in e.flags ==> m in Component(w.p, k.root))
    && (w.cold ==> e.flags <= w.p.coldIds)
  }

  lemma EvaluatedFair(w: World, rows: map<Key, set<Id>>, s: Round, k: Key)
    requires WorldOk(w, rows) && Sound(w, s) && k in Keys(w.p, w.cold)
    ensures Fair(w, s, k, Evaluate(Answering(w, s, k), k.root))
  {
    EvaluationIsExact(Answering(w, s, k), k);
    if w.cold { DescendCold(w.p, [k.root], 0, |AllChildren(w.p)| + 1); }
  }

  ghost predicate Shaped(w: World) {
    w.rec.Some? ==> RecordShape(w.rec.value)
  }

  lemma MovedAllGrows(w: World, sd: Seeding, ids: set<Id>)
    requires w.rec.Some? && RecordShape(w.rec.value) && SeedingOk(w, sd)
    ensures var sd' := MovedAll(w, sd, ids);
            && sd.rewalked <= sd'.rewalked && sd.seen <= sd'.seen && sd'.started == sd.started
            && SeedingOk(w, sd')
            && (forall i :: i in ids && i !in w.rec.value.settled ==> i in sd'.seen)
  {
    var rec := w.rec.value;
    var sd' := MovedAll(w, sd, ids);
    forall i, k | i in sd'.seen && k in rec.logs && i in rec.logs[k].ids ensures k in sd'.rewalked {
      if i !in sd.seen {
        assert k in Readers(w.p, rec, i);
      }
    }
  }

  lemma SeedingGrows(w: World, s: Round, k: Key, e: Eval)
    requires Shaped(w)
    requires w.rec.Some? ==> SeedingOk(w, s.seeding)
    ensures var sd := SeedingAfter(w, s, k, e);
            && s.seeding.rewalked <= sd.rewalked && s.seeding.seen <= sd.seen && sd.started == s.seeding.started
            && (w.rec.None? ==> sd == s.seeding)
            && (w.rec.Some? ==> SeedingOk(w, sd))
            && (w.rec.Some? ==>
                  forall i :: i in KnownAfter(s, k, e) - s.known && i !in w.rec.value.settled ==> i in sd.seen)
  {
    if w.rec.Some? {
      var recorded := if Rose(w, s, e.met, k, k.root in e.flags) then DependentsOf(w.rec.value.dependents, k) else {};
      var sd := s.seeding.(rewalked := s.seeding.rewalked + recorded);
      assert SeedingOk(w, sd);
      MovedAllGrows(w, sd, KnownAfter(s, k, e) - s.known);
    }
  }

  lemma RecordedKeys(w: World, rows: map<Key, set<Id>>)
    requires WorldOk(w, rows) && w.rec.Some?
    ensures w.rec.value.flags.Keys <= Keys(w.p, false)
  {
    forall x | x in w.rec.value.flags ensures x in Keys(w.p, false) {
      assert RecordedKeyOk(w.p, w.rec.value, x, rows[x]);
    }
  }

  /** The only verdict a step turns on is the taken key's, when it rose. */
  lemma TruesAfter(w: World, s: Round, k: Key, e: Eval, x: Key)
    requires s.seeding.rewalked <= SeedingAfter(w, s, k, e).rewalked
    requires x in Trues(w, VerdictsAfter(w, s, k, e), SeedingAfter(w, s, k, e))
    ensures x in Trues(w, s.verdicts, s.seeding) || (x == k && Rose(w, s, e.met, k, k.root in e.flags))
  {
  }

  lemma HoldsAfter(w: World, s: Round, k: Key, e: Eval, x: Key)
    requires Holds(w, s, x)
    ensures Holds(w, Absorb(w, s, k, e), x)
  {
  }

  lemma TruesBelow(w: World, s: Round, k: Key, e: Eval, bound: set<Key>)
    requires Trues(w, s.verdicts, s.seeding) <= bound && (k.root in e.flags ==> k in bound)
    requires s.seeding.rewalked <= SeedingAfter(w, s, k, e).rewalked
    ensures Trues(w, VerdictsAfter(w, s, k, e), SeedingAfter(w, s, k, e)) <= bound
  {
    forall x | x in Trues(w, VerdictsAfter(w, s, k, e), SeedingAfter(w, s, k, e)) ensures x in bound {
      TruesAfter(w, s, k, e, x);
    }
  }

  ghost predicate DependentsIn(d: map<Key, set<Key>>, bound: set<Key>) {
    forall x :: x in d ==> d[x] <= bound
  }

  /** Whatever set holds every instance of the round before the step holds every one after it. */
  lemma KeysAfter(w: World, s: Round, k: Key, e: Eval, bound: set<Key>)
    requires Shaped(w) && s.verdicts.Keys <= bound && s.queued <= bound && k in s.queued
    requires forall x :: x in e.met ==> x in bound
    requires w.rec.Some? ==> SeedingOk(w, s.seeding) && w.rec.value.flags.Keys <= bound
    requires DependentsIn(s.dependents, bound)
    ensures VerdictsAfter(w, s, k, e).Keys <= bound && QueuedAfter(w, s, k, e) <= bound
    ensures DependentsIn(DependentsAfter(s, k, e), bound)
  {
    SeedingGrows(w, s, k, e);
  }

  lemma SoundAfter(w: World, rows: map<Key, set<Id>>, s: Round, k: Key, e: Eval)
    requires WorldOk(w, rows) && Sound(w, s) && k in s.queued && Fair(w, s, k, e)
    requires w.rec.Some? ==> SeedingOk(w, s.seeding)
    ensures Sound(w, Absorb(w, s, k, e))
  {
    var known := KnownAfter(s, k, e);
    var l, l' := Least(w.p, w.cold, s.known), Least(w.p, w.cold, known);
    LeastMono(w.p, w.cold, s.known, w.cold, known);
    RowsGrow(l, l', k);
    SeedingGrows(w, s, k, e);
    if w.rec.Some? { RecordedKeys(w, rows); }
    if k.root in e.flags {
      assert (k, k.root) in l;
    }
    TruesBelow(w, s, k, e, Roots(l'));
    KeysAfter(w, s, k, e, Keys(w.p, w.cold));
    forall x | x in s.last[k := e.flags] ensures s.last[k := e.flags][x] <= Row(l', x) {
      RowsGrow(l, l', x);
    }
  }

  lemma AnsweredAfter(w: World, s: Round, k: Key, e: Eval)
    requires Shaped(w) && Answered(w, s)
    requires w.rec.Some? ==> SeedingOk(w, s.seeding)
    ensures Answered(w, Absorb(w, s, k, e))
  {
    SeedingGrows(w, s, k, e);
    var s' := Absorb(w, s, k, e);
    forall x | x in s'.verdicts ensures x in s'.last || x in s'.queued {
      AnsweredOrQueued(w, s, k, e, x);
    }
    forall x | x in s'.last ensures x in s'.verdicts && (s'.verdicts[x] <==> x.root in s'.last[x]) {
      AnsweredAsLast(w, s, k, e, x);
    }
  }

  lemma AnsweredOrQueued(w: World, s: Round, k: Key, e: Eval, x: Key)
    requires Answered(w, s) && x in VerdictsAfter(w, s, k, e)
    ensures x in s.last[k := e.flags] || x in QueuedAfter(w, s, k, e)
  {
  }

  lemma AnsweredAsLast(w: World, s: Round, k: Key, e: Eval, x: Key)
    requires Answered(w, s) && x in s.last[k := e.flags]
    ensures x in VerdictsAfter(w, s, k, e) && (VerdictsAfter(w, s, k, e)[x] <==> x.root in s.last[k := e.flags][x])
  {
  }

  lemma ReadersKept(s: Round, k: Key, e: Eval)
    requires DependentsIn(s.dependents, s.verdicts.Keys)
    ensures DependentsIn(DependentsAfter(s, k, e), s.verdicts.Keys + {k})
  {
  }

  lemma ServedStayApart(w: World, s: Round, k: Key, e: Eval, x: Key)
    requires Shaped(w) && Apart(w, s) && k in s.queued
    requires w.rec.Some? ==> SeedingOk(w, s.seeding)
    requires Serves(w, SeedingAfter(w, s, k, e), x)
    ensures x !in VerdictsAfter(w, s, k, e) && x !in QueuedAfter(w, s, k, e)
  {
    SeedingGrows(w, s, k, e);
    assert Serves(w, s.seeding, x);
    ReadersKept(s, k, e);
    assert x !in Fresh(w, s, e.met);
  }

  lemma ApartAfter(w: World, s: Round, k: Key, e: Eval)
    requires Shaped(w) && Apart(w, s) && k in s.queued
    requires w.rec.Some? ==> SeedingOk(w, s.seeding)
    ensures Apart(w, Absorb(w, s, k, e))
  {
    ReadersKept(s, k, e);
    assert s.verdicts.Keys + {k} <= VerdictsAfter(w, s, k, e).Keys;
    forall x | Serves(w, SeedingAfter(w, s, k, e), x)
      ensures x !in VerdictsAfter(w, s, k, e) && x !in QueuedAfter(w, s, k, e)
    {
      ServedStayApart(w, s, k, e, x);
    }
  }

  lemma CoveredAfter(w: World, s: Round, k: Key, e: Eval)
    requires Covered(w, s)
    ensures Covered(w, Absorb(w, s, k, e))
  {
    forall f | f in w.p.functions && InView(w.p, w.cold, f)
      ensures Holds(w, Absorb(w, s, k, e), Key(f, {})) || Key(f, {}) in QueuedAfter(w, s, k, e)
    {
      if Holds(w, s, Key(f, {})) { HoldsAfter(w, s, k, e, Key(f, {})); }
    }
  }

  /** A verdict that turned on would have re-queued its reader. */
  lemma TruesForReader(w: World, s: Round, k: Key, e: Eval, x: Key, y: Key)
    requires Shaped(w) && (w.rec.Some? ==> SeedingOk(w, s.seeding))
    requires x !in QueuedAfter(w, s, k, e)
    requires y in DependentsAfter(s, k, e) && x in DependentsAfter(s, k, e)[y]
    requires y in Trues(w, VerdictsAfter(w, s, k, e), SeedingAfter(w, s, k, e))
    ensures y in Trues(w, s.verdicts, s.seeding)
  {
    SeedingGrows(w, s, k, e);
    TruesAfter(w, s, k, e, y);
  }

  lemma LiveCallKept(w: World, s: Round, k: Key, e: Eval, x: Key, row: set<Id>, m: Id, c: CallSite)
    requires Shaped(w) && (w.rec.Some? ==> SeedingOk(w, s.seeding))
    requires KnownAfter(s, k, e) == s.known && x !in QueuedAfter(w, s, k, e)
    requires LiveCallOk(w, s, x, row, m, c)
    ensures LiveCallOk(w, Absorb(w, s, k, e), x, row, m, c)
  {
    var s' := Absorb(w, s, k, e);
    var met := Met(w.p, w.cold, s.known, row, x.bits, c);
    if met.Some? {
      HoldsAfter(w, s, k, e, met.value);
      if met.value in Trues(w, s'.verdicts, s'.seeding) {
        TruesForReader(w, s, k, e, x, met.value);
      }
    }
    AwaitsLocal(w.p, w.cold, s.known, row, x.bits,
                Trues(w, s'.verdicts, s'.seeding), Trues(w, s.verdicts, s.seeding), c);
  }

  lemma TakenCallOk(w: World, s: Round, k: Key, e: Eval, m: Id, c: CallSite)
    requires Shaped(w) && (w.rec.Some? ==> SeedingOk(w, s.seeding))
    requires KnownAfter(s, k, e) == s.known && k !in QueuedAfter(w, s, k, e)
    requires Heard(Answering(w, s, k), e.flags, e.met, e.logged, m, c)
    ensures LiveCallOk(w, Absorb(w, s, k, e), k, e.flags, m, c)
  {
    var s' := Absorb(w, s, k, e);
    var met := Met(w.p, w.cold, s.known, e.flags, k.bits, c);
    if met.Some? {
      var x := met.value;
      assert MetBy(Answering(w, s, k), e.flags, c) == [x];
      assert x in e.met;
      assert Holds(w, s', x);
      if x in Trues(w, s'.verdicts, s'.seeding) {
        TruesForReader(w, s, k, e, k, x);
      }
    }
    AwaitsLocal(w.p, w.cold, s.known, e.flags, k.bits,
                Trues(w, s'.verdicts, s'.seeding), Trues(w, s.verdicts, s.seeding), c);
  }

  lemma StandingAfter(w: World, s: Round, k: Key, e: Eval)
    requires Shaped(w) && (w.rec.Some? ==> SeedingOk(w, s.seeding))
    requires KnownAfter(s, k, e) == s.known && Fair(w, s, k, e) && Standing(w, s)
    ensures Standing(w, Absorb(w, s, k, e))
  {
    var s' := Absorb(w, s, k, e);
    forall x | x in s'.last && x !in s'.queued ensures LiveKeyOk(w, s', x, s'.last[x]) {
      var row := s'.last[x];
      forall m, c | m in Component(w.p, x.root) && c in CallsOf(w.p, m) ensures LiveCallOk(w, s', x, row, m, c) {
        if x == k {
          TakenCallOk(w, s, k, e, m, c);
        } else {
          assert LiveCallOk(w, s, x, row, m, c);
          LiveCallKept(w, s, k, e, x, row, m, c);
        }
      }
    }
  }

  lemma ServedAfter(w: World, s: Round, k: Key, e: Eval)
    requires Shaped(w) && (w.rec.Some? ==> SeedingOk(w, s.seeding))
    requires KnownAfter(s, k, e) == s.known && ServedOk(w, s)
    ensures ServedOk(w, Absorb(w, s, k, e))
  {
    if w.rec.Some? {
      var s' := Absorb(w, s, k, e);
      var rec := w.rec.value;
      SeedingGrows(w, s, k, e);
      forall y, x | Serves(w, s'.seeding, y) && Reading(rec, y, x) && x in Trues(w, s'.verdicts, s'.seeding)
        ensures RecordedFlag(w, x)
      {
        assert Serves(w, s.seeding, y);
        TruesAfter(w, s, k, e, x);
      }
    }
  }

  /** Every step keeps the invariants, whichever queued instance it takes. */
  lemma StepKeepsInv(w: World, rows: map<Key, set<Id>>, start: set<Id>, s: Round, s': Round)
    requires WorldOk(w, rows) && Inv(w, start, s) && RoundStep(w, s, s')
    ensures Inv(w, start, s')
  {
    var k :| k in s.queued && s' == TakeKey(w, s, k);
    var e := Evaluate(Answering(w, s, k), k.root);
    EvaluatedFair(w, rows, s, k);
    AbsorbKeepsInv(w, rows, start, s, k, e);
  }

  lemma SeenAfter(w: World, s: Round, k: Key, e: Eval)
    requires w.rec.Some? && RecordShape(w.rec.value) && SeenOk(w, s.seeding, s.known)
    ensures SeenOk(w, SeedingAfter(w, s, k, e), KnownAfter(s, k, e))
  {
    SeedingGrows(w, s, k, e);
  }

  lemma AlwaysAfter(w: World, rows: map<Key, set<Id>>, s: Round, k: Key, e: Eval)
    requires WorldOk(w, rows) && Always(w, s) && k in s.queued && Fair(w, s, k, e)
    ensures Always(w, Absorb(w, s, k, e))
  {
    SoundAfter(w, rows, s, k, e);
    AnsweredAfter(w, s, k, e);
    ApartAfter(w, s, k, e);
    CoveredAfter(w, s, k, e);
    if w.rec.Some? { SeenAfter(w, s, k, e); } else { SeedingGrows(w, s, k, e); }
  }

  lemma SettlingAfter(w: World, start: set<Id>, s: Round, k: Key, e: Eval)
    requires Shaped(w) && (w.rec.Some? ==> SeedingOk(w, s.seeding))
    requires Settling(w, start, s) && Fair(w, s, k, e)
    ensures Settling(w, start, Absorb(w, s, k, e))
  {
    if KnownAfter(s, k, e) == start {
      StandingAfter(w, s, k, e);
      ServedAfter(w, s, k, e);
    }
  }

  lemma AbsorbKeepsInv(w: World, rows: map<Key, set<Id>>, start: set<Id>, s: Round, k: Key, e: Eval)
    requires WorldOk(w, rows) && Inv(w, start, s) && k in s.queued && Fair(w, s, k, e)
    ensures Inv(w, start, Absorb(w, s, k, e))
  {
    AlwaysAfter(w, rows, s, k, e);
    SettlingAfter(w, start, s, k, e);
  }
}

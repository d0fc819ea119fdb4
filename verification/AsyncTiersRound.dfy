/** What a tiered program's round keeps: readers are above what they read, and among the functions
    numbered 0 no verdict falls back. */
module AsyncTiersRound {
  import opened Basics
  import opened AsyncProgram
  import opened AsyncFixpoint
  import opened AsyncEvaluate
  import opened AsyncRound
  import opened AsyncRoundProof
  import opened AsyncSchedule
  import opened AsyncTiers
  import opened AsyncTiersRecord

  // ----- what an evaluation names -----

  /** A call of the root's bodies may name an instance of `x`'s root. */
  ghost predicate NamedFrom(p: Program, cold: bool, root: Id, x: Key) {
    exists m, c :: m in Component(p, root) && c in CallsOf(p, m) && MayName(p, cold, c) && c.target.id == x.root
  }

  ghost predicate AllNamed(f: Frame, root: Id, met: seq<Key>) {
    forall x :: x in met ==> NamedFrom(f.p, f.cold, root, x)
  }

  lemma {:induction false} CallsNamed(f: Frame, root: Id, m: Id, cs: seq<CallSite>, e: Eval)
    requires m in Component(f.p, root) && (forall c :: c in cs ==> c in CallsOf(f.p, m)) && AllNamed(f, root, e.met)
    ensures AllNamed(f, root, VisitCalls(f, m, cs, e).met)
  {
    if cs != [] {
      var c, before := cs[|cs| - 1], VisitCalls(f, m, cs[..|cs| - 1], e);
      CallsNamed(f, root, m, cs[..|cs| - 1], e);
      var x := Met(f.p, f.cold, f.known, before.flags, f.bits, c);
      if x.Some? {
        MetMayName(f.p, f.cold, f.known, before.flags, f.bits, c);
        assert c in CallsOf(f.p, m);
      }
    }
  }

  lemma {:induction false} MembersNamed(f: Frame, root: Id, ms: seq<Id>, e: Eval)
    requires (forall m :: m in ms ==> m in Component(f.p, root)) && AllNamed(f, root, e.met)
    ensures AllNamed(f, root, VisitMembers(f, ms, e).met)
  {
    if ms != [] {
      var n := |ms| - 1;
      MembersNamed(f, root, ms[..n], e);
      CallsNamed(f, root, ms[n], CallsOf(f.p, ms[n]), VisitMembers(f, ms[..n], e));
    }
  }

  lemma {:induction false} SettleNamed(f: Frame, root: Id, ms: seq<Id>, e: Eval)
    requires ms == Component(f.p, root) && AllNamed(f, root, e.met)
    ensures AllNamed(f, root, Settle(f, ms, e).met)
    decreases |Unflagged(ms, e.flags)|
  {
    MembersNamed(f, root, ms, e);
    var next := VisitMembers(f, ms, e);
    if next.flags != e.flags {
      FewerUnflagged(ms, e.flags, next.flags);
      SettleNamed(f, root, ms, next);
    }
  }

  lemma EvaluationNamed(f: Frame, root: Id)
    ensures AllNamed(f, root, Evaluate(f, root).met)
  {
    SettleNamed(f, root, Component(f.p, root), Begin(f, Component(f.p, root)));
  }

  // ----- the invariant -----

  /** `d` may read `x`. */
  predicate Above(t: Tiers, d: Key, x: Key) {
    t.rank(x.root) < t.rank(d.root) || t.rank(x.root) == 0 == t.rank(d.root)
  }

  ghost predicate ReadersAbove(t: Tiers, dependents: map<Key, set<Key>>) {
    forall x, d :: x in dependents && d in dependents[x] ==> Above(t, d, x)
  }

  /** Evaluated now, a true instance of tier 0 is true. */
  ghost predicate Firm(w: World, t: Tiers, s: Round) {
    forall k :: k in Trues(w, s.verdicts, s.seeding) && t.rank(k.root) == 0 ==>
      k.root in Evaluate(Answering(w, s, k), k.root).flags
  }

  ghost predicate TierInv(w: World, start: set<Id>, t: Tiers, s: Round) {
    Tiered(GroundOf(w, start), t) && Grown(GroundOf(w, start), s.known) && ReadersAbove(t, s.dependents)
    && Firm(w, t, s)
  }

  lemma MetAbove(w: World, start: set<Id>, t: Tiers, s: Round, k: Key)
    requires Tiered(GroundOf(w, start), t) && k in Keys(w.p, w.cold)
    ensures forall x :: x in Evaluate(Answering(w, s, k), k.root).met ==> Above(t, k, x)
  {
    EvaluationNamed(Answering(w, s, k), k.root);
    assert TieredAt(GroundOf(w, start), t, k.root);
    forall x | x in Evaluate(Answering(w, s, k), k.root).met ensures Above(t, k, x) {
      assert NamedFrom(w.p, w.cold, k.root, x);
      var m, c :| m in Component(w.p, k.root) && c in CallsOf(w.p, m) && MayName(w.p, w.cold, c)
                  && c.target.id == x.root;
      assert Descends(GroundOf(w, start), t, k.root, c);
    }
  }

  lemma ReadersStayAbove(t: Tiers, s: Round, k: Key, e: Eval)
    requires ReadersAbove(t, s.dependents) && forall x :: x in e.met ==> Above(t, k, x)
    ensures ReadersAbove(t, DependentsAfter(s, k, e))
  {
  }

  lemma GrownAfter(w: World, start: set<Id>, s: Round, k: Key, e: Eval)
    requires Grown(GroundOf(w, start), s.known) && k in Keys(w.p, w.cold) && Fair(w, s, k, e)
    ensures Grown(GroundOf(w, start), KnownAfter(s, k, e))
  {
    forall i | i in KnownAfter(s, k, e) && i !in start ensures Nested(w.p, w.cold, i) {
      if i !in s.known { assert i in Component(w.p, k.root); }
    }
  }

  /** No true instance of tier 0 is lost. */
  lemma TruesKept(w: World, t: Tiers, s: Round, k: Key, e: Eval)
    requires Apart(w, s) && k in s.queued && s.seeding.rewalked <= SeedingAfter(w, s, k, e).rewalked
    requires k in Trues(w, s.verdicts, s.seeding) && t.rank(k.root) == 0 ==> k.root in e.flags
    ensures var s' := Absorb(w, s, k, e);
            forall x :: x in Trues(w, s.verdicts, s.seeding) && t.rank(x.root) == 0
              ==> x in Trues(w, s'.verdicts, s'.seeding)
  {
    var s' := Absorb(w, s, k, e);
    forall x | x in Trues(w, s.verdicts, s.seeding) && t.rank(x.root) == 0
      ensures x in Trues(w, s'.verdicts, s'.seeding)
    {
      TrueIsHeld(w, s, x);
      KeepsAnswer(w, s, k, e, x);
      if x == k { assert VerdictsAfter(w, s, k, e)[k]; }
    }
  }

  lemma TrueIsHeld(w: World, s: Round, x: Key)
    requires x in Trues(w, s.verdicts, s.seeding)
    ensures Holds(w, s, x)
  {
  }

  lemma StaysFirm(w: World, start: set<Id>, t: Tiers, s: Round, s': Round, x: Key)
    requires Tiered(GroundOf(w, start), t) && x in Keys(w.p, w.cold) && t.rank(x.root) == 0
    requires Grown(GroundOf(w, start), s.known) && Grown(GroundOf(w, start), s'.known) && s.known <= s'.known
    requires w.cold ==> s'.known <= w.p.coldIds
    requires GroundTrues(GroundOf(w, start), t, Trues(w, s.verdicts, s.seeding), Trues(w, s'.verdicts, s'.seeding))
    requires x.root in Evaluate(Answering(w, s, x), x.root).flags
    ensures x.root in Evaluate(Answering(w, s', x), x.root).flags
  {
    assert TieredAt(GroundOf(w, start), t, x.root);
    EvaluationGrows(GroundOf(w, start), t, Answering(w, s, x), Answering(w, s', x), x.root);
  }

  lemma FirmAfter(w: World, start: set<Id>, t: Tiers, s: Round, k: Key, s': Round)
    requires Tiered(GroundOf(w, start), t) && Firm(w, t, s) && Sound(w, s') && k in s.queued
    requires Grown(GroundOf(w, start), s.known) && Grown(GroundOf(w, start), s'.known) && s.known <= s'.known
    requires GroundTrues(GroundOf(w, start), t, Trues(w, s.verdicts, s.seeding), Trues(w, s'.verdicts, s'.seeding))
    requires forall x :: x in Trues(w, s'.verdicts, s'.seeding) ==>
               x in Trues(w, s.verdicts, s.seeding)
               || (x == k && k.root in Evaluate(Answering(w, s, k), k.root).flags)
    ensures Firm(w, t, s')
  {
    forall x | x in Trues(w, s'.verdicts, s'.seeding) && t.rank(x.root) == 0
      ensures x.root in Evaluate(Answering(w, s', x), x.root).flags
    {
      RootIsKey(w, s'.known, x);
      StaysFirm(w, start, t, s, s', x);
    }
  }

  lemma RootIsKey(w: World, known: set<Id>, x: Key)
    requires x in Roots(Least(w.p, w.cold, known)) && (w.cold ==> known <= w.p.coldIds)
    ensures x in Keys(w.p, w.cold)
  {
    LeastInUniverse(w.p, w.cold, known);
    assert (x, x.root) in Least(w.p, w.cold, known);
  }

  /** A step keeps the tiers, and every true instance of tier 0. */
  lemma StepKeepsTiers(w: World, rows: map<Key, set<Id>>, start: set<Id>, t: Tiers, s: Round, k: Key)
    requires WorldOk(w, rows) && Inv(w, start, s) && TierInv(w, start, t, s) && k in s.queued
    ensures var s' := TakeKey(w, s, k);
            && TierInv(w, start, t, s')
            && GroundTrues(GroundOf(w, start), t, Trues(w, s.verdicts, s.seeding), Trues(w, s'.verdicts, s'.seeding))
  {
    var e, s' := Evaluate(Answering(w, s, k), k.root), TakeKey(w, s, k);
    assert RoundStep(w, s, s');
    StepKeepsInv(w, rows, start, s, s');
    EvaluatedFair(w, rows, s, k);
    SeedingGrows(w, s, k, e);
    MetAbove(w, start, t, s, k);
    ReadersStayAbove(t, s, k, e);
    GrownAfter(w, start, s, k, e);
    TruesKept(w, t, s, k, e);
    forall x | x in Trues(w, s'.verdicts, s'.seeding)
      ensures x in Trues(w, s.verdicts, s.seeding) || (x == k && k.root in e.flags)
    {
      TruesAfter(w, s, k, e, x);
    }
    FirmAfter(w, start, t, s, k, s');
  }
}

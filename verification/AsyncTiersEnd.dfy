/** A tiered program's round ends on every schedule, within a bound that depends on the program and the
    tiers alone: each pop answers an instance for the first time, re-walks a recorded one, turns on one
    of tier 0 for good, or takes weight off the queue. */
module AsyncTiersEnd {
  import opened Basics
  import opened AsyncProgram
  import opened AsyncFixpoint
  import opened AsyncEvaluate
  import opened AsyncRound
  import opened AsyncRoundProof
  import opened AsyncInfer
  import opened AsyncSchedule
  import opened AsyncTiers
  import opened AsyncTiersRecord
  import opened AsyncTiersRound
  import opened Iterates
  import opened Weights
  import Schedules

  // ----- what is left to do -----

  ghost function Ground0(w: World, t: Tiers): set<Key> {
    set k | k in Keys(w.p, w.cold) && t.rank(k.root) == 0
  }

  function RecordKeys(w: World): set<Key> {
    if w.rec.Some? then w.rec.value.flags.Keys else {}
  }

  /** The instances not answered yet, the recorded ones not re-walked, and those of tier 0 not true. */
  ghost function Remaining(w: World, t: Tiers, s: Round): nat {
    |Keys(w.p, w.cold) - Answers(w, s).Keys| + |RecordKeys(w) - s.seeding.rewalked|
    + |Ground0(w, t) - Trues(w, s.verdicts, s.seeding)|
  }

  function RankOf(t: Tiers): Key -> nat {
    (k: Key) => t.rank(k.root)
  }

  ghost function Base(w: World): nat {
    |Keys(w.p, w.cold)| + 1
  }

  /** More than any queue weighs. */
  ghost function Big(w: World, t: Tiers): nat {
    |Keys(w.p, w.cold)| * Power(Base(w), t.top) + 1
  }

  ghost function Load(w: World, t: Tiers, queued: set<Key>): nat {
    Weight(queued, RankOf(t), t.top, Base(w), 0)
  }

  ghost function Potential(w: World, t: Tiers, s: Round): nat {
    Product(Big(w, t), Remaining(w, t, s)) + Load(w, t, s.queued)
  }

  /** The most pops a round can take. */
  ghost function Bound(w: World, t: Tiers): nat {
    Product(Big(w, t), 3 * |Keys(w.p, w.cold)| + 1)
  }

  // ----- a pop -----

  lemma LoadIsSmall(w: World, t: Tiers, queued: set<Key>)
    requires queued <= Keys(w.p, w.cold)
    ensures Load(w, t, queued) < Big(w, t)
  {
    WeightBound(queued, RankOf(t), t.top, Base(w), 0);
    Smaller(From(queued, RankOf(t), 0), Keys(w.p, w.cold));
    Times(|From(queued, RankOf(t), 0)|, |Keys(w.p, w.cold)|, Power(Base(w), t.top));
  }

  /** Each part of what remains, after a pop, is within what it was. */
  lemma RemainingFalls(w: World, t: Tiers, s: Round, s': Round)
    requires Answers(w, s).Keys <= Answers(w, s').Keys && s.seeding.rewalked <= s'.seeding.rewalked
    requires Ground0(w, t) - Trues(w, s'.verdicts, s'.seeding) <= Ground0(w, t) - Trues(w, s.verdicts, s.seeding)
    requires Answers(w, s').Keys <= Keys(w.p, w.cold) && s'.seeding.rewalked <= RecordKeys(w)
    ensures Remaining(w, t, s') <= Remaining(w, t, s)
    ensures Remaining(w, t, s') == Remaining(w, t, s) ==>
              && Answers(w, s').Keys == Answers(w, s).Keys && s'.seeding.rewalked == s.seeding.rewalked
              && Ground0(w, t) - Trues(w, s'.verdicts, s'.seeding) == Ground0(w, t) - Trues(w, s.verdicts, s.seeding)
  {
    var n := Keys(w.p, w.cold);
    Smaller(n - Answers(w, s').Keys, n - Answers(w, s).Keys);
    Smaller(RecordKeys(w) - s'.seeding.rewalked, RecordKeys(w) - s.seeding.rewalked);
    Smaller(Ground0(w, t) - Trues(w, s'.verdicts, s'.seeding), Ground0(w, t) - Trues(w, s.verdicts, s.seeding));
    if Remaining(w, t, s') == Remaining(w, t, s) {
      SameRest(n, Answers(w, s).Keys, Answers(w, s').Keys);
      SameRest(RecordKeys(w), s.seeding.rewalked, s'.seeding.rewalked);
    }
  }

  lemma SameRest<T>(all: set<T>, a: set<T>, b: set<T>)
    requires a <= b <= all && all - a == all - b
    ensures a == b
  {
    assert a == all - (all - a) && b == all - (all - b);
  }

  /** The readers a pop re-queues. */
  function Woken(w: World, s: Round, k: Key, e: Eval): set<Key> {
    if Rose(w, s, e.met, k, k.root in e.flags) then DependentsOf(DependentsAfter(s, k, e), k) else {}
  }

  ghost predicate AllAbove(t: Tiers, more: set<Key>, k: Key) {
    forall x :: x in more ==> t.rank(x.root) > t.rank(k.root)
  }

  /** A pop that settles nothing for good leaves, beside the rest of the queue, only readers above it. */
  lemma QueueAfterQuietPop(w: World, t: Tiers, s: Round, k: Key, e: Eval)
    requires Fresh(w, s, e.met) == {} && SeedingAfter(w, s, k, e).rewalked == s.seeding.rewalked
    requires ReadersAbove(t, DependentsAfter(s, k, e))
    requires Rose(w, s, e.met, k, k.root in e.flags) ==> t.rank(k.root) > 0
    ensures QueuedAfter(w, s, k, e) <= (s.queued - {k}) + Woken(w, s, k, e) && AllAbove(t, Woken(w, s, k, e), k)
  {
  }

  lemma LoadFalls(w: World, t: Tiers, queued: set<Key>, k: Key, queued': set<Key>, more: set<Key>)
    requires k in queued && t.rank(k.root) <= t.top && more <= Keys(w.p, w.cold)
    requires queued' <= (queued - {k}) + more && AllAbove(t, more, k)
    ensures Load(w, t, queued') < Load(w, t, queued)
  {
    Smaller(more, Keys(w.p, w.cold));
    WeightFalls(queued, k, queued', more, RankOf(t), t.top, Base(w), 0);
  }

  /** An instance of tier 0 that rose is one fewer that is not true. */
  lemma RiseCounts(w: World, t: Tiers, s: Round, k: Key, e: Eval)
    requires Rose(w, s, e.met, k, k.root in e.flags) && k in Keys(w.p, w.cold) && t.rank(k.root) == 0
    ensures var s' := Absorb(w, s, k, e);
            k in Ground0(w, t) - Trues(w, s.verdicts, s.seeding)
            && k !in Ground0(w, t) - Trues(w, s'.verdicts, s'.seeding)
  {
    assert VerdictsAfter(w, s, k, e)[k];
  }

  lemma QuietPopFalls(w: World, t: Tiers, s: Round, k: Key, e: Eval)
    requires Answers(w, Absorb(w, s, k, e)).Keys == Answers(w, s).Keys
    requires SeedingAfter(w, s, k, e).rewalked == s.seeding.rewalked
    requires Ground0(w, t) - Trues(w, s.verdicts, s.seeding)
          == Ground0(w, t) - Trues(w, Absorb(w, s, k, e).verdicts, Absorb(w, s, k, e).seeding)
    requires ReadersAbove(t, DependentsAfter(s, k, e)) && DependentsIn(DependentsAfter(s, k, e), Keys(w.p, w.cold))
    requires k in s.queued && k in Keys(w.p, w.cold) && t.rank(k.root) <= t.top
    ensures Load(w, t, QueuedAfter(w, s, k, e)) < Load(w, t, s.queued)
  {
    NothingFresh(w, s, k, e);
    if Rose(w, s, e.met, k, k.root in e.flags) && t.rank(k.root) == 0 { RiseCounts(w, t, s, k, e); }
    QueueAfterQuietPop(w, t, s, k, e);
    LoadFalls(w, t, s.queued, k, QueuedAfter(w, s, k, e), Woken(w, s, k, e));
  }

  lemma BigStep(big: nat, r: nat, r': nat, load: nat, load': nat)
    requires r' <= r && load' < big && (r' == r ==> load' < load)
    ensures Product(big, r') + load' < Product(big, r) + load
  {
    if r' < r { ProductGrows(big, r' + 1, r); }
  }

  lemma AnswersGrow(w: World, s: Round, k: Key, e: Eval)
    requires Apart(w, s) && k in s.queued && s.seeding.rewalked <= SeedingAfter(w, s, k, e).rewalked
    ensures Answers(w, s).Keys <= Answers(w, Absorb(w, s, k, e)).Keys
  {
    forall x | x in Answers(w, s).Keys ensures x in Answers(w, Absorb(w, s, k, e)).Keys {
      AnswersAre(w, s, x);
      KeepsAnswer(w, s, k, e, x);
      AnswersAre(w, Absorb(w, s, k, e), x);
    }
  }

  lemma AnswersBounded(w: World, rows: map<Key, set<Id>>, s: Round)
    requires WorldOk(w, rows) && Sound(w, s)
    ensures Answers(w, s).Keys <= Keys(w.p, w.cold)
  {
    if w.rec.Some? { RecordedKeys(w, rows); }
  }

  /** Every pop takes from what is left to do. */
  lemma PotentialFalls(w: World, rows: map<Key, set<Id>>, start: set<Id>, t: Tiers, s: Round, k: Key)
    requires WorldOk(w, rows) && Inv(w, start, s) && TierInv(w, start, t, s) && k in s.queued
    ensures Potential(w, t, TakeKey(w, s, k)) < Potential(w, t, s)
  {
    var e, s' := Evaluate(Answering(w, s, k), k.root), TakeKey(w, s, k);
    StepKeepsTiers(w, rows, start, t, s, k);
    assert RoundStep(w, s, s');
    StepKeepsInv(w, rows, start, s, s');
    SeedingGrows(w, s, k, e);
    AnswersGrow(w, s, k, e);
    AnswersBounded(w, rows, s');
    RemainingFalls(w, t, s, s');
    LoadIsSmall(w, t, s'.queued);
    assert TieredAt(GroundOf(w, start), t, k.root);
    if Remaining(w, t, s') == Remaining(w, t, s) { QuietPopFalls(w, t, s, k, e); }
    BigStep(Big(w, t), Remaining(w, t, s), Remaining(w, t, s'), Load(w, t, s.queued), Load(w, t, s'.queued));
  }

  // ----- the opening -----

  lemma BeginTrues(w: World, sd: Seeding, known: set<Id>)
    requires w.rec.Some? && RecordShape(w.rec.value) && SeedingOk(w, sd)
    ensures var s := BeginRound(w, sd, known); TrueKeys(w.rec.value.flags) <= Trues(w, s.verdicts, s.seeding)
  {
    StartOk(w, sd, known);
  }

  lemma BeginFirm(w: World, rows: map<Key, set<Id>>, sd: Seeding, start: set<Id>, t: Tiers)
    requires WorldOk(w, rows) && Tiered(GroundOf(w, start), t)
    requires w.rec.Some? ==> SeedingOk(w, sd) && w.rec.value.settled <= start
    ensures Firm(w, t, BeginRound(w, sd, start))
  {
    var s := BeginRound(w, sd, start);
    BeginAnswers(w, sd, start);
    forall k | k in Trues(w, s.verdicts, s.seeding) && t.rank(k.root) == 0
      ensures k.root in Evaluate(Answering(w, s, k), k.root).flags
    {
      BeginTrues(w, sd, start);
      RecordedFacts(w.p, w.rec.value, rows, k);
      assert TieredAt(GroundOf(w, start), t, k.root);
      RecordedConfirmed(w, rows, start, t, Answering(w, s, k), k);
    }
  }

  lemma BeginTiers(w: World, rows: map<Key, set<Id>>, sd: Seeding, start: set<Id>, t: Tiers)
    requires WorldOk(w, rows) && Tiered(GroundOf(w, start), t)
    requires w.rec.Some? ==> SeedingOk(w, sd) && w.rec.value.settled <= start
    ensures TierInv(w, start, t, BeginRound(w, sd, start))
  {
    BeginAnswers(w, sd, start);
    BeginFirm(w, rows, sd, start, t);
  }

  lemma BigBound(big: nat, r: nat, n: nat, load: nat)
    requires r <= n && load < big
    ensures Product(big, r) + load < Product(big, n + 1)
  {
    ProductGrows(big, r, n);
  }

  lemma RemainingBounded(w: World, rows: map<Key, set<Id>>, t: Tiers, s: Round)
    requires WorldOk(w, rows)
    ensures Remaining(w, t, s) <= 3 * |Keys(w.p, w.cold)|
  {
    var n := Keys(w.p, w.cold);
    if w.rec.Some? { RecordedKeys(w, rows); }
    Smaller(n - Answers(w, s).Keys, n);
    Smaller(RecordKeys(w) - s.seeding.rewalked, n);
    Smaller(Ground0(w, t) - Trues(w, s.verdicts, s.seeding), n);
  }

  lemma PotentialBounded(w: World, t: Tiers, s: Round)
    requires s.queued <= Keys(w.p, w.cold) && Remaining(w, t, s) <= 3 * |Keys(w.p, w.cold)|
    ensures Potential(w, t, s) < Bound(w, t)
  {
    LoadIsSmall(w, t, s.queued);
    BigBound(Big(w, t), Remaining(w, t, s), 3 * |Keys(w.p, w.cold)|, Load(w, t, s.queued));
  }

  // ----- every schedule -----

  /** A run of a round by any schedule, the async set growing as it may, standing still once it ended. */
  ghost predicate AnyRun(w: World, run: Schedules.Run<Round>) {
    forall i: nat {:trigger Pops(w, run, i)} :: Pops(w, run, i)
  }

  ghost predicate Pops(w: World, run: Schedules.Run<Round>, i: nat) {
    if run(i).queued == {} then run(i + 1) == run(i) else RoundStep(w, run(i), run(i + 1))
  }

  ghost predicate TierGood(w: World, rows: map<Key, set<Id>>, start: set<Id>, t: Tiers, s: Round) {
    WorldOk(w, rows) && Inv(w, start, s) && TierInv(w, start, t, s)
  }

  lemma PopGood(w: World, rows: map<Key, set<Id>>, start: set<Id>, t: Tiers, s: Round, s': Round)
    requires TierGood(w, rows, start, t, s) && RoundStep(w, s, s')
    ensures TierGood(w, rows, start, t, s') && Potential(w, t, s') < Potential(w, t, s)
  {
    var k :| k in s.queued && s' == TakeKey(w, s, k);
    PotentialFalls(w, rows, start, t, s, k);
    StepKeepsTiers(w, rows, start, t, s, k);
    StepKeepsInv(w, rows, start, s, s');
  }

  ghost function GoodOf(w: World, rows: map<Key, set<Id>>, start: set<Id>, t: Tiers): Round -> bool {
    (s: Round) => TierGood(w, rows, start, t, s)
  }

  function Finished(s: Round): bool {
    s.queued == {}
  }

  ghost function LeftOf(w: World, t: Tiers): Round -> nat {
    (s: Round) => Potential(w, t, s)
  }

  lemma PopUses(w: World, rows: map<Key, set<Id>>, start: set<Id>, t: Tiers, run: Schedules.Run<Round>, i: nat)
    requires Pops(w, run, i)
    ensures UsesUp(run, GoodOf(w, rows, start, t), Finished, LeftOf(w, t), i)
  {
    if TierGood(w, rows, start, t, run(i)) && run(i).queued != {} { PopGood(w, rows, start, t, run(i), run(i + 1)); }
  }

  lemma PopsUse(w: World, rows: map<Key, set<Id>>, start: set<Id>, t: Tiers, run: Schedules.Run<Round>)
    requires AnyRun(w, run)
    ensures forall i: nat {:trigger UsesUp(run, GoodOf(w, rows, start, t), Finished, LeftOf(w, t), i)} ::
              UsesUp(run, GoodOf(w, rows, start, t), Finished, LeftOf(w, t), i)
  {
    forall i: nat ensures UsesUp(run, GoodOf(w, rows, start, t), Finished, LeftOf(w, t), i) {
      assert Pops(w, run, i);
      PopUses(w, rows, start, t, run, i);
    }
  }

  /** Whatever is taken when - off the top of the stack included - a tiered program's round ends within
      the bound. */
  lemma TieredRoundEnds(w: World, rows: map<Key, set<Id>>, sd: Seeding, start: set<Id>, t: Tiers,
                        run: Schedules.Run<Round>)
    requires WorldOk(w, rows) && Tiered(GroundOf(w, start), t) && (w.cold ==> start <= w.p.coldIds)
    requires w.rec.Some? ==> SeedingOk(w, sd) && w.rec.value.settled <= start
    requires w.rec.None? ==> sd == UNSTARTED
    requires run(0) == BeginRound(w, sd, start) && AnyRun(w, run)
    ensures run(Bound(w, t)).queued == {}
  {
    BeginAlways(w, rows, sd, start);
    BeginSettling(w, rows, sd, start);
    BeginTiers(w, rows, sd, start, t);
    RemainingBounded(w, rows, t, run(0));
    PotentialBounded(w, t, run(0));
    PopsUse(w, rows, start, t, run);
    EndsInTime(run, GoodOf(w, rows, start, t), Finished, LeftOf(w, t), Bound(w, t));
  }
}

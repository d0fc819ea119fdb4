/** The pass without a bound on its pops, for tiered programs: the loops of `adaptation_worklist`,
    `cold_instance_record` and `infer` (crates/vilan-core/src/async_infer.rs) as they are written. */
module AsyncTiersInfer {
  import opened Basics
  import opened AsyncProgram
  import opened AsyncFixpoint
  import opened AsyncEvaluate
  import opened AsyncRound
  import opened AsyncRoundProof
  import opened AsyncRoundEnd
  import opened AsyncBase
  import opened AsyncInfer
  import opened AsyncCold
  import opened AsyncIncremental
  import opened AsyncTiers
  import opened AsyncTiersRound
  import opened AsyncTiersEnd
  import opened Iterates

  /** A round under way: its invariants, its bound on the async set, its tiers. */
  ghost predicate TierGoing(w: World, rows: map<Key, set<Id>>, seeds: set<Id>, start: set<Id>, t: Tiers, s: Round) {
    Going(w, rows, seeds, start, s) && TierInv(w, start, t, s)
  }

  lemma TierTurn(w: World, rows: map<Key, set<Id>>, seeds: set<Id>, start: set<Id>, t: Tiers, s: Round, k: Key)
    requires TierGoing(w, rows, seeds, start, t, s) && k in s.queued
    ensures TierGoing(w, rows, seeds, start, t, TakeKey(w, s, k))
    ensures Potential(w, t, TakeKey(w, s, k)) < Potential(w, t, s)
  {
    TurnGoes(w, rows, seeds, start, s, k);
    StepKeepsTiers(w, rows, start, t, s, k);
    PotentialFalls(w, rows, start, t, s, k);
  }

  lemma TierOpens(w: World, rows: map<Key, set<Id>>, seeds: set<Id>, sd: Seeding, start: set<Id>, t: Tiers)
    requires WorldOk(w, rows) && Tiered(GroundOf(w, start), t) && (w.cold ==> start <= w.p.coldIds)
    requires w.rec.Some? ==> SeedingOk(w, sd) && w.rec.value.settled <= start
    requires w.rec.None? ==> sd == UNSTARTED
    ensures TierGoing(w, rows, seeds, start, t, BeginRound(w, sd, start))
  {
    OpensGoing(w, rows, seeds, sd, start);
    BeginTiers(w, rows, sd, start, t);
  }

  /** The stack, popped at its end until it is empty. */
  method RunRoundOut(w: World, open: Round, ghost start: set<Id>, ghost seeds: set<Id>, ghost rows: map<Key, set<Id>>,
                     ghost t: Tiers)
    returns (s: Round)
    requires TierGoing(w, rows, seeds, start, t, open) && InitializersAnswered(w, start, open)
    ensures Going(w, rows, seeds, start, s) && InitializersAnswered(w, start, s) && s.queued == {}
  {
    s := open;
    var pending := PushAll([], {}, s.queued);
    assert {} + s.queued == s.queued;
    while pending != []
      invariant Stacked(pending, s.queued) && TierGoing(w, rows, seeds, start, t, s)
      invariant InitializersAnswered(w, start, s)
      decreases Potential(w, t, s)
    {
      TierTurn(w, rows, seeds, start, t, s, pending[|pending| - 1]) by { PopStacked(pending, s.queued); }
      TurnAnswering(w, start, s, pending[|pending| - 1]);
      s, pending := Turn(w, s, pending);
    }
    assert forall k :: k in s.queued <==> k in pending;
  }

  /** One round of the worklist, a stack popped at its end. */
  method WorklistToEnd(w: World, start: set<Id>, seeding: Seeding,
                       ghost seeds: set<Id>, ghost rows: map<Key, set<Id>>, ghost t: Tiers)
    returns (s: Round)
    requires WorldOk(w, rows) && Tiered(GroundOf(w, start), t) && (w.cold ==> start <= w.p.coldIds)
    requires w.rec.Some? ==> SeedingOk(w, seeding) && w.rec.value.settled <= start
    requires w.rec.None? ==> seeding == UNSTARTED
    ensures Going(w, rows, seeds, start, s) && InitializersAnswered(w, start, s) && s.queued == {}
    ensures s.known == start ==> Exact(w, s)
  {
    TierOpens(w, rows, seeds, seeding, start, t);
    OpensAnswering(w, seeding, start);
    s := RunRoundOut(w, BeginRound(w, seeding, start), start, seeds, rows, t);
    if s.known == start {
      RoundExact(w, rows, start, s);
    }
  }

  lemma TieredOver(w: World, start: set<Id>, more: set<Id>, t: Tiers)
    requires Tiered(GroundOf(w, start), t) && ColdComponents(w.p)
    requires forall i :: i in start && InView(w.p, w.cold, i) ==> i in more
    requires w.rec.Some? ==> w.rec.value.settled <= start * more
    ensures Tiered(GroundOf(w, more), t)
  {
    TieredStill(GroundOf(w, start), GroundOf(w, more), t);
  }

  /** One turn of the loop: the base fixpoint, then a round over it. */
  method FixAndRoundToEnd(w: World, known: set<Id>, seeding: Seeding,
                          ghost seeds: set<Id>, ghost rows: map<Key, set<Id>>, ghost t: Tiers)
    returns (base: set<Id>, s: Round)
    requires Underway(w, rows, seeds, known, seeding) && Tiered(GroundOf(w, known), t)
    ensures known <= base <= s.known && BaseClosed(w.p, w.cold, base)
    ensures Underway(w, rows, seeds, s.known, s.seeding) && s.queued == {}
    ensures s.known == base ==> Exact(w, s) && Inv(w, s.known, s) && InitializersAnswered(w, s.known, s)
    ensures s.known == base || (LeastAsync(w.p, w.cold, seeds) - s.known < LeastAsync(w.p, w.cold, seeds) - known
                                && Tiered(GroundOf(w, s.known), t))
  {
    base := BaseFixpoint(w.p, w.cold, known);
    BaseWithin(w.p, w.cold, seeds, known, base);
    TieredOver(w, known, base, t);
    s := WorklistToEnd(w, base, seeding, seeds, rows, t);
    RoundWithin(w, rows, seeds, base, s);
    SeedingCarries(w, rows, seeds, base, s);
    TieredOver(w, base, s.known, t);
    if s.known != base { LessLeft(LeastAsync(w.p, w.cold, seeds), known, base, s.known); }
  }

  /** The base fixpoint, then a round, until a round leaves the async set as the fixpoint did. */
  method RoundsToEnd(w: World, seeds: set<Id>, start: set<Id>, ghost rows: map<Key, set<Id>>, ghost t: Tiers)
    returns (s: Round)
    requires Underway(w, rows, seeds, start, UNSTARTED) && Tiered(GroundOf(w, start), t)
    ensures s.known == LeastAsync(w.p, w.cold, seeds) && s.queued == {} && Exact(w, s) && Inv(w, s.known, s)
    ensures InitializersAnswered(w, s.known, s)
  {
    var known, seeding := start, UNSTARTED;
    while true
      invariant Underway(w, rows, seeds, known, seeding) && Tiered(GroundOf(w, known), t)
      decreases LeastAsync(w.p, w.cold, seeds) - known
    {
      var base;
      base, s := FixAndRoundToEnd(w, known, seeding, seeds, rows, t);
      Smaller(base, s.known);
      if |s.known| == |base| {
        LeastReached(w.p, w.cold, seeds, s.known);
        return;
      }
      known, seeding := s.known, s.seeding;
    }
  }

  /** The record's own run, over the cold ids alone, in the cold view. */
  method RecordToEnd(p: Program, seeds: set<Id>, ghost t: Tiers) returns (rec: Record)
    requires ColdComponents(p) && Tiered(Ground(p, true, seeds * p.coldIds, None), t)
    ensures ValidRecord(p, seeds, rec)
  {
    var w := World(p, true, None);
    var start := seeds * p.coldIds;
    LeastAsyncClosed(p, true, seeds);
    var s := RoundsToEnd(w, seeds, start, map[], t);
    rec := Filed(s);
    FiledIsValid(w, s);
  }

  /** The pass, from scratch or over a record, on a tiered program: it ends, with the least async set and
      every answered instance's least verdict.  `base` is what an analysis of the cold base fixpoint alone
      recorded, when one did. */
  method InferToEnd(p: Program, seeds: set<Id>, base: Option<set<Id>>, rec: Option<Record>, ghost t: Tiers)
    returns (s: Round)
    requires ColdComponents(p) && (rec.Some? ==> ValidRecord(p, seeds, rec.value))
    requires base.Some? ==> base.value <= LeastAsync(p, true, seeds)
    requires Tiered(Ground(p, false, seeds + (if rec.Some? then rec.value.settled else {}),
                           if rec.Some? then Some(rec.value.settled) else None), t)
    ensures s.known == LeastAsync(p, false, seeds) && s.queued == {} && Exact(World(p, false, rec), s)
    ensures Derived(World(p, false, rec), seeds, s) && InitializersAnswered(World(p, false, rec), s.known, s)
  {
    var w := World(p, false, rec);
    var sure := seeds + (if rec.Some? then rec.value.settled else {});
    var start := sure + (if base.Some? then base.value else {});
    ghost var rows := StartsUnderway(p, seeds, base, rec);
    TieredOver(w, sure, start, t);
    s := RoundsToEnd(w, seeds, start, rows, t);
    ExactIsDerived(w, seeds, s);
  }

  /** What is async from the start in every analysis of the cold tree. */
  function SureCold(p: Program, seeds: set<Id>): set<Id> {
    seeds * p.coldIds
  }

  lemma TieredForRecord(p: Program, seeds: set<Id>, settled: set<Id>, t: Tiers)
    requires Tiered(Ground(p, false, seeds, Some(SureCold(p, seeds))), t) && ColdComponents(p)
    requires SureCold(p, seeds) <= settled
    ensures Tiered(Ground(p, false, seeds + settled, Some(settled)), t)
    ensures Tiered(Ground(p, false, seeds + {}, None), t) && Tiered(Ground(p, true, SureCold(p, seeds), None), t)
  {
    var g := Ground(p, false, seeds, Some(SureCold(p, seeds)));
    TieredStill(g, Ground(p, false, seeds + settled, Some(settled)), t);
    TieredStill(g, Ground(p, false, seeds + {}, None), t);
    TieredStill(g, Ground(p, true, SureCold(p, seeds), None), t);
  }

  /** Incremental equals from scratch, on tiered programs: over a record filed by an earlier analysis of
      a program with the same cold tree, the pass ends with the async set it has without one, and the two
      agree on every instance both answer. */
  method InferBothWaysToEnd(earlier: Program, seedsThen: set<Id>, p: Program, seeds: set<Id>, ghost before: Tiers,
                            ghost now: Tiers)
    returns (s: Round, t: Round, rec: Record)
    requires ColdComponents(earlier) && ColdComponents(p)
    requires SameCold(earlier, p) && SameSeeds(earlier, seedsThen, seeds)
    requires Tiered(Ground(earlier, true, SureCold(earlier, seedsThen), None), before)
    requires Tiered(Ground(p, false, seeds, Some(SureCold(p, seeds))), now)
    ensures s.known == t.known == LeastAsync(p, false, seeds)
    ensures forall k :: Holds(World(p, false, Some(rec)), s, k) && Holds(World(p, false, None), t, k) ==>
              (Answer(World(p, false, Some(rec)), s.verdicts, s.seeding, k)
               <==> Answer(World(p, false, None), t.verdicts, t.seeding, k))
  {
    rec := RecordToEnd(earlier, seedsThen, before);
    RecordCarriesOver(earlier, p, seedsThen, seeds, rec);
    LeastAsyncClosed(p, true, seeds);
    TieredForRecord(p, seeds, rec.settled, now);
    t := InferToEnd(p, seeds, None, None, now);
    s := InferToEnd(p, seeds, None, Some(rec), now);
  }
}

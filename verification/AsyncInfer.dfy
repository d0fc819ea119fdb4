/** The outer loop (`infer` and `cold_instance_record`, crates/vilan-core/src/async_infer.rs): the
    base fixpoint and a round of the instance worklist, in turn, until a round grows nothing. */
module AsyncInfer {
  import opened Basics
  import AsyncFlow
  import opened AsyncProgram
  import opened AsyncFixpoint
  import opened AsyncEvaluate
  import opened AsyncQuiet
  import opened AsyncRound
  import opened AsyncRoundProof
  import opened AsyncRoundEnd
  import opened AsyncBase
  import opened Iterates

  // ----- a round -----

  /** The instances module initializers name: an initializer cannot await, so they are found up front. */
  function Named(p: Program, cold: bool, known: set<Id>): set<Key> {
    set binding, c | binding in p.initializers && InView(p, cold, binding) && c in p.initializers[binding]
                     && Met(p, cold, known, {}, {}, c).Some? :: Met(p, cold, known, {}, {}, c).value
  }

  /** The functions a round evaluates from scratch: all of the view's, or the hot ones over a record. */
  function Roster(w: World): set<Key> {
    set f | f in w.p.functions && InView(w.p, w.cold, f) && (w.rec.Some? ==> f !in w.p.coldIds) :: Key(f, {})
  }

  /** A round opens with the re-walked instances at their recorded verdicts, and with what the module
      initializers name that nothing answers. */
  function OpenRound(w: World, sd: Seeding, known: set<Id>, roster: set<Key>, named: set<Key>): Round {
    var recorded := if w.rec.Some? then Entries(sd.rewalked, w.rec.value.flags) else map[];
    var unanswered := set k | k in named && k !in recorded && !Serves(w, sd, k);
    Round(recorded + Entries(unanswered, map[]), map[], roster + recorded.Keys + unanswered, known, sd, map[], map[])
  }

  function BeginRound(w: World, sd: Seeding, known: set<Id>): Round {
    OpenRound(w, RoundStart(w, sd, known), known, Roster(w), Named(w.p, w.cold, known))
  }

  lemma StartOk(w: World, sd: Seeding, known: set<Id>)
    requires w.rec.Some? && RecordShape(w.rec.value) && SeedingOk(w, sd)
    ensures var sd' := RoundStart(w, sd, known);
            && SeenOk(w, sd', known)
            && (forall k :: k in w.rec.value.logs
                            && (exists d :: d in w.rec.value.logs[k].dispatches && DispatchAsync(w.p, known, d))
                  ==> k in sd'.rewalked)
  {
    var s1 := Started(w, sd);
    assert SeedingOk(w, s1) && s1.started;
    MovedAllGrows(w, s1, known);
    var s2 := MovedAll(w, s1, known);
    assert SeedingOk(w, DispatchesAsked(w, s2, known));
  }

  lemma ServedQuiet(w: World, sd: Seeding, known: set<Id>, k: Key)
    requires w.rec.Some? && RecordShape(w.rec.value) && SeedingOk(w, sd)
    requires Serves(w, RoundStart(w, sd, known), k)
    ensures Quiet(w.p, w.rec.value.settled, known, LogOf(w.rec.value.logs, k))
  {
    StartOk(w, sd, known);
  }

  lemma OpenAnswers(w: World, sd: Seeding, known: set<Id>, roster: set<Key>, named: set<Key>)
    requires w.rec.Some? ==> sd.rewalked <= w.rec.value.flags.Keys
    ensures var s := OpenRound(w, sd, known, roster, named);
            && s.verdicts.Keys <= s.queued
            && (w.rec.Some? ==> sd.rewalked <= s.verdicts.Keys)
            && (forall k :: k in Trues(w, s.verdicts, s.seeding) ==> RecordedFlag(w, k))
            && s.queued <= roster + named + (if w.rec.Some? then w.rec.value.flags.Keys else {})
            && (forall k :: k in s.queued ==> k in roster || !Serves(w, s.seeding, k))
  {
  }

  lemma BeginAnswers(w: World, sd: Seeding, known: set<Id>)
    requires w.rec.Some? ==> RecordShape(w.rec.value) && SeedingOk(w, sd)
    ensures var s := BeginRound(w, sd, known);
            && s.seeding == RoundStart(w, sd, known) && s.known == known && s.last == map[] && s.dependents == map[]
            && s.verdicts.Keys <= s.queued && Roster(w) <= s.queued
            && (w.rec.Some? ==> s.seeding.rewalked <= s.verdicts.Keys)
            && (forall k :: k in Trues(w, s.verdicts, s.seeding) ==> RecordedFlag(w, k))
            && s.queued <= Roster(w) + Named(w.p, w.cold, known) + (if w.rec.Some? then w.rec.value.flags.Keys else {})
            && (forall k :: k in s.queued ==> k in Roster(w) || !Serves(w, s.seeding, k))
  {
    if w.rec.Some? { StartOk(w, sd, known); }
    OpenAnswers(w, RoundStart(w, sd, known), known, Roster(w), Named(w.p, w.cold, known));
  }

  lemma RecordedCold(w: World, rows: map<Key, set<Id>>, k: Key)
    requires WorldOk(w, rows) && w.rec.Some? && k in w.rec.value.flags
    ensures k.root in w.p.coldIds
  {
    assert RecordedKeyOk(w.p, w.rec.value, k, rows[k]);
  }

  lemma RosterApart(w: World, rows: map<Key, set<Id>>, k: Key)
    requires WorldOk(w, rows) && w.rec.Some? && k in Roster(w)
    ensures k !in w.rec.value.flags
  {
    if k in w.rec.value.flags { RecordedCold(w, rows, k); }
  }

  lemma QueueIsKeys(w: World, known: set<Id>)
    ensures Roster(w) <= Keys(w.p, w.cold) && Named(w.p, w.cold, known) <= Keys(w.p, w.cold)
  {
  }

  lemma RecordedBelow(w: World, rows: map<Key, set<Id>>, known: set<Id>, k: Key)
    requires WorldOk(w, rows) && !w.cold && w.rec.Some? && w.rec.value.settled <= known && RecordedFlag(w, k)
    ensures k in Roots(Least(w.p, w.cold, known))
  {
    var rec := w.rec.value;
    assert RecordedKeyOk(w.p, rec, k, rows[k]);
    LeastMono(w.p, true, rec.settled, false, known);
    RootOfRow(Least(w.p, true, rec.settled), k);
    RowsGrow(Least(w.p, true, rec.settled), Least(w.p, false, known), k);
  }

  lemma BeginSound(w: World, rows: map<Key, set<Id>>, sd: Seeding, known: set<Id>)
    requires WorldOk(w, rows) && (w.rec.Some? ==> SeedingOk(w, sd) && w.rec.value.settled <= known)
    requires w.cold ==> known <= w.p.coldIds
    ensures Sound(w, BeginRound(w, sd, known))
  {
    var s := BeginRound(w, sd, known);
    BeginAnswers(w, sd, known);
    QueueIsKeys(w, known);
    if w.rec.Some? { RecordedKeys(w, rows); }
    forall k | k in Trues(w, s.verdicts, s.seeding) ensures k in Roots(Least(w.p, w.cold, known)) {
      RecordedBelow(w, rows, known, k);
    }
  }

  lemma BeginAlways(w: World, rows: map<Key, set<Id>>, sd: Seeding, known: set<Id>)
    requires WorldOk(w, rows) && (w.rec.Some? ==> SeedingOk(w, sd) && w.rec.value.settled <= known)
    requires (w.rec.None? ==> sd == UNSTARTED) && (w.cold ==> known <= w.p.coldIds)
    ensures Always(w, BeginRound(w, sd, known))
  {
    var s := BeginRound(w, sd, known);
    BeginSound(w, rows, sd, known);
    BeginAnswers(w, sd, known);
    if w.rec.Some? { StartOk(w, sd, known); }
    assert Apart(w, s) by {
      forall k | Serves(w, s.seeding, k) ensures k !in s.queued {
        if k in Roster(w) { RosterApart(w, rows, k); }
      }
    }
    assert Covered(w, s) by {
      forall f | f in w.p.functions && InView(w.p, w.cold, f)
        ensures Holds(w, s, Key(f, {})) || Key(f, {}) in s.queued
      {
      }
    }
  }

  lemma BeginSettling(w: World, rows: map<Key, set<Id>>, sd: Seeding, known: set<Id>)
    requires WorldOk(w, rows) && (w.rec.Some? ==> SeedingOk(w, sd))
    ensures Settling(w, known, BeginRound(w, sd, known))
  {
    var s := BeginRound(w, sd, known);
    BeginAnswers(w, sd, known);
    if w.rec.Some? {
      forall k | Serves(w, s.seeding, k)
        ensures Quiet(w.p, w.rec.value.settled, s.known, LogOf(w.rec.value.logs, k))
      {
        ServedQuiet(w, sd, known, k);
      }
    }
  }

  /** What a base instance flags is in every outer-closed set over the round's. */
  lemma StepWithin(w: World, rows: map<Key, set<Id>>, s: Round, k: Key, seeds: set<Id>, x: set<Id>)
    requires WorldOk(w, rows) && Sound(w, s) && k in s.queued
    requires OuterClosed(w.p, w.cold, seeds, x) && s.known <= x
    ensures TakeKey(w, s, k).known <= x
  {
    if k.bits == {} {
      EvaluatedFair(w, rows, s, k);
      LeastMono(w.p, w.cold, s.known, w.cold, x);
      RowsGrow(Least(w.p, w.cold, s.known), Least(w.p, w.cold, x), k);
      assert k == Key(k.root, {});
    }
  }

  /** What the round leaves inside: every outer-closed set over what it started from. */
  ghost predicate Bounded(w: World, seeds: set<Id>, start: set<Id>, known: set<Id>) {
    forall x :: OuterClosed(w.p, w.cold, seeds, x) && start <= x ==> known <= x
  }

  /** Every instance a module initializer's call names is answered. */
  ghost predicate InitializersAnswered(w: World, known: set<Id>, s: Round) {
    forall b, c, k :: b in w.p.initializers && InView(w.p, w.cold, b) && c in w.p.initializers[b]
                      && AsyncFlow.Names(w.p, w.cold, known, {}, {}, c, k)
      ==> Holds(w, s, k)
  }

  lemma OpensAnswering(w: World, sd: Seeding, known: set<Id>)
    ensures InitializersAnswered(w, known, BeginRound(w, sd, known))
  {
    var s := BeginRound(w, sd, known);
    forall b, c, k | b in w.p.initializers && InView(w.p, w.cold, b) && c in w.p.initializers[b]
                     && AsyncFlow.Names(w.p, w.cold, known, {}, {}, c, k)
      ensures Holds(w, s, k)
    {
      AsyncFlow.MetIsNamed(w.p, w.cold, known, {}, {}, c, k);
      assert k in Named(w.p, w.cold, known);
    }
  }

  lemma TurnAnswering(w: World, known: set<Id>, s: Round, k: Key)
    requires InitializersAnswered(w, known, s)
    ensures InitializersAnswered(w, known, TakeKey(w, s, k))
  {
    forall x | Holds(w, s, x) ensures Holds(w, TakeKey(w, s, k), x) {
      HoldsAfter(w, s, k, Evaluate(Answering(w, s, k), k.root), x);
    }
  }

  ghost predicate Stacked(pending: seq<Key>, queued: set<Key>) {
    && (forall k :: k in pending <==> k in queued)
    && (forall i, j :: 0 <= i < j < |pending| ==> pending[i] != pending[j])
  }

  /** The keys newly on the queue are pushed in any order: the source's is a hash set's. */
  method PushAll(stack: seq<Key>, queued: set<Key>, added: set<Key>) returns (pending: seq<Key>)
    requires Stacked(stack, queued) && added !! queued
    ensures Stacked(pending, queued + added) && stack <= pending
  {
    pending := stack;
    var left, pushed := added, {};
    while left != {}
      invariant pushed + left == added && pushed !! left
      invariant Stacked(pending, queued + pushed) && stack <= pending
      decreases left
    {
      var k :| k in left;
      pending, left, pushed := pending + [k], left - {k}, pushed + {k};
    }
    assert pushed == added;
  }

  lemma PopStacked(pending: seq<Key>, queued: set<Key>)
    requires Stacked(pending, queued) && pending != []
    ensures var n := |pending| - 1;
            pending[n] in queued && Stacked(pending[..n], queued - {pending[n]})
  {
    var n := |pending| - 1;
    forall k | k in queued && k != pending[n] ensures k in pending[..n] {
      var i :| 0 <= i < |pending| && pending[i] == k;
      assert pending[..n][i] == k;
    }
  }

  lemma StepBounded(w: World, rows: map<Key, set<Id>>, s: Round, k: Key, seeds: set<Id>, start: set<Id>)
    requires WorldOk(w, rows) && Sound(w, s) && k in s.queued && Bounded(w, seeds, start, s.known)
    ensures Bounded(w, seeds, start, TakeKey(w, s, k).known)
  {
    forall x | OuterClosed(w.p, w.cold, seeds, x) && start <= x ensures TakeKey(w, s, k).known <= x {
      StepWithin(w, rows, s, k, seeds, x);
    }
  }

  /** One instance off the top of the stack, and what its evaluation queues on it. */
  method Turn(w: World, s: Round, stack: seq<Key>) returns (next: Round, pending: seq<Key>)
    requires Stacked(stack, s.queued) && stack != []
    ensures stack[|stack| - 1] in s.queued && next == TakeKey(w, s, stack[|stack| - 1])
    ensures Stacked(pending, next.queued) && stack[..|stack| - 1] <= pending
  {
    var key := stack[|stack| - 1];
    PopStacked(stack, s.queued);
    var e := EvaluateInstance(Answering(w, s, key), key.root);
    next := Absorb(w, s, key, e);
    var rest := s.queued - {key};
    assert rest <= next.queued;
    pending := PushAll(stack[..|stack| - 1], rest, next.queued - rest);
    assert rest + (next.queued - rest) == next.queued;
  }

  ghost predicate Going(w: World, rows: map<Key, set<Id>>, seeds: set<Id>, start: set<Id>, s: Round) {
    WorldOk(w, rows) && Inv(w, start, s) && Bounded(w, seeds, start, s.known)
  }

  lemma TurnGoes(w: World, rows: map<Key, set<Id>>, seeds: set<Id>, start: set<Id>, s: Round, k: Key)
    requires Going(w, rows, seeds, start, s) && k in s.queued
    ensures Going(w, rows, seeds, start, TakeKey(w, s, k))
  {
    StepBounded(w, rows, s, k, seeds, start);
    assert RoundStep(w, s, TakeKey(w, s, k));
    StepKeepsInv(w, rows, start, s, TakeKey(w, s, k));
  }

  /** The stack, popped at its end until it is empty or the budget is spent. */
  method RunRound(w: World, open: Round, budget: nat,
                  ghost start: set<Id>, ghost seeds: set<Id>, ghost rows: map<Key, set<Id>>)
    returns (s: Round, done: bool)
    requires Going(w, rows, seeds, start, open) && InitializersAnswered(w, start, open)
    ensures Going(w, rows, seeds, start, s) && InitializersAnswered(w, start, s)
    ensures done <==> s.queued == {}
  {
    s := open;
    var pending := PushAll([], {}, s.queued);
    assert {} + s.queued == s.queued;
    var pops := 0;
    while pending != [] && pops < budget
      invariant Stacked(pending, s.queued) && Going(w, rows, seeds, start, s)
      invariant InitializersAnswered(w, start, s)
      decreases budget - pops
    {
      pops := pops + 1;
      TurnGoes(w, rows, seeds, start, s, pending[|pending| - 1]) by { PopStacked(pending, s.queued); }
      TurnAnswering(w, start, s, pending[|pending| - 1]);
      s, pending := Turn(w, s, pending);
    }
    done := pending == [];
    if !done { assert pending[0] in s.queued; }
  }

  lemma OpensGoing(w: World, rows: map<Key, set<Id>>, seeds: set<Id>, sd: Seeding, start: set<Id>)
    requires WorldOk(w, rows) && (w.rec.Some? ==> SeedingOk(w, sd) && w.rec.value.settled <= start)
    requires (w.rec.None? ==> sd == UNSTARTED) && (w.cold ==> start <= w.p.coldIds)
    ensures Going(w, rows, seeds, start, BeginRound(w, sd, start))
  {
    BeginAlways(w, rows, sd, start);
    BeginSettling(w, rows, sd, start);
  }

  /** One round of the worklist: a stack, popped at its end.  `budget` bounds the pops, for not every
      schedule empties the stack (module AsyncSchedule); `done` says this one did. */
  method AdaptationWorklist(w: World, start: set<Id>, seeding: Seeding, budget: nat,
                            ghost seeds: set<Id>, ghost rows: map<Key, set<Id>>)
    returns (s: Round, done: bool)
    requires WorldOk(w, rows) && (w.cold ==> start <= w.p.coldIds)
    requires w.rec.Some? ==> SeedingOk(w, seeding) && w.rec.value.settled <= start
    requires w.rec.None? ==> seeding == UNSTARTED
    ensures Going(w, rows, seeds, start, s) && InitializersAnswered(w, start, s)
    ensures done <==> s.queued == {}
    ensures done && s.known == start ==> Exact(w, s)
  {
    OpensGoing(w, rows, seeds, seeding, start);
    OpensAnswering(w, seeding, start);
    s, done := RunRound(w, BeginRound(w, seeding, start), budget, start, seeds, rows);
    if done && s.known == start {
      RoundExact(w, rows, start, s);
    }
  }

  // ----- the outer loop -----

  lemma BaseWithin(p: Program, cold: bool, seeds: set<Id>, known: set<Id>, next: set<Id>)
    requires ColdComponents(p) && known <= LeastAsync(p, cold, seeds)
    requires forall x :: known <= x && BaseClosed(p, cold, x) ==> next <= x
    ensures next <= LeastAsync(p, cold, seeds) && (cold ==> next <= p.coldIds)
  {
    LeastAsyncClosed(p, cold, seeds);
  }

  lemma RoundWithin(w: World, rows: map<Key, set<Id>>, seeds: set<Id>, start: set<Id>, s: Round)
    requires Going(w, rows, seeds, start, s) && start <= LeastAsync(w.p, w.cold, seeds)
    ensures start <= s.known <= LeastAsync(w.p, w.cold, seeds)
  {
    LeastAsyncClosed(w.p, w.cold, seeds);
  }

  lemma LeastReached(p: Program, cold: bool, seeds: set<Id>, known: set<Id>)
    requires ColdComponents(p) && (forall i :: i in seeds && InView(p, cold, i) ==> i in known)
    requires BaseClosed(p, cold, known) && InstancesClosed(p, cold, known) && known <= LeastAsync(p, cold, seeds)
    ensures known == LeastAsync(p, cold, seeds)
  {
    LeastAsyncClosed(p, cold, seeds);
    assert OuterClosed(p, cold, seeds, known);
  }

  lemma SeedingCarries(w: World, rows: map<Key, set<Id>>, seeds: set<Id>, start: set<Id>, s: Round)
    requires Going(w, rows, seeds, start, s)
    ensures w.rec.Some? ==> SeedingOk(w, s.seeding)
    ensures w.rec.None? ==> s.seeding == UNSTARTED
  {
  }

  /** The ghost part of the loop's state: the async set is between where it started and the least
      one, and the record's re-walks so far are consistent. */
  ghost predicate Underway(w: World, rows: map<Key, set<Id>>, seeds: set<Id>, known: set<Id>, sd: Seeding) {
    && WorldOk(w, rows)
    && known <= LeastAsync(w.p, w.cold, seeds)
    && (forall i :: i in seeds && InView(w.p, w.cold, i) ==> i in known)
    && (if w.rec.Some? then SeedingOk(w, sd) && w.rec.value.settled <= known else sd == UNSTARTED)
  }

  lemma LessLeft(all: set<Id>, known: set<Id>, base: set<Id>, more: set<Id>)
    requires known <= base <= more <= all && base != more
    ensures all - more < all - known
  {
    var x :| x in more && x !in base;
    assert x in all - known && x !in all - more;
  }

  /** One turn of the loop: the base fixpoint, then a round over it. */
  method FixAndRound(w: World, known: set<Id>, seeding: Seeding, budget: nat,
                     ghost seeds: set<Id>, ghost rows: map<Key, set<Id>>)
    returns (base: set<Id>, s: Round, done: bool)
    requires Underway(w, rows, seeds, known, seeding)
    ensures known <= base <= s.known && BaseClosed(w.p, w.cold, base)
    ensures Underway(w, rows, seeds, s.known, s.seeding)
    ensures done <==> s.queued == {}
    ensures done && s.known == base ==> Exact(w, s) && Inv(w, s.known, s) && InitializersAnswered(w, s.known, s)
    ensures s.known == base || LeastAsync(w.p, w.cold, seeds) - s.known < LeastAsync(w.p, w.cold, seeds) - known
  {
    base := BaseFixpoint(w.p, w.cold, known);
    BaseWithin(w.p, w.cold, seeds, known, base);
    s, done := AdaptationWorklist(w, base, seeding, budget, seeds, rows);
    RoundWithin(w, rows, seeds, base, s);
    SeedingCarries(w, rows, seeds, base, s);
    if s.known != base { LessLeft(LeastAsync(w.p, w.cold, seeds), known, base, s.known); }
  }

  /** The base fixpoint, then a round, until a round leaves the async set as the fixpoint did: the
      loop `infer` runs, from scratch or over a record, and the one the record is made by. */
  method Rounds(w: World, seeds: set<Id>, start: set<Id>, budget: nat, ghost rows: map<Key, set<Id>>)
    returns (s: Round, done: bool)
    requires Underway(w, rows, seeds, start, UNSTARTED)
    ensures Underway(w, rows, seeds, s.known, s.seeding)
    ensures done ==> s.known == LeastAsync(w.p, w.cold, seeds) && s.queued == {} && Exact(w, s) && Inv(w, s.known, s)
    ensures done ==> InitializersAnswered(w, s.known, s)
  {
    var known, seeding := start, UNSTARTED;
    while true
      invariant Underway(w, rows, seeds, known, seeding)
      decreases LeastAsync(w.p, w.cold, seeds) - known
    {
      var base;
      base, s, done := FixAndRound(w, known, seeding, budget, seeds, rows);
      if !done {
        return;
      }
      Smaller(base, s.known);
      if |s.known| == |base| {
        LeastReached(w.p, w.cold, seeds, s.known);
        return;
      }
      known, seeding := s.known, s.seeding;
    }
  }
}

/** The incremental form (`infer` over an `AsyncInstanceRecord`, crates/vilan-core/src/async_infer.rs):
    an analysis that starts from a record filed by an earlier analysis of the same cold tree ends with
    the async set, and the verdicts, of an analysis from scratch. */
module AsyncIncremental {
  import opened Basics
  import AsyncDerived
  import opened AsyncProgram
  import opened AsyncFixpoint
  import opened AsyncEvaluate
  import opened AsyncQuiet
  import opened AsyncRound
  import opened AsyncRoundProof
  import opened AsyncRoundEnd
  import opened AsyncInfer
  import opened AsyncComponent
  import opened AsyncCold

  /** `rec` is what the cold run over `p` leaves, its settled set the least of the cold view. */
  ghost predicate ValidRecord(p: Program, seeds: set<Id>, rec: Record) {
    rec.settled == LeastAsync(p, true, seeds) && exists rows :: RecordBy(p, rec, rows)
  }

  // ----- the record does not depend on the hot part -----

  lemma ColdComponentIn(p: Program, root: Id)
    requires ColdLocal(p) && root in p.coldIds
    ensures forall m :: m in Component(p, root) ==> m in p.coldIds
  {
    DescendCold(p, [root], 0, |AllChildren(p)| + 1);
  }

  lemma SameComponent(p: Program, q: Program, root: Id)
    requires SameCold(p, q) && root in p.coldIds
    ensures Component(p, root) == Component(q, root)
  {
    forall m | m in p.coldIds
      ensures ChildrenOf(p, m) == ChildrenOf(q, m) && forall c :: c in ChildrenOf(p, m) ==> c in p.coldIds
    {
      assert SameAt(p, q, m);
    }
    ComponentSame(p, q, root, p.coldIds);
  }

  lemma SameKeys(p: Program, q: Program, k: Key)
    requires SameCold(p, q) && k in Keys(p, true)
    ensures k in Keys(q, true)
  {
    assert SameAt(p, q, k.root);
  }

  lemma RowCold(p: Program, s: Flagged, k: Key)
    requires ColdLocal(p) && s <= Universe(p, true)
    ensures Row(s, k) <= p.coldIds
  {
    forall m | m in Row(s, k) ensures m in p.coldIds {
      assert (k, m) in Universe(p, true);
      ColdComponentIn(p, k.root);
    }
  }

  lemma SameJustified(p: Program, q: Program, known: set<Id>, s: Flagged, k: Key, m: Id)
    requires SameCold(p, q) && known <= p.coldIds && s <= Universe(p, true) && m in p.coldIds
    requires Justified(q, true, known, s, k, m)
    ensures Justified(p, true, known, s, k, m)
  {
    RowCold(p, s, k);
    if m !in known {
      var c :| c in CallsOf(q, m) && CallAwaits(q, true, known, Row(s, k), k.bits, Roots(s), c);
      assert SameAt(p, q, m);
      SameAwaits(p, q, known, Row(s, k), k.bits, Roots(s), c);
    }
  }

  lemma SameSymmetric(p: Program, q: Program)
    requires SameCold(p, q)
    ensures SameCold(q, p)
  {
    forall i | i in q.coldIds ensures SameAt(q, p, i) {
      assert SameAt(p, q, i);
    }
  }

  lemma SameLeastBelow(p: Program, q: Program, known: set<Id>)
    requires SameCold(p, q) && known <= p.coldIds
    ensures Least(q, true, known) <= Least(p, true, known)
  {
    var s := Least(p, true, known);
    LeastIsLeast(p, true, known);
    LeastIsLeast(q, true, known);
    SameSymmetric(p, q);
    forall pr | pr in Step(q, true, known, s) ensures pr in s {
      var (k, m) := pr;
      SameKeys(q, p, k);
      SameComponent(p, q, k.root);
      ColdComponentIn(p, k.root);
      SameJustified(p, q, known, s, k, m);
      assert pr in Universe(p, true);
      assert pr in Step(p, true, known, s);
    }
    assert Closed(q, true, known, s);
  }

  lemma SameLeast(p: Program, q: Program, known: set<Id>)
    requires SameCold(p, q) && known <= p.coldIds
    ensures Least(p, true, known) == Least(q, true, known)
  {
    SameSymmetric(p, q);
    SameLeastBelow(p, q, known);
    SameLeastBelow(q, p, known);
  }

  ghost predicate SameSeeds(p: Program, seeds: set<Id>, seeds': set<Id>) {
    forall i :: i in p.coldIds ==> (i in seeds <==> i in seeds')
  }

  lemma SameOuter(p: Program, q: Program, seeds: set<Id>, seeds': set<Id>, x: set<Id>)
    requires SameCold(p, q) && SameSeeds(p, seeds, seeds') && OuterClosed(p, true, seeds, x)
    ensures OuterClosed(q, true, seeds', x)
  {
    SameLeast(p, q, x);
    forall n | n in q.nodes && InView(q, true, n) && Suspends(q, true, x, n) ensures n in x {
      var c :| c in CallsOf(q, n) && CallSuspends(q, true, x, c);
      assert SameAt(p, q, n);
      SameSuspends(p, q, x, c);
      assert Suspends(p, true, x, n);
    }
    forall f | f in q.functions && InView(q, true, f) ensures Row(Least(q, true, x), Key(f, {})) <= x {
      assert SameAt(p, q, f);
    }
  }

  lemma SameLeastAsync(p: Program, q: Program, seeds: set<Id>, seeds': set<Id>)
    requires SameCold(p, q) && SameSeeds(p, seeds, seeds')
    ensures LeastAsync(p, true, seeds) == LeastAsync(q, true, seeds')
  {
    LeastAsyncClosed(p, true, seeds);
    LeastAsyncClosed(q, true, seeds');
    SameSymmetric(p, q);
    SameOuter(p, q, seeds, seeds', LeastAsync(p, true, seeds));
    SameOuter(q, p, seeds', seeds, LeastAsync(q, true, seeds'));
  }

  lemma SameRecordedCall(p: Program, q: Program, rec: Record, k: Key, row: set<Id>, m: Id, c: CallSite)
    requires SameCold(p, q) && rec.settled <= p.coldIds && row <= p.coldIds && k in rec.logs
    requires c.callId in p.coldIds && RecordedCallOk(p, rec, k, row, m, c)
    ensures RecordedCallOk(q, rec, k, row, m, c)
  {
    SameAwaits(p, q, rec.settled, row, k.bits, TrueKeys(rec.flags), c);
    if !rec.logs[k].unrecordable { SameLogged(p, q, rec.settled, row, k.bits, c, rec.logs[k]); }
  }

  lemma SameRecordedKey(p: Program, q: Program, rec: Record, k: Key, row: set<Id>)
    requires SameCold(p, q) && rec.settled <= p.coldIds && k in rec.flags && k in rec.logs
    requires RecordedKeyOk(p, rec, k, row)
    ensures RecordedKeyOk(q, rec, k, row)
  {
    SameKeys(p, q, k);
    SameLeast(p, q, rec.settled);
    SameComponent(p, q, k.root);
    ColdComponentIn(p, k.root);
    LeastInUniverse(p, true, rec.settled);
    RowCold(p, Least(p, true, rec.settled), k);
    forall m, c | m in Component(q, k.root) && c in CallsOf(q, m) ensures RecordedCallOk(q, rec, k, row, m, c) {
      assert SameAt(p, q, m);
      assert RecordedCallOk(p, rec, k, row, m, c);
      SameRecordedCall(p, q, rec, k, row, m, c);
    }
  }

  /** A record filed by one analysis is valid for every later one over the same cold tree. */
  lemma RecordCarriesOver(p: Program, q: Program, seeds: set<Id>, seeds': set<Id>, rec: Record)
    requires SameCold(p, q) && SameSeeds(p, seeds, seeds') && ValidRecord(p, seeds, rec)
    ensures ValidRecord(q, seeds', rec)
  {
    var rows :| RecordBy(p, rec, rows);
    SameLeastAsync(p, q, seeds, seeds');
    forall k | k in rows ensures RecordedKeyOk(q, rec, k, rows[k]) {
      assert RecordedKeyOk(p, rec, k, rows[k]);
      SameRecordedKey(p, q, rec, k, rows[k]);
    }
    forall f | f in q.functions && f in q.coldIds ensures Key(f, {}) in rec.flags {
      assert SameAt(p, q, f);
    }
    assert RecordBy(q, rec, rows);
  }

  // ----- the cold result is below every later one -----

  lemma ColdPartCloses(p: Program, seeds: set<Id>, x: set<Id>)
    requires ColdComponents(p) && OuterClosed(p, false, seeds, x)
    ensures OuterClosed(p, true, seeds, x * p.coldIds)
  {
    var y := x * p.coldIds;
    forall n | n in p.nodes && InView(p, true, n) && Suspends(p, true, y, n) ensures n in y {
      var c :| c in CallsOf(p, n) && CallSuspends(p, true, y, c);
      SuspendsMono(p, true, y, false, x, c);
      assert Suspends(p, false, x, n);
    }
    forall f | f in p.functions && InView(p, true, f) ensures Row(Least(p, true, y), Key(f, {})) <= y {
      LeastMono(p, true, y, false, x);
      RowsGrow(Least(p, true, y), Least(p, false, x), Key(f, {}));
      RowInIds(p, true, {}, y, f);
    }
  }

  lemma ColdBelow(p: Program, seeds: set<Id>)
    requires ColdComponents(p)
    ensures LeastAsync(p, true, seeds) <= LeastAsync(p, false, seeds)
    ensures LeastAsync(p, true, seeds) <= p.coldIds
  {
    LeastAsyncClosed(p, false, seeds);
    LeastAsyncClosed(p, true, seeds);
    ColdPartCloses(p, seeds, LeastAsync(p, false, seeds));
  }

  // ----- filing the record, and inferring with and without it -----

  /** The record of an ended cold run. */
  function Filed(s: Round): Record {
    Record(s.known, s.verdicts, s.dependents, map k | k in s.verdicts :: LogOf(s.logs, k))
  }

  lemma FiledCall(w: World, s: Round, k: Key, row: set<Id>, m: Id, c: CallSite)
    requires w.cold && w.rec.None? && k in s.verdicts && LiveCallOk(w, s, k, row, m, c)
    ensures RecordedCallOk(w.p, Filed(s), k, row, m, c)
  {
    assert Trues(w, s.verdicts, s.seeding) == TrueKeys(s.verdicts);
    ReadsLogCall(w.p, true, s.known, row, k.bits, c, LogOf(s.logs, k));
  }

  lemma FiledKey(w: World, s: Round, k: Key, row: set<Id>)
    requires w.cold && w.rec.None? && k in s.verdicts && k in Keys(w.p, true) && LiveKeyOk(w, s, k, row)
    requires (s.verdicts[k] <==> k.root in row) && row <= Row(Least(w.p, true, s.known), k)
    ensures RecordedKeyOk(w.p, Filed(s), k, row)
  {
    forall m, c | m in Component(w.p, k.root) && c in CallsOf(w.p, m)
      ensures RecordedCallOk(w.p, Filed(s), k, row, m, c)
    {
      assert LiveCallOk(w, s, k, row, m, c);
      FiledCall(w, s, k, row, m, c);
    }
  }

  lemma FiledRows(w: World, s: Round, k: Key)
    requires w.cold && w.rec.None? && Sound(w, s) && Answered(w, s) && Standing(w, s) && s.queued == {}
    requires k in s.verdicts
    ensures k in s.last && RecordedKeyOk(w.p, Filed(s), k, s.last[k])
  {
    assert k in s.last;
    FiledKey(w, s, k, s.last[k]);
  }

  lemma FiledEnded(w: World, s: Round)
    requires w.cold && Sound(w, s) && Answered(w, s) && s.queued == {}
    ensures Filed(s).settled <= w.p.coldIds && s.last.Keys == s.verdicts.Keys
  {
  }

  lemma FiledParts(w: World, s: Round)
    requires w.cold && w.rec.None? && Sound(w, s) && Answered(w, s) && Standing(w, s) && s.queued == {}
    ensures forall k :: k in s.last ==> k in s.verdicts && RecordedKeyOk(w.p, Filed(s), k, s.last[k])
  {
    forall k | k in s.last ensures k in s.verdicts && RecordedKeyOk(w.p, Filed(s), k, s.last[k]) {
      FiledRows(w, s, k);
    }
  }

  lemma FiledIsValid(w: World, s: Round)
    requires w.cold && w.rec.None? && Inv(w, s.known, s) && s.queued == {}
    ensures RecordBy(w.p, Filed(s), s.last)
  {
    FiledEnded(w, s);
    FiledParts(w, s);
    FiledCovers(w, s);
  }

  lemma FiledCovers(w: World, s: Round)
    requires w.rec.None? && Apart(w, s) && Covered(w, s) && s.queued == {} && w.cold
    ensures forall f :: f in w.p.functions && f in w.p.coldIds ==> Key(f, {}) in s.verdicts
    ensures RecordShape(Filed(s))
  {
    forall f | f in w.p.functions && f in w.p.coldIds ensures Key(f, {}) in s.verdicts {
      assert Holds(w, s, Key(f, {}));
    }
  }

  /** The record's own run: the rounds over the cold ids alone, in the cold view, from the program's
      own seeds. */
  method ColdInstanceRecord(p: Program, seeds: set<Id>, budget: nat) returns (rec: Record, done: bool)
    requires ColdComponents(p)
    ensures done ==> ValidRecord(p, seeds, rec)
  {
    var w := World(p, true, None);
    var start := set i | i in seeds && i in p.coldIds;
    LeastAsyncClosed(p, true, seeds);
    var s;
    s, done := Rounds(w, seeds, start, budget, map[]);
    rec := Filed(s);
    if done {
      FiledIsValid(w, s);
    }
  }

  /** What the pass starts from holds the seeds and is inside the least async set. */
  lemma StartsBelow(p: Program, seeds: set<Id>, base: set<Id>, settled: set<Id>)
    requires ColdComponents(p) && base <= LeastAsync(p, true, seeds) && settled <= LeastAsync(p, true, seeds)
    ensures seeds + settled + base <= LeastAsync(p, false, seeds)
  {
    LeastAsyncClosed(p, false, seeds);
    ColdBelow(p, seeds);
  }

  /** The async set the pass starts from, over what earlier analyses recorded, is inside the least one. */
  lemma StartsUnderway(p: Program, seeds: set<Id>, base: Option<set<Id>>, rec: Option<Record>)
    returns (rows: map<Key, set<Id>>)
    requires ColdComponents(p) && (rec.Some? ==> ValidRecord(p, seeds, rec.value))
    requires base.Some? ==> base.value <= LeastAsync(p, true, seeds)
    ensures var sure := seeds + (if rec.Some? then rec.value.settled else {});
            var start := sure + (if base.Some? then base.value else {});
            Underway(World(p, false, rec), rows, seeds, start, UNSTARTED)
  {
    StartsBelow(p, seeds, if base.Some? then base.value else {}, if rec.Some? then rec.value.settled else {});
    rows := map[];
    if rec.Some? {
      rows :| RecordBy(p, rec.value, rows);
    }
  }

  /** A node is in the async set, and an instance answers true, exactly when that can be derived. */
  ghost predicate Derived(w: World, seeds: set<Id>, s: Round) {
    && (forall n: Id :: n in s.known <==> AsyncDerived.Derivable(w.p, w.cold, seeds, AsyncDerived.Node(n)))
    && (forall k: Key :: Holds(w, s, k) ==>
          (Answer(w, s.verdicts, s.seeding, k)
           <==> AsyncDerived.Derivable(w.p, w.cold, seeds, AsyncDerived.Member(k, k.root))))
  }

  lemma ExactIsDerived(w: World, seeds: set<Id>, s: Round)
    requires ColdComponents(w.p) && s.known == LeastAsync(w.p, w.cold, seeds) && Exact(w, s)
    ensures Derived(w, seeds, s)
  {
    forall n: Id ensures n in s.known <==> AsyncDerived.Derivable(w.p, w.cold, seeds, AsyncDerived.Node(n)) {
      AsyncDerived.AsyncIsDerivable(w.p, w.cold, seeds, AsyncDerived.Node(n));
    }
    forall k: Key | Holds(w, s, k)
      ensures Answer(w, s.verdicts, s.seeding, k)
         <==> AsyncDerived.Derivable(w.p, w.cold, seeds, AsyncDerived.Member(k, k.root))
    {
      AsyncDerived.AsyncIsDerivable(w.p, w.cold, seeds, AsyncDerived.Member(k, k.root));
      var l := Least(w.p, w.cold, s.known);
      assert k in Roots(l) <==> (k, k.root) in l;
    }
  }

  /** The pass, from scratch or over a record: when every round ends, the least async set, and every
      answered instance's least verdict.  `base` is what an analysis of the cold base fixpoint alone
      recorded, when one did. */
  method Infer(p: Program, seeds: set<Id>, base: Option<set<Id>>, rec: Option<Record>, budget: nat)
    returns (s: Round, done: bool)
    requires ColdComponents(p) && (rec.Some? ==> ValidRecord(p, seeds, rec.value))
    requires base.Some? ==> base.value <= LeastAsync(p, true, seeds)
    ensures s.known <= LeastAsync(p, false, seeds)
    ensures done ==> s.known == LeastAsync(p, false, seeds) && Exact(World(p, false, rec), s)
    ensures done ==> Derived(World(p, false, rec), seeds, s) && InitializersAnswered(World(p, false, rec), s.known, s)
  {
    var w := World(p, false, rec);
    var sure := seeds + (if rec.Some? then rec.value.settled else {});
    var start := sure + (if base.Some? then base.value else {});
    ghost var rows := StartsUnderway(p, seeds, base, rec);
    s, done := Rounds(w, seeds, start, budget, rows);
    if done { ExactIsDerived(w, seeds, s); }
  }

  /** Incremental equals from scratch: over a record filed by an earlier analysis of a program with the
      same cold tree, the pass ends with the async set it has without one, and the two agree on every
      instance both answer - one the record serves, never re-walked, included. */
  method InferBothWays(earlier: Program, seedsThen: set<Id>, p: Program, seeds: set<Id>, budget: nat)
    returns (s: Round, t: Round, rec: Record, done: bool)
    requires ColdComponents(earlier) && ColdComponents(p)
    requires SameCold(earlier, p) && SameSeeds(earlier, seedsThen, seeds)
    ensures done ==>
              && s.known == t.known == LeastAsync(p, false, seeds)
              && forall k :: Holds(World(p, false, Some(rec)), s, k) && Holds(World(p, false, None), t, k) ==>
                   (Answer(World(p, false, Some(rec)), s.verdicts, s.seeding, k)
                    <==> Answer(World(p, false, None), t.verdicts, t.seeding, k))
  {
    var filedAll;
    rec, filedAll := ColdInstanceRecord(earlier, seedsThen, budget);
    var scratchAll, servedAll;
    t, scratchAll := Infer(p, seeds, None, None, budget);
    if !filedAll {
      s, done := t, false;
      return;
    }
    RecordCarriesOver(earlier, p, seedsThen, seeds, rec);
    s, servedAll := Infer(p, seeds, None, Some(rec), budget);
    done := scratchAll && servedAll;
  }
}

/** What a valid record answers: its instances' least verdicts in its own world; and why, among the
    functions numbered 0, an evaluation in a later analysis confirms every one that is true. */
module AsyncTiersRecord {
  import opened Basics
  import opened AsyncProgram
  import opened AsyncFixpoint
  import opened AsyncEvaluate
  import opened AsyncQuiet
  import opened AsyncRound
  import opened AsyncRoundProof
  import opened AsyncTiers
  import AsyncRoundEnd

  // ----- the record's verdicts are the least -----

  /** The recorded flags of the recorded instances, the least ones of the others. */
  ghost function RecordFlags(p: Program, rec: Record, rows: map<Key, set<Id>>): Flagged {
    set pr | pr in Universe(p, true)
             && pr.1 in (if pr.0 in rows then rows[pr.0] else Row(Least(p, true, rec.settled), pr.0))
  }

  lemma RecordedFacts(p: Program, rec: Record, rows: map<Key, set<Id>>, k: Key)
    requires RecordBy(p, rec, rows) && k in rows
    ensures k in rec.flags && k in Keys(p, true) && (rec.flags[k] <==> k.root in rows[k])
    ensures rows[k] <= Row(Least(p, true, rec.settled), k)
  {
    assert RecordedKeyOk(p, rec, k, rows[k]);
  }

  lemma RowOfPart(t: Flagged, l: Flagged, k: Key, row: set<Id>)
    requires row <= Row(l, k) && forall m :: (k, m) in t <==> (k, m) in l && m in row
    ensures Row(t, k) == row
  {
    forall m | m in row ensures m in Row(t, k) {
      assert (k, m) in l;
      assert (k, m) in t;
    }
  }

  lemma RecordFlagsRow(p: Program, rec: Record, rows: map<Key, set<Id>>, k: Key)
    requires RecordBy(p, rec, rows) && k in rows
    ensures Row(RecordFlags(p, rec, rows), k) == rows[k] && k in rec.flags
    ensures k in Roots(RecordFlags(p, rec, rows)) <==> rec.flags[k]
  {
    var t, l := RecordFlags(p, rec, rows), Least(p, true, rec.settled);
    RecordedFacts(p, rec, rows, k);
    LeastInUniverse(p, true, rec.settled);
    forall m ensures (k, m) in t <==> (k, m) in l && m in rows[k] {
      if m in rows[k] {
        assert m in Row(l, k);
        assert (k, m) in l;
      }
    }
    RowOfPart(t, l, k, rows[k]);
    AsyncRoundEnd.RootOfRow(t, k);
  }

  lemma RecordFlagsBelow(p: Program, rec: Record, rows: map<Key, set<Id>>)
    requires RecordBy(p, rec, rows)
    ensures RecordFlags(p, rec, rows) <= Least(p, true, rec.settled)
  {
    forall pr | pr in RecordFlags(p, rec, rows) ensures pr in Least(p, true, rec.settled) {
      if pr.0 in rows { RecordedFacts(p, rec, rows, pr.0); }
      assert pr.1 in Row(Least(p, true, rec.settled), pr.0);
    }
  }

  lemma RecordedClosed(p: Program, rec: Record, rows: map<Key, set<Id>>, k: Key, m: Id)
    requires RecordBy(p, rec, rows) && k in rows && m in Component(p, k.root)
    requires Justified(p, true, rec.settled, RecordFlags(p, rec, rows), k, m)
    ensures m in rows[k]
  {
    var t := RecordFlags(p, rec, rows);
    assert RecordedKeyOk(p, rec, k, rows[k]);
    RecordFlagsRow(p, rec, rows, k);
    if m !in rec.settled {
      var c :| c in CallsOf(p, m) && CallAwaits(p, true, rec.settled, Row(t, k), k.bits, Roots(t), c);
      assert RecordedCallOk(p, rec, k, rows[k], m, c);
      var met := Met(p, true, rec.settled, rows[k], k.bits, c);
      if met.Some? { RecordFlagsRow(p, rec, rows, met.value); }
      AwaitsLocal(p, true, rec.settled, rows[k], k.bits, Roots(t), TrueKeys(rec.flags), c);
    }
  }

  lemma UnrecordedClosed(p: Program, rec: Record, rows: map<Key, set<Id>>, k: Key, m: Id)
    requires RecordBy(p, rec, rows)
    requires (k, m) in Universe(p, true) && Justified(p, true, rec.settled, RecordFlags(p, rec, rows), k, m)
    ensures m in Row(Least(p, true, rec.settled), k)
  {
    var t, l := RecordFlags(p, rec, rows), Least(p, true, rec.settled);
    RecordFlagsBelow(p, rec, rows);
    LeastIsLeast(p, true, rec.settled);
    LeastAnswers(p, true, rec.settled);
    RowsGrow(t, l, k);
    if m !in rec.settled {
      var c :| c in CallsOf(p, m) && CallAwaits(p, true, rec.settled, Row(t, k), k.bits, Roots(t), c);
      AwaitsLift(p, true, rec.settled, Row(t, k), k.bits, Roots(t), true, rec.settled, Row(l, k), k.bits, Roots(l), c);
    }
    assert Justified(p, true, rec.settled, l, k, m);
    assert (k, m) in Step(p, true, rec.settled, l);
  }

  lemma RecordClosed(p: Program, rec: Record, rows: map<Key, set<Id>>)
    requires RecordBy(p, rec, rows)
    ensures Closed(p, true, rec.settled, RecordFlags(p, rec, rows))
  {
    var t := RecordFlags(p, rec, rows);
    forall pr | pr in Step(p, true, rec.settled, t) ensures pr in t {
      var (x, m) := pr;
      if x in rows { RecordedClosed(p, rec, rows, x, m); } else { UnrecordedClosed(p, rec, rows, x, m); }
    }
  }

  /** A valid record's verdicts are the least ones of its own world. */
  lemma RecordIsLeast(p: Program, rec: Record, rows: map<Key, set<Id>>, k: Key)
    requires RecordBy(p, rec, rows) && k in rows
    ensures k in rec.flags && (rec.flags[k] <==> k in Roots(Least(p, true, rec.settled)))
  {
    RecordClosed(p, rec, rows);
    LeastIsLeast(p, true, rec.settled);
    RecordFlagsBelow(p, rec, rows);
    RecordFlagsRow(p, rec, rows, k);
  }

  // ----- a steady call of a recorded root names what it named -----

  lemma RecordedArgument(g: Ground, root: Id, a: Id, bits: set<Id>, flags: set<Id>, known: set<Id>, flags': set<Id>)
    requires Recorded(g, root) && !g.cold && SteadyValue(g, root, a) && g.settled.value <= known
    ensures ValueAsync(g.p, true, g.settled.value, flags, bits, a) <==> ValueAsync(g.p, false, known, flags', bits, a)
  {
    var settled := g.settled.value;
    if a in g.p.entities && g.p.entities[a].Local? {
      var t := g.p.entities[a].id;
      if t !in g.p.asyncValues && t in g.p.held {
        forall v | v in g.p.held[t]
          ensures (InView(g.p, true, v) && HeldValueAsync(g.p, settled, flags, v))
                    <==> HeldValueAsync(g.p, known, flags', v)
        {
          assert SteadyHeld(g, root, v);
        }
      }
    }
  }

  lemma RecordedBits(g: Ground, root: Id, c: CallSite, bits: set<Id>, flags: set<Id>, known: set<Id>, flags': set<Id>)
    requires Recorded(g, root) && !g.cold && SteadyCall(g, root, c) && c.target.Function? && g.settled.value <= known
    ensures BitsForCall(g.p, true, g.settled.value, flags, bits, c.target.id, c.callId)
         == BitsForCall(g.p, false, known, flags', bits, c.target.id, c.callId)
  {
    var callee, callId := c.target.id, c.callId;
    forall i: nat | i < Paired(g.p, callee, callId)
      ensures Adapts(g.p, true, g.settled.value, flags, bits, callee, callId, i)
         <==> Adapts(g.p, false, known, flags', bits, callee, callId, i)
    {
      if g.p.functions[callee][i] in Adaptive(g.p, callee) {
        RecordedArgument(g, root, g.p.functionCalls[callId].arguments[i], bits, flags, known, flags');
      }
    }
  }

  /** The steady call of a recorded instance names, in the record's world, a recorded instance. */
  lemma RecordedMet(p: Program, rec: Record, rows: map<Key, set<Id>>, g: Ground, k: Key, m: Id, c: CallSite,
                    flags: set<Id>)
    requires RecordBy(p, rec, rows) && k in rows && g.p == p && !g.cold && g.settled == Some(rec.settled)
    requires Recorded(g, k.root)
    requires m in Component(p, k.root) && c in CallsOf(p, m) && SteadyCall(g, k.root, c)
    ensures var x := Met(p, true, rec.settled, flags, k.bits, c); x.Some? ==> x.value in rows
  {
    assert RecordedKeyOk(p, rec, k, rows[k]);
    assert RecordedCallOk(p, rec, k, rows[k], m, c);
    if c.target.Function? {
      RecordedBits(g, k.root, c, k.bits, flags, rec.settled, rows[k]);
      RecordedBits(g, k.root, c, k.bits, rows[k], rec.settled, rows[k]);
    }
  }

  // ----- an evaluation over the recorded verdicts -----

  /** `trues` holds every recorded instance that is true in the record's world. */
  ghost predicate Vouched(p: Program, rec: Record, trues: set<Key>) {
    forall x :: x in rec.flags && x in Roots(Least(p, true, rec.settled)) ==> x in trues
  }

  /** A frame a recorded instance is evaluated in, over the recorded verdicts. */
  ghost predicate Over(g: Ground, rec: Record, f: Frame, k: Key) {
    && g.settled == Some(rec.settled) && !g.cold && rec.settled <= f.known
    && f.p == g.p && !f.cold && f.bits == k.bits && Vouched(g.p, rec, f.trues) && Recorded(g, k.root)
  }

  /** What a recorded instance's call found in the record's world, it finds now. */
  lemma RecordedAwaits(g: Ground, rec: Record, f: Frame, k: Key, m: Id, c: CallSite, q: Flagged, flags: set<Id>)
    requires Over(g, rec, f, k) && q <= Least(g.p, true, rec.settled) && Row(q, k) <= flags
    requires MayName(g.p, false, c) ==> SteadyCall(g, k.root, c)
    requires var x := Met(g.p, true, rec.settled, Row(q, k), k.bits, c);
             x.Some? && SteadyCall(g, k.root, c) ==> x.value in rec.flags
    requires CallAwaits(g.p, true, rec.settled, Row(q, k), k.bits, Roots(q), c)
    ensures Awaits(f, flags, c)
  {
    match c.target
    case Function(callee) =>
      if MayName(g.p, false, c) {
        RecordedBits(g, k.root, c, k.bits, Row(q, k), f.known, flags);
        var b := BitsForCall(g.p, true, rec.settled, Row(q, k), k.bits, callee, c.callId);
        if b != {} {
          var x := Key(callee, b);
          assert (x, x.root) in q;
          assert x in Roots(Least(g.p, true, rec.settled));
        }
      } else {
        NamesNothing(g.p, false, f.known, flags, k.bits, c);
        BitsMono(g.p, true, rec.settled, Row(q, k), k.bits, false, f.known, flags, k.bits, callee, c.callId);
      }
    case External(_) =>
    case Indirect(GenericMember) =>
    case Indirect(TraitDispatch) =>
    case _ =>
      if c.callId in g.p.functionCalls {
        SubjectMono(g.p, true, rec.settled, false, f.known, g.p.functionCalls[c.callId].subject);
      }
  }

  /** Every call of `k` is steady where it may name an instance, and named a recorded one. */
  ghost predicate Steadied(g: Ground, rec: Record, k: Key) {
    forall m, c :: m in Component(g.p, k.root) && c in CallsOf(g.p, m) ==>
      && (MayName(g.p, false, c) ==> SteadyCall(g, k.root, c))
      && (SteadyCall(g, k.root, c) ==> forall flags :: MetRecorded(g.p, rec, k, c, flags))
  }

  ghost predicate MetRecorded(p: Program, rec: Record, k: Key, c: CallSite, flags: set<Id>) {
    var x := Met(p, true, rec.settled, flags, k.bits, c); x.Some? ==> x.value in rec.flags
  }

  lemma RecordedStep(g: Ground, rec: Record, f: Frame, k: Key, q: Flagged, e: Eval)
    requires Over(g, rec, f, k) && Steadied(g, rec, k) && q <= Least(g.p, true, rec.settled) && Row(q, k) <= e.flags
    requires Settled(f, Component(g.p, k.root), e.flags, e.met, e.logged)
    requires forall m :: m in Component(g.p, k.root) && m in f.known ==> m in e.flags
    ensures Row(Step(g.p, true, rec.settled, q), k) <= e.flags
  {
    forall m | m in Row(Step(g.p, true, rec.settled, q), k) ensures m in e.flags {
      assert (k, m) in Step(g.p, true, rec.settled, q);
      assert (k, m) in Universe(g.p, true);
      if m !in rec.settled {
        var c :| c in CallsOf(g.p, m) && CallAwaits(g.p, true, rec.settled, Row(q, k), k.bits, Roots(q), c);
        assert SteadyCall(g, k.root, c) ==> MetRecorded(g.p, rec, k, c, Row(q, k));
        RecordedAwaits(g, rec, f, k, m, c, q, e.flags);
        assert Heard(f, e.flags, e.met, e.logged, m, c);
      }
    }
  }

  /** `level` climbs by the record's step, below its least flags. */
  ghost predicate RecordClimb(p: Program, rec: Record, level: nat -> Flagged, n: nat) {
    && level(0) == Start(p, true, rec.settled)
    && (forall i: nat :: i < n ==> level(i + 1) == Step(p, true, rec.settled, level(i)))
    && (forall i: nat :: i < n ==> level(i) <= Least(p, true, rec.settled))
  }

  lemma {:induction false} RecordedRowReached(g: Ground, rec: Record, f: Frame, k: Key, e: Eval,
                                              level: nat -> Flagged, n: nat)
    requires Over(g, rec, f, k) && Steadied(g, rec, k) && RecordClimb(g.p, rec, level, n)
    requires Settled(f, Component(g.p, k.root), e.flags, e.met, e.logged)
    requires forall m :: m in Component(g.p, k.root) && m in f.known ==> m in e.flags
    ensures Row(level(n), k) <= e.flags
  {
    if n == 0 {
      forall m | m in Row(level(0), k) ensures m in e.flags {
        assert (k, m) in Start(g.p, true, rec.settled);
      }
    } else {
      RecordedRowReached(g, rec, f, k, e, level, n - 1);
      RecordedStep(g, rec, f, k, level(n - 1), e);
    }
  }

  lemma KleeneIsRecordClimb(p: Program, rec: Record, n: nat)
    requires rec.settled <= p.coldIds && n <= |Universe(p, true)|
    ensures RecordClimb(p, rec, i => Kleene(p, true, rec.settled, i), n)
  {
    forall i: nat | i < n
      ensures Kleene(p, true, rec.settled, i) <= Least(p, true, rec.settled)
              && Kleene(p, true, rec.settled, i + 1) == Step(p, true, rec.settled, Kleene(p, true, rec.settled, i))
    {
      KleeneOrdered(p, true, rec.settled, i, |Universe(p, true)|);
      KleeneNext(p, true, rec.settled, i + 1);
    }
  }

  /** Evaluated over the recorded verdicts, an instance true in the record's world is true. */
  lemma Confirmed(g: Ground, rec: Record, f: Frame, k: Key)
    requires Over(g, rec, f, k) && Steadied(g, rec, k) && rec.settled <= g.p.coldIds
    requires k.root in Row(Least(g.p, true, rec.settled), k)
    ensures k.root in Evaluate(f, k.root).flags
  {
    var e := Evaluate(f, k.root);
    SettleSettles(f, Component(g.p, k.root), Begin(f, Component(g.p, k.root)));
    KleeneIsRecordClimb(g.p, rec, |Universe(g.p, true)|);
    RecordedRowReached(g, rec, f, k, e, i => Kleene(g.p, true, rec.settled, i), |Universe(g.p, true)|);
  }

  lemma RecordVouches(p: Program, rec: Record, rows: map<Key, set<Id>>, trues: set<Key>)
    requires RecordBy(p, rec, rows) && TrueKeys(rec.flags) <= trues
    ensures Vouched(p, rec, trues)
  {
    forall x | x in rec.flags && x in Roots(Least(p, true, rec.settled)) ensures x in trues {
      RecordIsLeast(p, rec, rows, x);
      assert x in TrueKeys(rec.flags);
    }
  }

  lemma RecordSteadies(p: Program, rec: Record, rows: map<Key, set<Id>>, g: Ground, t: Tiers, k: Key)
    requires RecordBy(p, rec, rows) && k in rows && g.p == p && !g.cold && g.settled == Some(rec.settled)
    requires Recorded(g, k.root)
    requires TieredAt(g, t, k.root) && t.rank(k.root) == 0
    ensures Steadied(g, rec, k)
  {
    forall m, c | m in Component(p, k.root) && c in CallsOf(p, m)
      ensures MayName(p, false, c) ==> SteadyCall(g, k.root, c)
      ensures SteadyCall(g, k.root, c) ==> forall flags :: MetRecorded(p, rec, k, c, flags)
    {
      if MayName(p, false, c) { assert Descends(g, t, k.root, c); }
      if SteadyCall(g, k.root, c) {
        forall flags ensures MetRecorded(p, rec, k, c, flags) {
          RecordedMet(p, rec, rows, g, k, m, c, flags);
        }
      }
    }
  }

  /** Evaluated over the recorded verdicts, a recorded instance of tier 0 that was true is true. */
  lemma RecordedConfirmed(w: World, rows: map<Key, set<Id>>, start: set<Id>, t: Tiers, f: Frame, k: Key)
    requires WorldOk(w, rows) && w.rec.Some? && !w.cold && w.rec.value.settled <= f.known
    requires RecordedFlag(w, k) && TieredAt(GroundOf(w, start), t, k.root) && t.rank(k.root) == 0
    requires f.p == w.p && !f.cold && f.bits == k.bits && TrueKeys(w.rec.value.flags) <= f.trues
    ensures k.root in Evaluate(f, k.root).flags
  {
    var rec, g := w.rec.value, GroundOf(w, start);
    RecordedFacts(w.p, rec, rows, k);
    RecordVouches(w.p, rec, rows, f.trues);
    RecordSteadies(w.p, rec, rows, g, t, k);
    Confirmed(g, rec, f, k);
  }
}

/** What a round that ended without growing the async set answers: every instance's least verdict. */
module AsyncRoundEnd {
  import opened AsyncProgram
  import opened AsyncFixpoint
  import opened AsyncEvaluate
  import opened AsyncQuiet
  import opened AsyncRound
  import opened AsyncRoundProof

  /** The flags of `k` as the round leaves them: its last evaluation's, the record's, or - for an
      instance nothing named - the least ones. */
  ghost function RowFor(w: World, rows: map<Key, set<Id>>, s: Round, k: Key): set<Id> {
    if k in s.last then s.last[k]
    else if Serves(w, s.seeding, k) && k in rows then rows[k]
    else Row(Least(w.p, w.cold, s.known), k)
  }

  ghost function Combined(w: World, rows: map<Key, set<Id>>, s: Round): Flagged {
    set pr | pr in Universe(w.p, w.cold) && pr.1 in RowFor(w, rows, s, pr.0)
  }

  ghost predicate Ended(w: World, rows: map<Key, set<Id>>, start: set<Id>, s: Round) {
    WorldOk(w, rows) && Inv(w, start, s) && s.queued == {} && s.known == start
  }

  lemma ServedRow(w: World, rows: map<Key, set<Id>>, s: Round, k: Key)
    requires WorldOk(w, rows) && Sound(w, s) && Serves(w, s.seeding, k)
    ensures k in rows && rows[k] <= Row(Least(w.p, w.cold, s.known), k)
  {
    var rec := w.rec.value;
    assert RecordedKeyOk(w.p, rec, k, rows[k]);
    LeastMono(w.p, true, rec.settled, false, s.known);
    RowsGrow(Least(w.p, true, rec.settled), Least(w.p, false, s.known), k);
  }

  lemma RowForBelow(w: World, rows: map<Key, set<Id>>, s: Round, k: Key)
    requires WorldOk(w, rows) && Sound(w, s)
    ensures RowFor(w, rows, s, k) <= Row(Least(w.p, w.cold, s.known), k)
  {
    if k !in s.last && Serves(w, s.seeding, k) { ServedRow(w, rows, s, k); }
  }

  lemma CombinedBelow(w: World, rows: map<Key, set<Id>>, s: Round)
    requires WorldOk(w, rows) && Sound(w, s)
    ensures Combined(w, rows, s) <= Least(w.p, w.cold, s.known)
  {
    forall pr | pr in Combined(w, rows, s) ensures pr in Least(w.p, w.cold, s.known) {
      RowForBelow(w, rows, s, pr.0);
      assert pr.1 in Row(Least(w.p, w.cold, s.known), pr.0);
    }
  }

  /** The combined flags of an instance are its row. */
  lemma CombinedRow(w: World, rows: map<Key, set<Id>>, s: Round, k: Key)
    requires WorldOk(w, rows) && Sound(w, s)
    ensures Row(Combined(w, rows, s), k) == RowFor(w, rows, s, k)
  {
    RowForBelow(w, rows, s, k);
    LeastInUniverse(w.p, w.cold, s.known);
    var t := Combined(w, rows, s);
    forall m | m in RowFor(w, rows, s, k) ensures m in Row(t, k) {
      assert (k, m) in Least(w.p, w.cold, s.known);
      assert (k, m) in t;
    }
  }

  lemma RootOfRow(t: Flagged, k: Key)
    ensures k in Roots(t) <==> k.root in Row(t, k)
  {
    if k in Roots(t) { assert (k, k.root) in t; }
  }

  lemma RowForRoot(w: World, rows: map<Key, set<Id>>, s: Round, x: Key)
    requires WorldOk(w, rows) && Sound(w, s) && Answered(w, s) && Apart(w, s) && s.queued == {} && Holds(w, s, x)
    ensures x.root in RowFor(w, rows, s, x) <==> x in Trues(w, s.verdicts, s.seeding)
  {
    if x in s.verdicts {
      assert x in s.last;
    } else {
      RecordedRoot(w, rows, x);
    }
  }

  lemma RecordedRoot(w: World, rows: map<Key, set<Id>>, x: Key)
    requires WorldOk(w, rows) && w.rec.Some? && x in w.rec.value.flags
    ensures x in rows && (RecordedFlag(w, x) <==> x.root in rows[x])
  {
    assert RecordedKeyOk(w.p, w.rec.value, x, rows[x]);
  }

  /** An instance the round holds awaits in the combined flags exactly when its verdict says so. */
  lemma CombinedRoot(w: World, rows: map<Key, set<Id>>, s: Round, x: Key)
    requires WorldOk(w, rows) && Sound(w, s) && Answered(w, s) && Apart(w, s) && s.queued == {} && Holds(w, s, x)
    ensures x in Roots(Combined(w, rows, s)) <==> x in Trues(w, s.verdicts, s.seeding)
  {
    CombinedRow(w, rows, s, x);
    RowForRoot(w, rows, s, x);
    RootOfRow(Combined(w, rows, s), x);
  }

  lemma LiveClosed(w: World, rows: map<Key, set<Id>>, start: set<Id>, s: Round, k: Key, m: Id)
    requires Ended(w, rows, start, s) && k in s.last
    requires m in Component(w.p, k.root) && Justified(w.p, w.cold, s.known, Combined(w, rows, s), k, m)
    ensures m in s.last[k]
  {
    assert LiveKeyOk(w, s, k, s.last[k]);
    var t := Combined(w, rows, s);
    CombinedRow(w, rows, s, k);
    if m !in s.known {
      var c :| c in CallsOf(w.p, m) && CallAwaits(w.p, w.cold, s.known, Row(t, k), k.bits, Roots(t), c);
      assert LiveCallOk(w, s, k, s.last[k], m, c);
      var met := Met(w.p, w.cold, s.known, s.last[k], k.bits, c);
      if met.Some? {
        CombinedRoot(w, rows, s, met.value);
      }
      AwaitsLocal(w.p, w.cold, s.known, s.last[k], k.bits, Roots(t), Trues(w, s.verdicts, s.seeding), c);
    }
  }

  lemma ServedCallClosed(w: World, rows: map<Key, set<Id>>, start: set<Id>, s: Round, k: Key, m: Id, c: CallSite)
    requires Ended(w, rows, start, s) && Serves(w, s.seeding, k) && k in rows
    requires m in Component(w.p, k.root) && c in CallsOf(w.p, m)
    requires CallAwaits(w.p, w.cold, s.known, rows[k], k.bits, Roots(Combined(w, rows, s)), c)
    ensures m in rows[k]
  {
    var rec := w.rec.value;
    assert RecordedKeyOk(w.p, rec, k, rows[k]);
    assert RecordedCallOk(w.p, rec, k, rows[k], m, c);
    var met := Met(w.p, true, rec.settled, rows[k], k.bits, c);
    if met.Some? && met.value in Roots(Combined(w, rows, s)) {
      assert Reading(rec, k, met.value);
      CombinedRoot(w, rows, s, met.value);
      assert RecordedFlag(w, met.value);
    }
    QuietCall(w.p, rec.settled, s.known, rows[k], k.bits, TrueKeys(rec.flags), Roots(Combined(w, rows, s)), c,
              rec.logs[k]);
  }

  lemma ServedClosed(w: World, rows: map<Key, set<Id>>, start: set<Id>, s: Round, k: Key, m: Id)
    requires Ended(w, rows, start, s) && k !in s.last && Serves(w, s.seeding, k) && k in rows
    requires m in Component(w.p, k.root) && Justified(w.p, w.cold, s.known, Combined(w, rows, s), k, m)
    ensures m in rows[k]
  {
    var rec := w.rec.value;
    var t := Combined(w, rows, s);
    assert RecordedKeyOk(w.p, rec, k, rows[k]);
    CombinedRow(w, rows, s, k);
    if m in s.known {
      QuietWithin(w.p, rec.settled, s.known, MemberReads(w.p, rec.settled, Component(w.p, k.root)), rec.logs[k]);
    } else {
      var c :| c in CallsOf(w.p, m) && CallAwaits(w.p, w.cold, s.known, Row(t, k), k.bits, Roots(t), c);
      ServedCallClosed(w, rows, start, s, k, m, c);
    }
  }

  lemma OtherClosed(w: World, rows: map<Key, set<Id>>, s: Round, k: Key, m: Id)
    requires WorldOk(w, rows) && Sound(w, s)
    requires (k, m) in Universe(w.p, w.cold) && Justified(w.p, w.cold, s.known, Combined(w, rows, s), k, m)
    ensures m in Row(Least(w.p, w.cold, s.known), k)
  {
    var t, l := Combined(w, rows, s), Least(w.p, w.cold, s.known);
    CombinedBelow(w, rows, s);
    LeastIsLeast(w.p, w.cold, s.known);
    LeastAnswers(w.p, w.cold, s.known);
    RowsGrow(t, l, k);
    if m !in s.known {
      var c :| c in CallsOf(w.p, m) && CallAwaits(w.p, w.cold, s.known, Row(t, k), k.bits, Roots(t), c);
      AwaitsLift(w.p, w.cold, s.known, Row(t, k), k.bits, Roots(t),
                 w.cold, s.known, Row(l, k), k.bits, Roots(l), c);
    }
    assert Justified(w.p, w.cold, s.known, l, k, m);
    assert (k, m) in Step(w.p, w.cold, s.known, l);
  }

  lemma CombinedClosed(w: World, rows: map<Key, set<Id>>, start: set<Id>, s: Round)
    requires Ended(w, rows, start, s)
    ensures Closed(w.p, w.cold, s.known, Combined(w, rows, s))
  {
    var t := Combined(w, rows, s);
    forall pr | pr in Step(w.p, w.cold, s.known, t) ensures pr in t {
      var (k, m) := pr;
      if k in s.last {
        LiveClosed(w, rows, start, s, k, m);
      } else if Serves(w, s.seeding, k) {
        ServedRow(w, rows, s, k);
        ServedClosed(w, rows, start, s, k, m);
      } else {
        OtherClosed(w, rows, s, k, m);
      }
    }
  }

  /** Every instance the round holds - live or served from the record - ends with its value in the
      least flags, and every base instance's flags are in the async set. */
  ghost predicate Exact(w: World, s: Round) {
    && (forall k :: k in s.verdicts ==> (s.verdicts[k] <==> k in Roots(Least(w.p, w.cold, s.known))))
    && (forall k :: Serves(w, s.seeding, k) ==> (RecordedFlag(w, k) <==> k in Roots(Least(w.p, w.cold, s.known))))
    && InstancesClosed(w.p, w.cold, s.known)
  }

  lemma BaseRows(w: World, rows: map<Key, set<Id>>, start: set<Id>, s: Round, f: Id)
    requires Ended(w, rows, start, s) && f in w.p.functions && InView(w.p, w.cold, f)
    ensures RowFor(w, rows, s, Key(f, {})) <= s.known
  {
    var k := Key(f, {});
    assert Holds(w, s, k);
    if k in s.last {
      assert LiveKeyOk(w, s, k, s.last[k]);
    } else {
      assert Serves(w, s.seeding, k);
      ServedRow(w, rows, s, k);
      assert RecordedKeyOk(w.p, w.rec.value, k, rows[k]);
    }
  }

  lemma CombinedIsLeast(w: World, rows: map<Key, set<Id>>, start: set<Id>, s: Round)
    requires Ended(w, rows, start, s)
    ensures Combined(w, rows, s) == Least(w.p, w.cold, s.known)
  {
    LeastIsLeast(w.p, w.cold, s.known);
    CombinedClosed(w, rows, start, s);
    CombinedBelow(w, rows, s);
  }

  lemma RowsExact(w: World, rows: map<Key, set<Id>>, start: set<Id>, s: Round, k: Key)
    requires Ended(w, rows, start, s)
    ensures Row(Least(w.p, w.cold, s.known), k) == RowFor(w, rows, s, k)
    ensures Holds(w, s, k) ==>
              (k in Roots(Least(w.p, w.cold, s.known)) <==> k in Trues(w, s.verdicts, s.seeding))
  {
    CombinedIsLeast(w, rows, start, s);
    CombinedRow(w, rows, s, k);
    if Holds(w, s, k) { CombinedRoot(w, rows, s, k); }
  }

  lemma RoundCloses(w: World, rows: map<Key, set<Id>>, start: set<Id>, s: Round)
    requires Ended(w, rows, start, s)
    ensures InstancesClosed(w.p, w.cold, s.known)
  {
    forall f | f in w.p.functions && InView(w.p, w.cold, f)
      ensures Row(Least(w.p, w.cold, s.known), Key(f, {})) <= s.known
    {
      RowsExact(w, rows, start, s, Key(f, {}));
      BaseRows(w, rows, start, s, f);
    }
  }

  lemma VerdictExact(w: World, rows: map<Key, set<Id>>, start: set<Id>, s: Round, k: Key)
    requires Ended(w, rows, start, s) && k in s.verdicts
    ensures s.verdicts[k] <==> k in Roots(Least(w.p, w.cold, s.known))
  {
    RowsExact(w, rows, start, s, k);
    assert s.verdicts[k] <==> k in TrueKeys(s.verdicts);
  }

  lemma ServedExact(w: World, rows: map<Key, set<Id>>, start: set<Id>, s: Round, k: Key)
    requires Ended(w, rows, start, s) && Serves(w, s.seeding, k)
    ensures RecordedFlag(w, k) <==> k in Roots(Least(w.p, w.cold, s.known))
  {
    RowsExact(w, rows, start, s, k);
    assert k !in s.verdicts;
  }

  lemma RoundExact(w: World, rows: map<Key, set<Id>>, start: set<Id>, s: Round)
    requires Ended(w, rows, start, s)
    ensures Exact(w, s)
  {
    RoundCloses(w, rows, start, s);
    forall k | k in s.verdicts ensures s.verdicts[k] <==> k in Roots(Least(w.p, w.cold, s.known)) {
      VerdictExact(w, rows, start, s, k);
    }
    forall k | Serves(w, s.seeding, k) ensures RecordedFlag(w, k) <==> k in Roots(Least(w.p, w.cold, s.known)) {
      ServedExact(w, rows, start, s, k);
    }
  }
}

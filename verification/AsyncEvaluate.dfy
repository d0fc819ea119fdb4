/** One evaluation of an instance against the current verdicts, with every read its verdict
    depends on logged (`evaluate_instance`, crates/vilan-core/src/async_infer.rs). */
module AsyncEvaluate {
  import opened Basics
  import opened AsyncProgram
  import opened AsyncFixpoint
  import opened Iterates

  /** What an evaluation read and found not async. */
  datatype Reads = Reads(ids: set<Id>, bindings: set<Id>, dispatches: set<Id>, unrecordable: bool)

  const NO_READS := Reads({}, {}, {}, false)

  function Join(a: Reads, b: Reads): Reads {
    Reads(a.ids + b.ids, a.bindings + b.bindings, a.dispatches + b.dispatches, a.unrecordable || b.unrecordable)
  }

  predicate Within(a: Reads, b: Reads) {
    a.ids <= b.ids && a.bindings <= b.bindings && a.dispatches <= b.dispatches && (a.unrecordable ==> b.unrecordable)
  }

  /** A membership test of the async set: only a "no" is logged, by id when the id is cold. */
  function IdReads(p: Program, known: set<Id>, id: Id): Reads {
    if id in known then NO_READS
    else if id in p.coldIds then Reads({id}, {}, {}, false)
    else Reads({}, {}, {}, true)
  }

  function HeldReads(p: Program, cold: bool, known: set<Id>, value: Id, depth: nat): Reads
    decreases DEPTH_CAP + 1 - depth, 0, 0
  {
    if depth > DEPTH_CAP || value !in p.entities then NO_READS else
    match p.entities[value]
    case Closure(c) => IdReads(p, known, c)
    case Local(source) => BindingReads(p, cold, known, source, depth + 1)
    case _ => NO_READS
  }

  /** The held values are asked in order, up to the first that awaits. */
  function HeldListReads(p: Program, cold: bool, known: set<Id>, values: seq<Id>, depth: nat): Reads
    decreases DEPTH_CAP + 1 - depth, 1, |values|
  {
    if depth > DEPTH_CAP || values == [] then NO_READS
    else if !InView(p, cold, values[0]) then HeldListReads(p, cold, known, values[1..], depth)
    else if HeldAwaits(p, cold, known, values[0], depth) then HeldReads(p, cold, known, values[0], depth)
    else Join(HeldReads(p, cold, known, values[0], depth), HeldListReads(p, cold, known, values[1..], depth))
  }

  function BindingReads(p: Program, cold: bool, known: set<Id>, binding: Id, depth: nat): Reads
    decreases DEPTH_CAP + 1 - depth, 2, 0
  {
    if depth > DEPTH_CAP then NO_READS
    else Join(Reads({}, {binding}, {}, false),
              if binding in p.held then HeldListReads(p, cold, known, p.held[binding], depth) else NO_READS)
  }

  function SubjectReads(p: Program, cold: bool, known: set<Id>, subject: Id): Reads {
    if subject !in p.entities then NO_READS else
    match p.entities[subject]
    case Local(target) => if target in p.asyncValues then NO_READS else BindingReads(p, cold, known, target, 0)
    case Closure(c) => IdReads(p, known, c)
    case _ => NO_READS
  }

  /** A closure read through a member's flag reads nothing: the member's own start was logged. */
  function ClosureReads(p: Program, known: set<Id>, flags: set<Id>, c: Id): Reads {
    if c in flags then NO_READS else IdReads(p, known, c)
  }

  function HeldValueReads(p: Program, cold: bool, known: set<Id>, flags: set<Id>, values: seq<Id>): Reads {
    if values == [] then NO_READS
    else if !InView(p, cold, values[0]) then HeldValueReads(p, cold, known, flags, values[1..])
    else if HeldValueAsync(p, known, flags, values[0]) then NO_READS
    else Join(if values[0] in p.entities && p.entities[values[0]].Closure?
              then ClosureReads(p, known, flags, p.entities[values[0]].id) else NO_READS,
              HeldValueReads(p, cold, known, flags, values[1..]))
  }

  function ValueReads(p: Program, cold: bool, known: set<Id>, flags: set<Id>, bits: set<Id>, value: Id): Reads {
    if value !in p.entities then NO_READS else
    match p.entities[value]
    case Closure(c) => ClosureReads(p, known, flags, c)
    case Async(c) => ClosureReads(p, known, flags, c)
    case Local(target) =>
      if target in bits || target in p.asyncValues then NO_READS
      else Join(Reads({}, {target}, {}, false),
                if target in p.held then HeldValueReads(p, cold, known, flags, p.held[target]) else NO_READS)
    case _ => NO_READS
  }

  /** The reads of the first `n` paired arguments. */
  function ArgumentReads(p: Program, cold: bool, known: set<Id>, flags: set<Id>, bits: set<Id>,
                         callee: Id, callId: Id, n: nat): Reads
    requires n <= Paired(p, callee, callId)
  {
    if n == 0 then NO_READS
    else Join(ArgumentReads(p, cold, known, flags, bits, callee, callId, n - 1),
              if p.functions[callee][n - 1] in Adaptive(p, callee)
              then ValueReads(p, cold, known, flags, bits, p.functionCalls[callId].arguments[n - 1]) else NO_READS)
  }

  function CallReads(p: Program, cold: bool, known: set<Id>, flags: set<Id>, bits: set<Id>, call: CallSite): Reads {
    match call.target
    case Function(callee) =>
      Join(ArgumentReads(p, cold, known, flags, bits, callee, call.callId, Paired(p, callee, call.callId)),
           if BitsForCall(p, cold, known, flags, bits, callee, call.callId) == {} then IdReads(p, known, callee)
           else if InView(p, cold, callee) then NO_READS
           else Reads({}, {}, {}, true))
    case External(callee) => IdReads(p, known, callee)
    case Indirect(GenericMember) => DispatchReads(p, known, call.callId)
    case Indirect(TraitDispatch) => DispatchReads(p, known, call.callId)
    case _ =>
      if SubjectAdaptedHere(p, flags, bits, call.callId) || call.callId !in p.functionCalls then NO_READS
      else SubjectReads(p, cold, known, p.functionCalls[call.callId].subject)
  }

  function DispatchReads(p: Program, known: set<Id>, callId: Id): Reads {
    if DispatchAsync(p, known, callId) then NO_READS else Reads({}, {}, {callId}, false)
  }

  // ----- the evaluation -----

  /** What one evaluation reads and never writes: `trues` are the instances whose flag holds. */
  datatype Frame = Frame(p: Program, cold: bool, known: set<Id>, bits: set<Id>, trues: set<Key>)

  /** The member flags so far, the instances the calls named, in order, and the reads. */
  datatype Eval = Eval(flags: set<Id>, met: seq<Key>, logged: Reads)

  predicate Awaits(f: Frame, flags: set<Id>, c: CallSite) {
    CallAwaits(f.p, f.cold, f.known, flags, f.bits, f.trues, c)
  }

  function MetBy(f: Frame, flags: set<Id>, c: CallSite): seq<Key> {
    match Met(f.p, f.cold, f.known, flags, f.bits, c)
    case Some(k) => [k]
    case None => []
  }

  function ReadsOf(f: Frame, flags: set<Id>, c: CallSite): Reads {
    CallReads(f.p, f.cold, f.known, flags, f.bits, c)
  }

  function VisitCall(f: Frame, m: Id, c: CallSite, e: Eval): Eval {
    Eval(if Awaits(f, e.flags, c) then e.flags + {m} else e.flags,
         e.met + MetBy(f, e.flags, c),
         Join(e.logged, ReadsOf(f, e.flags, c)))
  }

  function VisitCalls(f: Frame, m: Id, cs: seq<CallSite>, e: Eval): (r: Eval)
    ensures e.flags <= r.flags <= e.flags + {m}
    ensures e.met <= r.met && Within(e.logged, r.logged)
  {
    if cs == [] then e else VisitCall(f, m, cs[|cs| - 1], VisitCalls(f, m, cs[..|cs| - 1], e))
  }

  function VisitMembers(f: Frame, ms: seq<Id>, e: Eval): (r: Eval)
    ensures e.flags <= r.flags && (forall x :: x in r.flags ==> x in e.flags || x in ms)
    ensures e.met <= r.met && Within(e.logged, r.logged)
  {
    if ms == [] then e
    else
      var m := ms[|ms| - 1];
      VisitCalls(f, m, CallsOf(f.p, m), VisitMembers(f, ms[..|ms| - 1], e))
  }

  function Unflagged(ms: seq<Id>, flags: set<Id>): set<Id> {
    set m | m in ms && m !in flags
  }

  lemma FewerUnflagged(ms: seq<Id>, flags: set<Id>, flags': set<Id>)
    requires flags < flags' && forall x :: x in flags' ==> x in flags || x in ms
    ensures |Unflagged(ms, flags')| < |Unflagged(ms, flags)|
  {
    var x :| x in flags' && x !in flags;
    assert Unflagged(ms, flags') <= Unflagged(ms, flags) - {x};
    Smaller(Unflagged(ms, flags'), Unflagged(ms, flags) - {x});
  }

  /** Passes over every call of every member, until one flips no flag. */
  function Settle(f: Frame, ms: seq<Id>, e: Eval): Eval
    decreases |Unflagged(ms, e.flags)|
  {
    var next := VisitMembers(f, ms, e);
    if next.flags == e.flags then next
    else
      FewerUnflagged(ms, e.flags, next.flags);
      Settle(f, ms, next)
  }

  function MemberReads(p: Program, known: set<Id>, ms: seq<Id>): Reads {
    Reads(set m | m in ms && m !in known && m in p.coldIds, {}, {},
          exists m :: m in ms && m !in known && m !in p.coldIds)
  }

  function Begin(f: Frame, ms: seq<Id>): Eval {
    Eval(set m | m in ms && m in f.known, [], MemberReads(f.p, f.known, ms))
  }

  function Evaluate(f: Frame, root: Id): Eval {
    var ms := Component(f.p, root);
    Settle(f, ms, Begin(f, ms))
  }

  /** One member's calls, in source order. */
  method VisitMember(f: Frame, m: Id, start: Eval) returns (e: Eval)
    ensures e == VisitCalls(f, m, CallsOf(f.p, m), start)
  {
    e := start;
    var calls := CallsOf(f.p, m);
    for j := 0 to |calls|
      invariant e == VisitCalls(f, m, calls[..j], start)
    {
      assert calls[..j + 1][..j] == calls[..j];
      e := VisitCall(f, m, calls[j], e);
    }
    assert calls[..|calls|] == calls;
  }

  /** One pass over the members, and whether it flipped a flag. */
  method Pass(f: Frame, members: seq<Id>, start: Eval) returns (e: Eval, changed: bool)
    ensures e == VisitMembers(f, members, start)
    ensures changed <==> e.flags != start.flags
  {
    e, changed := start, false;
    for i := 0 to |members|
      invariant e == VisitMembers(f, members[..i], start)
      invariant changed <==> e.flags != start.flags
    {
      assert members[..i + 1][..i] == members[..i];
      var before := e;
      e := VisitMember(f, members[i], before);
      if members[i] in e.flags && members[i] !in before.flags {
        changed := true;
      } else {
        assert e.flags == before.flags;
      }
    }
    assert members[..|members|] == members;
  }

  /** The evaluation as the source loops over it: passes until one flips nothing. */
  method EvaluateInstance(f: Frame, root: Id) returns (e: Eval)
    ensures e == Evaluate(f, root)
  {
    var members := Component(f.p, root);
    e := Begin(f, members);
    while true
      invariant Settle(f, members, e) == Evaluate(f, root)
      decreases |Unflagged(members, e.flags)|
    {
      var next, changed := Pass(f, members, e);
      if !changed {
        return next;
      }
      FewerUnflagged(members, e.flags, next.flags);
      e := next;
    }
  }

  // ----- what an evaluation leaves -----

  /** Under `flags`, the call awaits only if its member is flagged, and its instance and its reads
      are in `met` and `logged`. */
  ghost predicate Heard(f: Frame, flags: set<Id>, met: seq<Key>, logged: Reads, m: Id, c: CallSite) {
    && (Awaits(f, flags, c) ==> m in flags)
    && (forall k :: k in MetBy(f, flags, c) ==> k in met)
    && Within(ReadsOf(f, flags, c), logged)
  }

  ghost predicate Settled(f: Frame, ms: seq<Id>, flags: set<Id>, met: seq<Key>, logged: Reads) {
    forall m, c :: m in ms && c in CallsOf(f.p, m) ==> Heard(f, flags, met, logged, m, c)
  }

  lemma HeardOn(f: Frame, flags: set<Id>, met: seq<Key>, logged: Reads, met': seq<Key>, logged': Reads, m: Id,
                c: CallSite)
    requires Heard(f, flags, met, logged, m, c) && met <= met' && Within(logged, logged')
    ensures Heard(f, flags, met', logged', m, c)
  {
  }

  lemma HeardAt(f: Frame, m: Id, c: CallSite, e: Eval)
    requires VisitCall(f, m, c, e).flags == e.flags
    ensures Heard(f, e.flags, VisitCall(f, m, c, e).met, VisitCall(f, m, c, e).logged, m, c)
  {
  }

  lemma {:induction false} QuietCalls(f: Frame, m: Id, cs: seq<CallSite>, e: Eval, c: CallSite)
    requires VisitCalls(f, m, cs, e).flags == e.flags && c in cs
    ensures Heard(f, e.flags, VisitCalls(f, m, cs, e).met, VisitCalls(f, m, cs, e).logged, m, c)
  {
    var q := VisitCalls(f, m, cs[..|cs| - 1], e);
    var r := VisitCalls(f, m, cs, e);
    assert r == VisitCall(f, m, cs[|cs| - 1], q);
    if c == cs[|cs| - 1] {
      HeardAt(f, m, c, q);
    } else {
      QuietCalls(f, m, cs[..|cs| - 1], e, c);
      HeardOn(f, e.flags, q.met, q.logged, r.met, r.logged, m, c);
    }
  }

  lemma {:induction false} QuietMembers(f: Frame, ms: seq<Id>, e: Eval, m: Id, c: CallSite)
    requires VisitMembers(f, ms, e).flags == e.flags && m in ms && c in CallsOf(f.p, m)
    ensures Heard(f, e.flags, VisitMembers(f, ms, e).met, VisitMembers(f, ms, e).logged, m, c)
  {
    var q := VisitMembers(f, ms[..|ms| - 1], e);
    var r := VisitMembers(f, ms, e);
    assert r == VisitCalls(f, ms[|ms| - 1], CallsOf(f.p, ms[|ms| - 1]), q);
    if m == ms[|ms| - 1] {
      QuietCalls(f, m, CallsOf(f.p, m), q, c);
    } else {
      QuietMembers(f, ms[..|ms| - 1], e, m, c);
      HeardOn(f, e.flags, q.met, q.logged, r.met, r.logged, m, c);
    }
  }

  lemma {:induction false} SettleSettles(f: Frame, ms: seq<Id>, e: Eval)
    ensures var r := Settle(f, ms, e);
            && Settled(f, ms, r.flags, r.met, r.logged)
            && e.flags <= r.flags && Within(e.logged, r.logged)
            && (forall x :: x in r.flags ==> x in e.flags || x in ms)
    decreases |Unflagged(ms, e.flags)|
  {
    var next := VisitMembers(f, ms, e);
    if next.flags == e.flags {
      forall m, c | m in ms && c in CallsOf(f.p, m) ensures Heard(f, next.flags, next.met, next.logged, m, c) {
        QuietMembers(f, ms, e, m, c);
      }
    } else {
      FewerUnflagged(ms, e.flags, next.flags);
      SettleSettles(f, ms, next);
    }
  }

  /** Every instance a call names is a key of the view. */
  ghost predicate AllKeys(p: Program, cold: bool, met: seq<Key>) {
    forall k :: k in met ==> k in Keys(p, cold)
  }

  /** The frame's verdicts are below `s`, which is closed and answers every growth of itself. */
  ghost predicate BelowIn(f: Frame, k: Key, s: Flagged) {
    && (f.cold ==> f.known <= f.p.coldIds)
    && k in Keys(f.p, f.cold) && f.bits == k.bits
    && Step(f.p, f.cold, f.known, s) == s
    && Widens(f.p, f.trues, Roots(s)) && Seeded(f.p, f.cold, f.known, Roots(s))
  }

  lemma VisitCallBelow(f: Frame, k: Key, s: Flagged, m: Id, c: CallSite, e: Eval)
    requires BelowIn(f, k, s) && m in Component(f.p, k.root) && c in CallsOf(f.p, m)
    requires e.flags <= Row(s, k) && AllKeys(f.p, f.cold, e.met)
    ensures VisitCall(f, m, c, e).flags <= Row(s, k) && AllKeys(f.p, f.cold, VisitCall(f, m, c, e).met)
  {
    if Awaits(f, e.flags, c) {
      AwaitsLift(f.p, f.cold, f.known, e.flags, f.bits, f.trues,
                 f.cold, f.known, Row(s, k), f.bits, Roots(s), c);
      assert (k, m) in Universe(f.p, f.cold) && Justified(f.p, f.cold, f.known, s, k, m);
      assert (k, m) in Step(f.p, f.cold, f.known, s);
    }
  }

  lemma {:induction false} VisitCallsBelow(f: Frame, k: Key, s: Flagged, m: Id, cs: seq<CallSite>, e: Eval)
    requires BelowIn(f, k, s) && m in Component(f.p, k.root) && forall c :: c in cs ==> c in CallsOf(f.p, m)
    requires e.flags <= Row(s, k) && AllKeys(f.p, f.cold, e.met)
    ensures VisitCalls(f, m, cs, e).flags <= Row(s, k) && AllKeys(f.p, f.cold, VisitCalls(f, m, cs, e).met)
  {
    if cs != [] {
      VisitCallsBelow(f, k, s, m, cs[..|cs| - 1], e);
      VisitCallBelow(f, k, s, m, cs[|cs| - 1], VisitCalls(f, m, cs[..|cs| - 1], e));
    }
  }

  lemma {:induction false} VisitMembersBelow(f: Frame, k: Key, s: Flagged, ms: seq<Id>, e: Eval)
    requires BelowIn(f, k, s) && forall m :: m in ms ==> m in Component(f.p, k.root)
    requires e.flags <= Row(s, k) && AllKeys(f.p, f.cold, e.met)
    ensures VisitMembers(f, ms, e).flags <= Row(s, k) && AllKeys(f.p, f.cold, VisitMembers(f, ms, e).met)
  {
    if ms != [] {
      VisitMembersBelow(f, k, s, ms[..|ms| - 1], e);
      VisitCallsBelow(f, k, s, ms[|ms| - 1], CallsOf(f.p, ms[|ms| - 1]), VisitMembers(f, ms[..|ms| - 1], e));
    }
  }

  lemma {:induction false} SettleBelow(f: Frame, k: Key, s: Flagged, e: Eval)
    requires BelowIn(f, k, s)
    requires e.flags <= Row(s, k) && AllKeys(f.p, f.cold, e.met)
    ensures var r := Settle(f, Component(f.p, k.root), e);
            r.flags <= Row(s, k) && AllKeys(f.p, f.cold, r.met)
    decreases |Unflagged(Component(f.p, k.root), e.flags)|
  {
    var ms := Component(f.p, k.root);
    VisitMembersBelow(f, k, s, ms, e);
    var next := VisitMembers(f, ms, e);
    if next.flags != e.flags {
      FewerUnflagged(ms, e.flags, next.flags);
      SettleBelow(f, k, s, next);
    }
  }

  /** An evaluation against verdicts below the least flags stays below them, and what it leaves is
      settled: no call of the component awaits under its flags without its member being flagged. */
  lemma EvaluationIsExact(f: Frame, k: Key)
    requires f.cold ==> f.known <= f.p.coldIds
    requires k in Keys(f.p, f.cold) && f.bits == k.bits
    requires f.trues <= Roots(Least(f.p, f.cold, f.known))
    ensures var e := Evaluate(f, k.root);
            && Settled(f, Component(f.p, k.root), e.flags, e.met, e.logged)
            && e.flags <= Row(Least(f.p, f.cold, f.known), k)
            && AllKeys(f.p, f.cold, e.met)
            && Within(MemberReads(f.p, f.known, Component(f.p, k.root)), e.logged)
            && (forall m :: m in Component(f.p, k.root) && m in f.known ==> m in e.flags)
            && (forall m :: m in e.flags ==> m in Component(f.p, k.root))
  {
    var s := Least(f.p, f.cold, f.known);
    var ms := Component(f.p, k.root);
    LeastIsLeast(f.p, f.cold, f.known);
    LeastAnswers(f.p, f.cold, f.known);
    forall m | m in Begin(f, ms).flags ensures m in Row(s, k) {
      assert (k, m) in Universe(f.p, f.cold) && Justified(f.p, f.cold, f.known, s, k, m);
      assert (k, m) in Step(f.p, f.cold, f.known, s);
    }
    SettleSettles(f, ms, Begin(f, ms));
    SettleBelow(f, k, s, Begin(f, ms));
  }
}

/** Why a recorded verdict may stand: when nothing an evaluation read as "not async" in the cold
    view has moved, every test it made answers the same in the plain view over a larger async set. */
module AsyncQuiet {
  import opened AsyncProgram
  import opened AsyncEvaluate

  // ----- what a negative answer owes the log -----

  // A positive answer cannot move, so only the reads behind the negative ones matter; those are all
  // made, in whatever order the values are listed.

  predicate IdLogged(p: Program, known: set<Id>, id: Id, log: Reads) {
    id !in known ==> if id in p.coldIds then id in log.ids else log.unrecordable
  }

  predicate HeldLogged(p: Program, cold: bool, known: set<Id>, value: Id, depth: nat, log: Reads)
    decreases DEPTH_CAP + 1 - depth, 0
  {
    depth <= DEPTH_CAP && value in p.entities && !HeldAwaits(p, cold, known, value, depth) ==>
      match p.entities[value]
      case Closure(c) => IdLogged(p, known, c, log)
      case Local(source) => BindingLogged(p, cold, known, source, depth + 1, log)
      case _ => true
  }

  predicate BindingLogged(p: Program, cold: bool, known: set<Id>, binding: Id, depth: nat, log: Reads)
    decreases DEPTH_CAP + 1 - depth, 1
  {
    depth <= DEPTH_CAP && !BindingHoldsAsync(p, cold, known, binding, depth) ==>
      && binding in log.bindings
      && (binding in p.held ==>
            forall v :: v in p.held[binding] && InView(p, cold, v) ==> HeldLogged(p, cold, known, v, depth, log))
  }

  predicate SubjectLogged(p: Program, cold: bool, known: set<Id>, subject: Id, log: Reads) {
    subject in p.entities && !SubjectAwaits(p, cold, known, subject) ==>
      match p.entities[subject]
      case Local(target) => BindingLogged(p, cold, known, target, 0, log)
      case Closure(c) => IdLogged(p, known, c, log)
      case _ => true
  }

  predicate HeldValueLogged(p: Program, known: set<Id>, value: Id, log: Reads) {
    value in p.entities && p.entities[value].Closure? ==> IdLogged(p, known, p.entities[value].id, log)
  }

  predicate ValueLogged(p: Program, cold: bool, known: set<Id>, flags: set<Id>, bits: set<Id>, value: Id, log: Reads) {
    value in p.entities && !ValueAsync(p, cold, known, flags, bits, value) ==>
      match p.entities[value]
      case Closure(c) => IdLogged(p, known, c, log)
      case Async(c) => IdLogged(p, known, c, log)
      case Local(target) =>
        && target in log.bindings
        && (target in p.held ==>
              forall v :: v in p.held[target] && InView(p, cold, v) ==> HeldValueLogged(p, known, v, log))
      case _ => true
  }

  predicate ArgumentLogged(p: Program, cold: bool, known: set<Id>, flags: set<Id>, bits: set<Id>,
                           callee: Id, callId: Id, i: nat, log: Reads)
    requires i < Paired(p, callee, callId)
  {
    p.functions[callee][i] in Adaptive(p, callee) ==>
      ValueLogged(p, cold, known, flags, bits, p.functionCalls[callId].arguments[i], log)
  }

  predicate CallLogged(p: Program, cold: bool, known: set<Id>, flags: set<Id>, bits: set<Id>, c: CallSite, log: Reads) {
    match c.target
    case Function(callee) =>
      && (forall i: nat :: i < Paired(p, callee, c.callId) ==>
            ArgumentLogged(p, cold, known, flags, bits, callee, c.callId, i, log))
      && (if BitsForCall(p, cold, known, flags, bits, callee, c.callId) == {} then IdLogged(p, known, callee, log)
          else InView(p, cold, callee) || log.unrecordable)
    case External(callee) => IdLogged(p, known, callee, log)
    case Indirect(GenericMember) => DispatchAsync(p, known, c.callId) || c.callId in log.dispatches
    case Indirect(TraitDispatch) => DispatchAsync(p, known, c.callId) || c.callId in log.dispatches
    case _ =>
      !SubjectAdaptedHere(p, flags, bits, c.callId) && c.callId in p.functionCalls ==>
        SubjectLogged(p, cold, known, p.functionCalls[c.callId].subject, log)
  }

  // ----- an evaluation logs it -----

  lemma {:induction false} ReadsLogHeld(p: Program, cold: bool, known: set<Id>, value: Id, depth: nat, log: Reads)
    requires Within(HeldReads(p, cold, known, value, depth), log)
    ensures HeldLogged(p, cold, known, value, depth, log)
    decreases DEPTH_CAP + 1 - depth, 0, 0
  {
    if depth <= DEPTH_CAP && value in p.entities && p.entities[value].Local? {
      ReadsLogBinding(p, cold, known, p.entities[value].id, depth + 1, log);
    }
  }

  lemma {:induction false} ReadsLogList(p: Program, cold: bool, known: set<Id>, values: seq<Id>, depth: nat, log: Reads)
    requires depth <= DEPTH_CAP && Within(HeldListReads(p, cold, known, values, depth), log)
    requires forall v :: v in values && InView(p, cold, v) ==> !HeldAwaits(p, cold, known, v, depth)
    ensures forall v :: v in values && InView(p, cold, v) ==> HeldLogged(p, cold, known, v, depth, log)
    decreases DEPTH_CAP + 1 - depth, 1, |values|
  {
    if values != [] {
      if InView(p, cold, values[0]) { ReadsLogHeld(p, cold, known, values[0], depth, log); }
      ReadsLogList(p, cold, known, values[1..], depth, log);
      forall v | v in values && InView(p, cold, v) ensures HeldLogged(p, cold, known, v, depth, log) {
        assert v == values[0] || v in values[1..];
      }
    }
  }

  lemma {:induction false} ReadsLogBinding(p: Program, cold: bool, known: set<Id>, binding: Id, depth: nat, log: Reads)
    requires Within(BindingReads(p, cold, known, binding, depth), log)
    ensures BindingLogged(p, cold, known, binding, depth, log)
    decreases DEPTH_CAP + 1 - depth, 2, 0
  {
    if depth <= DEPTH_CAP && binding in p.held && !BindingHoldsAsync(p, cold, known, binding, depth) {
      ReadsLogList(p, cold, known, p.held[binding], depth, log);
    }
  }

  lemma {:induction false} ReadsLogHeldValues(p: Program, cold: bool, known: set<Id>, flags: set<Id>, values: seq<Id>,
                                              log: Reads)
    requires Within(HeldValueReads(p, cold, known, flags, values), log)
    requires forall v :: v in values && InView(p, cold, v) ==> !HeldValueAsync(p, known, flags, v)
    ensures forall v :: v in values && InView(p, cold, v) ==> HeldValueLogged(p, known, v, log)
  {
    if values != [] {
      ReadsLogHeldValues(p, cold, known, flags, values[1..], log);
      forall v | v in values && InView(p, cold, v) ensures HeldValueLogged(p, known, v, log) {
        assert v == values[0] || v in values[1..];
      }
    }
  }

  lemma ReadsLogValue(p: Program, cold: bool, known: set<Id>, flags: set<Id>, bits: set<Id>, value: Id, log: Reads)
    requires Within(ValueReads(p, cold, known, flags, bits, value), log)
    ensures ValueLogged(p, cold, known, flags, bits, value, log)
  {
    if value in p.entities && p.entities[value].Local? && !ValueAsync(p, cold, known, flags, bits, value) {
      var target := p.entities[value].id;
      if target in p.held { ReadsLogHeldValues(p, cold, known, flags, p.held[target], log); }
    }
  }

  lemma {:induction false} ReadsLogArguments(p: Program, cold: bool, known: set<Id>, flags: set<Id>, bits: set<Id>,
                                             callee: Id, callId: Id, n: nat, log: Reads)
    requires n <= Paired(p, callee, callId)
    requires Within(ArgumentReads(p, cold, known, flags, bits, callee, callId, n), log)
    ensures forall i: nat :: i < n ==> ArgumentLogged(p, cold, known, flags, bits, callee, callId, i, log)
  {
    if n > 0 {
      ReadsLogArguments(p, cold, known, flags, bits, callee, callId, n - 1, log);
      if p.functions[callee][n - 1] in Adaptive(p, callee) {
        ReadsLogValue(p, cold, known, flags, bits, p.functionCalls[callId].arguments[n - 1], log);
      }
    }
  }

  /** The reads an evaluation logs hold what its negative answers owe. */
  lemma ReadsLogCall(p: Program, cold: bool, known: set<Id>, flags: set<Id>, bits: set<Id>, c: CallSite, log: Reads)
    requires Within(CallReads(p, cold, known, flags, bits, c), log)
    ensures CallLogged(p, cold, known, flags, bits, c, log)
  {
    match c.target
    case Function(callee) =>
      ReadsLogArguments(p, cold, known, flags, bits, callee, c.callId, Paired(p, callee, c.callId), log);
    case External(_) =>
    case Indirect(GenericMember) =>
    case Indirect(TraitDispatch) =>
    case _ =>
      if !SubjectAdaptedHere(p, flags, bits, c.callId) && c.callId in p.functionCalls {
        var subject := p.functionCalls[c.callId].subject;
        if subject in p.entities && p.entities[subject].Local? && p.entities[subject].id !in p.asyncValues {
          ReadsLogBinding(p, cold, known, p.entities[subject].id, 0, log);
        }
      }
  }

  // ----- while it stands -----

  /** Some value of `binding` comes from outside the cold ids. */
  predicate Foreign(p: Program, binding: Id) {
    binding in p.held && exists v :: v in p.held[binding] && v !in p.coldIds
  }

  /** No logged read has moved between the record's set and this analysis's. */
  predicate Quiet(p: Program, settled: set<Id>, known: set<Id>, r: Reads) {
    && !r.unrecordable
    && (forall i :: i in r.ids ==> i in known ==> i in settled)
    && (forall b :: b in r.bindings ==> !Foreign(p, b))
    && (forall d :: d in r.dispatches ==> !DispatchAsync(p, known, d))
  }

  lemma QuietWithin(p: Program, settled: set<Id>, known: set<Id>, a: Reads, b: Reads)
    requires Within(a, b) && Quiet(p, settled, known, b)
    ensures Quiet(p, settled, known, a)
  {
  }

  lemma {:induction false} QuietHeld(p: Program, settled: set<Id>, known: set<Id>, value: Id, depth: nat, log: Reads)
    requires settled <= known && Quiet(p, settled, known, log)
    requires HeldLogged(p, true, settled, value, depth, log) && !HeldAwaits(p, true, settled, value, depth)
    ensures !HeldAwaits(p, false, known, value, depth)
    decreases DEPTH_CAP + 1 - depth, 0
  {
    if depth <= DEPTH_CAP && value in p.entities && p.entities[value].Local? {
      QuietBinding(p, settled, known, p.entities[value].id, depth + 1, log);
    }
  }

  lemma {:induction false} QuietBinding(p: Program, settled: set<Id>, known: set<Id>, binding: Id, depth: nat,
                                        log: Reads)
    requires settled <= known && Quiet(p, settled, known, log)
    requires BindingLogged(p, true, settled, binding, depth, log)
    requires !BindingHoldsAsync(p, true, settled, binding, depth)
    ensures !BindingHoldsAsync(p, false, known, binding, depth)
    decreases DEPTH_CAP + 1 - depth, 1
  {
    if depth <= DEPTH_CAP && binding in p.held {
      assert !Foreign(p, binding);
      forall v | v in p.held[binding] ensures !HeldAwaits(p, false, known, v, depth) {
        QuietHeld(p, settled, known, v, depth, log);
      }
    }
  }

  lemma QuietSubject(p: Program, settled: set<Id>, known: set<Id>, subject: Id, log: Reads)
    requires settled <= known && Quiet(p, settled, known, log)
    requires SubjectLogged(p, true, settled, subject, log) && !SubjectAwaits(p, true, settled, subject)
    ensures !SubjectAwaits(p, false, known, subject)
  {
    if subject in p.entities && p.entities[subject].Local? && p.entities[subject].id !in p.asyncValues {
      QuietBinding(p, settled, known, p.entities[subject].id, 0, log);
    }
  }

  lemma QuietValue(p: Program, settled: set<Id>, known: set<Id>, flags: set<Id>, bits: set<Id>, value: Id, log: Reads)
    requires settled <= known && Quiet(p, settled, known, log)
    requires ValueLogged(p, true, settled, flags, bits, value, log)
    ensures ValueAsync(p, false, known, flags, bits, value) == ValueAsync(p, true, settled, flags, bits, value)
  {
    ValueMono(p, true, settled, flags, bits, false, known, flags, bits, value);
    if !ValueAsync(p, true, settled, flags, bits, value) && value in p.entities && p.entities[value].Local? {
      var target := p.entities[value].id;
      if target in p.held {
        assert !Foreign(p, target);
        forall v | v in p.held[target] ensures !HeldValueAsync(p, known, flags, v) {
          assert InView(p, true, v) && HeldValueLogged(p, settled, v, log);
        }
      }
    }
  }

  lemma QuietBits(p: Program, settled: set<Id>, known: set<Id>, flags: set<Id>, bits: set<Id>, c: CallSite, log: Reads)
    requires settled <= known && Quiet(p, settled, known, log) && c.target.Function?
    requires CallLogged(p, true, settled, flags, bits, c, log)
    ensures BitsForCall(p, false, known, flags, bits, c.target.id, c.callId)
         == BitsForCall(p, true, settled, flags, bits, c.target.id, c.callId)
  {
    var callee, callId := c.target.id, c.callId;
    forall i: nat | i < Paired(p, callee, callId)
      ensures Adapts(p, false, known, flags, bits, callee, callId, i)
         <==> Adapts(p, true, settled, flags, bits, callee, callId, i)
    {
      assert ArgumentLogged(p, true, settled, flags, bits, callee, callId, i, log);
      if p.functions[callee][i] in Adaptive(p, callee) {
        QuietValue(p, settled, known, flags, bits, p.functionCalls[callId].arguments[i], log);
      }
    }
  }

  /** With its reads quiet, a call that awaits now names the instance it named in the cold view, and
      awaited there too unless that instance's verdict is the one that moved. */
  lemma QuietCall(p: Program, settled: set<Id>, known: set<Id>, flags: set<Id>, bits: set<Id>,
                  trues: set<Key>, trues': set<Key>, c: CallSite, log: Reads)
    requires settled <= known && Quiet(p, settled, known, log) && CallLogged(p, true, settled, flags, bits, c, log)
    requires var k := Met(p, true, settled, flags, bits, c); k.Some? ==> k.value in trues' ==> k.value in trues
    ensures Met(p, false, known, flags, bits, c) == Met(p, true, settled, flags, bits, c)
    ensures CallAwaits(p, false, known, flags, bits, trues', c) ==> CallAwaits(p, true, settled, flags, bits, trues, c)
  {
    match c.target
    case Function(_) => QuietBits(p, settled, known, flags, bits, c, log);
    case External(_) =>
    case Indirect(GenericMember) =>
    case Indirect(TraitDispatch) =>
    case _ =>
      if c.callId in p.functionCalls && !SubjectAdaptedHere(p, flags, bits, c.callId)
         && !SubjectAwaits(p, true, settled, p.functionCalls[c.callId].subject) {
        QuietSubject(p, settled, known, p.functionCalls[c.callId].subject, log);
      }
  }
}

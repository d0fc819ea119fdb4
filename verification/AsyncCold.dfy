/** The record is a function of the cold tree alone: two analyses that agree on it - whatever hot part
    each has - answer every cold-view question alike, so a record one files the other may serve. */
module AsyncCold {
  import opened Basics
  import opened AsyncProgram
  import opened AsyncFixpoint
  import opened AsyncEvaluate
  import opened AsyncQuiet
  import opened AsyncRound
  import opened AsyncComponent

  /** Locality: a cold body's expressions and calls are cold, its closures are, and a closure literal
      outside the cold ids names a closure outside them. */
  ghost predicate ColdLocal(p: Program) {
    && ColdComponents(p) && Forest(p)
    && (forall c :: c in p.coldIds && c in p.functionCalls ==>
          && p.functionCalls[c].subject in p.coldIds
          && (forall a :: a in p.functionCalls[c].arguments ==> a in p.coldIds))
    && (forall e :: e in p.coldIds && e in p.entities && p.entities[e].Call? ==> p.entities[e].id in p.coldIds)
    && (forall e :: e !in p.coldIds && e in p.entities && p.entities[e].Closure? ==> p.entities[e].id !in p.coldIds)
    && (forall n, c :: n in p.coldIds && c in CallsOf(p, n) ==> c.callId in p.coldIds)
  }

  function Lookup<K, V>(m: map<K, V>, k: K): Option<V> {
    if k in m then Some(m[k]) else None
  }

  /** The types' answers for what a cold expression names. */
  ghost predicate SameTypes(p: Program, q: Program, e: Expr) {
    match e
    case Local(t) => (t in p.asyncValues <==> t in q.asyncValues) && (t in p.asyncReturning <==> t in q.asyncReturning)
    case Field(s, i) => (s, i) in p.asyncFields <==> (s, i) in q.asyncFields
    case _ => true
  }

  /** Two programs with one cold tree. */
  ghost predicate SameCold(p: Program, q: Program) {
    && ColdLocal(p) && ColdLocal(q) && p.coldIds == q.coldIds
    && (forall n :: n in p.nodes && n in p.coldIds <==> n in q.nodes && n in q.coldIds)
    && (forall b, v :: v in p.coldIds ==> (HoldsValue(p, b, v) <==> HoldsValue(q, b, v)))
    && (forall i :: i in p.coldIds ==> SameAt(p, q, i))
  }

  /** Whether `binding` ever holds `v`, wherever the value stands in the list. */
  predicate HoldsValue(p: Program, binding: Id, v: Id) {
    binding in p.held && v in p.held[binding]
  }

  ghost predicate SameAt(p: Program, q: Program, i: Id) {
    && Lookup(p.functions, i) == Lookup(q.functions, i)
    && Adaptive(p, i) == Adaptive(q, i)
    && Lookup(p.entities, i) == Lookup(q.entities, i)
    && Lookup(p.functionCalls, i) == Lookup(q.functionCalls, i)
    && CallsOf(p, i) == CallsOf(q, i)
    && ChildrenOf(p, i) == ChildrenOf(q, i)
    && Candidates(p, i) * p.coldIds == Candidates(q, i) * q.coldIds
    && (i in p.entities ==> SameTypes(p, q, p.entities[i]))
  }

  lemma SameHeld(p: Program, q: Program, b: Id, v: Id)
    requires SameCold(p, q) && v in p.coldIds
    ensures (b in p.held && v in p.held[b]) <==> (b in q.held && v in q.held[b])
  {
    assert HoldsValue(p, b, v) <==> HoldsValue(q, b, v);
  }

  lemma SameEntity(p: Program, q: Program, e: Id)
    requires SameCold(p, q) && e in p.coldIds
    ensures e in p.entities <==> e in q.entities
    ensures e in p.entities ==> p.entities[e] == q.entities[e] && SameTypes(p, q, p.entities[e])
  {
    assert SameAt(p, q, e);
  }

  lemma SameCall(p: Program, q: Program, c: Id)
    requires SameCold(p, q) && c in p.coldIds
    ensures c in p.functionCalls <==> c in q.functionCalls
    ensures c in p.functionCalls ==>
              && p.functionCalls[c] == q.functionCalls[c] && p.functionCalls[c].subject in p.coldIds
              && forall a :: a in p.functionCalls[c].arguments ==> a in p.coldIds
  {
    assert SameAt(p, q, c);
  }

  lemma SameReturns(p: Program, q: Program, c: Id)
    requires SameCold(p, q) && c in p.coldIds
    ensures CallReturnsAsync(p, c) <==> CallReturnsAsync(q, c)
  {
    SameCall(p, q, c);
    if c in p.functionCalls { SameEntity(p, q, p.functionCalls[c].subject); }
  }

  lemma {:induction false} SameHeldAwaits(p: Program, q: Program, known: set<Id>, v: Id, depth: nat)
    requires SameCold(p, q) && v in p.coldIds
    ensures HeldAwaits(p, true, known, v, depth) <==> HeldAwaits(q, true, known, v, depth)
    decreases DEPTH_CAP + 1 - depth, 0
  {
    SameEntity(p, q, v);
    if depth <= DEPTH_CAP && v in p.entities {
      if p.entities[v].Call? { SameReturns(p, q, p.entities[v].id); }
      if p.entities[v].Local? { SameBinding(p, q, known, p.entities[v].id, depth + 1); }
      SameHeldShape(p, q, known, v, depth);
    }
  }

  /** Of one expression, two programs that agree on what it names agree on whether it awaits. */
  lemma SameHeldShape(p: Program, q: Program, known: set<Id>, v: Id, depth: nat)
    requires depth <= DEPTH_CAP && v in p.entities && v in q.entities && p.entities[v] == q.entities[v]
    requires SameTypes(p, q, p.entities[v])
    requires p.entities[v].Call? ==> CallReturnsAsync(p, p.entities[v].id) == CallReturnsAsync(q, p.entities[v].id)
    requires p.entities[v].Local? ==>
               (BindingHoldsAsync(p, true, known, p.entities[v].id, depth + 1)
                <==> BindingHoldsAsync(q, true, known, p.entities[v].id, depth + 1))
    ensures HeldAwaits(p, true, known, v, depth) <==> HeldAwaits(q, true, known, v, depth)
  {
  }

  lemma {:induction false} SameBinding(p: Program, q: Program, known: set<Id>, b: Id, depth: nat)
    requires SameCold(p, q)
    ensures BindingHoldsAsync(p, true, known, b, depth) <==> BindingHoldsAsync(q, true, known, b, depth)
    decreases DEPTH_CAP + 1 - depth, 1
  {
    if depth <= DEPTH_CAP {
      forall v | v in p.coldIds
        ensures (b in p.held && v in p.held[b] && HeldAwaits(p, true, known, v, depth))
           <==> (b in q.held && v in q.held[b] && HeldAwaits(q, true, known, v, depth))
      {
        SameHeld(p, q, b, v);
        SameHeldAwaits(p, q, known, v, depth);
      }
    }
  }

  lemma SameSubject(p: Program, q: Program, known: set<Id>, subject: Id)
    requires SameCold(p, q) && subject in p.coldIds
    ensures SubjectAwaits(p, true, known, subject) <==> SubjectAwaits(q, true, known, subject)
  {
    SameEntity(p, q, subject);
    if subject in p.entities {
      match p.entities[subject]
      case Call(inner) => SameReturns(p, q, inner);
      case Local(target) => SameBinding(p, q, known, target, 0);
      case _ =>
    }
  }

  lemma SameHeldValue(p: Program, q: Program, known: set<Id>, flags: set<Id>, v: Id)
    requires SameCold(p, q) && v in p.coldIds
    ensures HeldValueAsync(p, known, flags, v) <==> HeldValueAsync(q, known, flags, v)
  {
    SameEntity(p, q, v);
    if v in p.entities && p.entities[v].Call? { SameReturns(p, q, p.entities[v].id); }
  }

  lemma SameValue(p: Program, q: Program, known: set<Id>, flags: set<Id>, bits: set<Id>, v: Id)
    requires SameCold(p, q) && v in p.coldIds
    ensures ValueAsync(p, true, known, flags, bits, v) <==> ValueAsync(q, true, known, flags, bits, v)
  {
    SameEntity(p, q, v);
    if v in p.entities {
      match p.entities[v]
      case Call(inner) => SameReturns(p, q, inner);
      case Local(target) =>
        forall x | x in p.coldIds
          ensures (target in p.held && x in p.held[target] && HeldValueAsync(p, known, flags, x))
             <==> (target in q.held && x in q.held[target] && HeldValueAsync(q, known, flags, x))
        {
          SameHeld(p, q, target, x);
          SameHeldValue(p, q, known, flags, x);
        }
      case _ =>
    }
  }

  lemma SamePaired(p: Program, q: Program, callee: Id, callId: Id)
    requires SameCold(p, q) && callee in p.coldIds && callId in p.coldIds
    ensures Paired(p, callee, callId) == Paired(q, callee, callId)
    ensures callee in p.functions <==> callee in q.functions
    ensures callee in p.functions ==> p.functions[callee] == q.functions[callee]
    ensures Adaptive(p, callee) == Adaptive(q, callee)
  {
    assert SameAt(p, q, callee);
    SameCall(p, q, callId);
  }

  lemma SameBits(p: Program, q: Program, known: set<Id>, flags: set<Id>, bits: set<Id>, callee: Id, callId: Id)
    requires SameCold(p, q) && callee in p.coldIds && callId in p.coldIds
    ensures BitsForCall(p, true, known, flags, bits, callee, callId)
              == BitsForCall(q, true, known, flags, bits, callee, callId)
  {
    SamePaired(p, q, callee, callId);
    SameCall(p, q, callId);
    forall i: nat | i < Paired(p, callee, callId)
      ensures Adapts(p, true, known, flags, bits, callee, callId, i) <==>
              Adapts(q, true, known, flags, bits, callee, callId, i)
    {
      SameValue(p, q, known, flags, bits, p.functionCalls[callId].arguments[i]);
    }
  }

  lemma SameAdapted(p: Program, q: Program, flags: set<Id>, bits: set<Id>, callId: Id)
    requires SameCold(p, q) && callId in p.coldIds && flags <= p.coldIds
    ensures SubjectAdaptedHere(p, flags, bits, callId) <==> SubjectAdaptedHere(q, flags, bits, callId)
  {
    SameCall(p, q, callId);
    if callId in p.functionCalls {
      var subject := p.functionCalls[callId].subject;
      SameEntity(p, q, subject);
      if subject in p.entities && p.entities[subject].Local? {
        var target := p.entities[subject].id;
        forall v ensures (target in p.held && v in p.held[target] && HoldsFlagged(p, flags, v))
                    <==> (target in q.held && v in q.held[target] && HoldsFlagged(q, flags, v))
        {
          if v in p.coldIds {
            SameHeld(p, q, target, v);
            SameEntity(p, q, v);
          }
        }
      }
    }
  }

  lemma SameDispatch(p: Program, q: Program, known: set<Id>, callId: Id)
    requires SameCold(p, q) && callId in p.coldIds && known <= p.coldIds
    ensures DispatchAsync(p, known, callId) <==> DispatchAsync(q, known, callId)
  {
    assert SameAt(p, q, callId);
    forall m | m in known ensures m in Candidates(p, callId) <==> m in Candidates(q, callId) {
      assert m in Candidates(p, callId) * p.coldIds <==> m in Candidates(q, callId) * q.coldIds;
    }
  }

  /** Every cold call names the same instance, and awaits alike. */
  lemma SameAwaits(p: Program, q: Program, known: set<Id>, flags: set<Id>, bits: set<Id>, trues: set<Key>, c: CallSite)
    requires SameCold(p, q) && c.callId in p.coldIds && known <= p.coldIds && flags <= p.coldIds
    ensures CallAwaits(p, true, known, flags, bits, trues, c) <==> CallAwaits(q, true, known, flags, bits, trues, c)
    ensures Met(p, true, known, flags, bits, c) == Met(q, true, known, flags, bits, c)
  {
    match c.target
    case Function(callee) =>
      if callee in p.coldIds { SameBits(p, q, known, flags, bits, callee, c.callId); }
    case External(_) =>
    case Indirect(GenericMember) => SameDispatch(p, q, known, c.callId);
    case Indirect(TraitDispatch) => SameDispatch(p, q, known, c.callId);
    case _ =>
      SameAdapted(p, q, flags, bits, c.callId);
      SameCall(p, q, c.callId);
      if c.callId in p.functionCalls { SameSubject(p, q, known, p.functionCalls[c.callId].subject); }
  }

  lemma SameSuspends(p: Program, q: Program, known: set<Id>, c: CallSite)
    requires SameCold(p, q) && c.callId in p.coldIds && known <= p.coldIds
    ensures CallSuspends(p, true, known, c) <==> CallSuspends(q, true, known, c)
  {
    match c.target
    case Function(_) =>
    case External(_) =>
    case Indirect(GenericMember) => SameDispatch(p, q, known, c.callId);
    case Indirect(TraitDispatch) => SameDispatch(p, q, known, c.callId);
    case _ =>
      SameCall(p, q, c.callId);
      if c.callId in p.functionCalls { SameSubject(p, q, known, p.functionCalls[c.callId].subject); }
  }

  // ----- what a negative answer owes the log -----

  lemma {:induction false} SameHeldLogged(p: Program, q: Program, known: set<Id>, v: Id, depth: nat, log: Reads)
    requires SameCold(p, q) && v in p.coldIds && HeldLogged(p, true, known, v, depth, log)
    ensures HeldLogged(q, true, known, v, depth, log)
    decreases DEPTH_CAP + 1 - depth, 0
  {
    SameEntity(p, q, v);
    SameHeldAwaits(p, q, known, v, depth);
    if depth <= DEPTH_CAP && v in p.entities && p.entities[v].Local? && !HeldAwaits(p, true, known, v, depth) {
      SameBindingLogged(p, q, known, p.entities[v].id, depth + 1, log);
    }
  }

  lemma {:induction false} SameBindingLogged(p: Program, q: Program, known: set<Id>, b: Id, depth: nat, log: Reads)
    requires SameCold(p, q) && BindingLogged(p, true, known, b, depth, log)
    ensures BindingLogged(q, true, known, b, depth, log)
    decreases DEPTH_CAP + 1 - depth, 1
  {
    SameBinding(p, q, known, b, depth);
    if depth <= DEPTH_CAP && b in q.held && !BindingHoldsAsync(p, true, known, b, depth) {
      forall v | v in q.held[b] && v in p.coldIds ensures HeldLogged(q, true, known, v, depth, log) {
        SameHeld(p, q, b, v);
        SameHeldLogged(p, q, known, v, depth, log);
      }
    }
  }

  lemma SameValueLogged(p: Program, q: Program, known: set<Id>, flags: set<Id>, bits: set<Id>, v: Id, log: Reads)
    requires SameCold(p, q) && v in p.coldIds && ValueLogged(p, true, known, flags, bits, v, log)
    ensures ValueLogged(q, true, known, flags, bits, v, log)
  {
    SameEntity(p, q, v);
    SameValue(p, q, known, flags, bits, v);
    if v in p.entities && p.entities[v].Local? && !ValueAsync(p, true, known, flags, bits, v) {
      var target := p.entities[v].id;
      if target in q.held {
        forall x | x in q.held[target] && x in p.coldIds ensures HeldValueLogged(q, known, x, log) {
          SameHeld(p, q, target, x);
          SameEntity(p, q, x);
          assert HeldValueLogged(p, known, x, log);
        }
      }
    }
  }

  lemma SameArgumentLogged(p: Program, q: Program, known: set<Id>, flags: set<Id>, bits: set<Id>,
                           callee: Id, callId: Id, i: nat, log: Reads)
    requires SameCold(p, q) && callee in p.coldIds && callId in p.coldIds
    requires i < Paired(p, callee, callId) && ArgumentLogged(p, true, known, flags, bits, callee, callId, i, log)
    ensures i < Paired(q, callee, callId) && ArgumentLogged(q, true, known, flags, bits, callee, callId, i, log)
  {
    SamePaired(p, q, callee, callId);
    SameCall(p, q, callId);
    if p.functions[callee][i] in Adaptive(p, callee) {
      SameValueLogged(p, q, known, flags, bits, p.functionCalls[callId].arguments[i], log);
    }
  }

  lemma SameFunctionLogged(p: Program, q: Program, known: set<Id>, flags: set<Id>, bits: set<Id>,
                           callee: Id, callId: Id, log: Reads)
    requires SameCold(p, q) && callee in p.coldIds && callId in p.coldIds
    requires CallLogged(p, true, known, flags, bits, CallSite(callId, Function(callee)), log)
    ensures CallLogged(q, true, known, flags, bits, CallSite(callId, Function(callee)), log)
  {
    SamePaired(p, q, callee, callId);
    SameBits(p, q, known, flags, bits, callee, callId);
    forall i: nat | i < Paired(q, callee, callId)
      ensures ArgumentLogged(q, true, known, flags, bits, callee, callId, i, log)
    {
      SameArgumentLogged(p, q, known, flags, bits, callee, callId, i, log);
    }
  }

  lemma SameSubjectLogged(p: Program, q: Program, known: set<Id>, subject: Id, log: Reads)
    requires SameCold(p, q) && subject in p.coldIds && SubjectLogged(p, true, known, subject, log)
    ensures SubjectLogged(q, true, known, subject, log)
  {
    SameEntity(p, q, subject);
    SameSubject(p, q, known, subject);
    if subject in p.entities && p.entities[subject].Local? && !SubjectAwaits(p, true, known, subject) {
      SameBindingLogged(p, q, known, p.entities[subject].id, 0, log);
    }
  }

  /** A log that holds what a cold call owes in one program holds what it owes in the other - or the
      call names a callee outside the cold ids, which no record vouches for. */
  lemma SameLogged(p: Program, q: Program, known: set<Id>, flags: set<Id>, bits: set<Id>, c: CallSite, log: Reads)
    requires SameCold(p, q) && c.callId in p.coldIds && known <= p.coldIds && flags <= p.coldIds
    requires CallLogged(p, true, known, flags, bits, c, log)
    ensures CallLogged(q, true, known, flags, bits, c, log) || log.unrecordable
  {
    match c.target
    case Function(callee) =>
      if callee in p.coldIds { SameFunctionLogged(p, q, known, flags, bits, callee, c.callId, log); }
    case External(_) =>
    case Indirect(GenericMember) => SameDispatch(p, q, known, c.callId);
    case Indirect(TraitDispatch) => SameDispatch(p, q, known, c.callId);
    case _ =>
      SameAdapted(p, q, flags, bits, c.callId);
      SameCall(p, q, c.callId);
      if !SubjectAdaptedHere(p, flags, bits, c.callId) && c.callId in p.functionCalls {
        SameSubjectLogged(p, q, known, p.functionCalls[c.callId].subject, log);
      }
  }
}

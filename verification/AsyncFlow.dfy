/** Which values are async, read off the tables: chains of adoptions, each local's value one it is ever
    held, and what they end in.  AsyncProgram's per-call tests are proved to be these chains
    (crates/vilan-core/src/async_infer.rs). */
module AsyncFlow {
  import opened Basics
  import opened AsyncProgram

  // ----- chains of adoptions -----

  /** `e` reads a local that is ever held `v`; the cold view takes only cold values. */
  ghost predicate Adopts(p: Program, cold: bool, e: Id, v: Id) {
    && e in p.entities && p.entities[e].Local? && p.entities[e].id in p.held
    && v in p.held[p.entities[e].id] && (cold ==> v in p.coldIds)
  }

  ghost predicate Chain(p: Program, cold: bool, chain: seq<Id>) {
    chain != [] && forall i :: 0 <= i < |chain| - 1 ==> Adopts(p, cold, chain[i], chain[i + 1])
  }

  /** A local whose type is async. */
  ghost predicate TypedAsync(p: Program, e: Id) {
    e in p.entities && p.entities[e].Local? && p.entities[e].id in p.asyncValues
  }

  ghost predicate FieldTypedAsync(p: Program, e: Id) {
    e in p.entities && p.entities[e].Field? && (p.entities[e].owner, p.entities[e].index) in p.asyncFields
  }

  /** A call whose subject names what is declared to return an async closure. */
  ghost predicate ReturnsAsync(p: Program, e: Id) {
    && e in p.entities && p.entities[e].Call? && p.entities[e].id in p.functionCalls
    && var subject := p.functionCalls[p.entities[e].id].subject;
    && subject in p.entities && p.entities[subject].Local? && p.entities[subject].id in p.asyncReturning
  }

  ghost predicate IsClosure(p: Program, e: Id, c: Id) {
    e in p.entities && p.entities[e] == Closure(c)
  }

  /** The chain ends in what is async by its type; only where it starts does a local's own type count. */
  ghost predicate EndsTyped(p: Program, chain: seq<Id>)
    requires chain != []
  {
    var end := chain[|chain| - 1];
    (|chain| == 1 && TypedAsync(p, end)) || FieldTypedAsync(p, end) || ReturnsAsync(p, end)
  }

  /** A chain from `e` through at most `hops` held values. */
  ghost predicate Follows(p: Program, cold: bool, e: Id, chain: seq<Id>, hops: nat) {
    Chain(p, cold, chain) && chain[0] == e && |chain| <= hops + 1
  }

  ghost predicate TypedChain(p: Program, cold: bool, e: Id, chain: seq<Id>, hops: nat) {
    Follows(p, cold, e, chain, hops) && EndsTyped(p, chain)
  }

  ghost predicate ClosureChain(p: Program, cold: bool, e: Id, chain: seq<Id>, hops: nat, c: Id) {
    Follows(p, cold, e, chain, hops) && IsClosure(p, chain[|chain| - 1], c)
  }

  /** How many held values a call's subject is followed through. */
  const HOPS: nat := 5

  // ----- chains and the recursive tests -----

  lemma Longer(p: Program, cold: bool, e: Id, v: Id, chain: seq<Id>, hops: nat)
    requires Adopts(p, cold, e, v) && Follows(p, cold, v, chain, hops)
    ensures Follows(p, cold, e, [e] + chain, hops + 1) && ([e] + chain)[|chain|] == chain[|chain| - 1]
  {
    var longer := [e] + chain;
    forall i | 0 <= i < |longer| - 1 ensures Adopts(p, cold, longer[i], longer[i + 1]) {
      if i > 0 { assert longer[i] == chain[i - 1] && longer[i + 1] == chain[i]; }
    }
  }

  lemma Shorter(p: Program, cold: bool, e: Id, chain: seq<Id>, hops: nat)
    requires Follows(p, cold, e, chain, hops + 1) && |chain| > 1
    ensures Adopts(p, cold, e, chain[1]) && Follows(p, cold, chain[1], chain[1..], hops)
    ensures chain[1..][|chain| - 2] == chain[|chain| - 1]
  {
    var shorter := chain[1..];
    assert Adopts(p, cold, chain[0], chain[0 + 1]);
    forall i | 0 <= i < |shorter| - 1 ensures Adopts(p, cold, shorter[i], shorter[i + 1]) {
      assert Adopts(p, cold, chain[i + 1], chain[i + 1 + 1]);
    }
  }

  /** A held value `v` leads, through at most `hops` more, to what is async by its type - its own local
      type aside - or to a closure of the async set. */
  ghost predicate HeldLeads(p: Program, cold: bool, known: set<Id>, v: Id, chain: seq<Id>, hops: nat) {
    && Follows(p, cold, v, chain, hops)
    && var end := chain[|chain| - 1];
    FieldTypedAsync(p, end) || ReturnsAsync(p, end) || exists c :: c in known && IsClosure(p, end, c)
  }

  lemma {:induction false} HeldHasChain(p: Program, cold: bool, known: set<Id>, v: Id, depth: nat, hops: nat)
    requires depth + hops == 4 && HeldAwaits(p, cold, known, v, depth)
    ensures exists chain :: HeldLeads(p, cold, known, v, chain, hops)
    decreases hops
  {
    if p.entities[v].Local? {
      var source := p.entities[v].id;
      assert BindingHoldsAsync(p, cold, known, source, depth + 1);
      var next :| next in p.held[source] && InView(p, cold, next) && HeldAwaits(p, cold, known, next, depth + 1);
      HeldHasChain(p, cold, known, next, depth + 1, hops - 1);
      var chain :| HeldLeads(p, cold, known, next, chain, hops - 1);
      Longer(p, cold, v, next, chain, hops - 1);
      assert HeldLeads(p, cold, known, v, [v] + chain, hops);
    } else {
      assert HeldLeads(p, cold, known, v, [v], hops);
    }
  }

  lemma {:induction false} ChainIsHeld(p: Program, cold: bool, known: set<Id>, v: Id, chain: seq<Id>,
                                       depth: nat, hops: nat)
    requires depth + hops == 4 && HeldLeads(p, cold, known, v, chain, hops)
    ensures HeldAwaits(p, cold, known, v, depth)
    decreases hops
  {
    if |chain| > 1 {
      Shorter(p, cold, v, chain, hops - 1);
      ChainIsHeld(p, cold, known, chain[1], chain[1..], depth + 1, hops - 1);
      assert BindingHoldsAsync(p, cold, known, p.entities[v].id, depth + 1);
    }
  }

  /** A subject leads somewhere async, its own type counting where it is a local. */
  ghost predicate SubjectLeads(p: Program, cold: bool, known: set<Id>, subject: Id, chain: seq<Id>) {
    || TypedChain(p, cold, subject, chain, HOPS)
    || exists c :: c in known && ClosureChain(p, cold, subject, chain, HOPS, c)
  }

  lemma SubjectHasChain(p: Program, cold: bool, known: set<Id>, subject: Id)
    requires SubjectAwaits(p, cold, known, subject)
    ensures exists chain :: SubjectLeads(p, cold, known, subject, chain)
  {
    if p.entities[subject].Local? && p.entities[subject].id !in p.asyncValues {
      var source := p.entities[subject].id;
      assert BindingHoldsAsync(p, cold, known, source, 0);
      var v :| v in p.held[source] && InView(p, cold, v) && HeldAwaits(p, cold, known, v, 0);
      HeldHasChain(p, cold, known, v, 0, 4);
      var chain :| HeldLeads(p, cold, known, v, chain, 4);
      Longer(p, cold, subject, v, chain, 4);
      assert SubjectLeads(p, cold, known, subject, [subject] + chain);
    } else {
      assert Chain(p, cold, [subject]);
      assert SubjectLeads(p, cold, known, subject, [subject]);
    }
  }

  lemma ChainIsSubject(p: Program, cold: bool, known: set<Id>, subject: Id, chain: seq<Id>)
    requires SubjectLeads(p, cold, known, subject, chain)
    ensures SubjectAwaits(p, cold, known, subject)
  {
    if |chain| > 1 {
      Shorter(p, cold, subject, chain, 4);
      assert HeldLeads(p, cold, known, chain[1], chain[1..], 4);
      ChainIsHeld(p, cold, known, chain[1], chain[1..], 0, 4);
      assert BindingHoldsAsync(p, cold, known, p.entities[subject].id, 0);
    }
  }

  // ----- a call outside any instance -----

  /** The call goes through a value: to no function, and by no dispatch. */
  predicate ThroughValue(call: CallSite) {
    && !call.target.Function? && !call.target.External?
    && call.target != Indirect(GenericMember) && call.target != Indirect(TraitDispatch)
  }

  /** What a dispatched call could select: an object call by its declaring trait, any other by its
      dispatch record. */
  ghost predicate Selects(p: Program, callId: Id, target: Id) {
    if callId in p.objectCalls then target in p.objectCalls[callId].candidates
    else
      && callId in p.dispatchAt && p.dispatchAt[callId] in p.candidatesOf
      && target in p.candidatesOf[p.dispatchAt[callId]]
  }

  /** Suspends whatever the async set holds: its subject leads to a local typed async, a field typed
      async, or a call of what is declared to return an async closure. */
  ghost predicate StaticallyAsync(p: Program, cold: bool, call: CallSite) {
    && ThroughValue(call) && call.callId in p.functionCalls
    && exists chain :: TypedChain(p, cold, p.functionCalls[call.callId].subject, chain, HOPS)
  }

  /** The nodes one call reaches: its callee, its dispatch candidates, or the closures its subject leads to. */
  ghost predicate Reaches(p: Program, cold: bool, call: CallSite, target: Id) {
    match call.target
    case Function(callee) => target == callee
    case External(callee) => target == callee
    case Indirect(GenericMember) => Selects(p, call.callId, target)
    case Indirect(TraitDispatch) => Selects(p, call.callId, target)
    case _ =>
      && call.callId in p.functionCalls
      && exists chain :: ClosureChain(p, cold, p.functionCalls[call.callId].subject, chain, HOPS, target)
  }

  ghost predicate ReachesInto(p: Program, cold: bool, known: set<Id>, call: CallSite) {
    exists t :: t in known && Reaches(p, cold, call, t)
  }

  lemma DispatchIsReach(p: Program, cold: bool, known: set<Id>, call: CallSite)
    requires call.target == Indirect(GenericMember) || call.target == Indirect(TraitDispatch)
    ensures DispatchAsync(p, known, call.callId) <==> ReachesInto(p, cold, known, call)
  {
    forall t ensures t in Candidates(p, call.callId) <==> Reaches(p, cold, call, t) {
    }
  }

  lemma ValueIsReach(p: Program, cold: bool, known: set<Id>, call: CallSite)
    requires ThroughValue(call) && call.callId in p.functionCalls
    ensures SubjectAwaits(p, cold, known, p.functionCalls[call.callId].subject)
       <==> (StaticallyAsync(p, cold, call) || ReachesInto(p, cold, known, call))
  {
    var subject := p.functionCalls[call.callId].subject;
    if SubjectAwaits(p, cold, known, subject) {
      SubjectHasChain(p, cold, known, subject);
      var chain :| SubjectLeads(p, cold, known, subject, chain);
      if !TypedChain(p, cold, subject, chain, HOPS) {
        var c :| c in known && ClosureChain(p, cold, subject, chain, HOPS, c);
        assert Reaches(p, cold, call, c);
      }
    }
    if StaticallyAsync(p, cold, call) {
      var chain :| TypedChain(p, cold, subject, chain, HOPS);
      assert SubjectLeads(p, cold, known, subject, chain);
      ChainIsSubject(p, cold, known, subject, chain);
    }
    if ReachesInto(p, cold, known, call) {
      var t :| t in known && Reaches(p, cold, call, t);
      var chain :| ClosureChain(p, cold, subject, chain, HOPS, t);
      assert SubjectLeads(p, cold, known, subject, chain);
      ChainIsSubject(p, cold, known, subject, chain);
    }
  }

  /** A call suspends exactly when it is statically async or reaches a node of the async set. */
  lemma SuspendsIsReach(p: Program, cold: bool, known: set<Id>, call: CallSite)
    ensures CallSuspends(p, cold, known, call)
       <==> (StaticallyAsync(p, cold, call) || ReachesInto(p, cold, known, call))
  {
    match call.target
    case Function(callee) => assert Reaches(p, cold, call, callee);
    case External(callee) => assert Reaches(p, cold, call, callee);
    case Indirect(GenericMember) => DispatchIsReach(p, cold, known, call);
    case Indirect(TraitDispatch) => DispatchIsReach(p, cold, known, call);
    case _ => if call.callId in p.functionCalls { ValueIsReach(p, cold, known, call); }
  }

  // ----- a call inside an instance -----

  /** A closure is async in an instance: a flagged member, or of the async set. */
  ghost predicate AsyncHere(known: set<Id>, flags: set<Id>, c: Id) {
    c in flags || c in known
  }

  /** The argument, or what it as a local is held, is async in the instance: an adapted parameter, async
      by its type, an async block, or a closure that is async there. */
  ghost predicate ArgumentLeads(p: Program, cold: bool, known: set<Id>, flags: set<Id>, bits: set<Id>,
                                a: Id, chain: seq<Id>)
  {
    && Follows(p, cold, a, chain, 1)
    && var end := chain[|chain| - 1];
    || EndsTyped(p, chain)
    || (|chain| == 1 && end in p.entities && p.entities[end].Local? && p.entities[end].id in bits)
    || (|chain| == 1 && end in p.entities && p.entities[end].Async? && AsyncHere(known, flags, p.entities[end].id))
    || (end in p.entities && p.entities[end].Closure? && AsyncHere(known, flags, p.entities[end].id))
  }

  lemma ValueIsChain(p: Program, cold: bool, known: set<Id>, flags: set<Id>, bits: set<Id>, a: Id)
    ensures ValueAsync(p, cold, known, flags, bits, a)
       <==> exists chain :: ArgumentLeads(p, cold, known, flags, bits, a, chain)
  {
    if ValueAsync(p, cold, known, flags, bits, a) {
      assert Chain(p, cold, [a]);
      if !ArgumentLeads(p, cold, known, flags, bits, a, [a]) {
        var v :| v in p.held[p.entities[a].id] && InView(p, cold, v) && HeldValueAsync(p, known, flags, v);
        Longer(p, cold, a, v, [v], 0);
        assert ArgumentLeads(p, cold, known, flags, bits, a, [a] + [v]);
      }
    }
    forall chain | ArgumentLeads(p, cold, known, flags, bits, a, chain)
      ensures ValueAsync(p, cold, known, flags, bits, a)
    {
      if |chain| > 1 {
        Shorter(p, cold, a, chain, 0);
        assert HeldValueAsync(p, known, flags, chain[1]);
      }
    }
  }

  /** `x` is adapted by the call: a parameter of the callee marked neither sync nor async, its closure
      returning a value, met by an argument that is async in the instance. */
  ghost predicate Adapted(p: Program, cold: bool, known: set<Id>, flags: set<Id>, bits: set<Id>,
                          callee: Id, callId: Id, x: Id)
  {
    && callee in p.functions && callId in p.functionCalls
    && x !in p.syncValues && x !in p.asyncValues && x in p.valueClosures
    && var parameters, arguments := p.functions[callee], p.functionCalls[callId].arguments;
    exists i: nat :: MeetsAsync(p, cold, known, flags, bits, parameters, arguments, x, i)
  }

  ghost predicate MeetsAsync(p: Program, cold: bool, known: set<Id>, flags: set<Id>, bits: set<Id>,
                             parameters: seq<Id>, arguments: seq<Id>, x: Id, i: nat)
  {
    && i < |parameters| && i < |arguments| && parameters[i] == x
    && exists chain :: ArgumentLeads(p, cold, known, flags, bits, arguments[i], chain)
  }

  /** The bits of a call are exactly the parameters it adapts. */
  lemma BitsAreAdapted(p: Program, cold: bool, known: set<Id>, flags: set<Id>, bits: set<Id>,
                       callee: Id, callId: Id, x: Id)
    ensures x in BitsForCall(p, cold, known, flags, bits, callee, callId)
       <==> Adapted(p, cold, known, flags, bits, callee, callId, x)
  {
    if x in BitsForCall(p, cold, known, flags, bits, callee, callId) {
      var i: nat :| i < Paired(p, callee, callId) && Adapts(p, cold, known, flags, bits, callee, callId, i)
                    && x == p.functions[callee][i];
      var arguments := p.functionCalls[callId].arguments;
      ValueIsChain(p, cold, known, flags, bits, arguments[i]);
      assert MeetsAsync(p, cold, known, flags, bits, p.functions[callee], arguments, x, i);
    }
    if Adapted(p, cold, known, flags, bits, callee, callId, x) {
      var arguments := p.functionCalls[callId].arguments;
      var i: nat :| MeetsAsync(p, cold, known, flags, bits, p.functions[callee], arguments, x, i);
      ValueIsChain(p, cold, known, flags, bits, arguments[i]);
      assert Adapts(p, cold, known, flags, bits, callee, callId, i);
    }
  }

  /** The call names the instance `k`: an instance of its callee, the view takes it, adapted in exactly
      the parameters the call adapts, of which there is one. */
  ghost predicate Names(p: Program, cold: bool, known: set<Id>, flags: set<Id>, bits: set<Id>, call: CallSite, k: Key) {
    && call.target == Function(k.root) && (cold ==> k.root in p.coldIds) && k.bits != {}
    && forall x :: x in k.bits <==> Adapted(p, cold, known, flags, bits, k.root, call.callId, x)
  }

  lemma MetIsNamed(p: Program, cold: bool, known: set<Id>, flags: set<Id>, bits: set<Id>, call: CallSite, k: Key)
    ensures Met(p, cold, known, flags, bits, call) == Some(k) <==> Names(p, cold, known, flags, bits, call, k)
  {
    if call.target.Function? {
      var b := BitsForCall(p, cold, known, flags, bits, call.target.id, call.callId);
      forall x ensures x in b <==> Adapted(p, cold, known, flags, bits, call.target.id, call.callId, x) {
        BitsAreAdapted(p, cold, known, flags, bits, call.target.id, call.callId, x);
      }
      if Names(p, cold, known, flags, bits, call, k) { assert b == k.bits; }
    }
  }

  ghost predicate AdaptsNothing(p: Program, cold: bool, known: set<Id>, flags: set<Id>, bits: set<Id>, call: CallSite) {
    call.target.Function? ==> forall x :: !Adapted(p, cold, known, flags, bits, call.target.id, call.callId, x)
  }

  /** The call goes through a parameter the instance adapts, or a local ever held a flagged closure of it. */
  ghost predicate AdaptedSubject(p: Program, flags: set<Id>, bits: set<Id>, call: CallSite) {
    && ThroughValue(call) && call.callId in p.functionCalls
    && var subject := p.functionCalls[call.callId].subject;
    && subject in p.entities && p.entities[subject].Local?
    && (|| p.entities[subject].id in bits
        || exists v, c :: Adopts(p, false, subject, v) && c in flags && IsClosure(p, v, c))
  }

  lemma AdaptedSubjectIs(p: Program, flags: set<Id>, bits: set<Id>, call: CallSite)
    requires ThroughValue(call)
    ensures SubjectAdaptedHere(p, flags, bits, call.callId) <==> AdaptedSubject(p, flags, bits, call)
  {
    if SubjectAdaptedHere(p, flags, bits, call.callId) && !AdaptedSubject(p, flags, bits, call) {
      var subject := p.functionCalls[call.callId].subject;
      var v :| v in p.held[p.entities[subject].id] && HoldsFlagged(p, flags, v);
      assert Adopts(p, false, subject, v) && IsClosure(p, v, p.entities[v].id);
    }
    if AdaptedSubject(p, flags, bits, call) && !SubjectAdaptedHere(p, flags, bits, call.callId) {
      var subject := p.functionCalls[call.callId].subject;
      var v, c :| Adopts(p, false, subject, v) && c in flags && IsClosure(p, v, c);
      assert HoldsFlagged(p, flags, v);
    }
  }

  ghost predicate NamesTrue(p: Program, cold: bool, known: set<Id>, flags: set<Id>, bits: set<Id>, trues: set<Key>,
                            call: CallSite)
  {
    exists k :: k in trues && Names(p, cold, known, flags, bits, call, k)
  }

  /** The call names an instance that answers true; or adapts nothing and is statically async or reaches
      the async set; or goes through what the instance adapts. */
  ghost predicate AwaitsBy(p: Program, cold: bool, known: set<Id>, flags: set<Id>, bits: set<Id>, trues: set<Key>,
                           call: CallSite)
  {
    || NamesTrue(p, cold, known, flags, bits, trues, call)
    || (AdaptsNothing(p, cold, known, flags, bits, call)
        && (StaticallyAsync(p, cold, call) || ReachesInto(p, cold, known, call)))
    || AdaptedSubject(p, flags, bits, call)
  }

  /** In an instance a call awaits exactly when it does by its tables. */
  lemma AwaitsIsReach(p: Program, cold: bool, known: set<Id>, flags: set<Id>, bits: set<Id>, trues: set<Key>,
                      call: CallSite)
    ensures CallAwaits(p, cold, known, flags, bits, trues, call)
       <==> AwaitsBy(p, cold, known, flags, bits, trues, call)
  {
    match call.target
    case Function(callee) => FunctionAwaits(p, cold, known, flags, bits, trues, call);
    case External(callee) => assert Reaches(p, cold, call, callee);
    case Indirect(GenericMember) => DispatchIsReach(p, cold, known, call);
    case Indirect(TraitDispatch) => DispatchIsReach(p, cold, known, call);
    case _ =>
      AdaptedSubjectIs(p, flags, bits, call);
      if call.callId in p.functionCalls { ValueIsReach(p, cold, known, call); }
  }

  lemma FunctionAwaits(p: Program, cold: bool, known: set<Id>, flags: set<Id>, bits: set<Id>, trues: set<Key>,
                       call: CallSite)
    requires call.target.Function?
    ensures CallAwaits(p, cold, known, flags, bits, trues, call)
       <==> (|| NamesTrue(p, cold, known, flags, bits, trues, call)
             || (AdaptsNothing(p, cold, known, flags, bits, call) && ReachesInto(p, cold, known, call)))
  {
    var callee := call.target.id;
    var b := BitsForCall(p, cold, known, flags, bits, callee, call.callId);
    assert Reaches(p, cold, call, callee);
    forall x ensures x in b <==> Adapted(p, cold, known, flags, bits, callee, call.callId, x) {
      BitsAreAdapted(p, cold, known, flags, bits, callee, call.callId, x);
    }
    MetIsNamed(p, cold, known, flags, bits, call, Key(callee, b));
    forall k | Names(p, cold, known, flags, bits, call, k) ensures k == Key(callee, b) {
      MetIsNamed(p, cold, known, flags, bits, call, k);
    }
  }
}

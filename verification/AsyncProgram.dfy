/** The tables async inference reads, and its per-call tests
    (crates/vilan-core/src/async_infer.rs).

    The analyzer's `Program` and the call graph are finite tables here.  The async set is `known`.
    `cold` selects the COLD view: a held value outside the cold ids does not count in it. */
module AsyncProgram {
  import opened Basics

  type Id = nat

  /** The expression shapes the pass distinguishes. */
  datatype Expr =
    | Closure(id: Id)
    | Async(id: Id)
    | Local(id: Id)
    | Field(owner: Id, index: nat)
    | Call(id: Id)
    | Other

  datatype IndirectReason = Value | GenericMember | TraitDispatch

  datatype CallTarget =
    | Function(id: Id)
    | External(id: Id)
    | ClosureLiteral(id: Id)
    | Variant(id: Id)
    | Indirect(reason: IndirectReason)

  datatype CallSite = CallSite(callId: Id, target: CallTarget)

  datatype FunctionCall = FunctionCall(subject: Id, arguments: seq<Id>)

  /** What a dispatch record names: the memo key of the materialization pass. */
  datatype DispatchKey = DispatchKey(onConstraint: bool, typeId: Option<Id>, member: string)

  /** A call through a trait object: its member and the candidates its declaring trait gives. */
  datatype ObjectCall = ObjectCall(member: string, candidates: set<Id>)

  datatype Program = Program(
    functions: map<Id, seq<Id>>,          // a function's parameters, in order
    syncValues: set<Id>,
    asyncValues: set<Id>,
    valueClosures: set<Id>,               // parameters typed as a closure with a resolved, non-void return
    asyncFields: set<(Id, nat)>,
    asyncReturning: set<Id>,
    entities: map<Id, Expr>,
    functionCalls: map<Id, FunctionCall>,
    held: map<Id, seq<Id>>,               // every value a binding ever holds
    dispatchAt: map<Id, DispatchKey>,
    candidatesOf: map<DispatchKey, set<Id>>,
    objectCalls: map<Id, ObjectCall>,
    names: map<Id, string>,
    nodes: seq<Id>,
    calls: map<Id, seq<CallSite>>,
    children: map<Id, seq<Id>>,           // the closures defined directly in a node
    initializers: map<Id, seq<CallSite>>, // the calls of each module binding's initializer
    coldIds: set<Id>)

  function CallsOf(p: Program, node: Id): seq<CallSite> {
    if node in p.calls then p.calls[node] else []
  }

  function ChildrenOf(p: Program, node: Id): seq<Id> {
    if node in p.children then p.children[node] else []
  }

  /** Whether the view takes `id` at all: the plain view takes every id. */
  predicate InView(p: Program, cold: bool, id: Id) {
    cold ==> id in p.coldIds
  }

  /** A parameter adapts when it is unmarked and its closure returns a value. */
  function Adaptive(p: Program, f: Id): set<Id> {
    if f in p.functions then
      set x | x in p.functions[f] && x !in p.syncValues && x !in p.asyncValues && x in p.valueClosures
    else {}
  }

  predicate CallReturnsAsync(p: Program, callId: Id) {
    && callId in p.functionCalls
    && var subject := p.functionCalls[callId].subject;
    && subject in p.entities
    && p.entities[subject].Local?
    && p.entities[subject].id in p.asyncReturning
  }

  /** The candidates a dispatched call could select. */
  function Candidates(p: Program, callId: Id): set<Id> {
    if callId in p.objectCalls then p.objectCalls[callId].candidates
    else if callId in p.dispatchAt && p.dispatchAt[callId] in p.candidatesOf then
      p.candidatesOf[p.dispatchAt[callId]]
    else {}
  }

  predicate DispatchAsync(p: Program, known: set<Id>, callId: Id) {
    exists m :: m in Candidates(p, callId) && m in known
  }

  // ----- value flow -----

  /** Adoption chains stop here, so a cyclic rebind cannot loop. */
  const DEPTH_CAP: nat := 4

  /** One held value, by its own shape; a chain continues at `depth + 1`. */
  predicate HeldAwaits(p: Program, cold: bool, known: set<Id>, value: Id, depth: nat)
    decreases DEPTH_CAP + 1 - depth, 0
  {
    depth <= DEPTH_CAP && value in p.entities &&
    match p.entities[value]
    case Closure(c) => c in known
    case Field(s, i) => (s, i) in p.asyncFields
    case Call(inner) => CallReturnsAsync(p, inner)
    case Local(source) => BindingHoldsAsync(p, cold, known, source, depth + 1)
    case _ => false
  }

  predicate BindingHoldsAsync(p: Program, cold: bool, known: set<Id>, binding: Id, depth: nat)
    decreases DEPTH_CAP + 1 - depth, 1
  {
    depth <= DEPTH_CAP && binding in p.held &&
    exists v :: v in p.held[binding] && InView(p, cold, v) && HeldAwaits(p, cold, known, v, depth)
  }

  /** Whether a call THROUGH `subject` is an await point. */
  predicate SubjectAwaits(p: Program, cold: bool, known: set<Id>, subject: Id) {
    subject in p.entities &&
    match p.entities[subject]
    case Local(target) => target in p.asyncValues || BindingHoldsAsync(p, cold, known, target, 0)
    case Field(s, i) => (s, i) in p.asyncFields
    case Call(inner) => CallReturnsAsync(p, inner)
    case Closure(c) => c in known
    case _ => false
  }

  /** Whether one call suspends its caller, outside any instance. */
  predicate CallSuspends(p: Program, cold: bool, known: set<Id>, call: CallSite) {
    match call.target
    case Function(callee) => callee in known
    case External(callee) => callee in known
    case Indirect(GenericMember) => DispatchAsync(p, known, call.callId)
    case Indirect(TraitDispatch) => DispatchAsync(p, known, call.callId)
    case _ => call.callId in p.functionCalls
              && SubjectAwaits(p, cold, known, p.functionCalls[call.callId].subject)
  }

  // ----- an instance's context: its async parameters and its members' flags -----

  /** A function and WHICH of its closure parameters are async. */
  datatype Key = Key(root: Id, bits: set<Id>)

  /** A closure's flag is its member's when it is one, the async set otherwise; a member's flag
      starts at its membership of the set, so reading either is reading both. */
  predicate ClosureAsync(known: set<Id>, flags: set<Id>, c: Id) {
    c in flags || c in known
  }

  predicate HeldValueAsync(p: Program, known: set<Id>, flags: set<Id>, value: Id) {
    value in p.entities &&
    match p.entities[value]
    case Closure(c) => ClosureAsync(known, flags, c)
    case Field(s, i) => (s, i) in p.asyncFields
    case Call(inner) => CallReturnsAsync(p, inner)
    case _ => false
  }

  /** Whether a VALUE is an async closure in an instance's context. */
  predicate ValueAsync(p: Program, cold: bool, known: set<Id>, flags: set<Id>, bits: set<Id>, value: Id) {
    value in p.entities &&
    match p.entities[value]
    case Closure(c) => ClosureAsync(known, flags, c)
    case Async(c) => ClosureAsync(known, flags, c)
    case Local(target) =>
      || target in bits
      || target in p.asyncValues
      || (target in p.held
          && exists v :: v in p.held[target] && InView(p, cold, v) && HeldValueAsync(p, known, flags, v))
    case Field(s, i) => (s, i) in p.asyncFields
    case Call(inner) => CallReturnsAsync(p, inner)
    case Other => false
  }

  /** How many arguments of `callId` meet a parameter of `callee`. */
  function Paired(p: Program, callee: Id, callId: Id): nat {
    if callee in p.functions && callId in p.functionCalls then
      if |p.functions[callee]| <= |p.functionCalls[callId].arguments| then |p.functions[callee]|
      else |p.functionCalls[callId].arguments|
    else 0
  }

  predicate Adapts(p: Program, cold: bool, known: set<Id>, flags: set<Id>, bits: set<Id>,
                   callee: Id, callId: Id, i: nat)
    requires i < Paired(p, callee, callId)
  {
    && p.functions[callee][i] in Adaptive(p, callee)
    && ValueAsync(p, cold, known, flags, bits, p.functionCalls[callId].arguments[i])
  }

  /** The callee's adapted-parameter set for one call, in an instance's context. */
  function BitsForCall(p: Program, cold: bool, known: set<Id>, flags: set<Id>, bits: set<Id>,
                       callee: Id, callId: Id): (r: set<Id>)
    ensures r <= Adaptive(p, callee)
    ensures r != {} ==> callee in p.functions
  {
    set i: nat | i < Paired(p, callee, callId) && Adapts(p, cold, known, flags, bits, callee, callId, i)
      :: p.functions[callee][i]
  }

  predicate HoldsFlagged(p: Program, flags: set<Id>, value: Id) {
    value in p.entities && p.entities[value].Closure? && p.entities[value].id in flags
  }

  /** Whether the call's subject is async THROUGH the instance's context. */
  predicate SubjectAdaptedHere(p: Program, flags: set<Id>, bits: set<Id>, callId: Id) {
    && callId in p.functionCalls
    && var subject := p.functionCalls[callId].subject;
    && subject in p.entities
    && p.entities[subject].Local?
    && var target := p.entities[subject].id;
    && (target in bits || (target in p.held && exists v :: v in p.held[target] && HoldsFlagged(p, flags, v)))
  }

  /** The instance a call names, when its arguments adapt the callee and the view takes it. */
  function Met(p: Program, cold: bool, known: set<Id>, flags: set<Id>, bits: set<Id>, call: CallSite): Option<Key> {
    if call.target.Function? then
      var b := BitsForCall(p, cold, known, flags, bits, call.target.id, call.callId);
      if b != {} && InView(p, cold, call.target.id) then Some(Key(call.target.id, b)) else None
    else None
  }

  /** One call's verdict in an instance: `trues` are the instances whose flag holds now. */
  predicate CallAwaits(p: Program, cold: bool, known: set<Id>, flags: set<Id>, bits: set<Id>,
                       trues: set<Key>, call: CallSite)
  {
    match call.target
    case Function(callee) =>
      var b := BitsForCall(p, cold, known, flags, bits, callee, call.callId);
      if b == {} then callee in known
      else InView(p, cold, callee) && Key(callee, b) in trues
    case External(callee) => callee in known
    case Indirect(GenericMember) => DispatchAsync(p, known, call.callId)
    case Indirect(TraitDispatch) => DispatchAsync(p, known, call.callId)
    case _ =>
      || SubjectAdaptedHere(p, flags, bits, call.callId)
      || (call.callId in p.functionCalls && SubjectAwaits(p, cold, known, p.functionCalls[call.callId].subject))
  }

  // ----- the component of a root: itself and its transitively nested closures -----

  function AllChildren(p: Program): set<Id> {
    set n, c | n in p.children && c in p.children[n] :: c
  }

  function Descend(p: Program, members: seq<Id>, cursor: nat, fuel: nat): (r: seq<Id>)
    ensures members <= r
    decreases fuel
  {
    if fuel == 0 || cursor >= |members| then members
    else Descend(p, members + ChildrenOf(p, members[cursor]), cursor + 1, fuel - 1)
  }

  /** The root, then each member's closures in discovery order. */
  function Component(p: Program, root: Id): (r: seq<Id>)
    ensures |r| > 0 && r[0] == root
  {
    Descend(p, [root], 0, |AllChildren(p)| + 1)
  }

  // ----- monotonicity -----

  lemma BindingMono(p: Program, cold: bool, known: set<Id>, cold': bool, known': set<Id>, binding: Id, depth: nat)
    requires (cold' ==> cold) && known <= known'
    ensures BindingHoldsAsync(p, cold, known, binding, depth) ==> BindingHoldsAsync(p, cold', known', binding, depth)
    decreases DEPTH_CAP + 1 - depth, 1
  {
    if BindingHoldsAsync(p, cold, known, binding, depth) {
      var v :| v in p.held[binding] && InView(p, cold, v) && HeldAwaits(p, cold, known, v, depth);
      if p.entities[v].Local? {
        BindingMono(p, cold, known, cold', known', p.entities[v].id, depth + 1);
      }
      assert HeldAwaits(p, cold', known', v, depth);
    }
  }

  lemma SubjectMono(p: Program, cold: bool, known: set<Id>, cold': bool, known': set<Id>, subject: Id)
    requires (cold' ==> cold) && known <= known'
    ensures SubjectAwaits(p, cold, known, subject) ==> SubjectAwaits(p, cold', known', subject)
  {
    if subject in p.entities && p.entities[subject].Local? {
      BindingMono(p, cold, known, cold', known', p.entities[subject].id, 0);
    }
  }

  lemma SuspendsMono(p: Program, cold: bool, known: set<Id>, cold': bool, known': set<Id>, call: CallSite)
    requires (cold' ==> cold) && known <= known'
    ensures CallSuspends(p, cold, known, call) ==> CallSuspends(p, cold', known', call)
  {
    if call.callId in p.functionCalls {
      SubjectMono(p, cold, known, cold', known', p.functionCalls[call.callId].subject);
    }
  }

  lemma ValueMono(p: Program, cold: bool, known: set<Id>, flags: set<Id>, bits: set<Id>,
                  cold': bool, known': set<Id>, flags': set<Id>, bits': set<Id>, value: Id)
    requires (cold' ==> cold) && known <= known' && flags <= flags' && bits <= bits'
    ensures ValueAsync(p, cold, known, flags, bits, value) ==> ValueAsync(p, cold', known', flags', bits', value)
  {
  }

  lemma BitsMono(p: Program, cold: bool, known: set<Id>, flags: set<Id>, bits: set<Id>,
                 cold': bool, known': set<Id>, flags': set<Id>, bits': set<Id>, callee: Id, callId: Id)
    requires (cold' ==> cold) && known <= known' && flags <= flags' && bits <= bits'
    ensures BitsForCall(p, cold, known, flags, bits, callee, callId)
         <= BitsForCall(p, cold', known', flags', bits', callee, callId)
  {
    forall x | x in BitsForCall(p, cold, known, flags, bits, callee, callId)
      ensures x in BitsForCall(p, cold', known', flags', bits', callee, callId)
    {
      var i: nat :| i < Paired(p, callee, callId) && Adapts(p, cold, known, flags, bits, callee, callId, i)
                    && x == p.functions[callee][i];
      ValueMono(p, cold, known, flags, bits, cold', known', flags', bits', p.functionCalls[callId].arguments[i]);
      assert Adapts(p, cold', known', flags', bits', callee, callId, i);
    }
  }

  /** The instance keys of a view: every function it takes, with every set of adaptive parameters. */
  ghost function Keys(p: Program, cold: bool): set<Key> {
    set f, b | f in p.functions.Keys && InView(p, cold, f) && b <= Adaptive(p, f) :: Key(f, b)
  }

  /** `trues'` answers every key of `trues`, and every key with more bits. */
  ghost predicate Widens(p: Program, trues: set<Key>, trues': set<Key>) {
    forall k: Key, k': Key :: k in trues && k'.root == k.root && k.bits <= k'.bits <= Adaptive(p, k.root)
      ==> k' in trues'
  }

  /** `trues` answers every instance of a function the async set holds. */
  ghost predicate Seeded(p: Program, cold: bool, known: set<Id>, trues: set<Key>) {
    forall k :: k in Keys(p, cold) && k.root in known ==> k in trues
  }

  /** A verdict survives growing everything it reads - the bits of the instance it names included,
      which is where an exact-bits reading is not monotone by itself. */
  lemma AwaitsLift(p: Program, cold: bool, known: set<Id>, flags: set<Id>, bits: set<Id>, trues: set<Key>,
                   cold': bool, known': set<Id>, flags': set<Id>, bits': set<Id>, trues': set<Key>, call: CallSite)
    requires (cold' ==> cold) && known <= known' && flags <= flags' && bits <= bits'
    requires cold' ==> known <= p.coldIds
    requires Widens(p, trues, trues') && Seeded(p, cold', known', trues')
    requires CallAwaits(p, cold, known, flags, bits, trues, call)
    ensures CallAwaits(p, cold', known', flags', bits', trues', call)
  {
    match call.target
    case Function(callee) =>
      var b := BitsForCall(p, cold, known, flags, bits, callee, call.callId);
      var b' := BitsForCall(p, cold', known', flags', bits', callee, call.callId);
      BitsMono(p, cold, known, flags, bits, cold', known', flags', bits', callee, call.callId);
      if b' != {} {
        assert Key(callee, b') in trues' by {
          if b == {} {
            assert callee in known';
            assert Key(callee, b') in Keys(p, cold');
          } else {
            assert Key(callee, b) in trues;
          }
        }
      }
    case External(_) =>
    case Indirect(GenericMember) =>
    case Indirect(TraitDispatch) =>
    case _ =>
      if call.callId in p.functionCalls {
        SubjectMono(p, cold, known, cold', known', p.functionCalls[call.callId].subject);
      }
  }
}

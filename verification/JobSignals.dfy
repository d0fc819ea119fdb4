/** The unix signal pipeline (crates/vilan-cli/src/job.rs): the thread that runs programs and the thread
    that reads signals, as steps that interleave in any way.

    Process ids are reused; `Proc.id` tells the processes that bore one apart.  An entry of `procs`
    stands from the start of a process until it is reaped, so a signal can miss only a reaped one. */
module JobSignals {
  import opened Basics

  type Pid = nat

  const SIGINT: nat := 2
  const SIGKILL: nat := 9

  datatype Signal = Signal(number: nat, fromKernel: bool)

  /** `ours`: a child of this process. */
  datatype Proc = Proc(id: nat, ours: bool, exited: bool)

  datatype Child = Child(pid: Pid, id: nat)

  datatype Mode = Wait | Exit

  /** The registry holds the pid and the mode; which child that was is history. */
  datatype Entry = Entry(child: Child, mode: Mode)

  datatype Thread = Runner | Reader

  /** Where the run thread is.  `Spawning` holds the lock; `Awaiting` is `run_to_end`'s wait that does
      not reap, `Clearing` what follows it; a child's own `wait` is `Forgetting`, then `Reaping`. */
  datatype Run = Free | Spawning(mode: Mode) | Awaiting(child: Child) | Clearing(child: Child)
    | Forgetting(child: Child) | Reaping(child: Child)

  /** Where the reader is: `Holding`, `Ending` and `Closing` hold the lock. */
  datatype Listen = Listening | Locking(signal: Signal) | Holding(signal: Signal)
    | Ending(signal: Signal, child: Child) | Closing(signal: Signal, child: Child) | Unclaimed(signal: Signal)

  /** What became of a signal read. */
  datatype Outcome =
    | Forwarded(signal: Signal, child: Child)
    | Suppressed(signal: Signal, child: Child)
    | EndsSession(signal: Signal, child: Child, forwarded: bool)
    | ToHook(signal: Signal)

  /** A `kill` the reader issued: the child it was meant for, and what bore the pid then. */
  datatype Kill = Kill(number: nat, meant: Child, struck: Option<Proc>)

  datatype State = State(
    hookReturns: bool, // whether the interrupt hook returns; the CLI's ends the process
    procs: map<Pid, Proc>,
    started: nat,
    lock: Option<Thread>,
    registry: Option<Entry>,
    children: set<Child>, // spawned and not yet waited for
    run: Run,
    listen: Listen,
    pipe: seq<Signal>,
    ended: bool,
    // what happened so far
    read: seq<Signal>,
    outcomes: seq<Outcome>,
    kills: seq<Kill>,  // signals passed on
    forced: seq<Kill>) // the grace period's

  datatype Step =
    | StrangerStarts(pid: Pid)
    | Exits(pid: Pid)
    | SignalArrives(signal: Signal)
    // the run thread
    | LockToSpawn(mode: Mode)
    | Spawned(pid: Pid)
    | SpawnFails
    | SpawnUnregistered(pid: Pid)
    | AwaitEnds
    | ClearRegistry
    | StartWait(child: Child)
    | Forget
    | Reap
    // the reader
    | ReadSignal
    | LockToHandle
    | Handle
    | GraceOver
    | ReapWatched
    | Hook

  predicate Can(s: State, step: Step) {
    !s.ended &&
    match step
    case StrangerStarts(pid) => pid !in s.procs
    case Exits(pid) => pid in s.procs && !s.procs[pid].exited
    case SignalArrives(_) => true
    case LockToSpawn(_) => s.run.Free? && s.lock.None?
    case Spawned(pid) => s.run.Spawning? && pid !in s.procs
    case SpawnFails => s.run.Spawning?
    case SpawnUnregistered(pid) => s.run.Free? && pid !in s.procs
    case AwaitEnds => s.run.Awaiting? // the child ended, or the wait failed
    case ClearRegistry => s.run.Clearing? && s.lock.None?
    case StartWait(c) => s.run.Free? && c in s.children
    case Forget => s.run.Forgetting? && s.lock.None?
    case Reap => s.run.Reaping? && s.run.child.pid in s.procs && s.procs[s.run.child.pid].exited
    case ReadSignal => s.listen.Listening? && s.pipe != []
    case LockToHandle => s.listen.Locking? && s.lock.None?
    case Handle => s.listen.Holding?
    case GraceOver => s.listen.Ending?
    case ReapWatched => s.listen.Ending? && s.listen.child.pid in s.procs && s.procs[s.listen.child.pid].exited
    case Hook => s.listen.Closing? || s.listen.Unclaimed?
  }

  function Started(s: State, pid: Pid, ours: bool): State {
    s.(procs := s.procs[pid := Proc(s.started, ours, false)], started := s.started + 1)
  }

  /** A process no longer ours to wait for is gone at once. */
  function Exited(s: State, pid: Pid): State
    requires pid in s.procs
  {
    if s.procs[pid].ours then s.(procs := s.procs[pid := s.procs[pid].(exited := true)])
    else s.(procs := s.procs - {pid})
  }

  function Struck(s: State, child: Child): Option<Proc> {
    if child.pid in s.procs then Some(s.procs[child.pid]) else None
  }

  /** A terminal's interrupt reached the child with the rest of the foreground group. */
  predicate Delivered(signal: Signal) {
    signal.number == SIGINT && signal.fromKernel
  }

  function Handled(s: State, signal: Signal): State {
    match s.registry
    case None => s.(lock := None, listen := Unclaimed(signal), outcomes := s.outcomes + [ToHook(signal)])
    case Some(Entry(child, Wait)) =>
      if Delivered(signal) then
        s.(lock := None, listen := Listening, outcomes := s.outcomes + [Suppressed(signal, child)])
      else s.(lock := None, listen := Listening, outcomes := s.outcomes + [Forwarded(signal, child)],
              kills := s.kills + [Kill(signal.number, child, Struck(s, child))])
    case Some(Entry(child, Exit)) =>
      s.(listen := Ending(signal, child), outcomes := s.outcomes + [EndsSession(signal, child, !Delivered(signal))],
         kills := if Delivered(signal) then s.kills else s.kills + [Kill(signal.number, child, Struck(s, child))])
  }

  function Do(s: State, step: Step): State
    requires Can(s, step)
  {
    match step
    case StrangerStarts(pid) => Started(s, pid, false)
    case Exits(pid) => Exited(s, pid)
    case SignalArrives(signal) => s.(pipe := s.pipe + [signal])
    case LockToSpawn(mode) => s.(lock := Some(Runner), run := Spawning(mode))
    case Spawned(pid) =>
      var child := Child(pid, s.started);
      Started(s, pid, true).(lock := None, registry := Some(Entry(child, s.run.mode)),
                             run := if s.run.mode.Wait? then Awaiting(child) else Free,
                             children := if s.run.mode.Wait? then s.children else s.children + {child})
    case SpawnFails => s.(lock := None, run := Free)
    case SpawnUnregistered(pid) => Started(s, pid, true).(children := s.children + {Child(pid, s.started)})
    case AwaitEnds => s.(run := Clearing(s.run.child))
    case ClearRegistry => s.(registry := None, run := Forgetting(s.run.child))
    case StartWait(child) => s.(children := s.children - {child}, run := Forgetting(child))
    case Forget => s.(registry := if s.registry.Some? && s.registry.value.child.pid == s.run.child.pid then None
                                  else s.registry,
                      run := Reaping(s.run.child))
    case Reap => s.(procs := s.procs - {s.run.child.pid}, run := Free)
    case ReadSignal => s.(pipe := s.pipe[1..], read := s.read + [s.pipe[0]], listen := Locking(s.pipe[0]))
    case LockToHandle => s.(lock := Some(Reader), listen := Holding(s.listen.signal))
    case Handle => Handled(s, s.listen.signal)
    case GraceOver => s.(forced := s.forced + [Kill(SIGKILL, s.listen.child, Struck(s, s.listen.child))])
    case ReapWatched => s.(procs := s.procs - {s.listen.child.pid}, listen := Closing(s.listen.signal, s.listen.child))
    case Hook =>
      if s.hookReturns then s.(lock := if s.listen.Closing? then None else s.lock, listen := Listening)
      else s.(ended := true)
  }

  function Start(hookReturns: bool): State {
    State(hookReturns, map[], 0, None, None, {}, Free, Listening, [], false, [], [], [], [])
  }

  predicate CanAll(s: State, steps: seq<Step>)
    decreases |steps|
  {
    steps == [] || (Can(s, steps[0]) && CanAll(Do(s, steps[0]), steps[1..]))
  }

  function DoAll(s: State, steps: seq<Step>): State
    requires CanAll(s, steps)
    decreases |steps|
  {
    if steps == [] then s else DoAll(Do(s, steps[0]), steps[1..])
  }

  // ----- what every interleaving keeps -----

  /** Ours, and not reaped. */
  predicate Unreaped(s: State, c: Child) {
    c.pid in s.procs && s.procs[c.pid].id == c.id && s.procs[c.pid].ours
  }

  predicate Hit(k: Kill) {
    k.struck.Some? && k.struck.value.ours && k.struck.value.id == k.meant.id
  }

  /** The child the run thread is about to wait for, or waits for. */
  function InHand(run: Run): set<Child> {
    match run
    case Awaiting(c) => {c}
    case Clearing(c) => {c}
    case Forgetting(c) => {c}
    case Reaping(c) => {c}
    case _ => {}
  }

  /** The child the reader has reaped, with the lock held since. */
  function Gone(listen: Listen): set<Child> {
    if listen.Closing? then {listen.child} else {}
  }

  ghost predicate Locked(s: State) {
    && (s.lock == Some(Runner) <==> s.run.Spawning?)
    && (s.lock == Some(Reader) <==> s.listen.Holding? || s.listen.Ending? || s.listen.Closing?)
    && (s.listen.Ending? || s.listen.Closing? ==> s.registry == Some(Entry(s.listen.child, Exit)))
  }

  ghost predicate Numbered(s: State) {
    && (forall pid :: pid in s.procs ==> s.procs[pid].id < s.started)
    && (forall p, q :: p in s.procs && q in s.procs && s.procs[p].id == s.procs[q].id ==> p == q)
    && (forall c :: c in s.children + InHand(s.run) ==> c.id < s.started)
  }

  ghost predicate Owned(s: State) {
    && (forall c :: c in s.children + InHand(s.run) && c !in Gone(s.listen) ==> Unreaped(s, c))
    && (forall c :: c in InHand(s.run) ==> c !in s.children)
    && (s.registry.Some? ==>
          var c := s.registry.value.child;
          && c in s.children + InHand(s.run) && (s.run.Reaping? ==> c != s.run.child))
  }

  function SignalsOf(outcomes: seq<Outcome>): seq<Signal> {
    seq(|outcomes|, i requires 0 <= i < |outcomes| => outcomes[i].signal)
  }

  function Taken(listen: Listen): seq<Signal> {
    if listen.Locking? || listen.Holding? then [listen.signal] else []
  }

  /** What the outcomes say was sent, in order. */
  function Sent(outcomes: seq<Outcome>): seq<(nat, Child)> {
    if outcomes == [] then []
    else
      var o := outcomes[|outcomes| - 1];
      Sent(outcomes[..|outcomes| - 1])
      + if Sends(o) then [(o.signal.number, o.child)] else []
  }

  function MeantBy(kills: seq<Kill>): seq<(nat, Child)> {
    seq(|kills|, i requires 0 <= i < |kills| => (kills[i].number, kills[i].meant))
  }

  ghost predicate Accounted(s: State) {
    && s.read == SignalsOf(s.outcomes) + Taken(s.listen)
    && MeantBy(s.kills) == Sent(s.outcomes)
    && (forall o :: o in s.outcomes && Delivered(o.signal) ==> !o.Forwarded? && (o.EndsSession? ==> !o.forwarded))
  }

  ghost predicate AllHit(s: State) {
    (forall k :: k in s.kills ==> Hit(k)) && (forall k :: k in s.forced ==> Hit(k))
  }

  ghost predicate Inv(s: State) {
    Locked(s) && Numbered(s) && Owned(s) && AllHit(s)
  }

  /** The registered child is unreaped whenever the reader may strike it. */
  lemma RegisteredIsUnreaped(s: State)
    requires Inv(s) && s.registry.Some? && !s.listen.Closing?
    ensures Unreaped(s, s.registry.value.child)
  {
  }

  lemma StepKeepsUnreaped(s: State, step: Step, c: Child)
    requires Inv(s) && Can(s, step) && !s.hookReturns
    requires var t := Do(s, step); c in t.children + InHand(t.run) && c !in Gone(t.listen)
    ensures Unreaped(Do(s, step), c)
  {
  }

  lemma StepKeepsRegistered(s: State, step: Step)
    requires Inv(s) && Can(s, step) && !s.hookReturns
    ensures var t := Do(s, step);
            t.registry.Some? ==>
              && t.registry.value.child in t.children + InHand(t.run)
              && (t.run.Reaping? ==> t.registry.value.child != t.run.child)
  {
  }

  lemma StepKeepsOwned(s: State, step: Step)
    requires Inv(s) && Can(s, step) && !s.hookReturns
    ensures Owned(Do(s, step))
  {
    var t := Do(s, step);
    forall c | c in t.children + InHand(t.run) && c !in Gone(t.listen) ensures Unreaped(t, c) {
      StepKeepsUnreaped(s, step, c);
    }
    StepKeepsRegistered(s, step);
  }

  lemma StepKeepsInv(s: State, step: Step)
    requires Inv(s) && Can(s, step) && !s.hookReturns
    ensures Inv(Do(s, step)) && !Do(s, step).hookReturns
  {
    StepKeepsOwned(s, step);
    StepKeepsNumbered(s, step);
    StepHits(s, step);
  }

  lemma StepKeepsNumbered(s: State, step: Step)
    requires Numbered(s) && Can(s, step)
    ensures Numbered(Do(s, step))
  {
    var t := Do(s, step);
    StepKeepsBelow(s, step);
    forall p, q | p in t.procs && q in t.procs && t.procs[p].id == t.procs[q].id ensures p == q {
      StepKeepsApart(s, step, p, q);
    }
  }

  lemma StepKeepsBelow(s: State, step: Step)
    requires Numbered(s) && Can(s, step)
    ensures var t := Do(s, step);
            && (forall pid :: pid in t.procs ==> t.procs[pid].id < t.started)
            && (forall c :: c in t.children + InHand(t.run) ==> c.id < t.started)
  {
  }

  lemma StepKeepsApart(s: State, step: Step, p: Pid, q: Pid)
    requires Numbered(s) && Can(s, step)
    requires p in Do(s, step).procs && q in Do(s, step).procs && Do(s, step).procs[p].id == Do(s, step).procs[q].id
    ensures p == q
  {
  }

  lemma StepHits(s: State, step: Step)
    requires Inv(s) && Can(s, step)
    ensures AllHit(Do(s, step))
  {
    if s.registry.Some? && !s.listen.Closing? { RegisteredIsUnreaped(s); }
  }

  lemma OneMoreOutcome(outcomes: seq<Outcome>, o: Outcome)
    ensures SignalsOf(outcomes + [o]) == SignalsOf(outcomes) + [o.signal]
    ensures Sent(outcomes + [o]) == Sent(outcomes)
              + if Sends(o) then [(o.signal.number, o.child)] else []
  {
    assert (outcomes + [o])[..|outcomes|] == outcomes;
  }

  lemma OneMoreKill(kills: seq<Kill>, k: Kill)
    ensures MeantBy(kills + [k]) == MeantBy(kills) + [(k.number, k.meant)]
  {
  }

  predicate Sends(o: Outcome) {
    o.Forwarded? || (o.EndsSession? && o.forwarded)
  }

  lemma OutcomeAccounts(read: seq<Signal>, outcomes: seq<Outcome>, kills: seq<Kill>, o: Outcome, k: Kill)
    requires read == SignalsOf(outcomes) + [o.signal] && MeantBy(kills) == Sent(outcomes)
    requires Sends(o) ==> k.number == o.signal.number && k.meant == o.child
    ensures read == SignalsOf(outcomes + [o]) + []
    ensures MeantBy(if Sends(o) then kills + [k] else kills) == Sent(outcomes + [o])
  {
    OneMoreOutcome(outcomes, o);
    OneMoreKill(kills, k);
  }

  lemma HandleKeepsAccounts(s: State)
    requires Accounted(s) && Can(s, Handle)
    ensures Accounted(Handled(s, s.listen.signal))
  {
    var s', signal := Handled(s, s.listen.signal), s.listen.signal;
    var o := s'.outcomes[|s.outcomes|];
    assert s'.outcomes == s.outcomes + [o] && o.signal == signal && Taken(s'.listen) == [];
    var c := if s.registry.Some? then s.registry.value.child else Child(0, 0);
    var k := Kill(signal.number, c, Struck(s, c));
    OutcomeAccounts(s.read, s.outcomes, s.kills, o, k);
    assert s'.kills == if Sends(o) then s.kills + [k] else s.kills;
  }

  lemma StepKeepsAccounts(s: State, step: Step)
    requires Accounted(s) && Can(s, step)
    ensures Accounted(Do(s, step))
  {
    if step.Handle? {
      HandleKeepsAccounts(s);
    } else {
      var s' := Do(s, step);
      assert s'.outcomes == s.outcomes && s'.kills == s.kills;
      assert s'.read == SignalsOf(s.outcomes) + Taken(s'.listen);
    }
  }

  lemma {:induction false} RunKeeps(s: State, steps: seq<Step>)
    requires CanAll(s, steps)
    requires Accounted(s) && (!s.hookReturns ==> Inv(s))
    ensures var t := DoAll(s, steps);
            t.hookReturns == s.hookReturns && Accounted(t) && (!t.hookReturns ==> Inv(t))
    decreases |steps|
  {
    if steps != [] {
      StepKeepsAccounts(s, steps[0]);
      if !s.hookReturns { StepKeepsInv(s, steps[0]); }
      RunKeeps(Do(s, steps[0]), steps[1..]);
    }
  }

  /** In every interleaving, each signal sent - passed on, or the grace period's kill - strikes the
      registered child, a child of this process not reaped yet: the hook ends the process. */
  lemma SignalsStrikeTheChild(steps: seq<Step>)
    requires CanAll(Start(false), steps)
    ensures AllHit(DoAll(Start(false), steps))
  {
    RunKeeps(Start(false), steps);
  }

  /** Each signal read is handled once, in the order read: passed on to the child, suppressed as
      delivered to it already, or given to the hook, a watch session's after its child's end; what was
      sent is what the outcomes say, and a terminal's interrupt is never sent again. */
  lemma SignalsHandledOnce(hookReturns: bool, steps: seq<Step>)
    requires CanAll(Start(hookReturns), steps)
    ensures Accounted(DoAll(Start(hookReturns), steps))
  {
    RunKeeps(Start(hookReturns), steps);
  }

  // ----- which signals, in their own fields -----

  /** Signal 2 raised by the kernel: a terminal's interrupt. */
  predicate FromTerminal(signal: Signal) {
    signal.number == 2 && signal.fromKernel
  }

  /** The signals read while a child was registered, but for a terminal's interrupts, each with that
      child, in the order read. */
  function Passed(outcomes: seq<Outcome>): seq<(nat, Child)> {
    if outcomes == [] then []
    else
      var o := outcomes[|outcomes| - 1];
      Passed(outcomes[..|outcomes| - 1])
      + if o.ToHook? || FromTerminal(o.signal) then [] else [(o.signal.number, o.child)]
  }

  lemma OneMorePassed(outcomes: seq<Outcome>, o: Outcome)
    ensures Passed(outcomes + [o])
         == Passed(outcomes) + if o.ToHook? || FromTerminal(o.signal) then [] else [(o.signal.number, o.child)]
  {
    assert (outcomes + [o])[..|outcomes|] == outcomes;
  }

  /** What one outcome must say of its signal. */
  predicate Tells(o: Outcome) {
    match o
    case Suppressed(signal, _) => FromTerminal(signal)
    case Forwarded(signal, _) => !FromTerminal(signal)
    case EndsSession(signal, _, forwarded) => forwarded <==> !FromTerminal(signal)
    case ToHook(_) => true
  }

  /** What was sent is what the fields of the signals and outcomes say; the grace period sends 9. */
  ghost predicate Told(s: State) {
    && MeantBy(s.kills) == Passed(s.outcomes)
    && (forall o :: o in s.outcomes ==> Tells(o))
    && (forall k :: k in s.forced ==> k.number == 9)
  }

  /** The reader handles the signal it read last: with no child registered the hook gets it and nothing
      is sent; otherwise the registered child is sent it, unless it is a terminal's interrupt. */
  ghost predicate HandlesLast(s: State)
    requires Can(s, Handle)
  {
    s.read != [] &&
    var t, signal := Do(s, Handle), s.read[|s.read| - 1];
    if s.registry.None? then t.kills == s.kills && t.outcomes == s.outcomes + [ToHook(signal)]
    else
      var child := s.registry.value.child;
      && |t.outcomes| == |s.outcomes| + 1 && t.outcomes[..|s.outcomes|] == s.outcomes
      && var o := t.outcomes[|s.outcomes|];
      && !o.ToHook? && o.signal == signal && o.child == child && (o.EndsSession? <==> s.registry.value.mode.Exit?)
      && t.kills == s.kills + if signal.number == 2 && signal.fromKernel then []
                              else [Kill(signal.number, child, Struck(s, child))]
  }

  lemma HandleInFields(s: State)
    requires Accounted(s) && Can(s, Handle)
    ensures HandlesLast(s)
  {
    assert s.read[|s.read| - 1] == s.listen.signal;
  }

  lemma OutcomeTells(outcomes: seq<Outcome>, kills: seq<Kill>, o: Outcome, k: Kill)
    requires MeantBy(kills) == Passed(outcomes)
    requires o.ToHook? || (k.number == o.signal.number && k.meant == o.child)
    ensures MeantBy(if o.ToHook? || FromTerminal(o.signal) then kills else kills + [k]) == Passed(outcomes + [o])
  {
    OneMorePassed(outcomes, o);
    OneMoreKill(kills, k);
  }

  lemma HandleTells(s: State)
    requires Can(s, Handle) && MeantBy(s.kills) == Passed(s.outcomes)
    ensures var t := Handled(s, s.listen.signal);
            && MeantBy(t.kills) == Passed(t.outcomes) && t.forced == s.forced
            && |t.outcomes| == |s.outcomes| + 1 && t.outcomes[..|s.outcomes|] == s.outcomes
            && Tells(t.outcomes[|s.outcomes|])
  {
    var t, signal := Handled(s, s.listen.signal), s.listen.signal;
    var c := if s.registry.Some? then s.registry.value.child else Child(0, 0);
    OutcomeTells(s.outcomes, s.kills, t.outcomes[|s.outcomes|], Kill(signal.number, c, Struck(s, c)));
    assert t.outcomes == s.outcomes + [t.outcomes[|s.outcomes|]];
  }

  lemma StepTells(s: State, step: Step)
    requires Told(s) && Can(s, step)
    ensures Told(Do(s, step))
  {
    if step.Handle? {
      HandleTells(s);
      var t := Handled(s, s.listen.signal);
      assert t.outcomes == t.outcomes[..|s.outcomes|] + [t.outcomes[|s.outcomes|]];
    } else {
      assert Do(s, step).outcomes == s.outcomes && Do(s, step).kills == s.kills;
    }
  }

  lemma {:induction false} RunTells(s: State, steps: seq<Step>)
    requires CanAll(s, steps) && Told(s) && Accounted(s)
    ensures Told(DoAll(s, steps)) && Accounted(DoAll(s, steps))
    decreases |steps|
  {
    if steps != [] {
      StepTells(s, steps[0]);
      StepKeepsAccounts(s, steps[0]);
      RunTells(Do(s, steps[0]), steps[1..]);
    }
  }

  /** Over every run: what is suppressed is a terminal's interrupt, none is ever sent, and every other
      signal read while a child is registered is sent to that child, once and in order. */
  lemma TerminalInterruptsStay(hookReturns: bool, steps: seq<Step>)
    requires CanAll(Start(hookReturns), steps)
    ensures var s := DoAll(Start(hookReturns), steps); Told(s) && (Can(s, Handle) ==> HandlesLast(s))
  {
    RunTells(Start(hookReturns), steps);
    var s := DoAll(Start(hookReturns), steps);
    if Can(s, Handle) { HandleInFields(s); }
  }

  /** A watch session's hook runs with its child reaped and the lock still held, and from the signal
      on no step registers a child. */
  lemma ReapedBeforeTheHook(steps: seq<Step>, step: Step)
    requires CanAll(Start(false), steps)
    ensures var s := DoAll(Start(false), steps);
            && (s.listen.Closing? ==> !Unreaped(s, s.listen.child) && s.lock == Some(Reader))
            && (Can(s, step) && (s.listen.Ending? || s.listen.Closing?) ==> Do(s, step).registry == s.registry)
  {
    RunKeeps(Start(false), steps);
    RunKeepsReaped(Start(false), steps);
    var s := DoAll(Start(false), steps);
    if Can(s, step) && (s.listen.Ending? || s.listen.Closing?) { EndingKeepsRegistry(s, step); }
  }

  /** With the reader holding the lock to the session's end, the registry stands. */
  lemma EndingKeepsRegistry(s: State, step: Step)
    requires Locked(s) && Can(s, step) && (s.listen.Ending? || s.listen.Closing?)
    ensures Do(s, step).registry == s.registry
  {
  }

  ghost predicate Reaped(s: State) {
    s.listen.Closing? ==>
      s.listen.child.id < s.started && forall pid :: pid in s.procs ==> s.procs[pid].id != s.listen.child.id
  }

  lemma {:induction false} RunKeepsReaped(s: State, steps: seq<Step>)
    requires CanAll(s, steps) && Inv(s) && !s.hookReturns && Reaped(s)
    ensures Reaped(DoAll(s, steps))
    decreases |steps|
  {
    if steps != [] {
      StepKeepsInv(s, steps[0]);
      RunKeepsReaped(Do(s, steps[0]), steps[1..]);
    }
  }

  lemma Along(s: State, step: Step, rest: seq<Step>)
    requires Can(s, step) && CanAll(Do(s, step), rest)
    ensures CanAll(s, [step] + rest) && DoAll(s, [step] + rest) == DoAll(Do(s, step), rest)
  {
    assert ([step] + rest)[1..] == rest;
  }

  lemma {:induction false} Joined(s: State, first: seq<Step>, second: seq<Step>)
    requires CanAll(s, first) && CanAll(DoAll(s, first), second)
    ensures CanAll(s, first + second) && DoAll(s, first + second) == DoAll(DoAll(s, first), second)
    decreases |first|
  {
    if first == [] {
      assert first + second == second;
    } else {
      Joined(Do(s, first[0]), first[1..], second);
      assert first + second == [first[0]] + (first[1..] + second);
      Along(s, first[0], first[1..] + second);
    }
  }

  /** A signal arrives and is handled. */
  const HANDLED: seq<Step> := [SignalArrives(Signal(15, false)), ReadSignal, LockToHandle, Handle]

  lemma HandledAtOnce(s: State)
    requires !s.ended && s.lock.None? && s.listen.Listening? && s.pipe == []
    ensures CanAll(s, HANDLED)
    ensures var term := Signal(15, false);
            DoAll(s, HANDLED)
            == Handled(s.(read := s.read + [term], lock := Some(Reader), listen := Holding(term)), term)
  {
    var s1 := Do(s, HANDLED[0]);
    var s2 := Do(s1, ReadSignal);
    var s3 := Do(s2, LockToHandle);
    assert DoAll(Do(s3, Handle), []) == Do(s3, Handle);
    Along(s3, Handle, []);
    Along(s2, LockToHandle, [Handle]);
    Along(s1, ReadSignal, [LockToHandle] + [Handle]);
    Along(s, HANDLED[0], [ReadSignal] + ([LockToHandle] + [Handle]));
    assert HANDLED == [HANDLED[0]] + ([ReadSignal] + ([LockToHandle] + ([Handle] + [])));
  }

  lemma TwoSteps(s: State, a: Step, b: Step)
    requires Can(s, a) && Can(Do(s, a), b)
    ensures CanAll(s, [a] + [b]) && DoAll(s, [a] + [b]) == Do(Do(s, a), b)
  {
    Along(Do(s, a), b, []);
    assert [b] + [] == [b];
    Along(s, a, [b]);
  }

  /** Bears the pid the registry holds, and is not this process's child. */
  predicate Stranger(s: State, c: Child) {
    c.pid in s.procs && !s.procs[c.pid].ours
  }

  lemma StrikesStranger(s: State, c: Child)
    requires !s.ended && s.lock.None? && s.listen.Listening? && s.pipe == []
    requires s.registry == Some(Entry(c, Exit)) && Stranger(s, c)
    ensures CanAll(s, HANDLED) && !AllHit(DoAll(s, HANDLED))
  {
    HandledAtOnce(s);
    var t := DoAll(s, HANDLED);
    assert !Hit(t.kills[|s.kills|]);
  }

  lemma ReapThenReuse(s: State, c: Child)
    requires !s.ended && s.hookReturns && s.pipe == []
    requires s.listen.Ending? && s.listen.child == c && s.registry == Some(Entry(c, Exit))
    requires c.pid in s.procs && s.procs[c.pid].ours && !s.procs[c.pid].exited
    ensures var steps := ([Exits(c.pid)] + [ReapWatched]) + ([Hook] + [StrangerStarts(c.pid)]) + HANDLED;
            CanAll(s, steps) && !AllHit(DoAll(s, steps))
  {
    TwoSteps(s, Exits(c.pid), ReapWatched);
    var reaped := DoAll(s, [Exits(c.pid)] + [ReapWatched]);
    TwoSteps(reaped, Hook, StrangerStarts(c.pid));
    var reused := DoAll(reaped, [Hook] + [StrangerStarts(c.pid)]);
    StrikesStranger(reused, c);
    Joined(s, [Exits(c.pid)] + [ReapWatched], [Hook] + [StrangerStarts(c.pid)]);
    Joined(s, ([Exits(c.pid)] + [ReapWatched]) + ([Hook] + [StrangerStarts(c.pid)]), HANDLED);
  }

  /** That a reaped process is never struck rests on the hook's ending the process: were it to return,
      the registry would still hold the reaped pid, and a stranger may bear it by the next signal. */
  lemma ReturningHookStrikesStrangers()
    ensures exists steps :: CanAll(Start(true), steps) && !AllHit(DoAll(Start(true), steps))
  {
    TwoSteps(Start(true), LockToSpawn(Exit), Spawned(7));
    var spawned := DoAll(Start(true), [LockToSpawn(Exit)] + [Spawned(7)]);
    HandledAtOnce(spawned);
    ReapThenReuse(DoAll(spawned, HANDLED), Child(7, 0));
    var rest := ([Exits(7)] + [ReapWatched]) + ([Hook] + [StrangerStarts(7)]) + HANDLED;
    Joined(spawned, HANDLED, rest);
    Joined(Start(true), [LockToSpawn(Exit)] + [Spawned(7)], HANDLED + rest);
  }
}

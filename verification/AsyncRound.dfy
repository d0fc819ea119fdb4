/** One round of the instance worklist as a state machine (`adaptation_worklist` and `cold_round`,
    crates/vilan-core/src/async_infer.rs): any queued instance may be taken next, and the
    invariants hold after every step.  Over a cold record the round answers recorded instances from
    it and re-walks the ones a read of which moved. */
module AsyncRound {
  import opened Basics
  import opened AsyncProgram
  import opened AsyncFixpoint
  import opened AsyncEvaluate
  import opened AsyncQuiet

  /** The cold instance record: every cold instance's verdict, the instances that read it, and what
      its evaluations read as not async. */
  datatype Record = Record(
    settled: set<Id>,
    flags: map<Key, bool>,
    dependents: map<Key, set<Key>>,
    logs: map<Key, Reads>)

  /** What one analysis has re-walked so far; it persists across rounds. */
  datatype Seeding = Seeding(rewalked: set<Key>, seen: set<Id>, started: bool)

  const UNSTARTED := Seeding({}, {}, false)

  /** What every step reads and never writes. */
  datatype World = World(p: Program, cold: bool, rec: Option<Record>)

  datatype Round = Round(
    verdicts: map<Key, bool>,
    dependents: map<Key, set<Key>>,
    queued: set<Key>,
    known: set<Id>,
    seeding: Seeding,
    logs: map<Key, Reads>,
    last: map<Key, set<Id>>) // each instance's flags at its last evaluation

  function DependentsOf(m: map<Key, set<Key>>, k: Key): set<Key> {
    if k in m then m[k] else {}
  }

  function LogOf(m: map<Key, Reads>, k: Key): Reads {
    if k in m then m[k] else NO_READS
  }

  // ----- the record's answers -----

  predicate Serves(w: World, sd: Seeding, k: Key) {
    w.rec.Some? && k in w.rec.value.flags && k !in sd.rewalked
  }

  function RecordedFlag(w: World, k: Key): bool {
    w.rec.Some? && k in w.rec.value.flags && w.rec.value.flags[k]
  }

  function Answer(w: World, verdicts: map<Key, bool>, sd: Seeding, k: Key): bool {
    if k in verdicts then verdicts[k] else Serves(w, sd, k) && RecordedFlag(w, k)
  }

  function TrueKeys(flags: map<Key, bool>): set<Key> {
    set k | k in flags && flags[k]
  }

  /** Every instance whose verdict holds now. */
  function Trues(w: World, verdicts: map<Key, bool>, sd: Seeding): set<Key> {
    TrueKeys(verdicts) + (if w.rec.Some? then
                            set k | k in TrueKeys(w.rec.value.flags) && k !in verdicts && k !in sd.rewalked else {})
  }

  predicate Holds(w: World, s: Round, k: Key) {
    k in s.verdicts || Serves(w, s.seeding, k)
  }

  function MemberName(p: Program, callId: Id): Option<string> {
    if callId in p.objectCalls then Some(p.objectCalls[callId].member)
    else if callId in p.dispatchAt then Some(p.dispatchAt[callId].member)
    else None
  }

  /** The recorded instances that read `id` as not async, by id or by a dispatched member's name. */
  function Readers(p: Program, rec: Record, id: Id): set<Key> {
    set k | k in rec.logs && (|| id in rec.logs[k].ids
                              || (id in p.names && exists d :: d in rec.logs[k].dispatches
                                                              && MemberName(p, d) == Some(p.names[id])))
  }

  /** `ids` are async in this analysis: the readers of those the record's world did not settle are
      re-walked, each id once. */
  function MovedAll(w: World, sd: Seeding, ids: set<Id>): Seeding {
    match w.rec
    case None => sd
    case Some(rec) =>
      var newly := set i | i in ids && i !in rec.settled && i !in sd.seen;
      Seeding(sd.rewalked + (set i, k | i in newly && k in Readers(w.p, rec, i) :: k), sd.seen + newly, sd.started)
  }

  /** Once per analysis: the instances the record cannot validate, and the readers of a binding that
      holds a value from outside the cold ids. */
  function Started(w: World, sd: Seeding): Seeding {
    match w.rec
    case None => sd
    case Some(rec) =>
      if sd.started then sd
      else sd.(started := true,
               rewalked := sd.rewalked + set k | k in rec.logs
                                               && (rec.logs[k].unrecordable
                                                   || exists b :: b in rec.logs[k].bindings && Foreign(w.p, b)))
  }

  /** Every round: the readers of a dispatch that answers async now. */
  function DispatchesAsked(w: World, sd: Seeding, known: set<Id>): Seeding {
    match w.rec
    case None => sd
    case Some(rec) =>
      sd.(rewalked := sd.rewalked + set k | k in rec.logs
                                          && exists d :: d in rec.logs[k].dispatches && DispatchAsync(w.p, known, d))
  }

  function RoundStart(w: World, sd: Seeding, known: set<Id>): Seeding {
    DispatchesAsked(w, MovedAll(w, Started(w, sd), known), known)
  }

  // ----- steps -----

  function Answering(w: World, s: Round, k: Key): Frame {
    Frame(w.p, w.cold, s.known, k.bits, Trues(w, s.verdicts, s.seeding))
  }

  function Entries(keys: set<Key>, m: map<Key, bool>): map<Key, bool> {
    map k | k in keys :: k in m && m[k]
  }

  /** The instances an evaluation met that nothing answers yet. */
  function Fresh(w: World, s: Round, met: seq<Key>): set<Key> {
    set k | k in met && k !in s.verdicts && !Serves(w, s.seeding, k)
  }

  /** Whether the verdict of `k`, now `flag`, rose. */
  predicate Rose(w: World, s: Round, met: seq<Key>, k: Key, flag: bool) {
    flag && !(if k in s.verdicts then s.verdicts[k]
              else k !in Fresh(w, s, met) && Serves(w, s.seeding, k) && RecordedFlag(w, k))
  }

  function DependentsAfter(s: Round, k: Key, e: Eval): map<Key, set<Key>> {
    map x | x in s.dependents.Keys + (set y | y in e.met)
      :: DependentsOf(s.dependents, x) + (if x in e.met then {k} else {})
  }

  function KnownAfter(s: Round, k: Key, e: Eval): set<Id> {
    if k.bits == {} then s.known + e.flags else s.known
  }

  /** A rise re-walks the recorded instances that read the taken one; a member new to the async set,
      the ones that read it. */
  function SeedingAfter(w: World, s: Round, k: Key, e: Eval): Seeding {
    var recorded := if w.rec.Some? && Rose(w, s, e.met, k, k.root in e.flags)
                    then DependentsOf(w.rec.value.dependents, k) else {};
    MovedAll(w, s.seeding.(rewalked := s.seeding.rewalked + recorded), KnownAfter(s, k, e) - s.known)
  }

  /** A discovered instance starts at false, a re-walked one at its recorded verdict. */
  function VerdictsAfter(w: World, s: Round, k: Key, e: Eval): map<Key, bool> {
    var evaluated := (s.verdicts + Entries(Fresh(w, s, e.met), map[]))[k := k.root in e.flags];
    var rewalked := SeedingAfter(w, s, k, e).rewalked - s.seeding.rewalked;
    Entries(rewalked - evaluated.Keys, if w.rec.Some? then w.rec.value.flags else map[]) + evaluated
  }

  function QueuedAfter(w: World, s: Round, k: Key, e: Eval): set<Key> {
    s.queued - {k}
    + Fresh(w, s, e.met)
    + (if Rose(w, s, e.met, k, k.root in e.flags) then DependentsOf(DependentsAfter(s, k, e), k) else {})
    + (SeedingAfter(w, s, k, e).rewalked - s.seeding.rewalked)
  }

  /** The round after `k` was evaluated to `e`: what it met is discovered, what a rise reaches is
      re-queued, and a base instance's flags are in the async set. */
  function Absorb(w: World, s: Round, k: Key, e: Eval): Round {
    Round(VerdictsAfter(w, s, k, e),
          DependentsAfter(s, k, e),
          QueuedAfter(w, s, k, e),
          KnownAfter(s, k, e),
          SeedingAfter(w, s, k, e),
          s.logs[k := Join(LogOf(s.logs, k), e.logged)],
          s.last[k := e.flags])
  }

  function TakeKey(w: World, s: Round, k: Key): Round {
    Absorb(w, s, k, Evaluate(Answering(w, s, k), k.root))
  }

  ghost predicate RoundStep(w: World, s: Round, s': Round) {
    exists k :: k in s.queued && s' == TakeKey(w, s, k)
  }

  // ----- a valid record -----

  /** `rec` is what the cold run leaves, `rows` being each recorded instance's flags at its last
      evaluation: below the least flags of the cold view, settled under the recorded verdicts, and
      with every read of that evaluation logged. */
  ghost predicate RecordBy(p: Program, rec: Record, rows: map<Key, set<Id>>) {
    && rec.settled <= p.coldIds
    && RecordShape(rec) && rows.Keys == rec.flags.Keys
    && (forall f :: f in p.functions && f in p.coldIds ==> Key(f, {}) in rec.flags)
    && (forall k :: k in rows ==> RecordedKeyOk(p, rec, k, rows[k]))
  }

  /** Only recorded instances are logged, or read a verdict. */
  ghost predicate RecordShape(rec: Record) {
    && rec.logs.Keys == rec.flags.Keys
    && (forall x :: x in rec.dependents ==> rec.dependents[x] <= rec.flags.Keys)
  }

  ghost predicate RecordedKeyOk(p: Program, rec: Record, k: Key, row: set<Id>)
    requires k in rec.flags && k in rec.logs
  {
    && k in Keys(p, true)
    && (rec.flags[k] <==> k.root in row)
    && row <= Row(Least(p, true, rec.settled), k)
    && (k.bits == {} ==> row <= rec.settled)
    && Within(MemberReads(p, rec.settled, Component(p, k.root)), rec.logs[k])
    && (forall m :: m in Component(p, k.root) && m in rec.settled ==> m in row)
    && (forall m, c :: m in Component(p, k.root) && c in CallsOf(p, m) ==> RecordedCallOk(p, rec, k, row, m, c))
  }

  ghost predicate RecordedCallOk(p: Program, rec: Record, k: Key, row: set<Id>, m: Id, c: CallSite)
    requires k in rec.logs
  {
    && (CallAwaits(p, true, rec.settled, row, k.bits, TrueKeys(rec.flags), c) ==> m in row)
    && (rec.logs[k].unrecordable || CallLogged(p, true, rec.settled, row, k.bits, c, rec.logs[k]))
    && (match Met(p, true, rec.settled, row, k.bits, c)
        case None => true
        case Some(x) => x in rec.flags && x in rec.dependents && k in rec.dependents[x])
  }

  ghost predicate WorldOk(w: World, rows: map<Key, set<Id>>) {
    && ColdComponents(w.p)
    && (w.cold ==> w.rec.None?)
    && (w.rec.Some? ==> RecordBy(w.p, w.rec.value, rows))
  }

  // ----- the invariants -----

  /** Every verdict, and every flag of an instance's last evaluation, is below the least flags. */
  ghost predicate Sound(w: World, s: Round) {
    && (w.cold ==> s.known <= w.p.coldIds)
    && (w.rec.Some? ==> w.rec.value.settled <= s.known)
    && s.verdicts.Keys <= Keys(w.p, w.cold) && s.queued <= Keys(w.p, w.cold)
    && (forall x :: x in s.dependents ==> s.dependents[x] <= Keys(w.p, w.cold))
    && Trues(w, s.verdicts, s.seeding) <= Roots(Least(w.p, w.cold, s.known))
    && (forall k :: k in s.last ==> s.last[k] <= Row(Least(w.p, w.cold, s.known), k))
  }

  /** An answered instance was evaluated or is queued, and its verdict is its last evaluation's. */
  ghost predicate Answered(w: World, s: Round) {
    && s.last.Keys <= s.verdicts.Keys
    && (forall k :: k in s.verdicts ==> k in s.last || k in s.queued)
    && (forall k :: k in s.last ==> (s.verdicts[k] <==> k.root in s.last[k]))
    && (forall k :: k in s.seeding.rewalked ==> k in s.verdicts)
  }

  /** The round and the record never answer the same instance. */
  ghost predicate Apart(w: World, s: Round) {
    && (forall k :: Serves(w, s.seeding, k) ==> k !in s.verdicts && k !in s.queued)
    && (forall x :: x in s.dependents ==> s.dependents[x] <= s.verdicts.Keys)
  }

  /** Every function's base instance is answered or queued. */
  ghost predicate Covered(w: World, s: Round) {
    forall f :: f in w.p.functions && InView(w.p, w.cold, f) ==> Holds(w, s, Key(f, {})) || Key(f, {}) in s.queued
  }

  /** Under the verdicts as they are now, `row` is settled for `k`. */
  ghost predicate LiveCallOk(w: World, s: Round, k: Key, row: set<Id>, m: Id, c: CallSite) {
    && (Awaits(Answering(w, s, k), row, c) ==> m in row)
    && (match Met(w.p, w.cold, s.known, row, k.bits, c)
        case None => true
        case Some(x) => Holds(w, s, x) && x in s.dependents && k in s.dependents[x])
    && Within(ReadsOf(Answering(w, s, k), row, c), LogOf(s.logs, k))
  }

  ghost predicate LiveKeyOk(w: World, s: Round, k: Key, row: set<Id>) {
    && (forall m :: m in Component(w.p, k.root) && m in s.known ==> m in row)
    && (forall m :: m in row ==> m in Component(w.p, k.root))
    && (k.bits == {} ==> row <= s.known)
    && Within(MemberReads(w.p, s.known, Component(w.p, k.root)), LogOf(s.logs, k))
    && (forall m, c :: m in Component(w.p, k.root) && c in CallsOf(w.p, m) ==> LiveCallOk(w, s, k, row, m, c))
  }

  /** While the async set stands, an instance off the queue is settled. */
  ghost predicate Standing(w: World, s: Round) {
    forall k :: k in s.last && k !in s.queued ==> LiveKeyOk(w, s, k, s.last[k])
  }

  /** While the async set stands, nothing an instance the record answers read has moved. */
  ghost predicate ServedOk(w: World, s: Round) {
    w.rec.Some? ==>
      && (forall k :: Serves(w, s.seeding, k) ==> Quiet(w.p, w.rec.value.settled, s.known, LogOf(w.rec.value.logs, k)))
      && (forall k, x :: Serves(w, s.seeding, k) && Reading(w.rec.value, k, x) && x in Trues(w, s.verdicts, s.seeding)
            ==> RecordedFlag(w, x))
  }

  /** The recorded `k` read the verdict of `x`. */
  ghost predicate Reading(rec: Record, k: Key, x: Key) {
    x in rec.dependents && k in rec.dependents[x]
  }

  ghost predicate Always(w: World, s: Round) {
    && Sound(w, s) && Answered(w, s) && Apart(w, s) && Covered(w, s)
    && (if w.rec.Some? then SeenOk(w, s.seeding, s.known) else s.seeding == UNSTARTED)
  }

  ghost predicate Settling(w: World, start: set<Id>, s: Round) {
    start <= s.known && (s.known == start ==> Standing(w, s) && ServedOk(w, s))
  }

  ghost predicate Inv(w: World, start: set<Id>, s: Round) {
    Always(w, s) && Settling(w, start, s)
  }

  /** Every id of the async set the record's world lacks has had its readers re-walked. */
  ghost predicate SeenOk(w: World, sd: Seeding, known: set<Id>)
    requires w.rec.Some?
  {
    && sd.started
    && (forall i :: i in known && i !in w.rec.value.settled ==> i in sd.seen)
    && SeedingOk(w, sd)
  }

  /** What persists from round to round. */
  ghost predicate SeedingOk(w: World, sd: Seeding)
    requires w.rec.Some?
  {
    && sd.rewalked <= w.rec.value.flags.Keys
    && (forall i, k :: i in sd.seen && k in w.rec.value.logs && i in w.rec.value.logs[k].ids ==> k in sd.rewalked)
    && (sd.started ==> forall k :: k in w.rec.value.logs
                                   && (w.rec.value.logs[k].unrecordable
                                       || exists b :: b in w.rec.value.logs[k].bindings && Foreign(w.p, b))
                                   ==> k in sd.rewalked)
  }
}

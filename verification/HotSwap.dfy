/** The browser page's state-preserving swap (crates/vilan-cli/src/hmr_shim.js): bindings are captured,
    teardowns run, and the next bundle adopts what it can, one swap at a time.

    `Page` is the shim's closure with the cells the bundles' bindings hold; an event is what may
    happen next, the page's own code included.  `Shim` carries the events out on fields. */
module HotSwap {
  import opened Basics

  type Key = string
  type Fingerprint = nat
  type Value = int
  type Cleanup = nat

  /** What a binding holds.  A signal's subscribers, and a lazy cell's thunk, are the bundle's own. */
  datatype Cell =
    | Plain(value: Value)
    | Signal(value: Value, subscribers: nat)
    | Shared(value: Value)
    | Lazy(state: nat, value: Value, thunk: bool)

  const DONE: nat := 2

  /** What the binding's getter answers, or None where it throws: an unforced lazy cell's does. */
  function Payload(c: Cell): Option<Value> {
    if c.Lazy? && c.state != DONE then None else Some(c.value)
  }

  /** The new bundle's cell with a captured payload written in: the value carries, the identity does not. */
  function Written(c: Cell, v: Value): (r: Cell)
    ensures Payload(r) == Some(v)
    ensures c.Signal? ==> r.Signal? && r.subscribers == c.subscribers
  {
    match c
    case Plain(_) => Plain(v)
    case Signal(_, subscribers) => Signal(v, subscribers)
    case Shared(_) => Shared(v)
    case Lazy(_, _, _) => Lazy(DONE, v, false)
  }

  /** One instrumented statement of a bundle's top level: a binding adopts into what its thunk builds,
      and the module's tail exposes the `slot`th adopted binding. */
  datatype Statement = Adopt(key: Key, fp: Fingerprint, built: Cell) | Expose(key: Key, fp: Fingerprint, slot: nat)

  type Bundle = seq<Statement>

  datatype Exposure = Exposure(fp: Fingerprint, address: nat)
  datatype Capture = Capture(fp: Fingerprint, value: Value)

  /** A cell and the key that adopted it. */
  datatype Owned = Owned(key: Key, cell: Cell)

  /** `Tearing`: a swap captured, and these cleanups of its list are still to run.  `Importing`: the
      import is pending.  `Reloaded`: the page is gone. */
  datatype Phase = Idle | Tearing(next: Bundle, pending: seq<Cleanup>) | Importing | Reloaded

  datatype Page = Page(
    exposed: map<Key, Exposure>,
    seed: map<Key, Capture>,
    teardowns: seq<Cleanup>,
    waiting: seq<Bundle>, // the swap chain past its head
    phase: Phase,
    heap: seq<Owned>,
    bundle: Bundle,       // the last bundle that began to evaluate
    at: nat,              // how many of its statements ran
    slots: seq<nat>,      // the cells it adopted, in order
    // what happened so far
    registered: seq<Cleanup>,
    ran: seq<Cleanup>,
    requested: seq<Bundle>,
    evaluated: seq<Bundle>)

  datatype Event =
    | Request(bundle: Bundle)
    | Mutate(address: nat, cell: Cell)
    | Register(cleanup: Cleanup)
    | BeginSwap
    | RunCleanup
    | ClearRegistry
    | Evaluate
    | Resolve
    | Fail

  // ----- bundles as they are emitted -----

  function AdoptsOf(b: Bundle): seq<Statement> {
    if b == [] then []
    else if b[|b| - 1].Adopt? then AdoptsOf(b[..|b| - 1]) + [b[|b| - 1]]
    else AdoptsOf(b[..|b| - 1])
  }

  /** Each binding's key is its own, and is exposed after it adopts, under its own fingerprint. */
  predicate WellFormed(b: Bundle) {
    && (forall i, j :: 0 <= i < j < |AdoptsOf(b)| ==> AdoptsOf(b)[i].key != AdoptsOf(b)[j].key)
    && (forall i :: 0 <= i < |b| ==> ExposesOwn(b, i))
  }

  predicate ExposesOwn(b: Bundle, i: nat)
    requires i < |b|
  {
    b[i].Expose? ==>
      && b[i].slot < |AdoptsOf(b[..i])|
      && AdoptsOf(b[..i])[b[i].slot].key == b[i].key && AdoptsOf(b[..i])[b[i].slot].fp == b[i].fp
  }

  /** The bundle exposes `key`, under `fp`. */
  predicate Persists(b: Bundle, key: Key, fp: Fingerprint) {
    && (exists i :: 0 <= i < |b| && b[i].Expose? && b[i].key == key)
    && (forall i :: 0 <= i < |b| && b[i].key == key ==> b[i].fp == fp)
  }

  /** What the statements expose, `slots` being the cells adopted. */
  function ExposedBy(b: Bundle, slots: seq<nat>): map<Key, Exposure> {
    if b == [] then map[]
    else
      var before := ExposedBy(b[..|b| - 1], slots);
      var last := b[|b| - 1];
      if last.Expose? && last.slot < |slots| then before[last.key := Exposure(last.fp, slots[last.slot])] else before
  }

  // ----- events -----

  function Captured(exposed: map<Key, Exposure>, heap: seq<Owned>): map<Key, Capture> {
    map k | k in exposed && exposed[k].address < |heap| && Payload(heap[exposed[k].address].cell).Some?
      :: Capture(exposed[k].fp, Payload(heap[exposed[k].address].cell).value)
  }

  /** The four `adopt`s: a captured value under the same fingerprint, else the thunk's cell. */
  function Adopted(seed: map<Key, Capture>, key: Key, fp: Fingerprint, built: Cell): (r: Cell)
    ensures key in seed && seed[key].fp == fp ==> Payload(r) == Some(seed[key].value)
    ensures key !in seed || seed[key].fp != fp ==> r == built
  {
    if key in seed && seed[key].fp == fp then Written(built, seed[key].value) else built
  }

  predicate Can(s: Page, e: Event) {
    match e
    case Request(b) => !s.phase.Reloaded? && WellFormed(b)
    case Mutate(a, c) => !s.phase.Reloaded? && a < |s.heap|
    case Register(t) => !s.phase.Reloaded?
    case BeginSwap => s.phase.Idle? && s.waiting != []
    case RunCleanup => s.phase.Tearing? && s.phase.pending != []
    case ClearRegistry => s.phase.Tearing? && s.phase.pending == []
    case Evaluate => s.phase.Importing? && s.at < |s.bundle|
    case Resolve => s.phase.Importing? && s.at == |s.bundle|
    case Fail => s.phase.Importing?
  }

  function Do(s: Page, e: Event): Page
    requires Can(s, e)
  {
    match e
    case Request(b) => s.(waiting := s.waiting + [b], requested := s.requested + [b])
    case Mutate(a, c) => s.(heap := s.heap[a := Owned(s.heap[a].key, c)])
    case Register(t) => s.(teardowns := s.teardowns + [t], registered := s.registered + [t])
    case BeginSwap => s.(seed := Captured(s.exposed, s.heap), teardowns := [], waiting := s.waiting[1..],
                         phase := Tearing(s.waiting[0], s.teardowns))
    case RunCleanup => s.(phase := Tearing(s.phase.next, s.phase.pending[1..]), ran := s.ran + [s.phase.pending[0]])
    case ClearRegistry => s.(exposed := map[], phase := Importing, bundle := s.phase.next, at := 0, slots := [])
    case Evaluate => EvaluateOne(s, s.bundle[s.at])
    case Resolve => s.(phase := Idle, evaluated := s.evaluated + [s.bundle])
    case Fail => s.(phase := Reloaded)
  }

  function EvaluateOne(s: Page, st: Statement): Page {
    match st
    case Adopt(key, fp, built) =>
      s.(heap := s.heap + [Owned(key, Adopted(s.seed, key, fp, built))], slots := s.slots + [|s.heap|], at := s.at + 1)
    case Expose(key, fp, slot) =>
      s.(exposed := if slot < |s.slots| then s.exposed[key := Exposure(fp, s.slots[slot])] else s.exposed,
         at := s.at + 1)
  }

  /** The page as its own document loads its first bundle. */
  function Boot(b: Bundle): Page {
    Page(map[], map[], [], [], Importing, [], b, 0, [], [], [], [b], [])
  }

  predicate CanAll(s: Page, es: seq<Event>)
    decreases |es|
  {
    es == [] || (Can(s, es[0]) && CanAll(Do(s, es[0]), es[1..]))
  }

  function DoAll(s: Page, es: seq<Event>): Page
    requires CanAll(s, es)
    decreases |es|
  {
    if es == [] then s else DoAll(Do(s, es[0]), es[1..])
  }

  // ----- what every step keeps -----

  function Pending(s: Page): seq<Cleanup> {
    if s.phase.Tearing? then s.phase.pending else []
  }

  function UnderWay(s: Page): seq<Bundle> {
    match s.phase
    case Tearing(next, _) => [next]
    case Importing => [s.bundle]
    case Reloaded => [s.bundle]
    case Idle => []
  }

  /** The cells adopted so far are the heap's, in the bundle's order, and each is its key's. */
  predicate SlotsHold(s: Page)
    requires s.at <= |s.bundle|
  {
    && |s.slots| == |AdoptsOf(s.bundle[..s.at])|
    && (forall j :: 0 <= j < |s.slots|
          ==> s.slots[j] < |s.heap| && s.heap[s.slots[j]].key == AdoptsOf(s.bundle[..s.at])[j].key)
  }

  predicate Inv(s: Page) {
    && s.at <= |s.bundle| && WellFormed(s.bundle) && SlotsHold(s)
    && (s.phase.Idle? || s.phase.Tearing? ==> s.at == |s.bundle|)
    && s.exposed == ExposedBy(s.bundle[..s.at], s.slots)
    && (forall b :: b in s.waiting ==> WellFormed(b)) && (s.phase.Tearing? ==> WellFormed(s.phase.next))
    && s.registered == s.ran + Pending(s) + s.teardowns
    && s.requested == s.evaluated + UnderWay(s) + s.waiting
    && (s.evaluated != [] && !s.phase.Importing? && !s.phase.Reloaded? ==> s.bundle == s.evaluated[|s.evaluated| - 1])
  }

  lemma {:induction false} ExposedByMore(b: Bundle, i: nat, slots: seq<nat>, more: nat)
    requires WellFormed(b) && i <= |b| && |slots| == |AdoptsOf(b[..i])|
    ensures ExposedBy(b[..i], slots + [more]) == ExposedBy(b[..i], slots)
  {
    ExposedWithin(b, i, slots, slots + [more]);
  }

  lemma {:induction false} AdoptsGrow(b: Bundle, i: nat, j: nat)
    requires i <= j <= |b|
    ensures AdoptsOf(b[..i]) <= AdoptsOf(b[..j])
    decreases j
  {
    if i < j {
      AdoptsGrow(b, i, j - 1);
      assert b[..j][..j - 1] == b[..j - 1];
    }
  }

  lemma {:induction false} ExposedWithin(b: Bundle, i: nat, slots: seq<nat>, slots': seq<nat>)
    requires WellFormed(b) && i <= |b| && |AdoptsOf(b[..i])| <= |slots| && slots <= slots'
    ensures ExposedBy(b[..i], slots') == ExposedBy(b[..i], slots)
    decreases i
  {
    if i > 0 {
      assert b[..i][..i - 1] == b[..i - 1];
      AdoptsGrow(b, i - 1, i);
      ExposedWithin(b, i - 1, slots, slots');
      assert ExposesOwn(b, i - 1);
    }
  }

  lemma EvaluateKeeps(s: Page)
    requires Inv(s) && Can(s, Evaluate)
    ensures Inv(Do(s, Evaluate))
  {
    var s' := Do(s, Evaluate);
    assert s.bundle[..s.at + 1][..s.at] == s.bundle[..s.at];
    assert ExposesOwn(s.bundle, s.at);
    if s.bundle[s.at].Adopt? {
      ExposedByMore(s.bundle, s.at, s.slots, |s.heap|);
    }
  }

  /** Whatever happens next, the captures, the teardowns and the swaps stay in step. */
  lemma StepKeepsInv(s: Page, e: Event)
    requires Inv(s) && Can(s, e)
    ensures Inv(Do(s, e))
  {
    match e
    case Evaluate => EvaluateKeeps(s);
    case ClearRegistry => assert s.phase.next[..0] == [];
    case _ =>
  }

  lemma {:induction false} RunKeepsInv(s: Page, es: seq<Event>)
    requires Inv(s) && CanAll(s, es)
    ensures Inv(DoAll(s, es))
    decreases |es|
  {
    if es != [] {
      StepKeepsInv(s, es[0]);
      RunKeepsInv(Do(s, es[0]), es[1..]);
    }
  }

  /** From the page's own load on, whenever a swap captures, no import is pending and the registry is
      exactly what the last evaluated bundle exposed; the cleanups run are the earliest registered,
      each once and in order, and all of those registered before the capture have run when the next
      bundle evaluates; and the bundles evaluate in the order they were requested, each once. */
  lemma SwapsAreSerial(first: Bundle, es: seq<Event>)
    requires WellFormed(first) && CanAll(Boot(first), es)
    ensures var s := DoAll(Boot(first), es);
            && s.evaluated <= s.requested && s.ran <= s.registered
            && (Can(s, BeginSwap) ==>
                  && s.evaluated != [] && s.bundle == s.evaluated[|s.evaluated| - 1]
                  && s.requested == s.evaluated + s.waiting
                  && s.exposed == ExposedBy(s.bundle, s.slots))
            && (s.phase.Importing? ==> s.registered == s.ran + s.teardowns)
  {
    BootHolds(first);
    RunKeepsInv(Boot(first), es);
    EvaluatedOnce(Boot(first), es);
    var s := DoAll(Boot(first), es);
    if s.phase.Idle? { assert s.bundle[..s.at] == s.bundle; }
  }

  lemma BootHolds(first: Bundle)
    requires WellFormed(first)
    ensures Inv(Boot(first))
  {
    assert first[..0] == [];
  }

  /** Off the page's first load, nothing is idle before something evaluated. */
  lemma {:induction false} EvaluatedOnce(s: Page, es: seq<Event>)
    requires CanAll(s, es) && (s.phase.Idle? || s.phase.Tearing? ==> s.evaluated != [])
    ensures var t := DoAll(s, es); t.phase.Idle? || t.phase.Tearing? ==> t.evaluated != []
    decreases |es|
  {
    if es != [] { EvaluatedOnce(Do(s, es[0]), es[1..]); }
  }

  lemma CleanupsAdvance(s: Page, e: Event)
    requires Inv(s) && Can(s, e)
    ensures s.ran <= Do(s, e).ran && s.ran + Pending(s) <= Do(s, e).ran + Pending(Do(s, e))
  {
    if e.RunCleanup? {
      assert s.ran + s.phase.pending == (s.ran + [s.phase.pending[0]]) + s.phase.pending[1..];
    }
  }

  lemma {:induction false} CleanupsGrow(s: Page, es: seq<Event>)
    requires Inv(s) && CanAll(s, es)
    ensures s.ran <= DoAll(s, es).ran && s.ran + Pending(s) <= DoAll(s, es).ran + Pending(DoAll(s, es))
    decreases |es|
  {
    if es != [] {
      StepKeepsInv(s, es[0]);
      CleanupsAdvance(s, es[0]);
      CleanupsGrow(Do(s, es[0]), es[1..]);
    }
  }

  /** Every cleanup registered before a capture has run, and none of them twice, whenever the swap is
      past its teardown: before its bundle evaluates. */
  lemma CleanupsRunFirst(s: Page, es: seq<Event>)
    requires Inv(s) && Can(s, BeginSwap) && CanAll(Do(s, BeginSwap), es)
    ensures var t := DoAll(Do(s, BeginSwap), es);
            && s.registered <= t.registered
            && (!t.phase.Tearing? ==> s.registered <= t.ran && t.ran <= t.registered)
  {
    var begun := Do(s, BeginSwap);
    StepKeepsInv(s, BeginSwap);
    CleanupsGrow(begun, es);
    RunKeepsInv(begun, es);
    var t := DoAll(begun, es);
    assert s.registered == begun.ran + Pending(begun) <= t.ran + Pending(t) <= t.registered;
  }

  // ----- what a swap carries -----

  /** The cell `key` holds in the bundle that last began to evaluate. */
  function LiveSlot(s: Page, key: Key): Option<nat>
    requires Inv(s)
  {
    Find(s.slots, s.heap, key)
  }

  function Find(slots: seq<nat>, heap: seq<Owned>, key: Key): (r: Option<nat>)
    requires forall j :: 0 <= j < |slots| ==> slots[j] < |heap|
    ensures r.Some? ==> r.value in slots && heap[r.value].key == key
    ensures r.None? ==> forall a :: a in slots ==> heap[a].key != key
  {
    if slots == [] then None
    else if heap[slots[|slots| - 1]].key == key then Some(slots[|slots| - 1])
    else Find(slots[..|slots| - 1], heap, key)
  }

  /** What `key` under `fp` is worth now: its live cell's payload, or, from the capture until the next
      bundle adopts it, what was captured. */
  function Worth(s: Page, key: Key, fp: Fingerprint): Option<Value>
    requires Inv(s)
  {
    if !s.phase.Tearing? && LiveSlot(s, key).Some? then Payload(s.heap[LiveSlot(s, key).value].cell)
    else if key in s.seed && s.seed[key].fp == fp then Some(s.seed[key].value)
    else None
  }

  /** Every bundle in the page, or about to be, exposes `key` under `fp`. */
  predicate AllPersist(s: Page, key: Key, fp: Fingerprint) {
    && Persists(s.bundle, key, fp) && (forall b :: b in s.waiting ==> Persists(b, key, fp))
    && (s.phase.Tearing? ==> Persists(s.phase.next, key, fp))
  }

  /** The event is not the program's own writing to the key's live cell, nor the end of the page, and
      any bundle it requests exposes the key still. */
  predicate Spares(s: Page, e: Event, key: Key, fp: Fingerprint)
    requires Inv(s)
  {
    && !e.Fail?
    && (e.Request? ==> Persists(e.bundle, key, fp))
    && (e.Mutate? ==> Some(e.address) != LiveSlot(s, key))
  }

  predicate SparesAll(s: Page, es: seq<Event>, key: Key, fp: Fingerprint)
    requires Inv(s) && CanAll(s, es)
    decreases |es|
  {
    es == [] || (StepKeepsInv(s, es[0]); Spares(s, es[0], key, fp) && SparesAll(Do(s, es[0]), es[1..], key, fp))
  }

  /** Once every statement ran the registry holds the key, at its live cell. */
  lemma {:induction false} Exposes(s: Page, i: nat, key: Key, fp: Fingerprint)
    requires Inv(s) && i <= s.at
    requires forall j :: 0 <= j < |s.bundle| && s.bundle[j].key == key ==> s.bundle[j].fp == fp
    ensures var r := ExposedBy(s.bundle[..i], s.slots);
            && ((exists j :: 0 <= j < i && s.bundle[j].Expose? && s.bundle[j].key == key) ==> key in r)
            && (key in r ==> r[key].fp == fp && LiveSlot(s, key) == Some(r[key].address))
    decreases i
  {
    if i > 0 {
      assert s.bundle[..i][..i - 1] == s.bundle[..i - 1];
      Exposes(s, i - 1, key, fp);
      assert ExposesOwn(s.bundle, i - 1);
      AdoptsGrow(s.bundle, i - 1, s.at);
      AdoptsGrow(s.bundle, s.at, |s.bundle|);
      assert s.bundle[..|s.bundle|] == s.bundle;
      var st := s.bundle[i - 1];
      if st.Expose? && st.key == key {
        FindIs(s, key, st.slot);
      }
    }
  }

  lemma FindIs(s: Page, key: Key, j: nat)
    requires Inv(s) && j < |s.slots| && AdoptsOf(s.bundle[..s.at])[j].key == key
    ensures LiveSlot(s, key) == Some(s.slots[j])
  {
    AdoptsGrow(s.bundle, s.at, |s.bundle|);
    assert s.bundle[..|s.bundle|] == s.bundle;
    var a := LiveSlot(s, key);
    assert s.heap[s.slots[j]].key == key && s.slots[j] in s.slots;
    var i :| 0 <= i < |s.slots| && s.slots[i] == a.value;
    assert AdoptsOf(s.bundle)[i].key == key == AdoptsOf(s.bundle)[j].key;
  }

  lemma IdleExposes(s: Page, key: Key, fp: Fingerprint)
    requires Inv(s) && s.phase.Idle? && Persists(s.bundle, key, fp)
    ensures key in s.exposed && s.exposed[key].fp == fp && LiveSlot(s, key) == Some(s.exposed[key].address)
  {
    Exposes(s, s.at, key, fp);
  }

  lemma AdoptKeepsWorth(s: Page, key: Key, fp: Fingerprint)
    requires Inv(s) && Can(s, Evaluate) && s.bundle[s.at].Adopt? && Persists(s.bundle, key, fp)
    requires Worth(s, key, fp).Some?
    ensures Inv(Do(s, Evaluate)) && Worth(Do(s, Evaluate), key, fp) == Worth(s, key, fp)
  {
    EvaluateKeeps(s);
    var s', st := Do(s, Evaluate), s.bundle[s.at];
    assert s'.slots[..|s.slots|] == s.slots;
    FindFramed(s.slots, s.heap, s'.heap, key);
    if st.key == key && LiveSlot(s, key).Some? {
      AdoptedOnce(s, st);
      assert false;
    }
  }

  lemma FindFramed(slots: seq<nat>, heap: seq<Owned>, heap': seq<Owned>, key: Key)
    requires forall j :: 0 <= j < |slots|
               ==> slots[j] < |heap| && slots[j] < |heap'| && heap[slots[j]].key == heap'[slots[j]].key
    ensures Find(slots, heap, key) == Find(slots, heap', key)
  {
  }

  /** A statement about to adopt is the first to adopt its key. */
  lemma AdoptedOnce(s: Page, st: Statement)
    requires Inv(s) && Can(s, Evaluate) && st == s.bundle[s.at] && st.Adopt?
    ensures LiveSlot(s, st.key).None?
  {
    var before, after := AdoptsOf(s.bundle[..s.at]), AdoptsOf(s.bundle[..s.at + 1]);
    assert s.bundle[..s.at + 1][..s.at] == s.bundle[..s.at] && after == before + [st];
    AdoptsGrow(s.bundle, s.at + 1, |s.bundle|);
    assert s.bundle[..|s.bundle|] == s.bundle;
    forall a | a in s.slots ensures s.heap[a].key != st.key {
      var j :| 0 <= j < |s.slots| && s.slots[j] == a;
      assert AdoptsOf(s.bundle)[j] == before[j] && AdoptsOf(s.bundle)[|before|] == st;
    }
  }

  lemma CaptureKeepsWorth(s: Page, key: Key, fp: Fingerprint)
    requires Inv(s) && Can(s, BeginSwap) && Persists(s.bundle, key, fp) && Worth(s, key, fp).Some?
    ensures Inv(Do(s, BeginSwap)) && Worth(Do(s, BeginSwap), key, fp) == Worth(s, key, fp)
  {
    StepKeepsInv(s, BeginSwap);
    IdleExposes(s, key, fp);
  }

  /** No step of a swap changes what a persisting binding is worth. */
  lemma StepKeepsWorth(s: Page, e: Event, key: Key, fp: Fingerprint)
    requires Inv(s) && Can(s, e) && AllPersist(s, key, fp) && Spares(s, e, key, fp) && Worth(s, key, fp).Some?
    ensures Inv(Do(s, e)) && AllPersist(Do(s, e), key, fp) && Worth(Do(s, e), key, fp) == Worth(s, key, fp)
  {
    StepKeepsInv(s, e);
    match e
    case BeginSwap => CaptureKeepsWorth(s, key, fp);
    case Evaluate => if s.bundle[s.at].Adopt? { AdoptKeepsWorth(s, key, fp); }
    case Mutate(a, c) => FindFramed(s.slots, s.heap, Do(s, e).heap, key);
    case _ =>
  }

  lemma {:induction false} RunKeepsWorth(s: Page, es: seq<Event>, key: Key, fp: Fingerprint)
    requires Inv(s) && CanAll(s, es) && AllPersist(s, key, fp) && SparesAll(s, es, key, fp) && Worth(s, key, fp).Some?
    ensures Inv(DoAll(s, es)) && AllPersist(DoAll(s, es), key, fp) && Worth(DoAll(s, es), key, fp) == Worth(s, key, fp)
    decreases |es|
  {
    if es != [] {
      StepKeepsWorth(s, es[0], key, fp);
      RunKeepsWorth(Do(s, es[0]), es[1..], key, fp);
    }
  }

  /** What the getter of an exposed key answers. */
  function Answer(s: Page, key: Key): Option<Value>
    requires key in s.exposed
  {
    if s.exposed[key].address < |s.heap| then Payload(s.heap[s.exposed[key].address].cell) else None
  }

  /** Over any run of overlapping swaps whose bundles all expose a key under one fingerprint, its getter
      answers at the end what it answered at the start, unless the program itself wrote to the cell. */
  lemma ValueCarriesOver(s: Page, es: seq<Event>, key: Key, fp: Fingerprint)
    requires Inv(s) && s.phase.Idle? && CanAll(s, es) && AllPersist(s, key, fp) && SparesAll(s, es, key, fp)
    requires key in s.exposed && Answer(s, key).Some?
    ensures var t := DoAll(s, es); t.phase.Idle? ==> key in t.exposed && Answer(t, key) == Answer(s, key)
  {
    IdleExposes(s, key, fp);
    RunKeepsWorth(s, es, key, fp);
    var t := DoAll(s, es);
    if t.phase.Idle? { IdleExposes(t, key, fp); }
  }
}

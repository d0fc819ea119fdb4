/** The shim's own closure, carrying out HotSwap's events on its fields (crates/vilan-cli/src/hmr_shim.js). */
module HotSwapShim {
  import opened HotSwap

  function Cleanups(n: nat): seq<Event> {
    seq(n, _ => RunCleanup)
  }

  lemma {:induction false} RunsAll(s: Page, n: nat)
    requires s.phase.Tearing? && n <= |s.phase.pending|
    ensures CanAll(s, Cleanups(n))
    ensures DoAll(s, Cleanups(n))
              == s.(phase := Tearing(s.phase.next, s.phase.pending[n..]), ran := s.ran + s.phase.pending[..n])
    decreases n
  {
    if n == 0 {
      assert s.phase.pending[0..] == s.phase.pending && s.ran + s.phase.pending[..0] == s.ran;
    } else {
      var next := Do(s, RunCleanup);
      assert Cleanups(n)[1..] == Cleanups(n - 1);
      RunsAll(next, n - 1);
      assert next.phase.pending[..n - 1] == s.phase.pending[1..n];
      assert [s.phase.pending[0]] + s.phase.pending[1..n] == s.phase.pending[..n];
      assert next.phase.pending[n - 1..] == s.phase.pending[n..];
      assert next.ran + s.phase.pending[1..n] == s.ran + s.phase.pending[..n];
    }
  }

  /** A swap with nothing else happening in it: the capture, every cleanup, the registry cleared. */
  function SwapEvents(cleanups: nat): seq<Event> {
    [BeginSwap] + Cleanups(cleanups) + [ClearRegistry]
  }

  lemma {:induction false} Then(s: Page, es: seq<Event>, e: Event)
    requires CanAll(s, es) && Can(DoAll(s, es), e)
    ensures CanAll(s, es + [e]) && DoAll(s, es + [e]) == Do(DoAll(s, es), e)
    decreases |es|
  {
    if es == [] {
      assert [] + [e] == [e];
      assert DoAll(Do(s, e), []) == Do(s, e);
    } else {
      Then(Do(s, es[0]), es[1..], e);
      assert (es + [e])[1..] == es[1..] + [e];
    }
  }

  /** The page with the next swap's import pending. */
  function SwappedOut(s: Page): Page
    requires Can(s, BeginSwap)
  {
    s.(seed := Captured(s.exposed, s.heap), teardowns := [], waiting := s.waiting[1..], exposed := map[],
       phase := Importing, bundle := s.waiting[0], at := 0, slots := [], ran := s.ran + s.teardowns)
  }

  /** Carried out in one go, a swap is its events in a row. */
  lemma SwapIsItsEvents(s: Page)
    requires Can(s, BeginSwap)
    ensures CanAll(s, SwapEvents(|s.teardowns|)) && DoAll(s, SwapEvents(|s.teardowns|)) == SwappedOut(s)
  {
    var n := |s.teardowns|;
    var begun := Do(s, BeginSwap);
    RunsAll(begun, n);
    assert s.teardowns[..n] == s.teardowns && s.teardowns[n..] == [];
    Then(begun, Cleanups(n), ClearRegistry);
    assert SwapEvents(n)[1..] == Cleanups(n) + [ClearRegistry];
  }

  class Shim {
    var exposed: map<Key, Exposure>
    var seed: map<Key, Capture>
    var teardowns: seq<Cleanup>
    var swapChain: seq<Bundle>
    var phase: Phase
    var heap: seq<Owned>
    var bundle: Bundle
    var at: nat
    var slots: seq<nat>
    ghost var registered: seq<Cleanup>
    var ran: seq<Cleanup>
    ghost var requested: seq<Bundle>
    ghost var evaluated: seq<Bundle>

    ghost function State(): Page
      reads this
    {
      Page(exposed, seed, teardowns, swapChain, phase, heap, bundle, at, slots, registered, ran, requested, evaluated)
    }

    constructor (first: Bundle)
      ensures State() == Boot(first)
    {
      exposed, seed, teardowns, swapChain := map[], map[], [], [];
      phase, heap, bundle, at, slots := Importing, [], first, 0, [];
      registered, ran, requested, evaluated := [], [], [first], [];
    }

    /** `__hmr_adopt` and its three kin: the cell the binding gets. */
    method AdoptBinding(key: Key, fp: Fingerprint, built: Cell) returns (cell: Cell)
      requires Can(State(), Evaluate) && bundle[at] == Adopt(key, fp, built)
      modifies this
      ensures State() == Do(old(State()), Evaluate)
      ensures |heap| == |old(heap)| + 1 && heap[|heap| - 1] == Owned(key, cell)
    {
      cell := built;
      if key in seed {
        var entry := seed[key];
        if entry.fp == fp {
          match built {
            case Plain(_) => cell := Plain(entry.value);
            case Signal(_, subscribers) => cell := Signal(entry.value, subscribers);
            case Shared(_) => cell := Shared(entry.value);
            case Lazy(_, _, _) => cell := Lazy(DONE, entry.value, false);
          }
        }
      }
      slots := slots + [|heap|];
      heap := heap + [Owned(key, cell)];
      at := at + 1;
    }

    /** `__hmr_expose`. */
    method ExposeBinding(key: Key, fp: Fingerprint, slot: nat)
      requires Can(State(), Evaluate) && bundle[at] == Expose(key, fp, slot) && slot < |slots|
      modifies this
      ensures State() == Do(old(State()), Evaluate)
    {
      exposed := exposed[key := Exposure(fp, slots[slot])];
      at := at + 1;
    }

    /** `__hmr_register_teardown`. */
    method RegisterTeardown(cleanup: Cleanup)
      requires Can(State(), Register(cleanup))
      modifies this
      ensures State() == Do(old(State()), Register(cleanup))
    {
      teardowns := teardowns + [cleanup];
      registered := registered + [cleanup];
    }

    method Swap(b: Bundle)
      requires Can(State(), Request(b))
      modifies this
      ensures State() == Do(old(State()), Request(b))
    {
      swapChain := swapChain + [b];
      requested := requested + [b];
    }

    /** The snapshot of every exposed binding; a throwing getter's key is left out. */
    method CaptureExposed() returns (captured: map<Key, Capture>)
      requires forall k :: k in exposed ==> exposed[k].address < |heap|
      ensures captured == Captured(exposed, heap)
    {
      captured := map[];
      var left := exposed.Keys;
      while left != {}
        invariant left <= exposed.Keys
        invariant captured == map k | k in Captured(exposed, heap) && k !in left :: Captured(exposed, heap)[k]
        decreases left
      {
        var key :| key in left;
        var answer := Payload(heap[exposed[key].address].cell);
        if answer.Some? {
          captured := captured[key := Capture(exposed[key].fp, answer.value)];
        }
        left := left - {key};
      }
    }

    /** Each cleanup of the list, once. */
    method RunTeardowns(pending: seq<Cleanup>)
      modifies this`ran
      ensures ran == old(ran) + pending
    {
      var index := 0;
      while index < |pending|
        invariant index <= |pending| && ran == old(ran) + pending[..index]
      {
        ran := ran + [pending[index]];
        index := index + 1;
      }
      assert pending[..index] == pending;
    }

    /** Every cleanup of the list, once, and then an empty registry for the next bundle. */
    method TearDown()
      modifies this`teardowns, this`ran, this`exposed
      ensures teardowns == [] && ran == old(ran) + old(teardowns) && exposed == map[]
    {
      var pending := teardowns;
      teardowns := [];
      RunTeardowns(pending);
      exposed := map[];
    }

    method BeginImport()
      requires swapChain != []
      modifies this`phase, this`bundle, this`at, this`slots, this`swapChain
      ensures phase == Importing && bundle == old(swapChain)[0] && at == 0 && slots == []
      ensures swapChain == old(swapChain)[1..]
    {
      phase, bundle, at, slots, swapChain := Importing, swapChain[0], 0, [], swapChain[1..];
    }

    /** The next swap of the chain, up to its import: capture, teardown, clear. */
    method PerformSwap()
      requires Can(State(), BeginSwap) && forall k :: k in exposed ==> exposed[k].address < |heap|
      modifies this
      ensures State() == SwappedOut(old(State()))
    {
      seed := CaptureExposed();
      TearDown();
      BeginImport();
    }

    /** The import's end: the chain may go on. */
    method ImportResolved()
      requires Can(State(), Resolve)
      modifies this
      ensures State() == Do(old(State()), Resolve)
    {
      phase := Idle;
      evaluated := evaluated + [bundle];
    }
  }

  lemma {:induction false} ExposuresIn(b: Bundle, slots: seq<nat>, k: Key)
    requires k in ExposedBy(b, slots)
    ensures ExposedBy(b, slots)[k].address in slots
  {
    if b != [] && k in ExposedBy(b[..|b| - 1], slots) { ExposuresIn(b[..|b| - 1], slots, k); }
  }

  /** What the capture asks of the registry holds in every state a run reaches. */
  lemma ExposuresResolve(s: Page)
    requires Inv(s)
    ensures forall k :: k in s.exposed ==> s.exposed[k].address < |s.heap|
  {
    forall k | k in s.exposed ensures s.exposed[k].address < |s.heap| {
      ExposuresIn(s.bundle[..s.at], s.slots, k);
    }
  }
}

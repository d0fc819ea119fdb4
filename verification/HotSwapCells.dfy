/** What one swap makes of a binding, in its cell's own fields (crates/vilan-cli/src/hmr_shim.js): a
    value carries into the cell the next bundle built, and a lazy cell that was not forced carries
    nothing. */
module HotSwapCells {
  import opened Basics
  import opened HotSwap

  /** State 2 is a lazy cell's `done`. */
  predicate Unforced(c: Cell) {
    c.Lazy? && c.state != 2
  }

  /** `now` is what the next bundle's binding holds, `was` being the cell its predecessor held when the
      swap captured, and `built` the one it built itself. */
  predicate Carried(was: Cell, built: Cell, now: Cell) {
    if Unforced(was) then now == built
    else
      match built
      case Plain(_) => now == Plain(was.value)
      case Signal(_, subscribers) => now == Signal(was.value, subscribers)
      case Shared(_) => now == Shared(was.value)
      case Lazy(_, _, _) => now == Lazy(2, was.value, false)
  }

  /** The capture holds exactly the exposed keys whose cell is not an unforced lazy one, each with its
      fingerprint and its cell's value. */
  lemma CaptureIsExact(s: Page, key: Key)
    requires Can(s, BeginSwap)
    ensures var seed := Do(s, BeginSwap).seed;
            && (key in seed <==> key in s.exposed && s.exposed[key].address < |s.heap|
                                 && !Unforced(s.heap[s.exposed[key].address].cell))
            && (key in seed ==> seed[key] == Capture(s.exposed[key].fp, s.heap[s.exposed[key].address].cell.value))
  {
  }

  /** The seed holds for `key` what the capture found in `was`. */
  predicate Seeded(s: Page, key: Key, fp: Fingerprint, was: Cell) {
    if Unforced(was) then key !in s.seed else key in s.seed && s.seed[key] == Capture(fp, was.value)
  }

  ghost predicate BuiltBy(next: Bundle, key: Key, built: Cell) {
    exists st :: st in next && st.Adopt? && st.key == key && st.built == built
  }

  /** `next` builds a cell for `key`, and whichever it builds, `now` is it with `was` carried into it. */
  ghost predicate CarriedInto(next: Bundle, key: Key, was: Cell, now: Cell) {
    && (exists built :: BuiltBy(next, key, built))
    && forall built :: BuiltBy(next, key, built) ==> Carried(was, built, now)
  }

  /** The swap to `next` is under way or done, its capture having found `was` under `key`. */
  ghost predicate Swapping(s: Page, next: Bundle, key: Key, fp: Fingerprint, was: Cell) {
    && Inv(s) && Seeded(s, key, fp, was) && Persists(next, key, fp)
    && (if s.phase.Tearing? then s.phase.next == next
        else s.bundle == next
             && (LiveSlot(s, key).Some? ==> CarriedInto(next, key, was, s.heap[LiveSlot(s, key).value].cell)))
  }

  /** No other swap begins, and once the next bundle evaluates the program does not write to the key's cell. */
  predicate Leaves(s: Page, e: Event, key: Key)
    requires Inv(s)
  {
    !e.BeginSwap? && (e.Mutate? && !s.phase.Tearing? ==> Some(e.address) != LiveSlot(s, key))
  }

  predicate LeavesAll(s: Page, es: seq<Event>, key: Key)
    requires Inv(s) && CanAll(s, es)
    decreases |es|
  {
    es == [] || (StepKeepsInv(s, es[0]); Leaves(s, es[0], key) && LeavesAll(Do(s, es[0]), es[1..], key))
  }

  lemma {:induction false} AdoptIsListed(b: Bundle, i: nat, j: nat)
    requires i < j <= |b| && b[i].Adopt?
    ensures |AdoptsOf(b[..i])| < |AdoptsOf(b[..j])| && AdoptsOf(b[..j])[|AdoptsOf(b[..i])|] == b[i]
    decreases j
  {
    assert b[..j][..j - 1] == b[..j - 1];
    if i < j - 1 {
      AdoptIsListed(b, i, j - 1);
    } else {
      assert b[..j][|b[..j]| - 1] == b[i];
    }
  }

  /** A well-formed bundle adopts a key once. */
  lemma OneAdoption(b: Bundle, at: nat, other: Statement)
    requires WellFormed(b) && at < |b| && b[at].Adopt? && other in b && other.Adopt? && other.key == b[at].key
    ensures other == b[at]
  {
    var i :| 0 <= i < |b| && b[i] == other;
    AdoptIsListed(b, i, |b|);
    AdoptIsListed(b, at, |b|);
    assert b[..|b|] == b;
  }

  /** The statement that adopts the key leaves it the cell it built, carried. */
  lemma AdoptsCarried(s: Page, next: Bundle, key: Key, fp: Fingerprint, was: Cell)
    requires Swapping(s, next, key, fp, was) && Can(s, Evaluate) && s.bundle[s.at].Adopt? && s.bundle[s.at].key == key
    ensures LiveSlot(s, key).None?
    ensures CarriedInto(next, key, was, Adopted(s.seed, key, s.bundle[s.at].fp, s.bundle[s.at].built))
  {
    var st := s.bundle[s.at];
    AdoptedOnce(s, st);
    assert BuiltBy(next, key, st.built);
    forall built | BuiltBy(next, key, built) ensures built == st.built {
      var other :| other in next && other.Adopt? && other.key == key && other.built == built;
      OneAdoption(next, s.at, other);
    }
    assert st.fp == fp;
  }

  lemma AdoptionCarries(s: Page, next: Bundle, key: Key, fp: Fingerprint, was: Cell)
    requires Swapping(s, next, key, fp, was) && Can(s, Evaluate) && s.bundle[s.at].Adopt?
    ensures Swapping(Do(s, Evaluate), next, key, fp, was)
  {
    EvaluateKeeps(s);
    var s' := Do(s, Evaluate);
    assert s'.slots[..|s.slots|] == s.slots;
    FindFramed(s.slots, s.heap, s'.heap, key);
    if s.bundle[s.at].key == key { AdoptsCarried(s, next, key, fp, was); }
  }

  lemma StepCarries(s: Page, e: Event, next: Bundle, key: Key, fp: Fingerprint, was: Cell)
    requires Swapping(s, next, key, fp, was) && Can(s, e) && Leaves(s, e, key)
    ensures Swapping(Do(s, e), next, key, fp, was)
  {
    StepKeepsInv(s, e);
    match e
    case Evaluate => if s.bundle[s.at].Adopt? { AdoptionCarries(s, next, key, fp, was); }
    case Mutate(a, c) => FindFramed(s.slots, s.heap, Do(s, e).heap, key);
    case _ =>
  }

  lemma {:induction false} RunCarries(s: Page, es: seq<Event>, next: Bundle, key: Key, fp: Fingerprint, was: Cell)
    requires Swapping(s, next, key, fp, was) && CanAll(s, es) && LeavesAll(s, es, key)
    ensures Swapping(DoAll(s, es), next, key, fp, was)
    decreases |es|
  {
    if es != [] {
      StepCarries(s, es[0], next, key, fp, was);
      RunCarries(Do(s, es[0]), es[1..], next, key, fp, was);
    }
  }

  lemma CaptureSeeds(s: Page, key: Key, fp: Fingerprint)
    requires Inv(s) && Can(s, BeginSwap) && Persists(s.bundle, key, fp) && Persists(s.waiting[0], key, fp)
    ensures key in s.exposed && s.exposed[key].address < |s.heap|
    ensures Swapping(Do(s, BeginSwap), s.waiting[0], key, fp, s.heap[s.exposed[key].address].cell)
  {
    StepKeepsInv(s, BeginSwap);
    IdleExposes(s, key, fp);
    CaptureIsExact(s, key);
  }

  /** Over any run of one swap, whatever else happens in it: a binding both bundles expose under one
      fingerprint holds, from its adoption on, the cell its bundle built with the captured value in it -
      or just that cell, thunk and all, where the capture met a lazy cell not yet forced, which leaves
      the key out of the seed. */
  lemma SwapCarriesCells(s: Page, es: seq<Event>, key: Key, fp: Fingerprint)
    requires Inv(s) && Can(s, BeginSwap) && Persists(s.bundle, key, fp) && Persists(s.waiting[0], key, fp)
    requires CanAll(Do(s, BeginSwap), es) && Inv(Do(s, BeginSwap)) && LeavesAll(Do(s, BeginSwap), es, key)
    ensures key in s.exposed && s.exposed[key].address < |s.heap|
    ensures var was, t := s.heap[s.exposed[key].address].cell, DoAll(Do(s, BeginSwap), es);
            && Inv(t)
            && (Unforced(was) ==> key !in t.seed)
            && (!t.phase.Tearing? && LiveSlot(t, key).Some? ==>
                  CarriedInto(s.waiting[0], key, was, t.heap[LiveSlot(t, key).value].cell))
            && (t.phase.Idle? ==>
                  && t.bundle == s.waiting[0] && key in t.exposed && t.exposed[key].address < |t.heap|
                  && CarriedInto(s.waiting[0], key, was, t.heap[t.exposed[key].address].cell))
  {
    CaptureSeeds(s, key, fp);
    var was := s.heap[s.exposed[key].address].cell;
    RunCarries(Do(s, BeginSwap), es, s.waiting[0], key, fp, was);
    var t := DoAll(Do(s, BeginSwap), es);
    if t.phase.Idle? { IdleExposes(t, key, fp); }
  }
}

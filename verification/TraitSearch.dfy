/** Which traits' impls a member called through a bound can come from, searched two ways
    (`trait_subject_reachable` and `declaring_traits_in_chain`, crates/vilan-core/src/async_infer.rs). */
module TraitSearch {
  import opened Basics
  import opened Iterates

  type Id = nat

  /** The traits with the supertraits each names, and which of them declare the member asked for; a
      supertrait may be no trait of the program, and supertraits may be cyclic. */
  datatype Traits = Traits(supers: map<Id, seq<Id>>, declaring: set<Id>)

  predicate Declares(t: Traits, id: Id) {
    id in t.supers && id in t.declaring
  }

  /** Each trait of the path but the last does not declare the member, and names the next. */
  ghost predicate Path(t: Traits, path: seq<Id>) {
    && path != []
    && (forall i :: 0 <= i < |path| - 1
          ==> path[i] in t.supers && !Declares(t, path[i]) && path[i + 1] in t.supers[path[i]])
  }

  ghost predicate Leads(t: Traits, path: seq<Id>, from: Id, to: Id) {
    Path(t, path) && path[0] == from && path[|path| - 1] == to
  }

  /** `to` declares the member, and `from` reaches it through traits that do not. */
  ghost predicate Inherits(t: Traits, from: Id, to: Id) {
    Declares(t, to) && exists path :: Leads(t, path, from, to)
  }

  /** Whether some declaring trait is reached from `id`. */
  ghost predicate Reaches(t: Traits, id: Id) {
    exists to :: Inherits(t, id, to)
  }

  ghost predicate Closed(t: Traits, declaring: set<Id>) {
    && (forall id :: id in t.supers && Declares(t, id) ==> id in declaring)
    && (forall id, s :: id in t.supers && s in t.supers[id] && s in declaring ==> id in declaring)
  }

  /** The declaring traits, closed downward over supertraits; None when no trait declares the member. */
  method Saturate(t: Traits) returns (r: Option<set<Id>>)
    ensures r.None? <==> forall id :: id in t.supers ==> !Declares(t, id)
    ensures r.Some? ==> forall id :: id in t.supers ==> (id in r.value <==> Reaches(t, id))
  {
    var declaring := Declarers(t);
    assert forall id :: Declares(t, id) <==> id in declaring;
    if declaring == {} {
      return None;
    }
    DeclarersReach(t);
    while true
      invariant Declarers(t) <= declaring <= t.supers.Keys
      invariant AllReach(t, declaring)
      decreases t.supers.Keys - declaring
    {
      var inheriting := Inheriting(t, declaring);
      if inheriting == {} {
        break;
      }
      InheritingReach(t, declaring);
      declaring := declaring + inheriting;
    }
    ReachersIn(t, declaring);
    r := Some(declaring);
  }

  function Declarers(t: Traits): set<Id> {
    set id | id in t.supers && id in t.declaring
  }

  /** The traits not in `declaring` with a supertrait in it. */
  function Inheriting(t: Traits, declaring: set<Id>): set<Id> {
    set id | id in t.supers && id !in declaring && exists s :: s in t.supers[id] && s in declaring
  }

  ghost predicate AllReach(t: Traits, declaring: set<Id>) {
    forall id :: id in declaring ==> Reaches(t, id)
  }

  lemma InheritingReach(t: Traits, declaring: set<Id>)
    requires Declarers(t) <= declaring && AllReach(t, declaring)
    ensures AllReach(t, declaring + Inheriting(t, declaring))
  {
    forall id | id in Inheriting(t, declaring) ensures Reaches(t, id) {
      var s :| s in t.supers[id] && s in declaring;
      OneUp(t, id, s);
    }
  }

  lemma DeclarersReach(t: Traits)
    ensures AllReach(t, Declarers(t))
  {
    forall id | Declares(t, id) ensures Reaches(t, id) {
      assert Leads(t, [id], id, id);
      assert Inherits(t, id, id);
    }
  }

  lemma ReachersIn(t: Traits, declaring: set<Id>)
    requires Declarers(t) <= declaring && Inheriting(t, declaring) == {}
    ensures forall id :: id in t.supers && Reaches(t, id) ==> id in declaring
  {
    forall id, s | id in t.supers && s in t.supers[id] && s in declaring ensures id in declaring {
      assert id !in Inheriting(t, declaring);
    }
    assert forall id :: Declares(t, id) ==> id in Declarers(t);
    forall id | id in t.supers && Reaches(t, id) ensures id in declaring {
      var to :| Inherits(t, id, to);
      var path :| Leads(t, path, id, to);
      AllIn(t, declaring, path, 0);
    }
  }

  lemma OneUp(t: Traits, id: Id, s: Id)
    requires id in t.supers && !Declares(t, id) && s in t.supers[id] && Reaches(t, s)
    ensures Reaches(t, id)
  {
    var to :| Inherits(t, s, to);
    var path :| Leads(t, path, s, to);
    assert Leads(t, [id] + path, id, to);
    assert Inherits(t, id, to);
  }

  /** A set closed downward that holds the path's end holds it all. */
  lemma {:induction false} AllIn(t: Traits, declaring: set<Id>, path: seq<Id>, i: nat)
    requires Path(t, path) && i < |path| && Declares(t, path[|path| - 1])
    requires Closed(t, declaring)
    ensures path[i] in declaring
    decreases |path| - i
  {
    if i < |path| - 1 { AllIn(t, declaring, path, i + 1); }
  }

  // ----- the forward search -----

  ghost function Universe(t: Traits, from: Id): set<Id> {
    {from} + set id, s | id in t.supers && s in t.supers[id] :: s
  }

  /** What a seen trait passes the search on to. */
  ghost predicate Spread(t: Traits, seen: seq<Id>, pending: seq<Id>, from: Id) {
    && (from in seen || from in pending)
    && (forall id, s :: id in seen && id in t.supers && !Declares(t, id) && s in t.supers[id]
          ==> s in seen || s in pending)
  }

  /** The search gets to `id`. */
  ghost predicate Visits(t: Traits, from: Id, id: Id) {
    id in Universe(t, from) && exists path :: Leads(t, path, from, id)
  }

  lemma VisitsSupers(t: Traits, from: Id, id: Id)
    requires Visits(t, from, id) && id in t.supers && !Declares(t, id)
    ensures forall s :: s in t.supers[id] ==> Visits(t, from, s)
  {
    forall s | s in t.supers[id] ensures Visits(t, from, s) {
      var path :| Leads(t, path, from, id);
      assert Leads(t, path + [s], from, s);
    }
  }

  /** What the search holds between two traits. */
  ghost predicate Searching(t: Traits, from: Id, seen: seq<Id>, pending: seq<Id>, declaring: seq<Id>) {
    && Spread(t, seen, pending, from)
    && (forall id :: id in seen || id in pending ==> Visits(t, from, id))
    && (forall id :: id in declaring <==> id in seen && Declares(t, id))
    && (forall i, j :: 0 <= i < j < |declaring| ==> declaring[i] != declaring[j])
  }

  function Passed(t: Traits, id: Id): seq<Id> {
    if id in t.supers && id !in t.declaring then t.supers[id] else []
  }

  function Listed(t: Traits, id: Id, declaring: seq<Id>): seq<Id> {
    if id in t.supers && id in t.declaring then declaring + [id] else declaring
  }

  lemma SearchesOn(t: Traits, from: Id, seen: seq<Id>, rest: seq<Id>, id: Id, declaring: seq<Id>)
    requires Searching(t, from, seen, rest + [id], declaring)
    ensures id in seen ==> Searching(t, from, seen, rest, declaring)
    ensures id !in seen ==> Searching(t, from, seen + [id], rest + Passed(t, id), Listed(t, id, declaring))
  {
    assert forall x :: x in rest + [id] <==> x in rest || x == id;
    if id !in seen {
      assert forall x :: x in seen + [id] <==> x in seen || x == id;
      if Passed(t, id) != [] { VisitsSupers(t, from, id); }
    }
  }

  ghost function Unseen(t: Traits, from: Id, seen: seq<Id>): set<Id> {
    set id | id in Universe(t, from) && id !in seen
  }

  /** A depth-first search from `from`, stopping at declaring traits. */
  method DeclaringTraitsInChain(t: Traits, from: Id) returns (declaring: seq<Id>)
    ensures forall to :: to in declaring <==> Inherits(t, from, to)
    ensures forall i, j :: 0 <= i < j < |declaring| ==> declaring[i] != declaring[j]
  {
    var pending := [from];
    var seen: seq<Id> := [];
    declaring := [];
    assert Leads(t, [from], from, from);
    while pending != []
      invariant Searching(t, from, seen, pending, declaring)
      decreases Unseen(t, from, seen), |pending|
    {
      var id := pending[|pending| - 1];
      assert pending == pending[..|pending| - 1] + [id];
      pending := pending[..|pending| - 1];
      SearchesOn(t, from, seen, pending, id, declaring);
      if id in seen {
        continue;
      }
      assert id in Unseen(t, from, seen) && id !in Unseen(t, from, seen + [id]);
      assert pending + [] == pending;
      seen := seen + [id];
      if id !in t.supers {
        continue;
      }
      if id in t.declaring {
        declaring := declaring + [id];
        continue;
      }
      pending := pending + t.supers[id];
    }
    AllFound(t, from, seen);
  }

  lemma AllFound(t: Traits, from: Id, seen: seq<Id>)
    requires Spread(t, seen, [], from)
    ensures forall to :: Inherits(t, from, to) ==> to in seen
  {
    forall to | Inherits(t, from, to) ensures to in seen {
      var path :| Leads(t, path, from, to);
      AllSeen(t, seen, from, path, |path| - 1);
    }
  }

  lemma {:induction false} AllSeen(t: Traits, seen: seq<Id>, from: Id, path: seq<Id>, i: nat)
    requires Path(t, path) && path[0] == from && i < |path| && Spread(t, seen, [], from)
    ensures path[i] in seen
  {
    if i > 0 { AllSeen(t, seen, from, path, i - 1); }
  }

  /** The two searches agree: a trait is in the saturated set exactly when the search from it finds a
      declaring trait. */
  method SearchBothWays(t: Traits, from: Id) returns (saturated: bool, found: bool)
    requires from in t.supers
    ensures saturated == found
    ensures found <==> Reaches(t, from)
  {
    var closure := Saturate(t);
    var chain := DeclaringTraitsInChain(t, from);
    saturated := closure.Some? && from in closure.value;
    found := chain != [];
    if found { assert Inherits(t, from, chain[0]); }
  }
}

/** The order a round compiles its legs in (`legs_in_artifact_order`, crates/vilan-cli/src/hmr.rs). */
module LegOrder {
  import opened Iterates

  /** `r[leg]` are the legs whose artifacts `leg` reads; `r[leg]` may hold `leg` itself. */
  type Relation = seq<set<nat>>

  predicate WellFormed(r: Relation) {
    forall leg, producer :: 0 <= leg < |r| && producer in r[leg] ==> producer < |r|
  }

  predicate Ready(r: Relation, placed: set<nat>, leg: nat)
    requires leg < |r|
  {
    leg !in placed && forall producer :: producer in r[leg] ==> producer in placed || producer == leg
  }

  /** The least `leg >= from` that `p` holds of. */
  function Find(from: nat, count: nat, p: nat -> bool): (found: int)
    requires from <= count
    ensures found == -1 ==> forall leg :: from <= leg < count ==> !p(leg)
    ensures found != -1 ==> from <= found < count && p(found) && forall leg :: from <= leg < found ==> !p(leg)
    decreases count - from
  {
    if from == count then -1 else if p(from) then from else Find(from + 1, count, p)
  }

  // ----- what an order is -----

  predicate Permutation(order: seq<nat>, count: nat) {
    && |order| == count
    && (forall i :: 0 <= i < count ==> order[i] < count)
    && (forall i, j :: 0 <= i < j < count ==> order[i] != order[j])
  }

  function Members(s: seq<nat>): set<nat> {
    set x | x in s
  }

  /** The leg at `i` comes after every producer of its own. */
  predicate Follows(r: Relation, order: seq<nat>, i: nat)
    requires i < |order| && order[i] < |r|
  {
    forall producer :: producer in r[order[i]] && producer != order[i] ==> producer in order[..i]
  }

  ghost predicate Topological(r: Relation, order: seq<nat>) {
    Permutation(order, |r|) && forall i :: 0 <= i < |order| ==> Follows(r, order, i)
  }

  /** A chain of producers, each another leg than the one that reads it. */
  ghost predicate Chain(r: Relation, chain: seq<nat>) {
    && (forall i :: 0 <= i < |chain| ==> chain[i] < |r|)
    && (forall i :: 0 <= i < |chain| - 1 ==> chain[i + 1] in r[chain[i]] && chain[i + 1] != chain[i])
  }

  ghost predicate NoRepeat(s: seq<nat>) {
    forall i, j :: 0 <= i < j < |s| ==> s[i] != s[j]
  }

  /** Nothing `leg` transitively reads is on a cycle. */
  ghost predicate Tame(r: Relation, leg: nat) {
    forall chain :: Chain(r, chain) && chain != [] && chain[0] == leg ==> NoRepeat(chain)
  }

  ghost predicate Acyclic(r: Relation) {
    forall leg :: 0 <= leg < |r| ==> Tame(r, leg)
  }

  /** The leg the algorithm takes next: the least ready one, or the least unplaced one in a stall. */
  ghost predicate Picked(r: Relation, placed: set<nat>, leg: nat) {
    && leg < |r| && leg !in placed
    && (forall other :: 0 <= other < |r| && Ready(r, placed, other) ==> Ready(r, placed, leg) && leg <= other)
    && (Ready(r, placed, leg) || forall other :: 0 <= other < leg ==> other in placed)
  }

  ghost predicate Greedy(r: Relation, order: seq<nat>) {
    && Permutation(order, |r|)
    && forall i :: 0 <= i < |order| ==> Picked(r, Members(order[..i]), order[i])
  }

  // ----- the loop -----

  /** The first `count` legs. */
  ghost function Legs(count: nat): (r: set<nat>)
    ensures forall x: nat :: x in r <==> x < count
    ensures |r| == count
  {
    if count == 0 then {} else Legs(count - 1) + {count - 1}
  }

  lemma NotAllPlaced(order: seq<nat>, count: nat) returns (leg: nat)
    requires |order| < count
    ensures leg < count && leg !in order
  {
    SizeOfMembers(order);
    if Legs(count) <= Members(order) {
      Smaller(Legs(count), Members(order));
      assert false;
    }
    leg :| leg in Legs(count) && leg !in order;
  }

  lemma {:induction false} SizeOfMembers(s: seq<nat>)
    ensures |Members(s)| <= |s|
    ensures NoRepeat(s) ==> |Members(s)| == |s|
  {
    if s != [] {
      var n := |s| - 1;
      SizeOfMembers(s[..n]);
      assert Members(s) == Members(s[..n]) + {s[n]};
    }
  }

  method Pick(r: Relation, placed: array<bool>, ghost ordered: seq<nat>) returns (next: nat)
    requires WellFormed(r) && placed.Length == |r| && |ordered| < |r|
    requires forall leg :: 0 <= leg < |r| ==> (placed[leg] <==> leg in ordered)
    ensures Picked(r, Members(ordered), next)
  {
    var flags := placed[..];
    var waiting := (leg: nat) => leg < |flags| && !flags[leg];
    var ready := (leg: nat) => leg < |flags| == |r| && !flags[leg]
                               && forall producer :: producer in r[leg] ==> waiting(producer) ==> producer == leg;
    assert forall leg: nat :: leg < |r| ==> (waiting(leg) <==> leg !in Members(ordered));
    assert forall leg: nat :: leg < |r| ==> (ready(leg) <==> Ready(r, Members(ordered), leg));
    var found := Find(0, |r|, ready);
    if found == -1 {
      ghost var unplaced := NotAllPlaced(ordered, |r|);
      assert waiting(unplaced);
      found := Find(0, |r|, waiting);
    }
    next := found;
  }

  /** Kahn's algorithm, ties broken by declaration order and a stall by the least unplaced leg. */
  method LegsInArtifactOrder(r: Relation) returns (ordered: seq<nat>)
    requires WellFormed(r)
    ensures Greedy(r, ordered)
    ensures forall i :: 0 <= i < |ordered| && Tame(r, ordered[i]) ==> Follows(r, ordered, i)
    ensures Topological(r, ordered) <==> Acyclic(r)
    ensures forall order :: Topological(r, order) ==> ordered == order || LexBelow(ordered, order)
  {
    var count := |r|;
    var placed := new bool[count](_ => false);
    ordered := [];
    while |ordered| < count
      invariant |ordered| <= count && NoRepeat(ordered)
      invariant forall i :: 0 <= i < |ordered| ==> ordered[i] < count && Picked(r, Members(ordered[..i]), ordered[i])
      invariant forall leg :: 0 <= leg < count ==> (placed[leg] <==> leg in ordered)
    {
      var next := Pick(r, placed, ordered);
      placed[next] := true;
      assert ordered == (ordered + [next])[..|ordered|];
      assert forall i :: 0 <= i < |ordered| ==> (ordered + [next])[..i] == ordered[..i];
      ordered := ordered + [next];
    }
    GreedyFollows(r, ordered);
    GreedyIsTopological(r, ordered);
    GreedyIsLeast(r, ordered);
  }

  // ----- what the order promises -----

  /** In a stall every unplaced leg starts a chain of unplaced legs of any length. */
  lemma {:induction false} StallChain(r: Relation, placed: set<nat>, leg: nat, n: nat) returns (chain: seq<nat>)
    requires WellFormed(r) && leg < |r| && leg !in placed
    requires forall other :: 0 <= other < |r| ==> !Ready(r, placed, other)
    ensures Chain(r, chain) && |chain| == n + 1 && chain[0] == leg
    decreases n
  {
    chain := [leg];
    if n > 0 {
      assert !Ready(r, placed, leg);
      var producer :| producer in r[leg] && producer !in placed && producer != leg;
      var rest := StallChain(r, placed, producer, n - 1);
      chain := [leg] + rest;
      assert forall i :: 1 <= i < |chain| ==> chain[i] == rest[i - 1];
    }
  }

  lemma ChainTooLong(r: Relation, chain: seq<nat>)
    requires Chain(r, chain) && |chain| > |r|
    ensures !NoRepeat(chain)
  {
    SizeOfMembers(chain);
    Smaller(Members(chain), Legs(|r|));
  }

  /** A tame leg is taken only once its producers are placed. */
  lemma TameIsReady(r: Relation, placed: set<nat>, leg: nat)
    requires WellFormed(r) && Picked(r, placed, leg) && Tame(r, leg)
    ensures Ready(r, placed, leg)
  {
    if !Ready(r, placed, leg) {
      var chain := StallChain(r, placed, leg, |r|);
      ChainTooLong(r, chain);
    }
  }

  lemma GreedyFollows(r: Relation, order: seq<nat>)
    requires WellFormed(r) && Greedy(r, order)
    ensures forall i :: 0 <= i < |order| && Tame(r, order[i]) ==> Follows(r, order, i)
  {
    forall i | 0 <= i < |order| && Tame(r, order[i]) ensures Follows(r, order, i) {
      TameIsReady(r, Members(order[..i]), order[i]);
    }
  }

  lemma IndexOf(order: seq<nat>, leg: nat) returns (i: nat)
    requires leg in order
    ensures i < |order| && order[i] == leg
  {
    i :| 0 <= i < |order| && order[i] == leg;
  }

  /** Along a chain the places in a topological order only go down. */
  lemma {:induction false} ChainDescends(r: Relation, order: seq<nat>, chain: seq<nat>, i: nat, j: nat, at: nat)
    requires Topological(r, order) && Chain(r, chain) && i < j < |chain|
    requires at < |order| && order[at] == chain[i]
    ensures chain[j] in order[..at]
    decreases j - i
  {
    assert Follows(r, order, at);
    assert chain[i + 1] in order[..at];
    if i + 1 < j {
      var before := IndexOf(order[..at], chain[i + 1]);
      ChainDescends(r, order, chain, i + 1, j, before);
      assert order[..before] == order[..at][..before];
    }
  }

  lemma TopologicalIsAcyclic(r: Relation, order: seq<nat>)
    requires Topological(r, order)
    ensures Acyclic(r)
  {
    forall chain | Chain(r, chain) && chain != [] ensures NoRepeat(chain) {
      forall i, j | 0 <= i < j < |chain| ensures chain[i] != chain[j] {
        AllPlaced(order, |r|, chain[i]);
        var at := IndexOf(order, chain[i]);
        ChainDescends(r, order, chain, i, j, at);
      }
    }
  }

  lemma AllPlaced(order: seq<nat>, count: nat, leg: nat)
    requires Permutation(order, count) && leg < count
    ensures leg in order
  {
    SizeOfMembers(order);
    if leg !in order {
      Smaller(Members(order), Legs(count) - {leg});
    }
  }

  /** The result is a valid order exactly when one exists: when nothing is on a cycle. */
  lemma GreedyIsTopological(r: Relation, order: seq<nat>)
    requires WellFormed(r) && Greedy(r, order)
    ensures Topological(r, order) <==> Acyclic(r)
  {
    GreedyFollows(r, order);
    if Topological(r, order) {
      TopologicalIsAcyclic(r, order);
    }
  }

  /** At the first place they differ, `s` has the lesser leg. */
  ghost predicate LexBelow(s: seq<nat>, t: seq<nat>) {
    exists i :: 0 <= i < |s| && i < |t| && s[..i] == t[..i] && s[i] < t[i]
  }

  lemma {:induction false} FirstDifference(s: seq<nat>, t: seq<nat>) returns (i: nat)
    requires |s| == |t| && s != t
    ensures i < |s| && s[..i] == t[..i] && s[i] != t[i]
  {
    var n := |s| - 1;
    if s[..n] == t[..n] {
      assert s == s[..n] + [s[n]] && t == t[..n] + [t[n]];
      i := n;
    } else {
      i := FirstDifference(s[..n], t[..n]);
      assert s[..i] == s[..n][..i] && t[..i] == t[..n][..i];
    }
  }

  /** Of the valid orders, the result is lexicographically the least. */
  lemma GreedyIsLeast(r: Relation, ordered: seq<nat>)
    requires WellFormed(r) && Greedy(r, ordered)
    ensures forall order :: Topological(r, order) ==> ordered == order || LexBelow(ordered, order)
  {
    forall order | Topological(r, order) ensures ordered == order || LexBelow(ordered, order) {
      if ordered != order {
        var i := FirstDifference(ordered, order);
        assert Follows(r, order, i);
        assert order[i] !in order[..i];
        assert Ready(r, Members(order[..i]), order[i]);
        assert Picked(r, Members(ordered[..i]), ordered[i]);
      }
    }
  }

  function Declared(count: nat): seq<nat> {
    seq(count, i => i)
  }

  /** Where each leg reads only earlier ones, the declaration order stands. */
  lemma ValidDeclarationStands(r: Relation, ordered: seq<nat>)
    requires WellFormed(r) && Greedy(r, ordered)
    requires forall leg, producer :: 0 <= leg < |r| && producer in r[leg] ==> producer <= leg
    ensures ordered == Declared(|r|)
  {
    var declared := Declared(|r|);
    forall i | 0 <= i < |declared| ensures Follows(r, declared, i) {
      forall producer | producer in r[i] && producer != i ensures producer in declared[..i] {
        assert declared[..i][producer] == producer;
      }
    }
    GreedyIsLeast(r, ordered);
    if LexBelow(ordered, declared) {
      var i :| 0 <= i < |ordered| && i < |declared| && ordered[..i] == declared[..i] && ordered[i] < declared[i];
      EarlierStands(ordered, i, ordered[i]);
    }
  }

  /** Past a prefix in declaration order no leg of the prefix comes again. */
  lemma EarlierStands(ordered: seq<nat>, i: nat, leg: nat)
    requires i <= |ordered| && ordered[..i] == Declared(|ordered|)[..i] && leg < i
    ensures ordered[leg] == leg
  {
    assert ordered[..i][leg] == Declared(|ordered|)[..i][leg];
  }
}

/** What async inference answers, as what can be derived one fact at a time, in any order, from the
    program's tables (crates/vilan-core/src/async_infer.rs): a node is async, a member is flagged in an
    instance. */
module AsyncDerived {
  import opened AsyncProgram
  import opened AsyncFlow
  import opened AsyncFixpoint
  import Iterates

  datatype Fact = Node(id: Id) | Member(key: Key, member: Id)

  ghost function NodesIn(facts: set<Fact>): set<Id> {
    set f | f in facts && f.Node? :: f.id
  }

  ghost function FlagsIn(facts: set<Fact>, k: Key): set<Id> {
    set f | f in facts && f.Member? && f.key == k :: f.member
  }

  /** The instances whose root is flagged. */
  ghost function TruesIn(facts: set<Fact>): set<Key> {
    set f | f in facts && f.Member? && f.member == f.key.root :: f.key
  }

  /** A function of the view, with some of the parameters that may adapt. */
  ghost predicate IsInstance(p: Program, cold: bool, k: Key) {
    && k.root in p.functions && (cold ==> k.root in p.coldIds)
    && forall x :: x in k.bits ==>
         x in p.functions[k.root] && x !in p.syncValues && x !in p.asyncValues && x in p.valueClosures
  }

  /** The node is a seed, makes a suspending call, or is flagged in a function's own instance. */
  ghost predicate NodeFollows(p: Program, cold: bool, seeds: set<Id>, facts: set<Fact>, n: Id) {
    && (cold ==> n in p.coldIds)
    && (|| n in seeds
        || (n in p.nodes && CallFollows(p, cold, facts, n))
        || BaseFlags(p, cold, facts, n))
  }

  ghost predicate CallFollows(p: Program, cold: bool, facts: set<Fact>, n: Id) {
    exists c :: c in CallsOf(p, n) && (StaticallyAsync(p, cold, c) || ReachesInto(p, cold, NodesIn(facts), c))
  }

  ghost predicate BaseFlags(p: Program, cold: bool, facts: set<Fact>, n: Id) {
    exists f :: f in p.functions && (cold ==> f in p.coldIds) && Member(Key(f, {}), n) in facts
  }

  /** The member is async, or makes a call that awaits in the instance. */
  ghost predicate MemberFollows(p: Program, cold: bool, facts: set<Fact>, k: Key, m: Id) {
    && IsInstance(p, cold, k) && m in Component(p, k.root)
    && (Node(m) in facts || CallAwaitsHere(p, cold, facts, k, m))
  }

  ghost predicate CallAwaitsHere(p: Program, cold: bool, facts: set<Fact>, k: Key, m: Id) {
    exists c :: c in CallsOf(p, m)
                && AwaitsBy(p, cold, NodesIn(facts), FlagsIn(facts, k), k.bits, TruesIn(facts), c)
  }

  ghost predicate FollowsFrom(p: Program, cold: bool, seeds: set<Id>, facts: set<Fact>, f: Fact) {
    match f
    case Node(n) => NodeFollows(p, cold, seeds, facts, n)
    case Member(k, m) => MemberFollows(p, cold, facts, k, m)
  }

  ghost function FactsOf(d: seq<Fact>): set<Fact> {
    set f | f in d
  }

  /** Each fact follows from the ones before it. */
  ghost predicate Derivation(p: Program, cold: bool, seeds: set<Id>, d: seq<Fact>) {
    forall i :: 0 <= i < |d| ==> FollowsFrom(p, cold, seeds, FactsOf(d[..i]), d[i])
  }

  ghost predicate Derivable(p: Program, cold: bool, seeds: set<Id>, f: Fact) {
    exists d :: Derivation(p, cold, seeds, d) && f in d
  }

  // ----- what is derived is in the least sets -----

  ghost predicate Inside(p: Program, cold: bool, facts: set<Fact>, known: set<Id>, flags: Flagged) {
    && (forall n :: Node(n) in facts ==> n in known)
    && (forall k: Key, m: Id :: Member(k, m) in facts ==> (k, m) in flags)
  }

  lemma InstanceIsKey(p: Program, cold: bool, k: Key)
    ensures IsInstance(p, cold, k) <==> k in Keys(p, cold)
  {
    if k in Keys(p, cold) {
      assert k.bits <= Adaptive(p, k.root);
    }
    if IsInstance(p, cold, k) {
      assert k.bits <= Adaptive(p, k.root);
      assert k == Key(k.root, k.bits);
    }
  }

  lemma NodeSound(p: Program, cold: bool, seeds: set<Id>, facts: set<Fact>, n: Id, known: set<Id>)
    requires ColdComponents(p) && OuterClosed(p, cold, seeds, known)
    requires Inside(p, cold, facts, known, Least(p, cold, known)) && NodeFollows(p, cold, seeds, facts, n)
    ensures n in known
  {
    if n in p.nodes && CallFollows(p, cold, facts, n) {
      var c :| c in CallsOf(p, n) && (StaticallyAsync(p, cold, c) || ReachesInto(p, cold, NodesIn(facts), c));
      SuspendsIsReach(p, cold, NodesIn(facts), c);
      SuspendsMono(p, cold, NodesIn(facts), cold, known, c);
      assert Suspends(p, cold, known, n);
    } else if BaseFlags(p, cold, facts, n) {
      var f :| f in p.functions && (cold ==> f in p.coldIds) && Member(Key(f, {}), n) in facts;
      assert n in Row(Least(p, cold, known), Key(f, {}));
    }
  }

  lemma InsideFlags(p: Program, cold: bool, facts: set<Fact>, known: set<Id>, flags: Flagged, k: Key)
    requires Inside(p, cold, facts, known, flags)
    ensures FlagsIn(facts, k) <= Row(flags, k) && TruesIn(facts) <= Roots(flags) && NodesIn(facts) <= known
  {
    forall m | m in FlagsIn(facts, k) ensures m in Row(flags, k) {
      assert (k, m) in flags;
    }
    forall x | x in TruesIn(facts) ensures x in Roots(flags) {
      assert (x, x.root) in flags;
    }
  }

  lemma CallSound(p: Program, cold: bool, facts: set<Fact>, k: Key, c: CallSite, known: set<Id>)
    requires cold ==> known <= p.coldIds
    requires Inside(p, cold, facts, known, Least(p, cold, known))
    requires AwaitsBy(p, cold, NodesIn(facts), FlagsIn(facts, k), k.bits, TruesIn(facts), c)
    ensures CallAwaits(p, cold, known, Row(Least(p, cold, known), k), k.bits, Roots(Least(p, cold, known)), c)
  {
    var l := Least(p, cold, known);
    InsideFlags(p, cold, facts, known, l, k);
    LeastAnswers(p, cold, known);
    AwaitsIsReach(p, cold, NodesIn(facts), FlagsIn(facts, k), k.bits, TruesIn(facts), c);
    AwaitsLift(p, cold, NodesIn(facts), FlagsIn(facts, k), k.bits, TruesIn(facts),
               cold, known, Row(l, k), k.bits, Roots(l), c);
  }

  lemma MemberSound(p: Program, cold: bool, facts: set<Fact>, k: Key, m: Id, known: set<Id>)
    requires cold ==> known <= p.coldIds
    requires Inside(p, cold, facts, known, Least(p, cold, known)) && MemberFollows(p, cold, facts, k, m)
    ensures (k, m) in Least(p, cold, known)
  {
    var l := Least(p, cold, known);
    LeastIsLeast(p, cold, known);
    InstanceIsKey(p, cold, k);
    assert (k, m) in Universe(p, cold);
    if Node(m) !in facts {
      var c :| c in CallsOf(p, m) && AwaitsBy(p, cold, NodesIn(facts), FlagsIn(facts, k), k.bits, TruesIn(facts), c);
      CallSound(p, cold, facts, k, c, known);
    }
    assert Justified(p, cold, known, l, k, m);
    assert (k, m) in Step(p, cold, known, l);
  }

  lemma {:induction false} DerivedInside(p: Program, cold: bool, seeds: set<Id>, d: seq<Fact>, known: set<Id>)
    requires ColdComponents(p) && OuterClosed(p, cold, seeds, known) && Derivation(p, cold, seeds, d)
    ensures Inside(p, cold, FactsOf(d), known, Least(p, cold, known))
  {
    if d != [] {
      var before, f := d[..|d| - 1], d[|d| - 1];
      forall i | 0 <= i < |before| ensures FollowsFrom(p, cold, seeds, FactsOf(before[..i]), before[i]) {
        assert before[..i] == d[..i];
        assert FollowsFrom(p, cold, seeds, FactsOf(d[..i]), d[i]);
      }
      DerivedInside(p, cold, seeds, before, known);
      assert FollowsFrom(p, cold, seeds, FactsOf(before), f);
      assert d == before + [f];
      match f
      case Node(n) => NodeSound(p, cold, seeds, FactsOf(before), n, known);
      case Member(k, m) => MemberSound(p, cold, FactsOf(before), k, m, known);
    }
  }

  // ----- a derivation goes on until nothing follows -----

  ghost predicate Saturated(p: Program, cold: bool, seeds: set<Id>, facts: set<Fact>) {
    forall f :: FollowsFrom(p, cold, seeds, facts, f) ==> f in facts
  }

  ghost function AllFacts(p: Program, cold: bool, seeds: set<Id>): set<Fact> {
    (set n | n in Ids(p, cold, seeds) :: Node(n)) + (set pr | pr in Universe(p, cold) :: Member(pr.0, pr.1))
  }

  lemma FollowsWithin(p: Program, cold: bool, seeds: set<Id>, facts: set<Fact>, f: Fact)
    requires facts <= AllFacts(p, cold, seeds) && FollowsFrom(p, cold, seeds, facts, f)
    ensures f in AllFacts(p, cold, seeds)
  {
    match f
    case Node(n) =>
      if n !in seeds && !(n in p.nodes && CallFollows(p, cold, facts, n)) {
        var g :| g in p.functions && (cold ==> g in p.coldIds) && Member(Key(g, {}), n) in facts;
        assert (Key(g, {}), n) in Universe(p, cold);
        assert n in Component(p, g);
      }
      assert n in Ids(p, cold, seeds);
    case Member(k, m) =>
      InstanceIsKey(p, cold, k);
      assert (k, m) in Universe(p, cold);
  }

  lemma OneMoreFact(p: Program, cold: bool, seeds: set<Id>, d: seq<Fact>, f: Fact)
    requires Derivation(p, cold, seeds, d) && FollowsFrom(p, cold, seeds, FactsOf(d), f)
    ensures Derivation(p, cold, seeds, d + [f]) && FactsOf(d + [f]) == FactsOf(d) + {f}
  {
    var longer := d + [f];
    forall i | 0 <= i < |longer| ensures FollowsFrom(p, cold, seeds, FactsOf(longer[..i]), longer[i]) {
      if i < |d| {
        assert longer[..i] == d[..i] && longer[i] == d[i];
      } else {
        assert longer[..i] == d && longer[i] == f;
      }
    }
  }

  lemma {:induction false} Saturates(p: Program, cold: bool, seeds: set<Id>, d: seq<Fact>) returns (r: seq<Fact>)
    requires Derivation(p, cold, seeds, d) && FactsOf(d) <= AllFacts(p, cold, seeds)
    ensures Derivation(p, cold, seeds, r) && Saturated(p, cold, seeds, FactsOf(r)) && d <= r
    decreases |AllFacts(p, cold, seeds) - FactsOf(d)|
  {
    if Saturated(p, cold, seeds, FactsOf(d)) {
      r := d;
    } else {
      var f :| FollowsFrom(p, cold, seeds, FactsOf(d), f) && f !in FactsOf(d);
      FollowsWithin(p, cold, seeds, FactsOf(d), f);
      OneMoreFact(p, cold, seeds, d, f);
      var all := AllFacts(p, cold, seeds);
      assert all - FactsOf(d + [f]) == (all - FactsOf(d)) - {f};
      r := Saturates(p, cold, seeds, d + [f]);
    }
  }

  // ----- and then holds the least sets -----

  ghost function MembersIn(facts: set<Fact>): Flagged {
    set f | f in facts && f.Member? :: (f.key, f.member)
  }

  lemma SameFlags(facts: set<Fact>, k: Key)
    ensures Row(MembersIn(facts), k) == FlagsIn(facts, k) && Roots(MembersIn(facts)) == TruesIn(facts)
  {
    forall m ensures m in Row(MembersIn(facts), k) <==> m in FlagsIn(facts, k) {
      assert (k, m) in MembersIn(facts) <==> Member(k, m) in facts;
    }
    forall x ensures x in Roots(MembersIn(facts)) <==> x in TruesIn(facts) {
      assert (x, x.root) in MembersIn(facts) <==> Member(x, x.root) in facts;
    }
  }

  lemma SaturatedMember(p: Program, cold: bool, seeds: set<Id>, facts: set<Fact>, k: Key, m: Id)
    requires Saturated(p, cold, seeds, facts) && (k, m) in Step(p, cold, NodesIn(facts), MembersIn(facts))
    ensures Member(k, m) in facts
  {
    SameFlags(facts, k);
    assert (k, m) in Universe(p, cold) && Justified(p, cold, NodesIn(facts), MembersIn(facts), k, m);
    InstanceIsKey(p, cold, k);
    if m !in NodesIn(facts) {
      var c :| c in CallsOf(p, m)
               && CallAwaits(p, cold, NodesIn(facts), FlagsIn(facts, k), k.bits, TruesIn(facts), c);
      AwaitsIsReach(p, cold, NodesIn(facts), FlagsIn(facts, k), k.bits, TruesIn(facts), c);
    }
    assert FollowsFrom(p, cold, seeds, facts, Member(k, m));
  }

  lemma SaturatedFlags(p: Program, cold: bool, seeds: set<Id>, facts: set<Fact>)
    requires Saturated(p, cold, seeds, facts) && (cold ==> NodesIn(facts) <= p.coldIds)
    ensures Least(p, cold, NodesIn(facts)) <= MembersIn(facts)
  {
    forall pr | pr in Step(p, cold, NodesIn(facts), MembersIn(facts)) ensures pr in MembersIn(facts) {
      SaturatedMember(p, cold, seeds, facts, pr.0, pr.1);
    }
    LeastIsLeast(p, cold, NodesIn(facts));
  }

  lemma SaturatedSuspends(p: Program, cold: bool, seeds: set<Id>, facts: set<Fact>, n: Id)
    requires Saturated(p, cold, seeds, facts)
    requires n in p.nodes && InView(p, cold, n) && Suspends(p, cold, NodesIn(facts), n)
    ensures n in NodesIn(facts)
  {
    var c :| c in CallsOf(p, n) && CallSuspends(p, cold, NodesIn(facts), c);
    SuspendsIsReach(p, cold, NodesIn(facts), c);
    assert CallFollows(p, cold, facts, n);
    assert FollowsFrom(p, cold, seeds, facts, Node(n));
  }

  lemma SaturatedOuter(p: Program, cold: bool, seeds: set<Id>, facts: set<Fact>)
    requires ColdComponents(p) && Saturated(p, cold, seeds, facts) && (cold ==> NodesIn(facts) <= p.coldIds)
    ensures OuterClosed(p, cold, seeds, NodesIn(facts))
  {
    var known := NodesIn(facts);
    forall i | i in seeds && InView(p, cold, i) ensures i in known {
      assert FollowsFrom(p, cold, seeds, facts, Node(i));
    }
    forall n | n in p.nodes && InView(p, cold, n) && Suspends(p, cold, known, n) ensures n in known {
      SaturatedSuspends(p, cold, seeds, facts, n);
    }
    SaturatedFlags(p, cold, seeds, facts);
    forall f | f in p.functions && InView(p, cold, f) ensures Row(Least(p, cold, known), Key(f, {})) <= known {
      SaturatedBase(p, cold, seeds, facts, f);
    }
  }

  lemma SaturatedBase(p: Program, cold: bool, seeds: set<Id>, facts: set<Fact>, f: Id)
    requires ColdComponents(p) && Saturated(p, cold, seeds, facts) && (cold ==> NodesIn(facts) <= p.coldIds)
    requires Least(p, cold, NodesIn(facts)) <= MembersIn(facts) && f in p.functions && InView(p, cold, f)
    ensures Row(Least(p, cold, NodesIn(facts)), Key(f, {})) <= NodesIn(facts)
  {
    LeastInUniverse(p, cold, NodesIn(facts));
    if cold { DescendCold(p, [f], 0, |AllChildren(p)| + 1); }
    forall m | m in Row(Least(p, cold, NodesIn(facts)), Key(f, {})) ensures m in NodesIn(facts) {
      assert (Key(f, {}), m) in MembersIn(facts);
      assert Member(Key(f, {}), m) in facts;
      assert BaseFlags(p, cold, facts, m);
      assert FollowsFrom(p, cold, seeds, facts, Node(m));
    }
  }

  lemma DerivedCold(p: Program, cold: bool, seeds: set<Id>, d: seq<Fact>)
    requires Derivation(p, cold, seeds, d)
    ensures cold ==> NodesIn(FactsOf(d)) <= p.coldIds
  {
    forall n | n in NodesIn(FactsOf(d)) && cold ensures n in p.coldIds {
      var i :| 0 <= i < |d| && d[i] == Node(n);
      assert FollowsFrom(p, cold, seeds, FactsOf(d[..i]), d[i]);
    }
  }

  /** Every derivation, whatever it derived first, goes on to one that holds exactly the least async set
      and the least flags over it. */
  lemma SaturatedIsLeast(p: Program, cold: bool, seeds: set<Id>, d: seq<Fact>)
    requires ColdComponents(p) && Derivation(p, cold, seeds, d) && Saturated(p, cold, seeds, FactsOf(d))
    ensures var known := LeastAsync(p, cold, seeds);
            && (forall n :: Node(n) in d <==> n in known)
            && (forall k: Key, m: Id :: Member(k, m) in d <==> (k, m) in Least(p, cold, known))
  {
    var known, facts := LeastAsync(p, cold, seeds), FactsOf(d);
    LeastAsyncClosed(p, cold, seeds);
    DerivedInside(p, cold, seeds, d, known);
    DerivedCold(p, cold, seeds, d);
    SaturatedOuter(p, cold, seeds, facts);
    SaturatedFlags(p, cold, seeds, facts);
    LeastMono(p, cold, known, cold, NodesIn(facts));
    forall n ensures Node(n) in d <==> n in known {
      assert Node(n) in d <==> Node(n) in facts;
    }
    forall k: Key, m: Id ensures Member(k, m) in d <==> (k, m) in Least(p, cold, known) {
      assert Member(k, m) in d <==> Member(k, m) in facts;
      if (k, m) in Least(p, cold, known) { assert (k, m) in MembersIn(facts); }
    }
  }

  /** A node is async, and a member flagged in an instance, exactly when that can be derived. */
  lemma AsyncIsDerivable(p: Program, cold: bool, seeds: set<Id>, f: Fact)
    requires ColdComponents(p)
    ensures Derivable(p, cold, seeds, f) <==>
            match f
            case Node(n) => n in LeastAsync(p, cold, seeds)
            case Member(k, m) => (k, m) in Least(p, cold, LeastAsync(p, cold, seeds))
  {
    LeastAsyncClosed(p, cold, seeds);
    assert Derivation(p, cold, seeds, []);
    var d := Saturates(p, cold, seeds, []);
    SaturatedIsLeast(p, cold, seeds, d);
    if Derivable(p, cold, seeds, f) {
      var e :| Derivation(p, cold, seeds, e) && f in e;
      DerivedInside(p, cold, seeds, e, LeastAsync(p, cold, seeds));
      assert f in FactsOf(e);
    }
  }
}

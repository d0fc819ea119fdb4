/** The component of a root in a closure forest (`component_of`,
    crates/vilan-core/src/async_infer.rs): the walk meets every nested closure once and stops. */
module AsyncComponent {
  import opened AsyncProgram
  import opened Iterates

  /** A closure is defined once, in one body, and no body encloses itself. */
  ghost predicate ForestBy(p: Program, level: Id -> nat) {
    && (forall n, c :: n in p.children && c in p.children[n] ==> level(n) < level(c))
    && (forall n, m, c :: n in p.children && m in p.children && c in p.children[n] && c in p.children[m] ==> n == m)
    && (forall n :: n in p.children ==> Distinct(p.children[n]))
  }

  ghost predicate Forest(p: Program) {
    exists level: Id -> nat :: ForestBy(p, level)
  }

  ghost predicate Distinct(s: seq<Id>) {
    forall i, j :: 0 <= i < j < |s| ==> s[i] != s[j]
  }

  ghost predicate DefinedIn(p: Program, bodies: seq<Id>, c: Id) {
    exists n :: n in bodies && c in ChildrenOf(p, n)
  }

  /** The walk so far: no member twice, everything below `cursor` expanded, everything but the root
      defined in an expanded member. */
  ghost predicate Walking(p: Program, level: Id -> nat, members: seq<Id>, cursor: nat) {
    && |members| > 0 && cursor <= |members| && Distinct(members)
    && (forall i :: 0 <= i < |members| ==> level(members[0]) <= level(members[i]))
    && (forall i :: 0 < i < |members| ==> DefinedIn(p, members[..cursor], members[i]))
    && (forall j, c :: 0 <= j < cursor && c in ChildrenOf(p, members[j]) ==> c in members)
  }

  lemma ChildIsNew(p: Program, level: Id -> nat, members: seq<Id>, cursor: nat, c: Id)
    requires ForestBy(p, level) && Walking(p, level, members, cursor) && cursor < |members|
    requires c in ChildrenOf(p, members[cursor])
    ensures c !in members && level(members[0]) <= level(c)
  {
  }

  lemma DistinctJoin(a: seq<Id>, b: seq<Id>)
    requires Distinct(a) && Distinct(b) && forall x :: x in b ==> x !in a
    ensures Distinct(a + b)
  {
    forall i, j | 0 <= i < j < |a + b| ensures (a + b)[i] != (a + b)[j] {
      if |a| <= j {
        assert (a + b)[j] == b[j - |a|];
        if |a| <= i {
          assert (a + b)[i] == b[i - |a|];
        } else {
          assert b[j - |a|] in b && (a + b)[i] == a[i];
        }
      } else {
        assert (a + b)[i] == a[i] && (a + b)[j] == a[j];
      }
    }
  }

  lemma StillDefined(p: Program, members: seq<Id>, cursor: nat, i: nat)
    requires cursor < |members| && 0 < i < |members + ChildrenOf(p, members[cursor])|
    requires i < |members| ==> DefinedIn(p, members[..cursor], members[i])
    ensures var next := members + ChildrenOf(p, members[cursor]); DefinedIn(p, next[..cursor + 1], next[i])
  {
    var next := members + ChildrenOf(p, members[cursor]);
    assert next[..cursor + 1] == members[..cursor] + [members[cursor]];
    if i < |members| {
      var n :| n in members[..cursor] && members[i] in ChildrenOf(p, n);
      assert n in next[..cursor + 1];
    } else {
      assert next[i] == ChildrenOf(p, members[cursor])[i - |members|];
      assert members[cursor] in next[..cursor + 1];
    }
  }

  lemma WalkOn(p: Program, level: Id -> nat, members: seq<Id>, cursor: nat)
    requires ForestBy(p, level) && Walking(p, level, members, cursor) && cursor < |members|
    ensures Walking(p, level, members + ChildrenOf(p, members[cursor]), cursor + 1)
  {
    var children := ChildrenOf(p, members[cursor]);
    var next := members + children;
    forall c | c in children ensures c !in members && level(members[0]) <= level(c) {
      ChildIsNew(p, level, members, cursor, c);
    }
    DistinctJoin(members, children);
    forall i | 0 < i < |next| ensures DefinedIn(p, next[..cursor + 1], next[i]) {
      StillDefined(p, members, cursor, i);
    }
    forall j, c | 0 <= j < cursor + 1 && c in ChildrenOf(p, next[j]) ensures c in next {
      assert next[j] == members[j];
    }
  }

  lemma {:induction false} DistinctCount(s: seq<Id>, all: set<Id>)
    requires Distinct(s) && forall x :: x in s ==> x in all
    ensures |s| <= |all|
  {
    if s != [] {
      var last := s[|s| - 1];
      forall x | x in s[..|s| - 1] ensures x in all - {last} {
        var i :| 0 <= i < |s| - 1 && s[i] == x;
      }
      DistinctCount(s[..|s| - 1], all - {last});
    }
  }

  lemma WalkBounded(p: Program, level: Id -> nat, members: seq<Id>, cursor: nat)
    requires Walking(p, level, members, cursor)
    ensures |members| <= |AllChildren(p)| + 1
  {
    forall x | x in members[1..] ensures x in AllChildren(p) {
      var i :| 0 <= i < |members[1..]| && members[1..][i] == x;
      assert members[i + 1] == x;
      assert DefinedIn(p, members[..cursor], members[i + 1]);
    }
    DistinctCount(members[1..], AllChildren(p));
  }

  /** The walk ends with its cursor past the last member, not for want of steps. */
  ghost predicate Completes(p: Program, members: seq<Id>, cursor: nat, fuel: nat)
    decreases fuel
  {
    cursor >= |members|
    || (fuel > 0 && Completes(p, members + ChildrenOf(p, members[cursor]), cursor + 1, fuel - 1))
  }

  lemma {:induction false} WalkCompletes(p: Program, level: Id -> nat, members: seq<Id>, cursor: nat, fuel: nat)
    requires ForestBy(p, level) && Walking(p, level, members, cursor) && cursor + fuel == |AllChildren(p)| + 1
    ensures Completes(p, members, cursor, fuel)
    ensures Walking(p, level, Descend(p, members, cursor, fuel), |Descend(p, members, cursor, fuel)|)
    decreases fuel
  {
    WalkBounded(p, level, members, cursor);
    if cursor < |members| {
      WalkOn(p, level, members, cursor);
      WalkCompletes(p, level, members + ChildrenOf(p, members[cursor]), cursor + 1, fuel - 1);
    }
  }

  /** In a forest the component is the root and everything nested in it, each once: it is closed under
      definition, and inside every set that holds the root and is. */
  lemma ComponentIsNesting(p: Program, root: Id)
    requires Forest(p)
    ensures Distinct(Component(p, root))
    ensures forall m, c :: m in Component(p, root) && c in ChildrenOf(p, m) ==> c in Component(p, root)
    ensures forall x: set<Id> :: root in x && (forall m, c :: m in x && c in ChildrenOf(p, m) ==> c in x)
              ==> forall m :: m in Component(p, root) ==> m in x
  {
    var level: Id -> nat :| ForestBy(p, level);
    WalkCompletes(p, level, [root], 0, |AllChildren(p)| + 1);
    forall x: set<Id> | root in x && (forall m, c :: m in x && c in ChildrenOf(p, m) ==> c in x)
      ensures forall m :: m in Component(p, root) ==> m in x
    {
      DescendInside(p, [root], 0, |AllChildren(p)| + 1, x);
    }
  }

  lemma {:induction false} DescendInside(p: Program, members: seq<Id>, cursor: nat, fuel: nat, x: set<Id>)
    requires forall m :: m in members ==> m in x
    requires forall m, c :: m in x && c in ChildrenOf(p, m) ==> c in x
    ensures forall m :: m in Descend(p, members, cursor, fuel) ==> m in x
    decreases fuel
  {
    if fuel > 0 && cursor < |members| {
      assert members[cursor] in members;
      DescendInside(p, members + ChildrenOf(p, members[cursor]), cursor + 1, fuel - 1, x);
    }
  }

  /** Two programs that define the same closures in the same bodies of `x` walk alike inside it. */
  lemma {:induction false} DescendSame(p: Program, q: Program, members: seq<Id>, cursor: nat, fuel: nat, fuel': nat,
                                       x: set<Id>)
    requires forall m :: m in members ==> m in x
    requires forall m :: m in x ==> ChildrenOf(p, m) == ChildrenOf(q, m) && forall c :: c in ChildrenOf(p, m) ==> c in x
    requires Completes(p, members, cursor, fuel) && Completes(q, members, cursor, fuel')
    ensures Descend(p, members, cursor, fuel) == Descend(q, members, cursor, fuel')
    decreases fuel
  {
    if cursor < |members| {
      assert members[cursor] in members;
      DescendSame(p, q, members + ChildrenOf(p, members[cursor]), cursor + 1, fuel - 1, fuel' - 1, x);
    }
  }

  lemma ComponentSame(p: Program, q: Program, root: Id, x: set<Id>)
    requires Forest(p) && Forest(q) && root in x
    requires forall m :: m in x ==> ChildrenOf(p, m) == ChildrenOf(q, m) && forall c :: c in ChildrenOf(p, m) ==> c in x
    ensures Component(p, root) == Component(q, root)
  {
    var level: Id -> nat :| ForestBy(p, level);
    var level': Id -> nat :| ForestBy(q, level');
    WalkCompletes(p, level, [root], 0, |AllChildren(p)| + 1);
    WalkCompletes(q, level', [root], 0, |AllChildren(q)| + 1);
    DescendSame(p, q, [root], 0, |AllChildren(p)| + 1, |AllChildren(q)| + 1, x);
  }
}

/** Finite iteration of a set operator that is monotone on the sets satisfying an invariant. */
module Iterates {
  type Op<!T> = set<T> -> set<T>

  ghost function Iter<T>(f: Op<T>, start: set<T>, n: nat): set<T> {
    if n == 0 then start else f(Iter(f, start, n - 1))
  }

  ghost predicate Keeps<T(!new)>(f: Op<T>, start: set<T>, inv: set<T> -> bool) {
    inv(start) && forall s :: inv(s) ==> inv(f(s))
  }

  ghost predicate Climbs<T(!new)>(f: Op<T>, start: set<T>, inv: set<T> -> bool) {
    && Keeps(f, start, inv)
    && start <= f(start)
    && forall s, t :: inv(s) && inv(t) && s <= t ==> f(s) <= f(t)
  }

  lemma {:induction false} IterKeeps<T(!new)>(f: Op<T>, start: set<T>, inv: set<T> -> bool, n: nat)
    requires Keeps(f, start, inv)
    ensures inv(Iter(f, start, n))
  {
    if n > 0 { IterKeeps(f, start, inv, n - 1); }
  }

  lemma {:induction false} IterGrows<T(!new)>(f: Op<T>, start: set<T>, inv: set<T> -> bool, n: nat)
    requires Climbs(f, start, inv)
    ensures Iter(f, start, n) <= Iter(f, start, n + 1)
  {
    if n > 0 {
      IterGrows(f, start, inv, n - 1);
      IterKeeps(f, start, inv, n - 1);
      IterKeeps(f, start, inv, n);
    }
  }

  lemma {:induction false} IterOrdered<T(!new)>(f: Op<T>, start: set<T>, inv: set<T> -> bool, m: nat, n: nat)
    requires Climbs(f, start, inv) && m <= n
    ensures Iter(f, start, m) <= Iter(f, start, n)
    decreases n
  {
    if m < n {
      IterOrdered(f, start, inv, m, n - 1);
      IterGrows(f, start, inv, n - 1);
    }
  }

  lemma {:induction false} IterBelow<T(!new)>(f: Op<T>, start: set<T>, inv: set<T> -> bool, t: set<T>, n: nat)
    requires Keeps(f, start, inv) && start <= t
    requires forall s :: inv(s) && s <= t ==> f(s) <= t
    ensures Iter(f, start, n) <= t
  {
    if n > 0 {
      IterKeeps(f, start, inv, n - 1);
      IterBelow(f, start, inv, t, n - 1);
    }
  }

  lemma Smaller<T>(a: set<T>, b: set<T>)
    requires a <= b
    ensures |a| <= |b| && (|a| == |b| ==> a == b)
  {
    if a != b {
      var x :| x in b && x !in a;
      Smaller(a, b - {x});
    }
  }

  /** An iterate either stands or has at least as many members as steps taken. */
  lemma {:induction false} IterCounts<T(!new)>(f: Op<T>, start: set<T>, inv: set<T> -> bool, n: nat)
    requires Climbs(f, start, inv)
    ensures |Iter(f, start, n)| >= n || f(Iter(f, start, n)) == Iter(f, start, n)
  {
    if n > 0 {
      IterCounts(f, start, inv, n - 1);
      IterGrows(f, start, inv, n - 1);
      Smaller(Iter(f, start, n - 1), Iter(f, start, n));
    }
  }

  /** Inside a finite universe the iterates stand after as many steps as it has members. */
  lemma IterStands<T(!new)>(f: Op<T>, start: set<T>, inv: set<T> -> bool, universe: set<T>)
    requires Climbs(f, start, inv) && forall s :: inv(s) ==> s <= universe
    ensures f(Iter(f, start, |universe|)) == Iter(f, start, |universe|)
  {
    var n := |universe|;
    IterCounts(f, start, inv, n);
    IterKeeps(f, start, inv, n);
    IterKeeps(f, start, inv, n + 1);
    IterGrows(f, start, inv, n);
    Smaller(Iter(f, start, n), universe);
    Smaller(Iter(f, start, n + 1), universe);
  }
}

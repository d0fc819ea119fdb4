/** Queues whose items are numbered: what taking one item and adding higher-numbered ones does to a
    weight that counts each item by a power of how far below the top it is. */
module Weights {
  import opened Iterates

  function Power(b: nat, n: nat): (r: nat)
    ensures b > 0 ==> r > 0
  {
    if n == 0 then 1 else b * Power(b, n - 1)
  }

  /** `x` taken `y` times. */
  function Product(x: nat, y: nat): nat {
    if y == 0 then 0 else x + Product(x, y - 1)
  }

  lemma {:induction false} ProductGrows(x: nat, y: nat, y': nat)
    requires y <= y'
    ensures Product(x, y) <= Product(x, y')
    decreases y'
  {
    if y < y' { ProductGrows(x, y, y' - 1); }
  }

  /** The items numbered `i`. */
  ghost function At<K(!new)>(q: set<K>, rank: K -> nat, i: nat): set<K> {
    set k | k in q && rank(k) == i
  }

  ghost function From<K(!new)>(q: set<K>, rank: K -> nat, i: nat): set<K> {
    set k | k in q && rank(k) >= i
  }

  /** The weight of the items numbered `i` to `top`. */
  ghost function Weight<K(!new)>(q: set<K>, rank: K -> nat, top: nat, b: nat, i: nat): nat
    decreases top + 1 - i
  {
    if i > top then 0 else |At(q, rank, i)| * Power(b, top - i) + Weight(q, rank, top, b, i + 1)
  }

  lemma PowerAbove(b: nat, n: nat)
    requires b > 0
    ensures Power(b, n) <= Power(b, n + 1)
  {
    assert Power(b, n + 1) == b * Power(b, n);
    Times(1, b, Power(b, n));
  }

  lemma Times(x: nat, y: nat, z: nat)
    requires x <= y
    ensures x * z <= y * z
  {
  }

  lemma SplitAt<K(!new)>(q: set<K>, rank: K -> nat, i: nat)
    ensures |From(q, rank, i)| == |At(q, rank, i)| + |From(q, rank, i + 1)|
  {
    assert From(q, rank, i) == At(q, rank, i) + From(q, rank, i + 1);
    assert At(q, rank, i) !! From(q, rank, i + 1);
  }

  /** Items numbered `i` on weigh no more than as many numbered `i`. */
  lemma {:induction false} WeightBound<K(!new)>(q: set<K>, rank: K -> nat, top: nat, b: nat, i: nat)
    requires b > 0 && i <= top + 1
    ensures i <= top ==> Weight(q, rank, top, b, i) <= |From(q, rank, i)| * Power(b, top - i)
    decreases top + 1 - i
  {
    if i <= top {
      WeightBound(q, rank, top, b, i + 1);
      SplitAt(q, rank, i);
      var n, p := |From(q, rank, i + 1)|, Power(b, top - i);
      if i < top {
        PowerAbove(b, top - i - 1);
        TimesUp(n, Power(b, top - i - 1), p);
      }
      assert (|At(q, rank, i)| + n) * p == |At(q, rank, i)| * p + n * p;
    }
  }

  lemma TimesUp(n: nat, x: nat, y: nat)
    requires x <= y
    ensures n * x <= n * y
  {
  }

  lemma {:induction false} WeightOfMore<K(!new)>(q: set<K>, q': set<K>, more: set<K>, rank: K -> nat, top: nat, b: nat,
                                                 i: nat)
    requires b > 0 && q' <= q + more
    ensures Weight(q', rank, top, b, i) <= Weight(q, rank, top, b, i) + Weight(more, rank, top, b, i)
    decreases top + 1 - i
  {
    if i <= top {
      WeightOfMore(q, q', more, rank, top, b, i + 1);
      Smaller(At(q', rank, i), At(q, rank, i) + At(more, rank, i));
      assert |At(q', rank, i)| <= |At(q, rank, i)| + |At(more, rank, i)|;
      var p := Power(b, top - i);
      Times(|At(q', rank, i)|, |At(q, rank, i)| + |At(more, rank, i)|, p);
      assert (|At(q, rank, i)| + |At(more, rank, i)|) * p == |At(q, rank, i)| * p + |At(more, rank, i)| * p;
    }
  }

  lemma NoneBelow<K(!new)>(more: set<K>, rank: K -> nat, top: nat, b: nat, i: nat, r: nat)
    requires i <= r && forall k :: k in more ==> rank(k) > r
    ensures At(more, rank, i) == {} && (i <= top ==> Weight(more, rank, top, b, i) == Weight(more, rank, top, b, i + 1))
  {
    assert At(more, rank, i) == {};
  }

  /** An item taken and fewer than `b` put back above it: the weight falls. */
  lemma {:induction false} WeightFalls<K(!new)>(q: set<K>, k: K, q': set<K>, more: set<K>, rank: K -> nat, top: nat,
                                                b: nat, i: nat)
    requires b > 0 && |more| < b && k in q && q' <= (q - {k}) + more && i <= rank(k) <= top
    requires forall x :: x in more ==> rank(x) > rank(k)
    ensures Weight(q', rank, top, b, i) < Weight(q, rank, top, b, i)
    decreases top + 1 - i
  {
    NoneBelow(more, rank, top, b, i, rank(k));
    var p := Power(b, top - i);
    if i < rank(k) {
      WeightFalls(q, k, q', more, rank, top, b, i + 1);
      Smaller(At(q', rank, i), At(q, rank, i));
      Times(|At(q', rank, i)|, |At(q, rank, i)|, p);
    } else {
      Smaller(At(q', rank, i), At(q, rank, i) - {k});
      Times(|At(q', rank, i)|, |At(q, rank, i)| - 1, p);
      WeightOfMore(q, q', more, rank, top, b, i + 1);
      MoreWeighsLess(more, rank, top, b, i);
      assert (|At(q, rank, i)| - 1) * p == |At(q, rank, i)| * p - p;
    }
  }

  lemma MoreWeighsLess<K(!new)>(more: set<K>, rank: K -> nat, top: nat, b: nat, i: nat)
    requires b > 0 && |more| < b && i <= top
    ensures Weight(more, rank, top, b, i + 1) < Power(b, top - i)
  {
    if i < top {
      WeightBound(more, rank, top, b, i + 1);
      Smaller(From(more, rank, i + 1), more);
      var p := Power(b, top - i - 1);
      Times(|From(more, rank, i + 1)|, b - 1, p);
      assert Power(b, top - i) == b * p && (b - 1) * p == b * p - p;
    }
  }

  // ----- runs that use up what they have -----

  /** From inside `good`, the step stays inside, and uses some of what is left until the run ended. */
  ghost predicate UsesUp<S>(run: nat -> S, good: S -> bool, ended: S -> bool, left: S -> nat, i: nat) {
    good(run(i)) ==>
      && good(run(i + 1))
      && (if ended(run(i)) then run(i + 1) == run(i) else left(run(i + 1)) < left(run(i)))
  }

  /** A run that uses some of what is left at every step has ended when nothing can be. */
  lemma {:induction false} EndsInTime<S>(run: nat -> S, good: S -> bool, ended: S -> bool, left: S -> nat, i: nat)
    requires good(run(0))
    requires forall j: nat {:trigger UsesUp(run, good, ended, left, j)} :: UsesUp(run, good, ended, left, j)
    ensures good(run(i)) && (ended(run(i)) || left(run(i)) + i <= left(run(0)))
  {
    if i > 0 {
      EndsInTime(run, good, ended, left, i - 1);
      assert UsesUp(run, good, ended, left, i - 1);
    }
  }
}

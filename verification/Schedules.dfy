/** A worklist whose verdicts may fall back, over any schedule: it ends exactly when it starves
    nothing it queued.  The laws a worklist must obey are the ones AsyncSchedule proves of a round. */
module Schedules {
  import opened Iterates

  /** `level(r)` are the items that must answer true within `r` steps; `keys` bounds the items held. */
  datatype Machine<!S, !K> = Machine(
    take: (S, K) -> S,
    verdicts: S -> map<K, bool>,
    queued: S -> set<K>,
    inv: S -> bool,
    level: nat -> set<K>,
    top: nat,
    keys: set<K>)

  /** Every item of the levels below `r` that `s` holds answers true. */
  ghost predicate LevelTrue<S, K(!new)>(m: Machine<S, K>, s: S, r: nat) {
    r > 0 ==> forall k :: k in m.verdicts(s) && k in m.level(r - 1) ==> m.verdicts(s)[k]
  }

  /** A taken item leaves every other verdict and every other queued item. */
  ghost predicate Keeps<S, K(!new)>(m: Machine<S, K>, s: S, k: K) {
    var s' := m.take(s, k);
    && (forall x :: x in m.verdicts(s) ==>
          x in m.verdicts(s') && (x != k ==> (m.verdicts(s')[x] <==> m.verdicts(s)[x])))
    && m.queued(s) - {k} <= m.queued(s')
  }

  ghost predicate Discovers<S, K>(m: Machine<S, K>, s: S, k: K) {
    m.verdicts(m.take(s, k)).Keys != m.verdicts(s).Keys
  }

  /** Over a true level, an item of the next answers true: taken, unless it discovers, or resting. */
  ghost predicate Climbing<S, K(!new)>(m: Machine<S, K>, s: S, k: K, r: nat) {
    LevelTrue(m, s, r) && k in m.level(r) ==>
      && (k in m.queued(s) && !Discovers(m, s, k) ==>
            k in m.verdicts(m.take(s, k)) && m.verdicts(m.take(s, k))[k])
      && (k !in m.queued(s) && k in m.verdicts(s) ==> m.verdicts(s)[k])
  }

  ghost predicate Lawful<S(!new), K(!new)>(m: Machine<S, K>) {
    && (forall s :: m.inv(s) ==> m.verdicts(s).Keys <= m.keys)
    && (forall s, k :: m.inv(s) && k in m.queued(s) ==> Keeps(m, s, k))
    && (forall s, k, r :: m.inv(s) ==> Climbing(m, s, k, r))
    && (forall s, k ::
          m.inv(s) && k in m.queued(s) && !Discovers(m, s, k) && LevelTrue(m, s, m.top + 1) && m.inv(m.take(s, k))
          ==> m.queued(m.take(s, k)) == m.queued(s) - {k})
  }

  type Run<!S> = nat -> S

  ghost predicate Took<S, K>(m: Machine<S, K>, run: Run<S>, i: nat, k: K) {
    k in m.queued(run(i)) && run(i + 1) == m.take(run(i), k)
  }

  ghost predicate Stepped<S, K(!new)>(m: Machine<S, K>, run: Run<S>, i: nat) {
    if m.queued(run(i)) == {} then run(i + 1) == run(i) else exists k :: Took(m, run, i, k)
  }

  /** A run inside the invariant, standing still once it ended. */
  ghost predicate Runs<S, K(!new)>(m: Machine<S, K>, run: Run<S>) {
    && (forall i: nat {:trigger m.inv(run(i))} :: m.inv(run(i)))
    && (forall i: nat {:trigger Stepped(m, run, i)} :: Stepped(m, run, i))
  }

  ghost predicate InsideNext<S, K>(m: Machine<S, K>, run: Run<S>, i: nat) {
    m.inv(run(i)) ==> m.inv(run(i + 1))
  }

  /** A run that starts inside the invariant, each step keeping it, stays inside. */
  lemma {:induction false} StaysInside<S, K>(m: Machine<S, K>, run: Run<S>, i: nat)
    requires m.inv(run(0)) && forall j: nat {:trigger InsideNext(m, run, j)} :: InsideNext(m, run, j)
    ensures m.inv(run(i))
  {
    if i > 0 {
      StaysInside(m, run, i - 1);
      assert InsideNext(m, run, i - 1);
    }
  }

  ghost predicate TakenLater<S, K>(m: Machine<S, K>, run: Run<S>, i: nat, k: K) {
    exists j: nat :: i <= j && Took(m, run, j, k)
  }

  /** Every queued item is taken some time later. */
  ghost predicate Unstarved<S, K(!new)>(m: Machine<S, K>, run: Run<S>) {
    forall i: nat, k {:trigger TakenLater(m, run, i, k)} :: k in m.queued(run(i)) ==> TakenLater(m, run, i, k)
  }

  ghost predicate Ends<S, K>(m: Machine<S, K>, run: Run<S>) {
    exists n: nat :: m.queued(run(n)) == {}
  }

  function Held<S, K>(m: Machine<S, K>, run: Run<S>, i: nat): set<K> {
    m.verdicts(run(i)).Keys
  }

  lemma {:induction false} HeldGrows<S(!new), K(!new)>(m: Machine<S, K>, run: Run<S>, i: nat, j: nat)
    requires Lawful(m) && Runs(m, run) && i <= j
    ensures Held(m, run, i) <= Held(m, run, j)
    decreases j - i
  {
    if i < j {
      assert Stepped(m, run, i);
      if m.queued(run(i)) != {} {
        var k :| Took(m, run, i, k);
        assert m.inv(run(i)) && Keeps(m, run(i), k);
      }
      HeldGrows(m, run, i + 1, j);
    }
  }

  ghost predicate HeldFrom<S, K>(m: Machine<S, K>, run: Run<S>, n: nat) {
    forall i: nat :: n <= i ==> Held(m, run, i) == Held(m, run, n)
  }

  /** The items a run holds stop growing. */
  lemma HeldSettles<S(!new), K(!new)>(m: Machine<S, K>, run: Run<S>, i: nat) returns (n: nat)
    requires Lawful(m) && Runs(m, run)
    ensures i <= n && HeldFrom(m, run, n)
    decreases |m.keys| - |Held(m, run, i)|
  {
    assert m.inv(run(i));
    Smaller(Held(m, run, i), m.keys);
    if HeldFrom(m, run, i) {
      n := i;
    } else {
      var j: nat :| i <= j && Held(m, run, j) != Held(m, run, i);
      HeldGrows(m, run, i, j);
      Smaller(Held(m, run, i), Held(m, run, j));
      assert m.inv(run(j));
      Smaller(Held(m, run, j), m.keys);
      n := HeldSettles(m, run, j);
    }
  }

  ghost predicate LevelFrom<S, K(!new)>(m: Machine<S, K>, run: Run<S>, n: nat, r: nat) {
    forall i: nat :: n <= i ==> LevelTrue(m, run(i), r)
  }

  ghost predicate TrueAt<S, K>(m: Machine<S, K>, run: Run<S>, i: nat, k: K) {
    k in m.verdicts(run(i)) && m.verdicts(run(i))[k]
  }

  ghost predicate TrueFrom<S, K>(m: Machine<S, K>, run: Run<S>, n: nat, k: K) {
    forall i: nat :: n <= i ==> TrueAt(m, run, i, k)
  }

  /** Once true, with the levels below true, an item stays true. */
  lemma {:induction false} StaysTrue<S(!new), K(!new)>(m: Machine<S, K>, run: Run<S>, n: nat, r: nat, k: K, j: nat,
                                                      i: nat)
    requires Lawful(m) && Runs(m, run) && HeldFrom(m, run, n) && LevelFrom(m, run, n, r)
    requires k in m.level(r) && n <= j <= i && TrueAt(m, run, j, k)
    ensures TrueAt(m, run, i, k)
    decreases i - j
  {
    if j < i {
      assert Stepped(m, run, j);
      if m.queued(run(j)) != {} {
        var x :| Took(m, run, j, x);
        assert m.inv(run(j)) && Keeps(m, run(j), x);
        assert Held(m, run, j + 1) == Held(m, run, n) == Held(m, run, j);
        assert m.inv(run(j)) && Climbing(m, run(j), k, r);
      }
      StaysTrue(m, run, n, r, k, j + 1, i);
    }
  }

  /** An unstarved item of the next level becomes true for good. */
  lemma BecomesTrue<S(!new), K(!new)>(m: Machine<S, K>, run: Run<S>, n: nat, r: nat, k: K) returns (t: nat)
    requires Lawful(m) && Runs(m, run) && Unstarved(m, run) && HeldFrom(m, run, n) && LevelFrom(m, run, n, r)
    requires k in Held(m, run, n) && k in m.level(r)
    ensures n <= t && TrueFrom(m, run, t, k)
  {
    if k in m.queued(run(n)) {
      assert TakenLater(m, run, n, k);
      var j: nat :| n <= j && Took(m, run, j, k);
      assert Held(m, run, j + 1) == Held(m, run, n) == Held(m, run, j);
      assert m.inv(run(j)) && Climbing(m, run(j), k, r);
      t := j + 1;
    } else {
      assert m.inv(run(n)) && Climbing(m, run(n), k, r);
      t := n;
    }
    forall i: nat | t <= i ensures TrueAt(m, run, i, k) {
      StaysTrue(m, run, n, r, k, t, i);
    }
  }

  lemma AllBecomeTrue<S(!new), K(!new)>(m: Machine<S, K>, run: Run<S>, n: nat, r: nat, ks: set<K>) returns (t: nat)
    requires Lawful(m) && Runs(m, run) && Unstarved(m, run) && HeldFrom(m, run, n) && LevelFrom(m, run, n, r)
    requires ks <= Held(m, run, n) && ks <= m.level(r)
    ensures n <= t && forall k :: k in ks ==> TrueFrom(m, run, t, k)
    decreases ks
  {
    t := n;
    if ks != {} {
      var k :| k in ks;
      var t1 := BecomesTrue(m, run, n, r, k);
      var t2 := AllBecomeTrue(m, run, n, r, ks - {k});
      t := if t1 <= t2 then t2 else t1;
      forall x | x in ks ensures TrueFrom(m, run, t, x) {
        if x != k { assert x in ks - {k}; }
      }
    }
  }

  /** Every level is reached. */
  lemma {:induction false} LevelReached<S(!new), K(!new)>(m: Machine<S, K>, run: Run<S>, n: nat, r: nat)
    returns (t: nat)
    requires Lawful(m) && Runs(m, run) && Unstarved(m, run) && HeldFrom(m, run, n)
    ensures n <= t && HeldFrom(m, run, t) && LevelFrom(m, run, t, r)
    decreases r
  {
    if r == 0 {
      t := n;
    } else {
      var q := LevelReached(m, run, n, r - 1);
      var ks := Held(m, run, q) * m.level(r - 1);
      t := AllBecomeTrue(m, run, q, r - 1, ks);
      forall i: nat | t <= i ensures LevelTrue(m, run(i), r) && Held(m, run, i) == Held(m, run, t) {
        assert Held(m, run, i) == Held(m, run, q) == Held(m, run, t);
        forall k | k in m.verdicts(run(i)) && k in m.level(r - 1) ensures m.verdicts(run(i))[k] {
          assert k in ks && TrueAt(m, run, i, k);
        }
      }
    }
  }

  lemma DrainsFrom<S(!new), K(!new)>(m: Machine<S, K>, run: Run<S>, n: nat, i: nat)
    requires Lawful(m) && Runs(m, run) && HeldFrom(m, run, n) && LevelFrom(m, run, n, m.top + 1) && n <= i
    ensures Ends(m, run)
    decreases |m.queued(run(i))|
  {
    if m.queued(run(i)) != {} {
      assert Stepped(m, run, i);
      var k :| Took(m, run, i, k);
      assert m.inv(run(i)) && m.inv(run(i + 1)) && Held(m, run, i + 1) == Held(m, run, n) == Held(m, run, i);
      DrainsFrom(m, run, n, i + 1);
    }
  }

  lemma {:induction false} StandsEnded<S(!new), K(!new)>(m: Machine<S, K>, run: Run<S>, n: nat, i: nat)
    requires Runs(m, run) && m.queued(run(n)) == {} && n <= i
    ensures run(i) == run(n)
    decreases i - n
  {
    if n < i {
      StandsEnded(m, run, n, i - 1);
      assert Stepped(m, run, i - 1);
    }
  }

  lemma {:induction false} WaitsFrom<S(!new), K(!new)>(m: Machine<S, K>, run: Run<S>, k: K, i: nat, j: nat)
    requires Lawful(m) && Runs(m, run) && k in m.queued(run(i)) && i <= j
    requires forall n: nat :: i <= n < j ==> !Took(m, run, n, k)
    ensures k in m.queued(run(j))
    decreases j - i
  {
    if i < j {
      assert Stepped(m, run, i);
      var x :| Took(m, run, i, x);
      assert m.inv(run(i)) && Keeps(m, run(i), x);
      WaitsFrom(m, run, k, i + 1, j);
    }
  }

  lemma EndedStarvesNothing<S(!new), K(!new)>(m: Machine<S, K>, run: Run<S>, n: nat, i: nat, k: K)
    requires Lawful(m) && Runs(m, run) && m.queued(run(n)) == {} && k in m.queued(run(i))
    ensures TakenLater(m, run, i, k)
  {
    if i > n { StandsEnded(m, run, n, i); }
    if forall j: nat :: i <= j ==> !Took(m, run, j, k) {
      WaitsFrom(m, run, k, i, n);
    }
  }

  /** A lawful run ends exactly when every item it queues is taken some time later. */
  lemma EndsIffUnstarved<S(!new), K(!new)>(m: Machine<S, K>, run: Run<S>)
    requires Lawful(m) && Runs(m, run)
    ensures Ends(m, run) <==> Unstarved(m, run)
  {
    if Ends(m, run) {
      var n: nat :| m.queued(run(n)) == {};
      forall i: nat, k | k in m.queued(run(i)) ensures TakenLater(m, run, i, k) {
        EndedStarvesNothing(m, run, n, i, k);
      }
    }
    if Unstarved(m, run) {
      var n := HeldSettles(m, run, 0);
      var t := LevelReached(m, run, n, m.top + 1);
      DrainsFrom(m, run, t, t);
    }
  }
}

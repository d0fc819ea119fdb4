/** The plain, single-bit fixpoint over call edges (`base_fixpoint` and `cold_base_fixpoint`,
    crates/vilan-core/src/async_infer.rs), and what it computes: backward reachability. */
module AsyncBase {
  import opened AsyncFlow
  import opened AsyncProgram
  import opened AsyncFixpoint
  import opened Iterates

  function Outside(nodes: seq<Id>, known: set<Id>): set<Id> {
    set n | n in nodes && n !in known
  }

  lemma SuspendsGrows(p: Program, cold: bool, known: set<Id>, known': set<Id>, n: Id)
    requires known <= known' && Suspends(p, cold, known, n)
    ensures Suspends(p, cold, known', n)
  {
    var c :| c in CallsOf(p, n) && CallSuspends(p, cold, known, c);
    SuspendsMono(p, cold, known, cold, known', c);
  }

  // ----- backward reachability -----

  /** A path of calls from its first node: each node of the view reaches the next, and the last is a
      seed or makes a statically async call. */
  ghost predicate AsyncPath(p: Program, cold: bool, seeds: set<Id>, path: seq<Id>) {
    |path| > 0 &&
    if path[0] in seeds then |path| == 1
    else
      && path[0] in p.nodes && (cold ==> path[0] in p.coldIds)
      && exists c :: c in CallsOf(p, path[0])
                     && (if |path| == 1 then StaticallyAsync(p, cold, c)
                         else Reaches(p, cold, c, path[1]) && AsyncPath(p, cold, seeds, path[1..]))
  }

  ghost predicate AsyncFrom(p: Program, cold: bool, seeds: set<Id>, n: Id) {
    exists path :: AsyncPath(p, cold, seeds, path) && path[0] == n
  }

  lemma {:induction false} PathInside(p: Program, cold: bool, seeds: set<Id>, path: seq<Id>, x: set<Id>)
    requires AsyncPath(p, cold, seeds, path) && seeds <= x && BaseClosed(p, cold, x)
    ensures path[0] in x
  {
    if path[0] !in seeds {
      var c :| c in CallsOf(p, path[0])
               && (if |path| == 1 then StaticallyAsync(p, cold, c)
                   else Reaches(p, cold, c, path[1]) && AsyncPath(p, cold, seeds, path[1..]));
      if |path| > 1 { PathInside(p, cold, seeds, path[1..], x); }
      SuspendsIsReach(p, cold, x, c);
      assert Suspends(p, cold, x, path[0]);
    }
  }

  /** The least base-closed set over the seeds is exactly the nodes a path of calls leads from to a
      seed or a statically async call. */
  lemma BaseIsBackwardReachability(p: Program, cold: bool, seeds: set<Id>, known: set<Id>, n: Id)
    requires seeds <= known && BaseClosed(p, cold, known)
    requires forall x :: seeds <= x && BaseClosed(p, cold, x) ==> known <= x
    ensures n in known <==> AsyncFrom(p, cold, seeds, n)
  {
    if AsyncFrom(p, cold, seeds, n) {
      var path :| AsyncPath(p, cold, seeds, path) && path[0] == n;
      PathInside(p, cold, seeds, path, known);
    }
    if n in known {
      var x := set i | i in known && AsyncFrom(p, cold, seeds, i);
      forall i | i in seeds ensures i in x {
        assert AsyncPath(p, cold, seeds, [i]) && [i][0] == i;
      }
      forall m | m in p.nodes && InView(p, cold, m) && Suspends(p, cold, x, m) ensures m in x {
        SuspendsGrows(p, cold, x, known, m);
        var c :| c in CallsOf(p, m) && CallSuspends(p, cold, x, c);
        PathFrom(p, cold, seeds, x, m, c);
      }
      assert BaseClosed(p, cold, x);
      assert known <= x;
    }
  }

  lemma PathFrom(p: Program, cold: bool, seeds: set<Id>, x: set<Id>, m: Id, c: CallSite)
    requires forall i :: i in x ==> AsyncFrom(p, cold, seeds, i)
    requires m in p.nodes && InView(p, cold, m) && c in CallsOf(p, m) && CallSuspends(p, cold, x, c)
    ensures AsyncFrom(p, cold, seeds, m)
  {
    SuspendsIsReach(p, cold, x, c);
    if m in seeds || StaticallyAsync(p, cold, c) {
      assert AsyncPath(p, cold, seeds, [m]) && [m][0] == m;
    } else {
      var t :| t in x && Reaches(p, cold, c, t);
      var path :| AsyncPath(p, cold, seeds, path) && path[0] == t;
      var longer := [m] + path;
      assert longer[1..] == path && longer[1] == t;
      assert AsyncPath(p, cold, seeds, longer) && longer[0] == m;
    }
  }

  /** Every pass adds a node or is the last; the result is the least set that holds `start` and is
      closed under suspending calls, whatever order the nodes are listed in: the nodes a path of calls
      leads from to the start or a statically async call. */
  method BaseFixpoint(p: Program, cold: bool, start: set<Id>) returns (known: set<Id>)
    ensures start <= known && BaseClosed(p, cold, known)
    ensures forall x :: start <= x && BaseClosed(p, cold, x) ==> known <= x
    ensures forall n :: n in known <==> AsyncFrom(p, cold, start, n)
  {
    known := start;
    while true
      invariant start <= known
      invariant forall x :: start <= x && BaseClosed(p, cold, x) ==> known <= x
      decreases |Outside(p.nodes, known)|
    {
      var changed := false;
      ghost var before := known;
      for i := 0 to |p.nodes|
        invariant before <= known && (changed <==> before != known)
        invariant forall x :: start <= x && BaseClosed(p, cold, x) ==> known <= x
        invariant forall j :: 0 <= j < i && InView(p, cold, p.nodes[j]) && Suspends(p, cold, before, p.nodes[j])
                    ==> p.nodes[j] in known
        invariant forall n :: n in known && n !in before ==> n in p.nodes
      {
        var n := p.nodes[i];
        if Suspends(p, cold, before, n) { SuspendsGrows(p, cold, before, known, n); }
        if n !in known && InView(p, cold, n) && Suspends(p, cold, known, n) {
          forall x | start <= x && BaseClosed(p, cold, x) ensures n in x {
            SuspendsGrows(p, cold, known, x, n);
          }
          known := known + {n};
          changed := true;
        }
      }
      if !changed {
        forall n ensures n in known <==> AsyncFrom(p, cold, start, n) {
          BaseIsBackwardReachability(p, cold, start, known, n);
        }
        return;
      }
      ghost var n :| n in known && n !in before;
      assert Outside(p.nodes, known) <= Outside(p.nodes, before) - {n};
      Smaller(Outside(p.nodes, known), Outside(p.nodes, before) - {n});
    }
  }
}

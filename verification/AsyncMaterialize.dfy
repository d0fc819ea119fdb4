/** The suspending calls read back over the final async set, dispatches answered once per dispatch
    record (`call_suspends_memoized`, crates/vilan-core/src/async_infer.rs). */
module AsyncMaterialize {
  import opened Basics
  import opened AsyncProgram

  predicate Dispatched(call: CallSite) {
    call.target == Indirect(GenericMember) || call.target == Indirect(TraitDispatch)
  }

  predicate ThroughObject(p: Program, call: CallSite) {
    Dispatched(call) && call.callId in p.objectCalls
  }

  /** The call is answered from the dispatch record `key`. */
  predicate AnsweredFrom(p: Program, call: CallSite, key: DispatchKey) {
    Dispatched(call) && call.callId in p.dispatchAt && p.dispatchAt[call.callId] == key
  }

  /** `calls[j]` is the first answered from `key`: its own candidates settle what the memo holds. */
  predicate FirstFrom(p: Program, calls: seq<CallSite>, key: DispatchKey, j: nat) {
    && j < |calls| && AnsweredFrom(p, calls[j], key)
    && forall h :: 0 <= h < j ==> !AnsweredFrom(p, calls[h], key)
  }

  /** The memo after `calls`: a verdict for each record asked, that of the first call that asked it. */
  ghost predicate Remembers(p: Program, known: set<Id>, calls: seq<CallSite>, memo: map<DispatchKey, bool>) {
    && (forall j :: 0 <= j < |calls| && Dispatched(calls[j]) && calls[j].callId in p.dispatchAt
          ==> p.dispatchAt[calls[j].callId] in memo)
    && (forall k :: k in memo ==> exists j: nat :: FirstFrom(p, calls, k, j))
    && (forall k, j: nat :: k in memo && FirstFrom(p, calls, k, j)
          ==> (memo[k] <==> DispatchAsync(p, known, calls[j].callId)))
  }

  method CallSuspendsMemoized(p: Program, known: set<Id>, call: CallSite, memo: map<DispatchKey, bool>)
    returns (verdict: bool, kept: map<DispatchKey, bool>)
    ensures !Dispatched(call) ==> kept == memo && (verdict <==> CallSuspends(p, false, known, call))
    ensures Dispatched(call) && call.callId !in p.dispatchAt ==> kept == memo && !verdict
    ensures Dispatched(call) && call.callId in p.dispatchAt ==>
              var k := p.dispatchAt[call.callId];
              && (verdict <==> if k in memo then memo[k] else DispatchAsync(p, known, call.callId))
              && kept == Kept(p, known, call, memo)
  {
    kept := memo;
    if !Dispatched(call) {
      verdict := CallSuspends(p, false, known, call);
      return;
    }
    if call.callId !in p.dispatchAt {
      verdict := false;
      return;
    }
    var key := p.dispatchAt[call.callId];
    if key in memo {
      verdict := memo[key];
      return;
    }
    verdict := exists m :: m in Candidates(p, call.callId) && m in known;
    kept := kept[key := verdict];
  }

  lemma OneFirst(p: Program, calls: seq<CallSite>, key: DispatchKey, h: nat, j: nat)
    requires FirstFrom(p, calls, key, h) && FirstFrom(p, calls, key, j)
    ensures h == j
  {
  }

  lemma FirstStays(p: Program, calls: seq<CallSite>, call: CallSite, key: DispatchKey, j: nat)
    requires j < |calls|
    ensures FirstFrom(p, calls + [call], key, j) <==> FirstFrom(p, calls, key, j)
  {
    assert forall h :: 0 <= h <= j ==> (calls + [call])[h] == calls[h];
  }

  /** The memo after one more call. */
  function Kept(p: Program, known: set<Id>, call: CallSite, memo: map<DispatchKey, bool>): map<DispatchKey, bool> {
    if Dispatched(call) && call.callId in p.dispatchAt && p.dispatchAt[call.callId] !in memo
    then memo[p.dispatchAt[call.callId] := DispatchAsync(p, known, call.callId)]
    else memo
  }

  lemma RemembersNext(p: Program, known: set<Id>, calls: seq<CallSite>, call: CallSite, memo: map<DispatchKey, bool>)
    requires Remembers(p, known, calls, memo)
    ensures Remembers(p, known, calls + [call], Kept(p, known, call, memo))
  {
    var all, kept := calls + [call], Kept(p, known, call, memo);
    forall k | k in kept ensures exists j: nat :: FirstFrom(p, all, k, j) {
      if k in memo {
        var j: nat :| FirstFrom(p, calls, k, j);
        FirstStays(p, calls, call, k, j);
      } else {
        assert FirstFrom(p, all, k, |calls|);
      }
    }
    forall k, j: nat | k in kept && FirstFrom(p, all, k, j)
      ensures kept[k] <==> DispatchAsync(p, known, all[j].callId)
    {
      if k in memo {
        var h: nat :| FirstFrom(p, calls, k, h);
        assert AnsweredFrom(p, all[h], k);
        assert j <= h;
        FirstStays(p, calls, call, k, j);
      } else {
        assert forall h :: 0 <= h < |calls| ==> !AnsweredFrom(p, calls[h], k);
        assert j == |calls| && all[j] == call;
      }
    }
  }

  /** What call `i` is answered.  Outside the dispatches, as unmemoized; a dispatch with no record, no;
      one with a record, by the candidates of the first call that asked that record. */
  ghost predicate Answered(p: Program, known: set<Id>, calls: seq<CallSite>, i: nat, verdict: bool)
    requires i < |calls|
  {
    if !Dispatched(calls[i]) then verdict <==> CallSuspends(p, false, known, calls[i])
    else if calls[i].callId !in p.dispatchAt then !verdict
    else exists j: nat ::
        && FirstFrom(p, calls, p.dispatchAt[calls[i].callId], j)
        && (verdict <==> DispatchAsync(p, known, calls[j].callId))
  }

  lemma AnsweredStill(p: Program, known: set<Id>, calls: seq<CallSite>, call: CallSite, i: nat, verdict: bool)
    requires i < |calls| && Answered(p, known, calls, i, verdict)
    ensures Answered(p, known, calls + [call], i, verdict)
  {
    if Dispatched(calls[i]) && calls[i].callId in p.dispatchAt {
      var key := p.dispatchAt[calls[i].callId];
      var j: nat :| FirstFrom(p, calls, key, j) && (verdict <==> DispatchAsync(p, known, calls[j].callId));
      FirstStays(p, calls, call, key, j);
    }
  }

  lemma AnsweredNext(p: Program, known: set<Id>, calls: seq<CallSite>, call: CallSite, memo: map<DispatchKey, bool>,
                     verdict: bool)
    requires Remembers(p, known, calls, memo)
    requires if !Dispatched(call) then verdict <==> CallSuspends(p, false, known, call)
             else if call.callId !in p.dispatchAt then !verdict
             else var k := p.dispatchAt[call.callId];
                  verdict <==> if k in memo then memo[k] else DispatchAsync(p, known, call.callId)
    ensures Answered(p, known, calls + [call], |calls|, verdict)
  {
    if Dispatched(call) && call.callId in p.dispatchAt {
      var key, all := p.dispatchAt[call.callId], calls + [call];
      if key in memo {
        var j: nat :| FirstFrom(p, calls, key, j);
        FirstStays(p, calls, call, key, j);
      } else {
        assert FirstFrom(p, all, key, |calls|);
      }
    }
  }

  /** The verdicts of any sequence of calls that share one memo. */
  method Materialize(p: Program, known: set<Id>, calls: seq<CallSite>) returns (verdicts: seq<bool>)
    ensures |verdicts| == |calls|
    ensures forall i :: 0 <= i < |calls| ==> Answered(p, known, calls, i, verdicts[i])
  {
    var memo: map<DispatchKey, bool> := map[];
    verdicts := [];
    for i := 0 to |calls|
      invariant |verdicts| == i && Remembers(p, known, calls[..i], memo)
      invariant forall j :: 0 <= j < i ==> Answered(p, known, calls[..i], j, verdicts[j])
    {
      var verdict, kept := CallSuspendsMemoized(p, known, calls[i], memo);
      assert calls[..i + 1] == calls[..i] + [calls[i]];
      RemembersNext(p, known, calls[..i], calls[i], memo);
      AnsweredNext(p, known, calls[..i], calls[i], memo, verdict);
      forall j | 0 <= j < i ensures Answered(p, known, calls[..i] + [calls[i]], j, verdicts[j]) {
        AnsweredStill(p, known, calls[..i], calls[i], j, verdicts[j]);
      }
      memo := kept;
      verdicts := verdicts + [verdict];
    }
    assert calls[..|calls|] == calls;
  }

  /** The memoized verdict is not the unmemoized one: an object call with no record has an async
      candidate, or the record's first call answers otherwise than this one's own candidates. */
  ghost predicate Strays(p: Program, known: set<Id>, calls: seq<CallSite>, i: nat)
    requires i < |calls|
  {
    && Dispatched(calls[i])
    && if calls[i].callId !in p.dispatchAt then ThroughObject(p, calls[i]) && DispatchAsync(p, known, calls[i].callId)
       else exists j: nat ::
           && FirstFrom(p, calls, p.dispatchAt[calls[i].callId], j)
           && (DispatchAsync(p, known, calls[j].callId) <==> !DispatchAsync(p, known, calls[i].callId))
  }

  /** The memoized verdict is the unmemoized one exactly where it does not stray; and it strays only
      where the call, or the first of its record, goes through an object. */
  lemma AgreesUnlessStrays(p: Program, known: set<Id>, calls: seq<CallSite>, i: nat, verdict: bool)
    requires i < |calls| && Answered(p, known, calls, i, verdict)
    ensures verdict == CallSuspends(p, false, known, calls[i]) <==> !Strays(p, known, calls, i)
    ensures Strays(p, known, calls, i) ==>
              || ThroughObject(p, calls[i])
              || (calls[i].callId in p.dispatchAt
                  && exists j: nat ::
                       FirstFrom(p, calls, p.dispatchAt[calls[i].callId], j) && ThroughObject(p, calls[j]))
  {
    if Dispatched(calls[i]) && calls[i].callId in p.dispatchAt {
      var key := p.dispatchAt[calls[i].callId];
      var j: nat :| FirstFrom(p, calls, key, j) && (verdict <==> DispatchAsync(p, known, calls[j].callId));
      forall h: nat | FirstFrom(p, calls, key, h) ensures h == j {
        OneFirst(p, calls, key, h, j);
      }
      if !ThroughObject(p, calls[i]) && !ThroughObject(p, calls[j]) {
        assert Candidates(p, calls[i].callId) == Candidates(p, calls[j].callId);
      }
    }
  }
}

/** The edits `--fix` splices into a file (`apply_spans` and `apply_moved_paths`, crates/vilan-cli/src/fix.rs). */
module EditApplier {
  import opened Basics
  import opened Iterates

  const USIZE_MAX: nat := 0xFFFF_FFFF_FFFF_FFFF

  datatype Span = Span(start: nat, end: nat)

  datatype Fix = Fix(span: Span, text: seq<Byte>)

  // ----- slices of UTF-8 text -----

  predicate Continues(b: Byte) {
    128 <= b < 192
  }

  /** What every string's bytes satisfy: the first starts a character. */
  predicate StartsCharacter(t: seq<Byte>) {
    t != [] ==> !Continues(t[0])
  }

  predicate Boundary(t: seq<Byte>, i: nat) {
    i == 0 || i == |t| || (i < |t| && !Continues(t[i]))
  }

  /** Whether a slice of `t` at the span is a string. */
  predicate Sliceable(t: seq<Byte>, s: Span) {
    s.start <= s.end <= |t| && Boundary(t, s.start) && Boundary(t, s.end)
  }

  // ----- the order of the edits -----

  predicate Later(a: Span, b: Span) {
    a.start > b.start || (a.start == b.start && a.end > b.end)
  }

  /** Put before every edit that is not later: the sort is stable. */
  function Insert(f: Fix, sorted: seq<Fix>): seq<Fix> {
    if sorted != [] && Later(sorted[0].span, f.span) then [sorted[0]] + Insert(f, sorted[1..])
    else [f] + sorted
  }

  function LatestFirst(fixes: seq<Fix>): seq<Fix> {
    if fixes == [] then [] else Insert(fixes[0], LatestFirst(fixes[1..]))
  }

  /** Of each run of edits at one span, the first. */
  function OnePerSpan(fixes: seq<Fix>): seq<Fix>
    decreases |fixes|
  {
    if |fixes| < 2 then fixes
    else if fixes[0].span == fixes[1].span then OnePerSpan([fixes[0]] + fixes[2..])
    else [fixes[0]] + OnePerSpan(fixes[1..])
  }

  function FirstAt(fixes: seq<Fix>, s: Span): Option<Fix> {
    if fixes == [] then None else if fixes[0].span == s then Some(fixes[0]) else FirstAt(fixes[1..], s)
  }

  predicate Descending(fixes: seq<Fix>) {
    forall i, j :: 0 <= i < j < |fixes| ==> !Later(fixes[j].span, fixes[i].span)
  }

  predicate StrictlyDescending(fixes: seq<Fix>) {
    forall i, j :: 0 <= i < j < |fixes| ==> Later(fixes[i].span, fixes[j].span)
  }

  lemma {:induction false} InsertOrders(f: Fix, sorted: seq<Fix>)
    requires Descending(sorted)
    ensures Descending(Insert(f, sorted)) && multiset(Insert(f, sorted)) == multiset(sorted) + multiset{f}
    ensures forall s :: FirstAt(Insert(f, sorted), s) == if f.span == s then Some(f) else FirstAt(sorted, s)
  {
    if sorted != [] && Later(sorted[0].span, f.span) {
      InsertOrders(f, sorted[1..]);
      assert sorted == [sorted[0]] + sorted[1..];
      PutFirst(sorted[0], f, sorted[1..], Insert(f, sorted[1..]));
    }
  }

  lemma PutFirst(first: Fix, f: Fix, sorted: seq<Fix>, rest: seq<Fix>)
    requires Descending([first] + sorted) && Descending(rest) && Later(first.span, f.span)
    requires multiset(rest) == multiset(sorted) + multiset{f}
    ensures Descending([first] + rest)
  {
    var all := [first] + sorted;
    forall i | 0 <= i < |rest| ensures !Later(rest[i].span, first.span) {
      assert rest[i] in multiset(rest);
      if rest[i] != f {
        var j :| 0 <= j < |sorted| && sorted[j] == rest[i];
        assert all[0] == first && all[j + 1] == rest[i];
      }
    }
  }

  lemma {:induction false} LatestFirstOrders(fixes: seq<Fix>)
    ensures Descending(LatestFirst(fixes)) && multiset(LatestFirst(fixes)) == multiset(fixes)
    ensures forall s :: FirstAt(LatestFirst(fixes), s) == FirstAt(fixes, s)
  {
    if fixes != [] {
      LatestFirstOrders(fixes[1..]);
      InsertOrders(fixes[0], LatestFirst(fixes[1..]));
      assert fixes == [fixes[0]] + fixes[1..];
    }
  }

  lemma {:induction false} OnePerSpanKeeps(fixes: seq<Fix>)
    requires Descending(fixes)
    ensures StrictlyDescending(OnePerSpan(fixes))
    ensures forall s :: FirstAt(OnePerSpan(fixes), s) == FirstAt(fixes, s)
    ensures |OnePerSpan(fixes)| > 0 <==> |fixes| > 0
    ensures |fixes| > 0 ==> OnePerSpan(fixes)[0] == fixes[0]
    decreases |fixes|
  {
    if |fixes| >= 2 {
      if fixes[0].span == fixes[1].span {
        var shorter := [fixes[0]] + fixes[2..];
        assert forall i :: 1 <= i < |shorter| ==> shorter[i] == fixes[i + 1];
        OnePerSpanKeeps(shorter);
        assert shorter[1..] == fixes[1..][1..];
      } else {
        OnePerSpanKeeps(fixes[1..]);
      }
    }
  }

  lemma {:induction false} FirstIsListed(fixes: seq<Fix>, s: Span)
    ensures FirstAt(fixes, s).Some? <==> exists i :: 0 <= i < |fixes| && fixes[i].span == s
    ensures FirstAt(fixes, s).Some? ==> FirstAt(fixes, s).value in fixes && FirstAt(fixes, s).value.span == s
  {
    if fixes != [] {
      FirstIsListed(fixes[1..], s);
      assert fixes == [fixes[0]] + fixes[1..];
      if i: nat :| i < |fixes| && fixes[i].span == s && fixes[0].span != s {
        assert fixes[1..][i - 1].span == s;
      }
    }
  }

  lemma {:induction false} FirstOfDistinct(fixes: seq<Fix>, f: Fix)
    requires StrictlyDescending(fixes) && f in fixes
    ensures FirstAt(fixes, f.span) == Some(f)
  {
    if fixes[0] != f {
      assert f in fixes[1..];
      var i :| 0 <= i < |fixes[1..]| && fixes[1..][i] == f;
      assert Later(fixes[0].span, fixes[i + 1].span);
      FirstOfDistinct(fixes[1..], f);
    }
  }

  // ----- what is accepted -----

  /** The edits accepted from `fixes` below `floor`, first in the text first. */
  function Accepted(text: seq<Byte>, fixes: seq<Fix>, floor: nat): seq<Fix> {
    if fixes == [] then []
    else if fixes[0].span.end > floor || !Sliceable(text, fixes[0].span) then Accepted(text, fixes[1..], floor)
    else Accepted(text, fixes[1..], fixes[0].span.start) + [fixes[0]]
  }

  /** Each edit ends before the next starts. */
  predicate Apart(kept: seq<Fix>) {
    forall i, j :: 0 <= i < j < |kept| ==> kept[i].span.end <= kept[j].span.start
  }

  lemma {:induction false} AcceptedAreApart(text: seq<Byte>, fixes: seq<Fix>, floor: nat)
    ensures Apart(Accepted(text, fixes, floor))
    ensures forall f :: f in Accepted(text, fixes, floor)
              ==> f in fixes && Sliceable(text, f.span) && f.span.end <= floor
  {
    if fixes != [] {
      AcceptedAreApart(text, fixes[1..], floor);
      AcceptedAreApart(text, fixes[1..], fixes[0].span.start);
      assert fixes == [fixes[0]] + fixes[1..];
    }
  }

  predicate Disjoint(a: Span, b: Span) {
    a.end <= b.start || b.end <= a.start
  }

  /** Spans of `fixes` that could all be edited at once, ending at or below `floor`. */
  ghost predicate Compatible(text: seq<Byte>, fixes: seq<Fix>, floor: nat, spans: set<Span>) {
    && (forall s :: s in spans
          ==> Sliceable(text, s) && s.end <= floor && exists i :: 0 <= i < |fixes| && fixes[i].span == s)
    && (forall a, b :: a in spans && b in spans && a != b ==> Disjoint(a, b))
  }

  /** No compatible choice holds more than the accepted one: of the spans that reach past the start of
      the latest, only one can be chosen. */
  lemma {:induction false} AcceptedAreMost(text: seq<Byte>, fixes: seq<Fix>, floor: nat, spans: set<Span>)
    requires Descending(fixes) && Compatible(text, fixes, floor, spans)
    ensures |spans| <= |Accepted(text, fixes, floor)|
  {
    if fixes == [] {
      if s :| s in spans { assert false; }
    } else {
      var head := fixes[0].span;
      if head.end > floor || !Sliceable(text, head) {
        StillCompatible(text, fixes, floor, spans, floor);
        AcceptedAreMost(text, fixes[1..], floor, spans);
      } else {
        var past := set s | s in spans && (s == head || s.end > head.start);
        OnePast(text, fixes, floor, spans, past);
        StillCompatible(text, fixes, floor, spans - past, head.start);
        AcceptedAreMost(text, fixes[1..], head.start, spans - past);
        assert spans == past + (spans - past);
      }
    }
  }

  lemma StillCompatible(text: seq<Byte>, fixes: seq<Fix>, floor: nat, spans: set<Span>, lower: nat)
    requires fixes != [] && Compatible(text, fixes, floor, spans)
    requires forall s :: s in spans ==> s != fixes[0].span && s.end <= lower
    ensures Compatible(text, fixes[1..], lower, spans)
  {
    forall s | s in spans ensures exists i :: 0 <= i < |fixes[1..]| && fixes[1..][i].span == s {
      var i :| 0 <= i < |fixes| && fixes[i].span == s;
      assert fixes[1..][i - 1].span == s;
    }
  }

  lemma OnePast(text: seq<Byte>, fixes: seq<Fix>, floor: nat, spans: set<Span>, past: set<Span>)
    requires Descending(fixes) && fixes != [] && Compatible(text, fixes, floor, spans) && past <= spans
    requires forall s :: s in past ==> s == fixes[0].span || s.end > fixes[0].span.start
    ensures |past| <= 1
  {
    var head := fixes[0].span;
    forall s | s in past ensures !Later(s, head) {
      var i :| 0 <= i < |fixes| && fixes[i].span == s;
    }
    forall a, b | a in past && b in past ensures a == b {
      assert a == b || Disjoint(a, b);
    }
    AtMostOne(past);
  }

  lemma AtMostOne(s: set<Span>)
    requires forall a, b :: a in s && b in s ==> a == b
    ensures |s| <= 1
  {
    if a :| a in s {
      assert s == {a};
    }
  }

  function SpansOf(kept: seq<Fix>): set<Span> {
    set f | f in kept :: f.span
  }

  /** Edits at distinct spans, each ending before the next starts, are a compatible choice. */
  lemma {:induction false} DistinctSpans(kept: seq<Fix>)
    requires forall i, j :: 0 <= i < j < |kept| ==> kept[i].span != kept[j].span
    ensures |SpansOf(kept)| == |kept|
  {
    if kept != [] {
      var n := |kept| - 1;
      DistinctSpans(kept[..n]);
      assert SpansOf(kept) == SpansOf(kept[..n]) + {kept[n].span};
    }
  }

  lemma {:induction false} AcceptedAtDistinctSpans(text: seq<Byte>, fixes: seq<Fix>, floor: nat)
    requires StrictlyDescending(fixes)
    ensures forall i, j :: 0 <= i < j < |Accepted(text, fixes, floor)|
              ==> Accepted(text, fixes, floor)[i].span != Accepted(text, fixes, floor)[j].span
  {
    if fixes != [] {
      var below := if fixes[0].span.end > floor || !Sliceable(text, fixes[0].span) then floor else fixes[0].span.start;
      var rest := Accepted(text, fixes[1..], below);
      AcceptedAtDistinctSpans(text, fixes[1..], below);
      AcceptedAreApart(text, fixes[1..], below);
      forall i | 0 <= i < |rest| ensures rest[i].span != fixes[0].span {
        assert rest[i] in fixes[1..];
      }
    }
  }

  /** The accepted spans are themselves a compatible choice, so theirs is the greatest size. */
  lemma AcceptedAreCompatible(text: seq<Byte>, fixes: seq<Fix>, floor: nat)
    requires StrictlyDescending(fixes)
    ensures var kept := Accepted(text, fixes, floor);
            Compatible(text, fixes, floor, SpansOf(kept)) && |SpansOf(kept)| == |kept|
  {
    var kept := Accepted(text, fixes, floor);
    AcceptedAreApart(text, fixes, floor);
    AcceptedAtDistinctSpans(text, fixes, floor);
    DistinctSpans(kept);
    forall a, b | a in SpansOf(kept) && b in SpansOf(kept) && a != b ensures Disjoint(a, b) {
      var i :| 0 <= i < |kept| && kept[i].span == a;
      var j :| 0 <= j < |kept| && kept[j].span == b;
    }
  }

  // ----- the text they give -----

  /** `text` from `from` on, with each edit's text in place of its span. */
  function Substituted(text: seq<Byte>, from: nat, kept: seq<Fix>): seq<Byte>
    requires Fits(text, from, kept)
    decreases |kept|
  {
    if kept == [] then text[from..]
    else
      text[from..kept[0].span.start] + (kept[0].text + Substituted(text, kept[0].span.end, kept[1..]))
  }

  /** From `from` on, the edits slice the text one after the other. */
  predicate Fits(text: seq<Byte>, from: nat, kept: seq<Fix>)
    decreases |kept|
  {
    && from <= |text|
    && (kept != [] ==>
          from <= kept[0].span.start && Sliceable(text, kept[0].span) && Fits(text, kept[0].span.end, kept[1..]))
  }

  /** Edits that fit are sliceable, and each ends before the next starts. */
  lemma {:induction false} FittingAreApart(text: seq<Byte>, from: nat, kept: seq<Fix>)
    requires Fits(text, from, kept)
    ensures Apart(kept) && forall f :: f in kept ==> from <= f.span.start && Sliceable(text, f.span)
    decreases |kept|
  {
    if kept != [] {
      FittingAreApart(text, kept[0].span.end, kept[1..]);
      assert kept == [kept[0]] + kept[1..];
    }
  }

  /** How much longer the edits leave what they cover. */
  function Growth(kept: seq<Fix>): int {
    if kept == [] then 0
    else |kept[0].text| - (kept[0].span.end - kept[0].span.start) + Growth(kept[1..])
  }

  lemma {:induction false} LengthAccounted(text: seq<Byte>, from: nat, kept: seq<Fix>)
    requires Fits(text, from, kept)
    ensures |Substituted(text, from, kept)| == |text| - from + Growth(kept)
    decreases |kept|
  {
    if kept != [] {
      LengthAccounted(text, kept[0].span.end, kept[1..]);
    }
  }

  lemma BehindHead(text: seq<Byte>, from: nat, kept: seq<Fix>)
    requires Fits(text, from, kept) && kept != []
    ensures Substituted(text, from, kept)
         == (text[from..kept[0].span.start] + kept[0].text) + Substituted(text, kept[0].span.end, kept[1..])
  {
  }

  /** The text between the edits before `k` and those from `k` on stands, moved by the growth before. */
  lemma {:induction false} UntouchedStands(text: seq<Byte>, from: nat, kept: seq<Fix>, k: nat, i: nat)
    requires Fits(text, from, kept) && k <= |kept| && from <= i < |text|
    requires forall j :: 0 <= j < k ==> kept[j].span.end <= i
    requires forall j :: k <= j < |kept| ==> i < kept[j].span.start
    ensures 0 <= i - from + Growth(kept[..k]) < |Substituted(text, from, kept)|
    ensures Substituted(text, from, kept)[i - from + Growth(kept[..k])] == text[i]
    decreases |kept|
  {
    if k == 0 {
      assert kept[..0] == [];
    } else {
      UntouchedStands(text, kept[0].span.end, kept[1..], k - 1, i);
      assert kept[..k][1..] == kept[1..][..k - 1];
      assert |kept[..k]| == k && kept[..k][0] == kept[0];
      var at := i - kept[0].span.end + Growth(kept[1..][..k - 1]);
      BehindHead(text, from, kept);
      var before := text[from..kept[0].span.start] + kept[0].text;
      assert Substituted(text, from, kept)[|before| + at] == Substituted(text, kept[0].span.end, kept[1..])[at];
    }
  }

  lemma SliceAfter(before: seq<Byte>, rest: seq<Byte>, at: nat, n: nat)
    requires at + n <= |rest|
    ensures (before + rest)[|before| + at..|before| + at + n] == rest[at..at + n]
  {
  }

  /** Each edit's text stands where its span was, moved by the growth before it. */
  lemma {:induction false} EditStands(text: seq<Byte>, from: nat, kept: seq<Fix>, k: nat)
    requires Fits(text, from, kept) && k < |kept|
    ensures var at := kept[k].span.start - from + Growth(kept[..k]);
            && 0 <= at <= at + |kept[k].text| <= |Substituted(text, from, kept)|
            && Substituted(text, from, kept)[at..at + |kept[k].text|] == kept[k].text
    decreases |kept|
  {
    var head := kept[0];
    var before := text[from..head.span.start] + head.text;
    var rest := Substituted(text, head.span.end, kept[1..]);
    BehindHead(text, from, kept);
    if k > 0 {
      EditStands(text, head.span.end, kept[1..], k - 1);
      assert kept[..k][1..] == kept[1..][..k - 1];
      var at := kept[k].span.start - head.span.end + Growth(kept[1..][..k - 1]);
      SliceAfter(before, rest, at, |kept[k].text|);
    } else {
      assert kept[..0] == [];
      SliceWithin(text[from..head.span.start], head.text, rest);
    }
  }

  lemma SliceWithin(a: seq<Byte>, b: seq<Byte>, c: seq<Byte>)
    ensures (a + b + c)[|a|..|a| + |b|] == b
  {
  }

  lemma PrefixStands(text: seq<Byte>, at: nat, kept: seq<Fix>)
    requires Fits(text, at, kept)
    ensures Fits(text, 0, kept) && Substituted(text, 0, kept) == text[..at] + Substituted(text, at, kept)
  {
    if kept == [] {
      assert text[0..] == text[..at] + text[at..];
    } else {
      var start := kept[0].span.start;
      Joined(text, at, start, kept[0].text + Substituted(text, kept[0].span.end, kept[1..]));
    }
  }

  lemma Joined(text: seq<Byte>, at: nat, to: nat, rest: seq<Byte>)
    requires at <= to <= |text|
    ensures text[0..to] + rest == text[..at] + (text[at..to] + rest)
  {
  }

  lemma {:induction false} SubstitutedStarts(text: seq<Byte>, at: nat, kept: seq<Fix>)
    requires Fits(text, at, kept) && Boundary(text, at) && StartsCharacter(text)
    requires forall f :: f in kept ==> StartsCharacter(f.text)
    ensures StartsCharacter(Substituted(text, at, kept))
    decreases |kept|
  {
    if kept != [] {
      SubstitutedStarts(text, kept[0].span.end, kept[1..]);
    }
  }

  /** Below the last edit the text is as it was, and so are its character boundaries. */
  lemma SameSlices(text: seq<Byte>, at: nat, kept: seq<Fix>, s: Span)
    requires Fits(text, at, kept) && Boundary(text, at) && StartsCharacter(text) && s.end <= at
    requires forall f :: f in kept ==> StartsCharacter(f.text)
    ensures Fits(text, 0, kept) && (Sliceable(Substituted(text, 0, kept), s) <==> Sliceable(text, s))
  {
    PrefixStands(text, at, kept);
    SubstitutedStarts(text, at, kept);
    var w := Substituted(text, 0, kept);
    forall i | 0 <= i <= at ensures Boundary(w, i) <==> Boundary(text, i) {
      if i < at { assert w[i] == text[i]; }
      else if i < |w| { assert w[i] == Substituted(text, at, kept)[0]; }
    }
  }

  function ReplaceRange(t: seq<Byte>, s: Span, with: seq<Byte>): seq<Byte>
    requires s.start <= s.end <= |t|
  {
    t[..s.start] + with + t[s.end..]
  }

  lemma OneMore(text: seq<Byte>, at: nat, kept: seq<Fix>, f: Fix)
    requires Fits(text, at, kept) && Sliceable(text, f.span) && f.span.end <= at
    ensures Fits(text, f.span.start, [f] + kept) && Fits(text, 0, kept) && Fits(text, 0, [f] + kept)
    ensures f.span.end <= |Substituted(text, 0, kept)|
    ensures ReplaceRange(Substituted(text, 0, kept), f.span, f.text) == Substituted(text, 0, [f] + kept)
  {
    PrefixStands(text, at, kept);
    PrefixStands(text, f.span.end, kept);
    var all := [f] + kept;
    assert all[0] == f && all[1..] == kept;
    var w := Substituted(text, 0, kept);
    assert w[..f.span.start] == text[..f.span.start] && w[f.span.end..] == Substituted(text, f.span.end, kept);
  }

  // ----- the loops -----

  /** The text with `kept` made; `at` is the floor, or the text's end while nothing was made. */
  ghost predicate Splicing(text: seq<Byte>, floor: nat, at: nat, kept: seq<Fix>, rewritten: seq<Byte>) {
    && Fits(text, at, kept) && Fits(text, 0, kept) && rewritten == Substituted(text, 0, kept)
    && Boundary(text, at) && at <= floor && (floor != at ==> kept == [] && at == |text|)
    && (forall f :: f in kept ==> StartsCharacter(f.text))
  }

  /** Asking the text as rewritten so far whether the span slices it is asking the original. */
  lemma SpliceStep(text: seq<Byte>, floor: nat, at: nat, kept: seq<Fix>, rewritten: seq<Byte>, f: Fix)
    requires Splicing(text, floor, at, kept, rewritten) && StartsCharacter(text) && StartsCharacter(f.text)
    requires f.span.end <= floor
    ensures Sliceable(rewritten, f.span) <==> Sliceable(text, f.span)
    ensures Sliceable(text, f.span) ==>
              f.span.end <= |rewritten|
              && Splicing(text, f.span.start, f.span.start, [f] + kept, ReplaceRange(rewritten, f.span, f.text))
  {
    if kept == [] { assert rewritten == text; }
    if f.span.end <= at {
      SameSlices(text, at, kept, f.span);
      if Sliceable(text, f.span) { OneMore(text, at, kept, f); }
    }
  }

  /** From the last edit to the first; one that reaches past the last applied, or slices no string, is
      skipped. */
  method Splice(text: seq<Byte>, fixes: seq<Fix>) returns (rewritten: seq<Byte>, applied: nat)
    requires |text| <= USIZE_MAX && StartsCharacter(text) && forall f :: f in fixes ==> StartsCharacter(f.text)
    ensures Fits(text, 0, Accepted(text, fixes, USIZE_MAX))
    ensures rewritten == Substituted(text, 0, Accepted(text, fixes, USIZE_MAX))
    ensures applied == |Accepted(text, fixes, USIZE_MAX)|
  {
    rewritten, applied := text, 0;
    var floor: nat := USIZE_MAX;
    ghost var kept: seq<Fix>, at: nat := [], |text|;
    for i := 0 to |fixes|
      invariant applied == |kept| && Splicing(text, floor, at, kept, rewritten)
      invariant Accepted(text, fixes, USIZE_MAX) == Accepted(text, fixes[i..], floor) + kept
    {
      var f := fixes[i];
      assert fixes[i..][1..] == fixes[i + 1..];
      if f.span.end <= floor { SpliceStep(text, floor, at, kept, rewritten, f); }
      if f.span.end > floor || !Sliceable(rewritten, f.span) {
        continue;
      }
      rewritten := ReplaceRange(rewritten, f.span, f.text);
      kept, floor, at := [f] + kept, f.span.start, f.span.start;
      applied := applied + 1;
    }
    assert Accepted(text, fixes[|fixes|..], floor) == [] && [] + kept == kept;
  }

  /** One edit per span, the first listed; the text is the substitution, all at once, of a largest
      choice of the spans that fit together. */
  method ApplySpans(text: seq<Byte>, fixes: seq<Fix>) returns (rewritten: seq<Byte>, applied: nat, ghost kept: seq<Fix>)
    requires |text| <= USIZE_MAX && StartsCharacter(text) && forall f :: f in fixes ==> StartsCharacter(f.text)
    ensures Fits(text, 0, kept) && rewritten == Substituted(text, 0, kept) && applied == |kept|
    ensures forall f :: f in kept ==> FirstAt(fixes, f.span) == Some(f)
    ensures Compatible(text, fixes, USIZE_MAX, SpansOf(kept)) && |SpansOf(kept)| == applied
    ensures forall spans :: Compatible(text, fixes, USIZE_MAX, spans) ==> |spans| <= applied
  {
    var sorted := LatestFirst(fixes);
    LatestFirstOrders(fixes);
    var distinct := OnePerSpan(sorted);
    OnePerSpanKeeps(sorted);
    forall f | f in distinct ensures FirstAt(fixes, f.span) == Some(f) && f in fixes {
      FirstOfDistinct(distinct, f);
      FirstIsListed(fixes, f.span);
    }
    rewritten, applied := Splice(text, distinct);
    kept := Accepted(text, distinct, USIZE_MAX);
    AcceptedAreApart(text, distinct, USIZE_MAX);
    AcceptedAreCompatible(text, distinct, USIZE_MAX);
    forall s | s in SpansOf(kept) ensures exists i :: 0 <= i < |fixes| && fixes[i].span == s {
      FirstIsListed(fixes, s);
    }
    forall spans | Compatible(text, fixes, USIZE_MAX, spans) ensures |spans| <= applied {
      forall s | s in spans ensures exists i :: 0 <= i < |distinct| && distinct[i].span == s {
        FirstIsListed(fixes, s);
        FirstIsListed(distinct, s);
      }
      AcceptedAreMost(text, distinct, USIZE_MAX, spans);
    }
  }

  predicate AtDistinctSpans(fixes: seq<Fix>) {
    forall i, j :: 0 <= i < j < |fixes| ==> fixes[i].span != fixes[j].span
  }

  /** Sorted, edits at distinct spans descend strictly. */
  lemma SortedDistinct(fixes: seq<Fix>, sorted: seq<Fix>)
    requires Descending(sorted) && multiset(sorted) == multiset(fixes)
    requires AtDistinctSpans(fixes)
    ensures StrictlyDescending(sorted)
  {
    forall i, j | 0 <= i < j < |sorted| ensures Later(sorted[i].span, sorted[j].span) {
      if sorted[i].span == sorted[j].span { OneAtSpan(fixes, sorted, i, j); }
    }
  }

  lemma OneAtSpan(fixes: seq<Fix>, sorted: seq<Fix>, i: nat, j: nat)
    requires multiset(sorted) == multiset(fixes) && i < j < |sorted| && sorted[i].span == sorted[j].span
    ensures exists a, b :: 0 <= a < b < |fixes| && fixes[a].span == fixes[b].span
  {
    assert sorted[i] in multiset(sorted) && sorted[j] in multiset(sorted);
    assert sorted[i] in fixes && sorted[j] in fixes;
    if sorted[i] == sorted[j] {
      TwiceIn(sorted, i, j);
      TwiceAt(fixes, sorted[i]);
    } else {
      var a :| 0 <= a < |fixes| && fixes[a] == sorted[i];
      var b :| 0 <= b < |fixes| && fixes[b] == sorted[j];
      if a < b { assert fixes[a].span == fixes[b].span; } else { assert fixes[b].span == fixes[a].span; }
    }
  }

  lemma TwiceIn(s: seq<Fix>, i: nat, j: nat)
    requires i < j < |s| && s[i] == s[j]
    ensures multiset(s)[s[i]] >= 2
  {
    assert s == s[..j] + [s[j]] + s[j + 1..];
    assert s[i] in s[..j];
  }

  lemma {:induction false} TwiceAt(s: seq<Fix>, f: Fix)
    requires multiset(s)[f] >= 2
    ensures exists a, b :: 0 <= a < b < |s| && s[a] == f && s[b] == f
  {
    assert s == [s[0]] + s[1..];
    if s[0] == f {
      assert f in multiset(s[1..]);
      var b :| 0 <= b < |s[1..]| && s[1..][b] == f;
      assert s[0] == f && s[b + 1] == f;
    } else {
      TwiceAt(s[1..], f);
      var a, b :| 0 <= a < b < |s[1..]| && s[1..][a] == f && s[1..][b] == f;
      assert s[a + 1] == f && s[b + 1] == f;
    }
  }

  /** What fits among edits listed in one order fits among them in another. */
  lemma CompatibleEitherWay(text: seq<Byte>, fixes: seq<Fix>, sorted: seq<Fix>, spans: set<Span>)
    requires multiset(sorted) == multiset(fixes)
    ensures Compatible(text, fixes, USIZE_MAX, spans) <==> Compatible(text, sorted, USIZE_MAX, spans)
  {
    forall s | s in spans
      ensures (exists i :: 0 <= i < |fixes| && fixes[i].span == s)
                <==> (exists i :: 0 <= i < |sorted| && sorted[i].span == s)
    {
      if i :| 0 <= i < |fixes| && fixes[i].span == s { ListedEitherWay(fixes, sorted, s); }
      if i :| 0 <= i < |sorted| && sorted[i].span == s { ListedEitherWay(sorted, fixes, s); }
    }
  }

  lemma ListedEitherWay(fixes: seq<Fix>, sorted: seq<Fix>, s: Span)
    requires multiset(sorted) == multiset(fixes) && exists i :: 0 <= i < |fixes| && fixes[i].span == s
    ensures exists i :: 0 <= i < |sorted| && sorted[i].span == s
  {
    var i :| 0 <= i < |fixes| && fixes[i].span == s;
    assert fixes[i] in multiset(sorted);
  }

  /** As ApplySpans, on edits known to slice the text.  At distinct spans - the caller's are a map's -
      the edits made are themselves a largest compatible choice; two insertions at one place are both made. */
  method ApplyMovedPaths(text: seq<Byte>, fixes: seq<Fix>)
    returns (rewritten: seq<Byte>, applied: nat, ghost kept: seq<Fix>)
    requires |text| <= USIZE_MAX && StartsCharacter(text) && forall f :: f in fixes ==> StartsCharacter(f.text)
    requires forall f :: f in fixes ==> Sliceable(text, f.span)
    ensures Fits(text, 0, kept) && rewritten == Substituted(text, 0, kept) && applied == |kept|
    ensures forall f :: f in kept ==> f in fixes
    ensures AtDistinctSpans(fixes) ==> Compatible(text, fixes, USIZE_MAX, SpansOf(kept)) && |SpansOf(kept)| == applied
    ensures forall spans :: Compatible(text, fixes, USIZE_MAX, spans) ==> |spans| <= applied
  {
    var sorted := LatestFirst(fixes);
    LatestFirstOrders(fixes);
    assert forall f :: f in sorted <==> f in multiset(sorted);
    assert forall f :: f in fixes <==> f in multiset(fixes);
    rewritten, applied := Splice(text, sorted);
    kept := Accepted(text, sorted, USIZE_MAX);
    AcceptedAreApart(text, sorted, USIZE_MAX);
    if AtDistinctSpans(fixes) {
      SortedDistinct(fixes, sorted);
      AcceptedAreCompatible(text, sorted, USIZE_MAX);
      CompatibleEitherWay(text, fixes, sorted, SpansOf(kept));
    }
    forall spans | Compatible(text, fixes, USIZE_MAX, spans) ensures |spans| <= applied {
      CompatibleEitherWay(text, fixes, sorted, spans);
      AcceptedAreMost(text, sorted, USIZE_MAX, spans);
    }
  }
}

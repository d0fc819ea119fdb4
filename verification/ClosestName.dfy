/** The nearest name to one that did not resolve (crates/vilan-core/src/closest_name.rs). */
module ClosestName {
  import opened Basics

  function Min(x: nat, y: nat): nat {
    if x <= y then x else y
  }

  function Max(x: nat, y: nat): nat {
    if x >= y then x else y
  }

  // ----- what the distance is: the fewest single-character edits -----

  predicate Inserts(a: string, b: string, i: nat) {
    i <= |a| && |b| == |a| + 1 && b == a[..i] + [b[i]] + a[i..]
  }

  predicate Substitutes(a: string, b: string, i: nat) {
    i < |a| && |b| == |a| && b == a[..i] + [b[i]] + a[i + 1..]
  }

  /** One insertion, deletion or substitution, anywhere. */
  predicate OneEdit(a: string, b: string) {
    exists i: nat :: i <= |a| + 1 && (Inserts(a, b, i) || Inserts(b, a, i) || Substitutes(a, b, i))
  }

  /** `n` edits lead from `a` to `b`. */
  ghost predicate Leads(a: string, b: string, n: nat)
    decreases n
  {
    if n == 0 then a == b else exists m :: OneEdit(a, m) && Leads(m, b, n - 1)
  }

  // ----- the table -----

  function Cost(x: char, y: char): nat {
    if x == y then 0 else 1
  }

  /** The table's entry for two prefixes. */
  function Distance(a: string, b: string): nat
    decreases |a| + |b|
  {
    if a == "" then |b|
    else if b == "" then |a|
    else
      var a', b' := a[..|a| - 1], b[..|b| - 1];
      Min(Min(Distance(a', b) + 1, Distance(a, b') + 1), Distance(a', b') + Cost(a[|a| - 1], b[|b| - 1]))
  }

  /** The row of one prefix of `a`, up to the column `n`. */
  ghost predicate RowOf(row: seq<nat>, a: string, b: string, n: nat) {
    n <= |b| < |row| && forall j :: 0 <= j <= n ==> row[j] == Distance(a, b[..j])
  }

  /** A row at a time, two rows held and swapped. */
  method EditDistance(a: string, b: string) returns (distance: nat)
    ensures distance == Distance(a, b)
    ensures Leads(a, b, distance)
    ensures forall n: nat :: Leads(a, b, n) ==> distance <= n
  {
    var previousRow := new nat[|b| + 1](j => j);
    var currentRow := new nat[|b| + 1](_ => 0);
    for i := 0 to |a|
      invariant previousRow.Length == currentRow.Length == |b| + 1 && previousRow != currentRow
      invariant fresh(previousRow) && fresh(currentRow)
      invariant RowOf(previousRow[..], a[..i], b, |b|)
    {
      FillRow(a, b, i, previousRow, currentRow);
      previousRow, currentRow := currentRow, previousRow;
    }
    distance := previousRow[|b|];
    assert previousRow[..][|b|] == Distance(a[..|a|], b[..|b|]) && a[..|a|] == a && b[..|b|] == b;
    FewestEdits(a, b);
  }

  lemma RowGrows(row: seq<nat>, a: string, b: string, n: nat, x: nat)
    requires RowOf(row, a, b, n) && n < |b| && x == Distance(a, b[..n + 1])
    ensures RowOf(row[n + 1 := x], a, b, n + 1)
  {
  }

  lemma RowBegins(row: seq<nat>, a: string, b: string)
    requires |b| < |row| && row[0] == |a|
    ensures RowOf(row, a, b, 0)
  {
    assert b[..0] == "";
  }

  method FillRow(a: string, b: string, i: nat, previousRow: array<nat>, currentRow: array<nat>)
    requires i < |a| && previousRow.Length == currentRow.Length == |b| + 1 && previousRow != currentRow
    requires RowOf(previousRow[..], a[..i], b, |b|)
    modifies currentRow
    ensures RowOf(currentRow[..], a[..i + 1], b, |b|)
  {
    ghost var above := previousRow[..];
    currentRow[0] := i + 1;
    RowBegins(currentRow[..], a[..i + 1], b);
    for j := 0 to |b|
      invariant previousRow[..] == above && RowOf(currentRow[..], a[..i + 1], b, j)
    {
      ghost var row := currentRow[..];
      var entry := Min(Min(previousRow[j + 1] + 1, currentRow[j] + 1), previousRow[j] + Cost(a[i], b[j]));
      EntryOf(above, row, a, b, i, j, entry);
      RowGrows(row, a[..i + 1], b, j, entry);
      currentRow[j + 1] := entry;
      assert currentRow[..] == row[j + 1 := entry];
    }
  }

  lemma EntryOf(above: seq<nat>, row: seq<nat>, a: string, b: string, i: nat, j: nat, entry: nat)
    requires i < |a| && j < |b| && RowOf(above, a[..i], b, |b|) && RowOf(row, a[..i + 1], b, j)
    requires entry == Min(Min(above[j + 1] + 1, row[j] + 1), above[j] + Cost(a[i], b[j]))
    ensures entry == Distance(a[..i + 1], b[..j + 1])
  {
    Entry(a, b, i, j);
  }

  lemma Entry(a: string, b: string, i: nat, j: nat)
    requires i < |a| && j < |b|
    ensures Distance(a[..i + 1], b[..j + 1])
         == Min(Min(Distance(a[..i], b[..j + 1]) + 1, Distance(a[..i + 1], b[..j]) + 1),
                Distance(a[..i], b[..j]) + Cost(a[i], b[j]))
  {
    assert a[..i + 1][..i] == a[..i] && b[..j + 1][..j] == b[..j];
  }

  // ----- the table is a metric -----

  lemma {:induction false} ZeroIsEqual(a: string, b: string)
    ensures Distance(a, b) == 0 <==> a == b
    decreases |a| + |b|
  {
    if a != "" && b != "" {
      var a', b' := a[..|a| - 1], b[..|b| - 1];
      ZeroIsEqual(a', b');
      assert a == a' + [a[|a| - 1]] && b == b' + [b[|b| - 1]];
    }
  }

  lemma {:induction false} Symmetric(a: string, b: string)
    ensures Distance(a, b) == Distance(b, a)
    decreases |a| + |b|
  {
    if a != "" && b != "" {
      var a', b' := a[..|a| - 1], b[..|b| - 1];
      Symmetric(a', b);
      Symmetric(a, b');
      Symmetric(a', b');
    }
  }

  lemma {:induction false} AtLeastTheGap(a: string, b: string)
    ensures |b| <= |a| + Distance(a, b) && |a| <= |b| + Distance(a, b) && Distance(a, b) <= |a| + |b|
    decreases |a| + |b|
  {
    if a != "" && b != "" {
      var a', b' := a[..|a| - 1], b[..|b| - 1];
      AtLeastTheGap(a', b);
      AtLeastTheGap(a, b');
      AtLeastTheGap(a', b');
    }
  }

  lemma {:induction false} Triangle(a: string, b: string, c: string)
    ensures Distance(a, c) <= Distance(a, b) + Distance(b, c)
    decreases |a| + |b| + |c|
  {
    if a == "" || b == "" || c == "" {
      AtLeastTheGap(a, b);
      AtLeastTheGap(b, c);
      AtLeastTheGap(a, c);
    } else {
      var a', b', c' := a[..|a| - 1], b[..|b| - 1], c[..|c| - 1];
      Triangle(a', b, c);
      Triangle(a, b, c');
      Triangle(a, b', c);
      Triangle(a, b', c');
      Triangle(a', b', c);
      Triangle(a', b', c');
    }
  }

  // ----- every sequence of edits is at least as long -----

  lemma {:induction false} SameTail(a: string, b: string, tail: string)
    ensures Distance(a + tail, b + tail) <= Distance(a, b)
  {
    if tail == "" {
      assert a + tail == a && b + tail == b;
    } else {
      var n := |tail| - 1;
      SameTail(a, b, tail[..n]);
      assert (a + tail)[..|a| + n] == a + tail[..n] && (b + tail)[..|b| + n] == b + tail[..n];
    }
  }

  lemma InsertionIsOne(a: string, b: string, i: nat)
    requires Inserts(a, b, i)
    ensures Distance(a, b) <= 1
  {
    var head := a[..i];
    var grown := head + [b[i]];
    assert grown[..i] == head && b == grown + a[i..] && a == head + a[i..];
    ZeroIsEqual(head, head);
    if head != "" { assert Distance(head, grown) <= Distance(head, head) + 1; }
    SameTail(head, grown, a[i..]);
  }

  lemma SubstitutionIsOne(a: string, b: string, i: nat)
    requires Substitutes(a, b, i)
    ensures Distance(a, b) <= 1
  {
    var x, y := a[..i] + [a[i]], b[..i] + [b[i]];
    assert a == x + a[i + 1..] && b == y + a[i + 1..] && x[..i] == y[..i];
    ZeroIsEqual(x[..i], y[..i]);
    SameTail(x, y, a[i + 1..]);
  }

  lemma OneEditIsOne(a: string, b: string)
    requires OneEdit(a, b)
    ensures Distance(a, b) <= 1
  {
    var i: nat :| i <= |a| + 1 && (Inserts(a, b, i) || Inserts(b, a, i) || Substitutes(a, b, i));
    if Inserts(a, b, i) {
      InsertionIsOne(a, b, i);
    } else if Inserts(b, a, i) {
      InsertionIsOne(b, a, i);
      Symmetric(b, a);
    } else {
      SubstitutionIsOne(a, b, i);
    }
  }

  lemma {:induction false} EditsBound(a: string, b: string, n: nat)
    requires Leads(a, b, n)
    ensures Distance(a, b) <= n
    decreases n
  {
    if n == 0 {
      ZeroIsEqual(a, b);
    } else {
      var m :| OneEdit(a, m) && Leads(m, b, n - 1);
      OneEditIsOne(a, m);
      EditsBound(m, b, n - 1);
      Triangle(a, m, b);
    }
  }

  // ----- and one is as short -----

  lemma {:induction false} ThenOne(a: string, b: string, c: string, n: nat)
    requires Leads(a, b, n) && OneEdit(b, c)
    ensures Leads(a, c, n + 1)
    decreases n
  {
    if n == 0 {
      assert Leads(c, c, 0);
    } else {
      var m :| OneEdit(a, m) && Leads(m, b, n - 1);
      ThenOne(m, b, c, n - 1);
    }
  }

  lemma EditUnderTail(a: string, b: string, x: char)
    requires OneEdit(a, b)
    ensures OneEdit(a + [x], b + [x])
  {
    var i: nat :| i <= |a| + 1 && (Inserts(a, b, i) || Inserts(b, a, i) || Substitutes(a, b, i));
    assert Inserts(a, b, i) ==> Inserts(a + [x], b + [x], i);
    assert Inserts(b, a, i) ==> Inserts(b + [x], a + [x], i);
    assert Substitutes(a, b, i) ==> Substitutes(a + [x], b + [x], i);
  }

  lemma {:induction false} LeadsUnderTail(a: string, b: string, x: char, n: nat)
    requires Leads(a, b, n)
    ensures Leads(a + [x], b + [x], n)
    decreases n
  {
    if n > 0 {
      var m :| OneEdit(a, m) && Leads(m, b, n - 1);
      EditUnderTail(a, m, x);
      LeadsUnderTail(m, b, x, n - 1);
      FirstOne(a + [x], m + [x], b + [x], n - 1);
    }
  }

  lemma FirstOne(a: string, m: string, b: string, n: nat)
    requires OneEdit(a, m) && Leads(m, b, n)
    ensures Leads(a, b, n + 1)
  {
  }

  lemma LastEdits(a: string, x: char, y: char)
    ensures OneEdit(a, a + [x]) && OneEdit(a + [x], a) && OneEdit(a + [x], a + [y])
  {
    assert Inserts(a, a + [x], |a|) && Substitutes(a + [x], a + [y], |a|);
  }

  lemma ThenInsert(a: string, b: string, y: char, n: nat)
    requires Leads(a, b, n)
    ensures Leads(a, b + [y], n + 1)
  {
    LastEdits(b, y, y);
    ThenOne(a, b, b + [y], n);
  }

  lemma FirstDelete(a: string, x: char, b: string, n: nat)
    requires Leads(a, b, n)
    ensures Leads(a + [x], b, n + 1)
  {
    LastEdits(a, x, x);
  }

  lemma ThenSubstitute(a: string, x: char, b: string, y: char, n: nat)
    requires Leads(a, b, n)
    ensures Leads(a + [x], b + [y], n + Cost(x, y))
  {
    LeadsUnderTail(a, b, x, n);
    if x != y { AlterLast(a + [x], b, x, y, n); }
  }

  lemma AlterLast(a: string, b: string, x: char, y: char, n: nat)
    requires Leads(a, b + [x], n)
    ensures Leads(a, b + [y], n + 1)
  {
    LastEdits(b, x, y);
    ThenOne(a, b + [x], b + [y], n);
  }

  lemma {:induction false} EditsSuffice(a: string, b: string)
    ensures Leads(a, b, Distance(a, b))
    decreases |a| + |b|, 1
  {
    if a == "" {
      OnlyInsertions(b);
    } else if b == "" {
      OnlyDeletions(a);
    } else {
      ByLastDeletion(a, b);
      ByLastInsertion(a, b);
      ByLastSubstitution(a, b);
      ShortestOf(a, b);
    }
  }

  lemma ShortestOf(a: string, b: string)
    requires a != "" && b != ""
    requires Leads(a, b, Distance(a[..|a| - 1], b) + 1) && Leads(a, b, Distance(a, b[..|b| - 1]) + 1)
    requires Leads(a, b, Distance(a[..|a| - 1], b[..|b| - 1]) + Cost(a[|a| - 1], b[|b| - 1]))
    ensures Leads(a, b, Distance(a, b))
  {
    var x, y := Distance(a[..|a| - 1], b) + 1, Distance(a, b[..|b| - 1]) + 1;
    var z := Distance(a[..|a| - 1], b[..|b| - 1]) + Cost(a[|a| - 1], b[|b| - 1]);
    assert Distance(a, b) in {x, y, z};
  }

  lemma {:induction false} ByLastDeletion(a: string, b: string)
    requires a != ""
    ensures Leads(a, b, Distance(a[..|a| - 1], b) + 1)
    decreases |a| + |b|, 0
  {
    var a', x := a[..|a| - 1], a[|a| - 1];
    EditsSuffice(a', b);
    FirstDelete(a', x, b, Distance(a', b));
    assert a == a' + [x];
  }

  lemma {:induction false} ByLastInsertion(a: string, b: string)
    requires b != ""
    ensures Leads(a, b, Distance(a, b[..|b| - 1]) + 1)
    decreases |a| + |b|, 0
  {
    var b', y := b[..|b| - 1], b[|b| - 1];
    EditsSuffice(a, b');
    ThenInsert(a, b', y, Distance(a, b'));
    assert b == b' + [y];
  }

  lemma {:induction false} ByLastSubstitution(a: string, b: string)
    requires a != "" && b != ""
    ensures Leads(a, b, Distance(a[..|a| - 1], b[..|b| - 1]) + Cost(a[|a| - 1], b[|b| - 1]))
    decreases |a| + |b|, 0
  {
    var a', x, b', y := a[..|a| - 1], a[|a| - 1], b[..|b| - 1], b[|b| - 1];
    EditsSuffice(a', b');
    ThenSubstitute(a', x, b', y, Distance(a', b'));
    assert a == a' + [x] && b == b' + [y];
  }

  lemma {:induction false} OnlyInsertions(b: string)
    ensures Leads("", b, |b|)
  {
    if b != "" {
      var b' := b[..|b| - 1];
      OnlyInsertions(b');
      assert b == b' + [b[|b| - 1]];
      ThenInsert("", b', b[|b| - 1], |b'|);
    }
  }

  lemma {:induction false} OnlyDeletions(a: string)
    ensures Leads(a, "", |a|)
  {
    if a != "" {
      var a' := a[..|a| - 1];
      OnlyDeletions(a');
      assert a == a' + [a[|a| - 1]];
      FirstDelete(a', a[|a| - 1], "", |a'|);
    }
  }

  /** The table's last entry is the length of a shortest sequence of edits. */
  lemma FewestEdits(a: string, b: string)
    ensures Leads(a, b, Distance(a, b))
    ensures forall n: nat :: Leads(a, b, n) ==> Distance(a, b) <= n
  {
    EditsSuffice(a, b);
    forall n: nat | Leads(a, b, n) ensures Distance(a, b) <= n {
      EditsBound(a, b, n);
    }
  }

  // ----- the nearest name -----

  /** A third of the longer length, at least 1. */
  function Threshold(aLength: nat, bLength: nat): nat {
    Max(Max(aLength, bLength) / 3, 1)
  }

  function Utf8Width(c: char): nat {
    if c as int < 0x80 then 1 else if c as int < 0x800 then 2 else if c as int < 0x1_0000 then 3 else 4
  }

  /** The length the threshold sees is in bytes; the distance counts characters. */
  function ByteLength(s: string): nat {
    if s == "" then 0 else Utf8Width(s[0]) + ByteLength(s[1..])
  }

  /** Near enough to suggest, and another name. */
  predicate Near(target: string, candidate: string) {
    candidate != target && Distance(target, candidate) <= Threshold(ByteLength(target), ByteLength(candidate))
  }

  /** `candidates[k]` is near, none is nearer, and none before it is as near. */
  predicate Nearest(target: string, candidates: seq<string>, k: nat) {
    && k < |candidates| && Near(target, candidates[k])
    && forall i :: 0 <= i < |candidates| && Near(target, candidates[i])
         ==> Beats(target, candidates[k], candidates[i], k <= i)
  }

  /** `x` is nearer than `y`, or as near and first. */
  predicate Beats(target: string, x: string, y: string, first: bool) {
    Distance(target, x) < Distance(target, y) || (first && Distance(target, x) == Distance(target, y))
  }

  predicate NoneNear(target: string, candidates: seq<string>) {
    forall i :: 0 <= i < |candidates| ==> !Near(target, candidates[i])
  }

  lemma NextCandidate(target: string, before: seq<string>, candidate: string, k: nat)
    ensures !Near(target, candidate) && NoneNear(target, before) ==> NoneNear(target, before + [candidate])
    ensures Near(target, candidate) && NoneNear(target, before) ==> Nearest(target, before + [candidate], |before|)
    ensures Nearest(target, before, k) ==>
              var nearer := Near(target, candidate) && Distance(target, candidate) < Distance(target, before[k]);
              Nearest(target, before + [candidate], if nearer then |before| else k)
  {
    var all := before + [candidate];
    assert forall i :: 0 <= i < |before| ==> all[i] == before[i];
  }

  /** The first of the nearest candidates, or none when nothing is near. */
  method FindClosest(target: string, candidates: seq<string>) returns (name: Option<string>)
    ensures name.None? <==> NoneNear(target, candidates)
    ensures name.Some? ==> exists k: nat :: Nearest(target, candidates, k) && candidates[k] == name.value
  {
    var best: Option<(string, nat)> := None;
    ghost var at: nat := 0;
    for i := 0 to |candidates|
      invariant best.None? ==> NoneNear(target, candidates[..i])
      invariant best.Some? ==> Nearest(target, candidates[..i], at)
                               && best.value == (candidates[at], Distance(target, candidates[at]))
    {
      var candidate := candidates[i];
      var distance := EditDistance(target, candidate);
      ZeroIsEqual(target, candidate);
      NextCandidate(target, candidates[..i], candidate, at);
      assert candidates[..i + 1] == candidates[..i] + [candidate];
      if distance == 0 || distance > Threshold(ByteLength(target), ByteLength(candidate)) {
        continue;
      }
      if best.None? || distance < best.value.1 {
        best := Some((candidate, distance));
        at := i;
      }
    }
    assert candidates[..|candidates|] == candidates;
    name := if best.None? then None else Some(best.value.0);
  }
}

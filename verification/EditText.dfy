/** The edits of EditApplier on real text: the spans that slice it are the ones that leave well-formed
    UTF-8 on every side, and the edited text is well-formed (crates/vilan-cli/src/fix.rs). */
module EditText {
  import opened Basics
  import opened EditApplier
  import opened Utf8

  lemma BoundaryIsCut(t: seq<Byte>, i: nat)
    requires WellFormed(t) && i <= |t|
    ensures Boundary(t, i) <==> Cut(t, i)
  {
    if t != [] { FirstStarts(t); }
  }

  /** A span slices well-formed text exactly when it is in bounds and what is before it, what is in it and
      what follows it are well-formed. */
  lemma SliceableIsWellFormed(t: seq<Byte>, s: Span)
    requires WellFormed(t)
    ensures StartsCharacter(t)
    ensures Sliceable(t, s) <==>
            && s.start <= s.end <= |t|
            && WellFormed(t[..s.start]) && WellFormed(t[s.start..s.end]) && WellFormed(t[s.end..])
  {
    if t != [] { FirstStarts(t); }
    if s.start <= s.end <= |t| {
      BoundaryIsCut(t, s.start);
      BoundaryIsCut(t, s.end);
      SliceIsWellFormed(t, s.start, s.end);
    }
  }

  lemma SliceWellFormed(t: seq<Byte>, from: nat, to: nat)
    requires WellFormed(t) && from <= to <= |t| && Boundary(t, from) && Boundary(t, to)
    ensures WellFormed(t[from..to])
  {
    SliceableIsWellFormed(t, Span(from, to));
  }

  /** Well-formed edits at such spans leave the text well-formed. */
  lemma {:induction false} SubstitutedIsWellFormed(text: seq<Byte>, at: nat, kept: seq<Fix>)
    requires WellFormed(text) && Fits(text, at, kept) && Boundary(text, at)
    requires forall f :: f in kept ==> WellFormed(f.text)
    ensures WellFormed(Substituted(text, at, kept))
    decreases |kept|
  {
    if kept == [] {
      SliceWellFormed(text, at, |text|);
      assert text[at..|text|] == text[at..];
    } else {
      var f, rest := kept[0], kept[1..];
      SliceWellFormed(text, at, f.span.start);
      forall g | g in rest ensures WellFormed(g.text) {
        assert g in kept;
      }
      SubstitutedIsWellFormed(text, f.span.end, rest);
      ThreeWellFormed(text[at..f.span.start], f.text, Substituted(text, f.span.end, rest));
    }
  }

  lemma ThreeWellFormed(a: seq<Byte>, b: seq<Byte>, c: seq<Byte>)
    requires WellFormed(a) && WellFormed(b) && WellFormed(c)
    ensures WellFormed(a + (b + c))
  {
    WellFormedJoin(b, c);
    WellFormedJoin(a, b + c);
  }
}

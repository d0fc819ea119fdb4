/** UTF-8 as section 3 of RFC 3629 has it, and where it may be cut. */
module Utf8 {
  import opened Basics

  function EncodeChar(c: char): (r: seq<Byte>)
    ensures 1 <= |r| <= 4
  {
    var v := c as int;
    if v < 0x80 then [v as Byte]
    else if v < 0x800 then [(0xC0 + v / 0x40) as Byte, Low(v)]
    else if v < 0x1_0000 then [(0xE0 + v / 0x1000) as Byte, Low(v / 0x40), Low(v)]
    else [(0xF0 + v / 0x4_0000) as Byte, Low(v / 0x1000), Low(v / 0x40), Low(v)]
  }

  /** A byte after the first: `10` and six bits. */
  function Low(v: nat): Byte {
    (0x80 + v % 0x40) as Byte
  }

  function Encode(s: string): seq<Byte> {
    if s == "" then [] else EncodeChar(s[0]) + Encode(s[1..])
  }

  ghost predicate WellFormed(t: seq<Byte>) {
    exists s :: Encode(s) == t
  }

  predicate After(b: Byte) {
    0x80 <= b < 0xC0
  }

  /** A character's first byte is no byte after the first, and its others are. */
  lemma CharBytes(c: char)
    ensures !After(EncodeChar(c)[0]) && forall i :: 0 < i < |EncodeChar(c)| ==> After(EncodeChar(c)[i])
  {
  }

  /** The number the bytes of one character spell. */
  function Spelled(bytes: seq<Byte>): int
    requires 1 <= |bytes| <= 4
  {
    match |bytes|
    case 1 => bytes[0] as int
    case 2 => (bytes[0] as int - 0xC0) * 0x40 + (bytes[1] as int - 0x80)
    case 3 => ((bytes[0] as int - 0xE0) * 0x40 + (bytes[1] as int - 0x80)) * 0x40 + (bytes[2] as int - 0x80)
    case _ => (((bytes[0] as int - 0xF0) * 0x40 + (bytes[1] as int - 0x80)) * 0x40 + (bytes[2] as int - 0x80)) * 0x40
              + (bytes[3] as int - 0x80)
  }

  lemma Sixes(v: nat)
    ensures v == (v / 0x40) * 0x40 + v % 0x40 && v / 0x40 / 0x40 == v / 0x1000 && v / 0x1000 / 0x40 == v / 0x4_0000
  {
  }

  lemma TwoSpelled(v: nat)
    requires 0x80 <= v < 0x800
    ensures Spelled([(0xC0 + v / 0x40) as Byte, Low(v)]) == v
  {
    Sixes(v);
  }

  lemma ThreeSpelled(v: nat)
    requires 0x800 <= v < 0x1_0000
    ensures Spelled([(0xE0 + v / 0x1000) as Byte, Low(v / 0x40), Low(v)]) == v
  {
    Sixes(v);
    Sixes(v / 0x40);
  }

  lemma FourSpelled(v: nat)
    requires 0x1_0000 <= v < 0x11_0000
    ensures Spelled([(0xF0 + v / 0x4_0000) as Byte, Low(v / 0x1000), Low(v / 0x40), Low(v)]) == v
  {
    Sixes(v);
    Sixes(v / 0x40);
    Sixes(v / 0x1000);
  }

  /** How many bytes a first byte announces. */
  function Announced(first: Byte): nat {
    if first < 0x80 then 1 else if first < 0xE0 then 2 else if first < 0xF0 then 3 else 4
  }

  /** The bytes spell the character, and the first tells how many they are. */
  lemma CharSpelled(c: char)
    ensures Spelled(EncodeChar(c)) == c as int && |EncodeChar(c)| == Announced(EncodeChar(c)[0])
  {
    var v := c as int;
    if v < 0x80 {
    } else if v < 0x800 {
      TwoSpelled(v);
    } else if v < 0x1_0000 {
      ThreeSpelled(v);
    } else {
      FourSpelled(v);
    }
  }

  /** No shorter form would do. */
  lemma ShortestForm(c: char)
    ensures |EncodeChar(c)| == if c as int < 0x80 then 1 else if c as int < 0x800 then 2
                               else if c as int < 0x1_0000 then 3 else 4
  {
  }

  lemma Regroup(a: seq<Byte>, b: seq<Byte>, c: seq<Byte>)
    ensures a + b + c == a + (b + c)
  {
  }

  lemma {:induction false} EncodeJoins(a: string, b: string)
    ensures Encode(a + b) == Encode(a) + Encode(b)
  {
    if a == "" {
      assert a + b == b && Encode(a) + Encode(b) == Encode(b);
    } else {
      EncodeJoins(a[1..], b);
      assert (a + b)[0] == a[0] && (a + b)[1..] == a[1..] + b;
      Regroup(EncodeChar(a[0]), Encode(a[1..]), Encode(b));
    }
  }

  lemma WellFormedJoin(a: seq<Byte>, b: seq<Byte>)
    requires WellFormed(a) && WellFormed(b)
    ensures WellFormed(a + b)
  {
    var s, t :| Encode(s) == a && Encode(t) == b;
    EncodeJoins(s, t);
    assert Encode(s + t) == a + b;
  }

  /** Where a character starts, or the end. */
  predicate Cut(t: seq<Byte>, i: nat) {
    i == |t| || (i < |t| && !After(t[i]))
  }

  lemma OneChar(c: char)
    ensures WellFormed(EncodeChar(c))
  {
    assert [c][1..] == "" && Encode([c]) == EncodeChar(c) + Encode("") == EncodeChar(c);
  }

  lemma CutPast(c: char, rest: seq<Byte>, i: nat)
    requires Cut(EncodeChar(c) + rest, i) && i > 0
    ensures i >= |EncodeChar(c)| && Cut(rest, i - |EncodeChar(c)|)
    ensures (EncodeChar(c) + rest)[..i] == EncodeChar(c) + rest[..i - |EncodeChar(c)|]
    ensures (EncodeChar(c) + rest)[i..] == rest[i - |EncodeChar(c)|..]
  {
    CharBytes(c);
  }

  lemma {:induction false} CutsApart(s: string, i: nat)
    requires Cut(Encode(s), i)
    ensures WellFormed(Encode(s)[..i]) && WellFormed(Encode(s)[i..])
  {
    if i == 0 {
      assert Encode(s)[..0] == Encode("") && Encode(s)[0..] == Encode(s);
    } else if s != "" {
      var j := i - |EncodeChar(s[0])|;
      CutPast(s[0], Encode(s[1..]), i);
      CutsApart(s[1..], j);
      OneChar(s[0]);
      WellFormedJoin(EncodeChar(s[0]), Encode(s[1..])[..j]);
    }
  }

  lemma FirstStarts(t: seq<Byte>)
    requires WellFormed(t) && t != []
    ensures !After(t[0])
  {
    var s :| Encode(s) == t;
    CharBytes(s[0]);
  }

  /** Well-formed text may be cut where a character starts or at its end, and nowhere else. */
  lemma CutIsWellFormed(t: seq<Byte>, i: nat)
    requires WellFormed(t) && i <= |t|
    ensures Cut(t, i) <==> WellFormed(t[..i]) && WellFormed(t[i..])
  {
    if Cut(t, i) {
      var s :| Encode(s) == t;
      CutsApart(s, i);
    }
    if WellFormed(t[i..]) && i < |t| { FirstStarts(t[i..]); }
  }

  lemma InnerCut(t: seq<Byte>, i: nat, j: nat)
    requires WellFormed(t) && i <= j <= |t| && Cut(t, i) && Cut(t, j)
    ensures WellFormed(t[i..j])
  {
    CutIsWellFormed(t, j);
    CutIsWellFormed(t[..j], i);
    assert t[..j][i..] == t[i..j];
  }

  lemma PiecesCut(t: seq<Byte>, i: nat, j: nat)
    requires WellFormed(t) && i <= j <= |t|
    requires WellFormed(t[..i]) && WellFormed(t[i..j]) && WellFormed(t[j..])
    ensures Cut(t, i) && Cut(t, j)
  {
    WellFormedJoin(t[i..j], t[j..]);
    assert t[i..j] + t[j..] == t[i..];
    if i < |t| { FirstStarts(t[i..]); }
    if j < |t| { FirstStarts(t[j..]); }
  }

  /** A slice leaves three well-formed pieces exactly when both its ends are cuts. */
  lemma SliceIsWellFormed(t: seq<Byte>, i: nat, j: nat)
    requires WellFormed(t) && i <= j <= |t|
    ensures Cut(t, i) && Cut(t, j) <==> WellFormed(t[..i]) && WellFormed(t[i..j]) && WellFormed(t[j..])
  {
    if Cut(t, i) && Cut(t, j) {
      CutIsWellFormed(t, i);
      CutIsWellFormed(t, j);
      InnerCut(t, i, j);
    } else if WellFormed(t[..i]) && WellFormed(t[i..j]) && WellFormed(t[j..]) {
      PiecesCut(t, i, j);
    }
  }
}

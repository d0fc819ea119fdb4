/** The build script's base64 (`base64`, crates/vilan-core/build.rs) and a decoder for section 4 of
    RFC 4648. */
module Base64 {
  import opened Basics

  /** The alphabet's letters: upper case, lower case, digits, plus and slash. */
  function Letter(v: nat): char
    requires v < 64
  {
    if v < 26 then ('A' as int + v) as char
    else if v < 52 then ('a' as int + v - 26) as char
    else if v < 62 then ('0' as int + v - 52) as char
    else if v == 62 then '+'
    else '/'
  }

  /** A letter's place in the alphabet; None for any other character. */
  function Value(c: char): Option<nat> {
    if 'A' <= c <= 'Z' then Some(c as int - 65)
    else if 'a' <= c <= 'z' then Some(c as int - 97 + 26)
    else if '0' <= c <= '9' then Some(c as int - 48 + 52)
    else if c == '+' then Some(62)
    else if c == '/' then Some(63)
    else None
  }

  lemma LetterValue(v: nat)
    requires v < 64
    ensures Value(Letter(v)) == Some(v)
  {
  }

  lemma ValueLetter(c: char)
    requires Value(c).Some?
    ensures Value(c).value < 64 && Letter(Value(c).value) == c
  {
  }

  // ----- a group of three bytes -----

  function Word(a: Byte, b: Byte, c: Byte): nat {
    a as nat * 0x10000 + b as nat * 0x100 + c as nat
  }

  /** The `i`th of a word's four sextets. */
  function Sextet(word: nat, i: nat): (v: nat)
    requires i < 4
    ensures v < 64
  {
    (match i case 0 => word / 0x40000 case 1 => word / 0x1000 case 2 => word / 0x40 case _ => word) % 64
  }

  /** The letters of the sextets, padding in place of those past the `n`th byte. */
  function Letters(p: nat, q: nat, r: nat, s: nat, n: nat): (t: string)
    requires p < 64 && q < 64 && r < 64 && s < 64
    ensures |t| == 4
  {
    [Letter(p), Letter(q), if n > 1 then Letter(r) else '=', if n > 2 then Letter(s) else '=']
  }

  function ByteAt(bytes: seq<Byte>, i: nat): Byte {
    if i < |bytes| then bytes[i] else 0
  }

  function Group(bytes: seq<Byte>): (r: string)
    requires 1 <= |bytes| <= 3
    ensures |r| == 4
  {
    var word := Word(bytes[0], ByteAt(bytes, 1), ByteAt(bytes, 2));
    Letters(Sextet(word, 0), Sextet(word, 1), Sextet(word, 2), Sextet(word, 3), |bytes|)
  }

  function Head(bytes: seq<Byte>): (r: seq<Byte>)
    requires bytes != []
    ensures 1 <= |r| <= 3
  {
    if |bytes| <= 3 then bytes else bytes[..3]
  }

  function Tail(bytes: seq<Byte>): (r: seq<Byte>)
    requires bytes != []
    ensures |r| < |bytes| && Head(bytes) + r == bytes && (|Head(bytes)| < 3 ==> r == [])
    ensures |r| == if |bytes| <= 3 then 0 else |bytes| - 3
  {
    if |bytes| <= 3 then [] else bytes[3..]
  }

  /** Each group of three bytes, and the shorter group at the end. */
  function Encode(bytes: seq<Byte>): string
    decreases |bytes|
  {
    if bytes == [] then "" else Group(Head(bytes)) + Encode(Tail(bytes))
  }

  method EncodeBytes(bytes: seq<Byte>) returns (out: string)
    ensures out == Encode(bytes)
  {
    out := "";
    var at := 0;
    while at < |bytes|
      invariant at <= |bytes| && out + Encode(bytes[at..]) == Encode(bytes)
    {
      var end := if at + 3 < |bytes| then at + 3 else |bytes|;
      var letters := EncodeGroup(bytes[at..end]);
      Chunk(bytes, at, end);
      Associates(out, letters, Encode(bytes[end..]));
      out := out + letters;
      at := end;
    }
    assert bytes[at..] == [] && out + "" == out;
  }

  method EncodeGroup(group: seq<Byte>) returns (letters: string)
    requires 1 <= |group| <= 3
    ensures letters == Group(group)
  {
    var word := Word(group[0], ByteAt(group, 1), ByteAt(group, 2));
    letters := [Letter(Sextet(word, 0))];
    letters := letters + [Letter(Sextet(word, 1))];
    letters := letters + [if |group| > 1 then Letter(Sextet(word, 2)) else '='];
    letters := letters + [if |group| > 2 then Letter(Sextet(word, 3)) else '='];
  }

  lemma Associates(a: string, b: string, c: string)
    ensures a + (b + c) == (a + b) + c
  {
  }

  lemma Chunk(bytes: seq<Byte>, at: nat, end: nat)
    requires at < |bytes| && end == if at + 3 < |bytes| then at + 3 else |bytes|
    ensures Head(bytes[at..]) == bytes[at..end] && Tail(bytes[at..]) == bytes[end..]
  {
  }

  // ----- the decoder -----

  /** Four characters, the last one or two of them padding where `last`; bits past the last byte must be
      zero. */
  function DecodeGroup(s: string, last: bool): (r: Option<seq<Byte>>)
    requires |s| == 4
  {
    var a, b, c, d := Value(s[0]), Value(s[1]), Value(s[2]), Value(s[3]);
    if a.None? || b.None? then None
    else if last && s[2] == '=' && s[3] == '=' then
      if b.value % 16 == 0 then Some([First(a.value, b.value)]) else None
    else if c.None? then None
    else if last && s[3] == '=' then
      if c.value % 4 == 0 then Some([First(a.value, b.value), Second(b.value, c.value)]) else None
    else if d.None? then None
    else Some([First(a.value, b.value), Second(b.value, c.value), Third(c.value, d.value)])
  }

  /** The three bytes four sextets make. */
  function First(p: nat, q: nat): Byte
    requires p < 64 && q < 64
  {
    (p * 4 + q / 16) as Byte
  }

  function Second(q: nat, r: nat): Byte
    requires q < 64 && r < 64
  {
    (q % 16 * 16 + r / 4) as Byte
  }

  function Third(r: nat, s: nat): Byte
    requires r < 64 && s < 64
  {
    (r % 4 * 64 + s) as Byte
  }

  function Decode(s: string): Option<seq<Byte>> {
    if s == "" then Some([])
    else if |s| < 4 then None
    else
      match (DecodeGroup(s[..4], |s| == 4), Decode(s[4..]))
      case (Some(first), Some(rest)) => Some(first + rest)
      case _ => None
  }

  /** Twenty-four bits as four sextets. */
  lemma SplitWord(a: Byte, b: Byte, c: Byte)
    ensures var x, y, z, w := a as nat, b as nat, c as nat, Word(a, b, c);
            && Sextet(w, 0) == x / 4 && Sextet(w, 1) == x % 4 * 16 + y / 16
            && Sextet(w, 2) == y % 16 * 4 + z / 64 && Sextet(w, 3) == z % 64
  {
    var x, y, z := a as nat, b as nat, c as nat;
    Digits(x / 4, x % 4 * 16 + y / 16, y % 16 * 4 + z / 64, z % 64);
    assert Word(a, b, c)
        == (x / 4) * 0x40000 + (x % 4 * 16 + y / 16) * 0x1000 + (y % 16 * 4 + z / 64) * 0x40 + z % 64 by {
      assert x == 4 * (x / 4) + x % 4 && y == 16 * (y / 16) + y % 16 && z == 64 * (z / 64) + z % 64;
    }
  }

  lemma Digits(p: nat, q: nat, r: nat, s: nat)
    requires p < 64 && q < 64 && r < 64 && s < 64
    ensures var w := p * 0x40000 + q * 0x1000 + r * 0x40 + s;
            Sextet(w, 0) == p && Sextet(w, 1) == q && Sextet(w, 2) == r && Sextet(w, 3) == s
  {
    var w := p * 0x40000 + q * 0x1000 + r * 0x40 + s;
    assert w / 0x40 == p * 0x1000 + q * 0x40 + r;
    assert w / 0x1000 == p * 0x40 + q;
    assert w / 0x40000 == p;
  }

  /** The bytes of a word come back from its sextets. */
  lemma BytesJoin(x: nat, y: nat, z: nat)
    requires x < 256 && y < 256 && z < 256
    ensures x / 4 < 64 && x % 4 * 16 + y / 16 < 64 && y % 16 * 4 + z / 64 < 64 && z % 64 < 64
    ensures First(x / 4, x % 4 * 16 + y / 16) as nat == x
    ensures Second(x % 4 * 16 + y / 16, y % 16 * 4 + z / 64) as nat == y
    ensures Third(y % 16 * 4 + z / 64, z % 64) as nat == z
  {
  }

  lemma LettersDecode(p: nat, q: nat, r: nat, s: nat, n: nat, last: bool)
    requires p < 64 && q < 64 && r < 64 && s < 64 && 1 <= n <= 3 && (n < 3 ==> last)
    requires (n == 1 ==> q % 16 == 0) && (n == 2 ==> r % 4 == 0)
    ensures DecodeGroup(Letters(p, q, r, s, n), last)
         == Some([First(p, q), Second(q, r), Third(r, s)][..n])
  {
    LetterValue(p);
    LetterValue(q);
    LetterValue(r);
    LetterValue(s);
    var all := [First(p, q), Second(q, r), Third(r, s)];
    assert all[..1] == [First(p, q)] && all[..2] == [First(p, q), Second(q, r)] && all[..3] == all;
    assert Value('=').None? && Letter(s) != '=' && Letter(r) != '=';
  }

  /** The sextets past a byte that is not there are zero in their low bits. */
  lemma LowBits(x: nat, y: nat, z: nat)
    ensures y == 0 ==> (x % 4 * 16 + y / 16) % 16 == 0
    ensures z == 0 ==> (y % 16 * 4 + z / 64) % 4 == 0
  {
  }

  lemma GroupDecodes(bytes: seq<Byte>, last: bool)
    requires 1 <= |bytes| <= 3 && (|bytes| < 3 ==> last)
    ensures DecodeGroup(Group(bytes), last) == Some(bytes)
  {
    var a, b, c := bytes[0], ByteAt(bytes, 1), ByteAt(bytes, 2);
    var x, y, z := a as nat, b as nat, c as nat;
    SplitWord(a, b, c);
    BytesJoin(x, y, z);
    LowBits(x, y, z);
    LettersDecode(x / 4, x % 4 * 16 + y / 16, y % 16 * 4 + z / 64, z % 64, |bytes|, last);
    assert bytes == [a, b, c][..|bytes|];
  }

  /** The sextets four letters stand for are those of the bytes they join to. */
  lemma Rejoined(p: nat, q: nat, r: nat, s: nat)
    requires p < 64 && q < 64 && r < 64 && s < 64
    ensures var w := Word(First(p, q), Second(q, r), Third(r, s));
            Sextet(w, 0) == p && Sextet(w, 1) == q && Sextet(w, 2) == r && Sextet(w, 3) == s
  {
    Digits(p, q, r, s);
    SumOfBytes(p, q / 16, q % 16, r / 4, r % 4, s);
    assert q == q / 16 * 16 + q % 16 && r == r / 4 * 4 + r % 4;
  }

  lemma SumOfBytes(p: nat, qh: nat, ql: nat, rh: nat, rl: nat, s: nat)
    ensures (p * 4 + qh) * 0x10000 + (ql * 16 + rh) * 0x100 + (rl * 64 + s)
         == p * 0x40000 + (qh * 16 + ql) * 0x1000 + (rh * 4 + rl) * 0x40 + s
  {
  }

  /** What the letters of a group stand for, padding for nothing. */
  function Meaning(c: char): (v: nat)
    ensures v < 64
  {
    match Value(c) case Some(v) => v case None => 0
  }

  /** A decoded group is the letters of what its characters stand for. */
  lemma DecodedLetters(s: string, last: bool, bytes: seq<Byte>)
    requires |s| == 4 && DecodeGroup(s, last) == Some(bytes)
    ensures 1 <= |bytes| <= 3 && (|bytes| < 3 ==> last)
    ensures var p, q, r, t := Meaning(s[0]), Meaning(s[1]), Meaning(s[2]), Meaning(s[3]);
            && s == Letters(p, q, r, t, |bytes|)
            && bytes == [First(p, q), Second(q, r), Third(r, t)][..|bytes|]
            && (|bytes| == 1 ==> q % 16 == 0 && r == 0 && t == 0) && (|bytes| == 2 ==> r % 4 == 0 && t == 0)
  {
    ValueLetter(s[0]);
    ValueLetter(s[1]);
    if Value(s[2]).Some? { ValueLetter(s[2]); }
    if Value(s[3]).Some? { ValueLetter(s[3]); }
  }

  lemma GroupEncodes(s: string, last: bool, bytes: seq<Byte>)
    requires |s| == 4 && DecodeGroup(s, last) == Some(bytes)
    ensures 1 <= |bytes| <= 3 && (|bytes| < 3 ==> last) && Group(bytes) == s
  {
    var p, q, r, t := Meaning(s[0]), Meaning(s[1]), Meaning(s[2]), Meaning(s[3]);
    DecodedLetters(s, last, bytes);
    Rejoined(p, q, r, t);
    assert ByteAt(bytes, 1) == Second(q, r) && ByteAt(bytes, 2) == Third(r, t);
  }

  lemma {:induction false} EncodedLength(bytes: seq<Byte>)
    ensures |Encode(bytes)| == (|bytes| + 2) / 3 * 4
    decreases |bytes|
  {
    if bytes != [] {
      EncodedLength(Tail(bytes));
      assert (|bytes| + 2) / 3 == (|Tail(bytes)| + 2) / 3 + 1;
    }
  }

  lemma DecodesFirst(s: string, t: string)
    requires |s| == 4
    ensures (s + t)[..4] == s && (s + t)[4..] == t && (|s + t| == 4 <==> t == "") && s + t != ""
  {
  }

  lemma {:induction false} EncodesSome(bytes: seq<Byte>)
    ensures Encode(bytes) == "" <==> bytes == []
  {
  }

  /** Decoding is inverse to encoding, for every byte string. */
  lemma {:induction false} DecodesBack(bytes: seq<Byte>)
    ensures Decode(Encode(bytes)) == Some(bytes)
    decreases |bytes|
  {
    if bytes != [] {
      var group, rest := Head(bytes), Tail(bytes);
      DecodesBack(rest);
      EncodesSome(rest);
      GroupDecodes(group, rest == []);
      DecodesFirst(Group(group), Encode(rest));
    }
  }

  /** And only what encodes a byte string decodes: the two are a bijection. */
  lemma {:induction false} EncodesBack(s: string, bytes: seq<Byte>)
    requires Decode(s) == Some(bytes)
    ensures Encode(bytes) == s
    decreases |s|
  {
    if s != "" {
      var first, rest := DecodeGroup(s[..4], |s| == 4).value, Decode(s[4..]).value;
      GroupEncodes(s[..4], |s| == 4, first);
      EncodesBack(s[4..], rest);
      assert s == s[..4] + s[4..];
      if |s| == 4 { assert rest == [] && first + rest == first; }
      assert Head(bytes) == first && Tail(bytes) == rest;
    }
  }

  /** How many bytes `n` falls short of whole groups. */
  function Short(n: nat): nat {
    (n + 2) / 3 * 3 - n
  }

  /** Padding is in the last places only, as many as the bytes fall short of whole groups. */
  lemma {:induction false} PaddingIsLast(bytes: seq<Byte>, i: nat)
    requires i < |Encode(bytes)|
    ensures Encode(bytes)[i] == '=' <==> i >= |Encode(bytes)| - Short(|bytes|)
    decreases |bytes|
  {
    var rest := Tail(bytes);
    assert Encode(bytes) == Group(Head(bytes)) + Encode(rest);
    EncodesSome(rest);
    ShortOfTail(bytes);
    if i >= 4 {
      PaddingIsLast(rest, i - 4);
    } else {
      PaddingInGroup(Head(bytes), i);
      if rest != [] { EncodedLength(rest); }
    }
  }

  lemma ShortOfTail(bytes: seq<Byte>)
    requires bytes != []
    ensures Tail(bytes) != [] ==> Short(|bytes|) == Short(|Tail(bytes)|)
    ensures Tail(bytes) == [] ==> Short(|bytes|) == 3 - |bytes|
    ensures Tail(bytes) != [] ==> (|Tail(bytes)| + 2) / 3 * 4 >= 4 && Short(|bytes|) <= 2
  {
  }

  lemma PaddingInGroup(group: seq<Byte>, i: nat)
    requires 1 <= |group| <= 3 && i < 4
    ensures Group(group)[i] == '=' <==> i > |group|
  {
    var w := Word(group[0], ByteAt(group, 1), ByteAt(group, 2));
    LetterValue(Sextet(w, i));
  }
}

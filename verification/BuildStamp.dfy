/** The byte stream the crate's build id is hashed from (`build_id`, crates/vilan-core/build.rs). */
module BuildStamp {
  import opened Basics

  datatype File = File(name: seq<Byte>, contents: seq<Byte>)

  const LENGTHS: nat := 0x1_0000_0000_0000_0000

  /** `n` as `count` bytes, the least significant first. */
  function LittleEndian(n: nat, count: nat): (r: seq<Byte>)
    ensures |r| == count
  {
    if count == 0 then [] else [(n % 256) as Byte] + LittleEndian(n / 256, count - 1)
  }

  function FromLittleEndian(bytes: seq<Byte>): nat {
    if bytes == [] then 0 else bytes[0] as nat + 256 * FromLittleEndian(bytes[1..])
  }

  function Power256(count: nat): nat {
    if count == 0 then 1 else 256 * Power256(count - 1)
  }

  function Frame(f: File): seq<Byte> {
    f.name + [0] + LittleEndian(|f.contents|, 8) + f.contents
  }

  function Stream(files: seq<File>): seq<Byte> {
    if files == [] then [] else Frame(files[0]) + Stream(files[1..])
  }

  /** What the hasher is fed, file by file. */
  method Feed(files: seq<File>) returns (fed: seq<Byte>)
    ensures fed == Stream(files)
  {
    fed := [];
    for i := 0 to |files|
      invariant fed + Stream(files[i..]) == Stream(files)
    {
      var f := files[i];
      assert files[i..][1..] == files[i + 1..];
      ghost var rest := Stream(files[i + 1..]);
      assert fed + (Frame(f) + rest) == (fed + Frame(f)) + rest;
      assert fed + Frame(f) == fed + f.name + [0] + LittleEndian(|f.contents|, 8) + f.contents;
      fed := fed + f.name;
      fed := fed + [0];
      fed := fed + LittleEndian(|f.contents|, 8);
      fed := fed + f.contents;
    }
  }

  // ----- reading it back -----

  function ZeroAt(s: seq<Byte>): (r: Option<nat>)
    ensures r.Some? ==> r.value < |s| && s[r.value] == 0 && forall i :: 0 <= i < r.value ==> s[i] != 0
    ensures r.None? ==> forall i :: 0 <= i < |s| ==> s[i] != 0
  {
    if s == [] then None
    else if s[0] == 0 then Some(0)
    else match ZeroAt(s[1..]) case Some(i) => Some(i + 1) case None => None
  }

  /** A name up to its zero byte, eight bytes of length, and that much contents. */
  function Parse(s: seq<Byte>): Option<seq<File>>
    decreases |s|
  {
    if s == [] then Some([])
    else
      var zero := ZeroAt(s);
      if zero.None? || |s| < zero.value + 9 then None
      else
        var at := zero.value + 9;
        var length := FromLittleEndian(s[zero.value + 1..at]);
        if |s| < at + length then None
        else
          match Parse(s[at + length..])
          case Some(rest) => Some([File(s[..zero.value], s[at..at + length])] + rest)
          case None => None
  }

  predicate Framable(f: File) {
    0 !in f.name && |f.contents| < LENGTHS
  }

  lemma {:induction false} LengthReads(n: nat, count: nat)
    requires n < Power256(count)
    ensures FromLittleEndian(LittleEndian(n, count)) == n
  {
    if count > 0 {
      LengthReads(n / 256, count - 1);
      assert LittleEndian(n, count)[1..] == LittleEndian(n / 256, count - 1);
    }
  }

  /** `n` without its `i` low bytes. */
  function HighBytes(n: nat, i: nat): nat {
    if i == 0 then n else HighBytes(n / 256, i - 1)
  }

  /** The least significant byte is first, the next is that of what is left without it. */
  lemma {:induction false} BytePlaces(n: nat, count: nat, i: nat)
    requires i < count
    ensures LittleEndian(n, count)[i] as nat == HighBytes(n, i) % 256
  {
    if i > 0 { BytePlaces(n / 256, count - 1, i - 1); }
  }

  lemma EightBytes()
    ensures Power256(8) == LENGTHS
  {
    assert Power256(4) == 0x1_0000_0000;
  }

  lemma FrameReads(f: File, rest: seq<Byte>)
    requires Framable(f)
    ensures var s, n := Frame(f) + rest, |f.name|;
            && s != [] && ZeroAt(s) == Some(n) && |s| >= n + 9 + |f.contents|
            && s[..n] == f.name && FromLittleEndian(s[n + 1..n + 9]) == |f.contents|
            && s[n + 9..n + 9 + |f.contents|] == f.contents && s[n + 9 + |f.contents|..] == rest
  {
    var s, n := Frame(f) + rest, |f.name|;
    EightBytes();
    LengthReads(|f.contents|, 8);
    assert s[..n] == f.name && s[n] == 0;
    assert s[n + 1..n + 9] == LittleEndian(|f.contents|, 8);
    assert forall i :: 0 <= i < n ==> s[i] == f.name[i] && f.name[i] in f.name;
  }

  /** The stream determines the files. */
  lemma {:induction false} ParsesBack(files: seq<File>)
    requires forall f :: f in files ==> Framable(f)
    ensures Parse(Stream(files)) == Some(files)
  {
    if files != [] {
      ParsesBack(files[1..]);
      FrameReads(files[0], Stream(files[1..]));
      assert files == [files[0]] + files[1..];
    }
  }

  lemma DistinctStreams(files: seq<File>, others: seq<File>)
    requires forall f :: f in files || f in others ==> Framable(f)
    requires Stream(files) == Stream(others)
    ensures files == others
  {
    ParsesBack(files);
    ParsesBack(others);
  }
}

/** When a name is near enough to suggest (crates/vilan-core/src/closest_name.rs), in the bytes of its
    UTF-8. */
module NearName {
  import opened ClosestName
  import opened Utf8

  lemma {:induction false} BytesAreEncoded(s: string)
    ensures ByteLength(s) == |Encode(s)|
  {
    if s != "" {
      BytesAreEncoded(s[1..]);
      CharWidth(s[0]);
    }
  }

  lemma CharWidth(c: char)
    ensures Utf8Width(c) == |EncodeChar(c)|
  {
  }

  /** A name is near when it is another and one edit away, or when three times its distance is within the
      bytes of the longer of the two in UTF-8. */
  lemma NearIff(target: string, candidate: string)
    ensures Near(target, candidate) <==>
            && candidate != target
            && (|| Distance(target, candidate) == 1
                || 3 * Distance(target, candidate) <= |Encode(target)|
                || 3 * Distance(target, candidate) <= |Encode(candidate)|)
  {
    BytesAreEncoded(target);
    BytesAreEncoded(candidate);
    ZeroIsEqual(target, candidate);
  }
}

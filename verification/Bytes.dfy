/** Bytes, as every layer of the program sees them. */
module Bytes {
  type byte = b: int | 0 <= b < 256

  type bytes = seq<byte>

  predicate OccursAt(text: bytes, pat: bytes, i: int) {
    0 <= i <= |text| - |pat| && text[i..i + |pat|] == pat
  }

  /** `strings.Contains`: some occurrence of `pat` inside `text`. */
  predicate Contains(text: bytes, pat: bytes) {
    exists i | 0 <= i <= |text| :: OccursAt(text, pat, i)
  }

  /** Everything found in a text is still found when more text follows. */
  lemma ContainsGrows(text: bytes, more: bytes, pat: bytes)
    requires Contains(text, pat)
    ensures Contains(text + more, pat)
  {
    var i :| 0 <= i <= |text| && OccursAt(text, pat, i);
    assert (text + more)[i..i + |pat|] == pat;
    assert OccursAt(text + more, pat, i);
  }

  /** The bytes of an ASCII literal. */
  function Ascii(s: string): (b: bytes)
    requires forall i | 0 <= i < |s| :: s[i] < 128 as char
    ensures |b| == |s|
    ensures forall i | 0 <= i < |s| :: b[i] == s[i] as int
  {
    seq(|s|, i requires 0 <= i < |s| => s[i] as int)
  }
}

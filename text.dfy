/** Python's substring test `needle in haystack` on `str`. */
module Text {

  /** `needle` occurs in `haystack` starting at index `i`. */
  ghost predicate OccursAt(needle: string, haystack: string, i: int)
  {
    0 <= i <= |haystack| - |needle| && haystack[i..i + |needle|] == needle
  }

  /** `needle` is a prefix of `haystack`. */
  predicate IsPrefix(needle: string, haystack: string)
  {
    |needle| <= |haystack| && haystack[..|needle|] == needle
  }

  /** `needle in haystack`: scans the start positions of `haystack` from the left.
      As in Python, the empty string occurs in every string. */
  function Contains(needle: string, haystack: string): bool
    decreases |haystack|
  {
    IsPrefix(needle, haystack) || (haystack != [] && Contains(needle, haystack[1..]))
  }

  /** The scan agrees with the definition of a substring: some start position
      holds the needle. */
  lemma {:induction false} ContainsIffOccurs(needle: string, haystack: string)
    ensures Contains(needle, haystack) <==> exists i :: OccursAt(needle, haystack, i)
    decreases |haystack|
  {
    if IsPrefix(needle, haystack) {
      assert OccursAt(needle, haystack, 0);
    } else if haystack != [] {
      var tail := haystack[1..];
      ContainsIffOccurs(needle, tail);
      if Contains(needle, tail) {
        var i :| OccursAt(needle, tail, i);
        assert haystack[i + 1..i + 1 + |needle|] == tail[i..i + |needle|];
        assert OccursAt(needle, haystack, i + 1);
      }
      if exists i :: OccursAt(needle, haystack, i) {
        var i :| OccursAt(needle, haystack, i);
        if i > 0 {
          assert haystack[i..i + |needle|] == tail[i - 1..i - 1 + |needle|];
          assert OccursAt(needle, tail, i - 1);
        }
      }
    }
  }
}

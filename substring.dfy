/** Contiguous substring containment, as `str::contains` with a string pattern. */
module Substring {

  /** `needle` occurs in `hay` starting at index `i`. */
  predicate OccursAt(hay: string, needle: string, i: nat)
  {
    i + |needle| <= |hay| && hay[i..i + |needle|] == needle
  }

  ghost predicate IsSubstring(hay: string, needle: string)
  {
    exists i: nat :: OccursAt(hay, needle, i)
  }

  /** Whether `needle` occurs contiguously in `hay`. */
  function Contains(hay: string, needle: string): (r: bool)
    ensures r <==> IsSubstring(hay, needle)
    decreases |hay|
  {
    if |hay| < |needle| then
      false
    else if hay[..|needle|] == needle then
      assert OccursAt(hay, needle, 0);
      true
    else
      ShiftedOccurrences(hay, needle);
      Contains(hay[1..], needle)
  }

  lemma ShiftedOccurrences(hay: string, needle: string)
    requires |hay| >= |needle| && hay[..|needle|] != needle
    ensures IsSubstring(hay, needle) <==> IsSubstring(hay[1..], needle)
  {
    if IsSubstring(hay, needle) {
      var i: nat :| OccursAt(hay, needle, i);
      assert i != 0;
      assert hay[1..][i - 1..i - 1 + |needle|] == hay[i..i + |needle|];
      assert OccursAt(hay[1..], needle, i - 1);
    }
    if IsSubstring(hay[1..], needle) {
      var i: nat :| OccursAt(hay[1..], needle, i);
      assert hay[1..][i..i + |needle|] == hay[i + 1..i + 1 + |needle|];
      assert OccursAt(hay, needle, i + 1);
    }
  }

  /** A substring of a substring is a substring: a shorter part of a library
      query matches every library the query matches. */
  lemma {:induction false} SubstringTransitive(hay: string, mid: string, needle: string)
    requires IsSubstring(hay, mid) && IsSubstring(mid, needle)
    ensures IsSubstring(hay, needle)
  {
    var i: nat :| OccursAt(hay, mid, i);
    var j: nat :| OccursAt(mid, needle, j);
    forall k | 0 <= k < |needle|
      ensures hay[i + j..i + j + |needle|][k] == needle[k]
    {
      assert hay[i + j + k] == hay[i..i + |mid|][j + k];
    }
    assert OccursAt(hay, needle, i + j);
  }

  /** The empty pattern occurs in every string. */
  lemma EmptyPatternAlwaysOccurs(hay: string)
    ensures Contains(hay, "")
  {
  }

  /** A needed library "libssl.so.1.1" matches the query "libssl" but not
      "ssl.so.1.1.2": the match must be contiguous. */
  lemma LibsslExample()
    ensures Contains("libssl.so.1.1", "libssl")
    ensures !Contains("libssl.so.1.1", "ssl.so.1.1.2")
  {
    var hay, long := "libssl.so.1.1", "ssl.so.1.1.2";
    assert hay[..|long|][0] != long[0];
    assert hay[1..][..|long|][0] != long[0];
    assert !Contains(hay[1..][1..], long);
  }
}

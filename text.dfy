/**
 * Text matching used by the report reducer: lower-casing and substring
 * search, the plain operations behind pandas' `str.lower()` and
 * `str.contains(pattern, case=False)`.
 */
module Text {

  /** Lower-cases one ASCII letter; every other character is kept. */
  function LowerChar(c: char): char {
    if 'A' <= c <= 'Z' then (c as int + 32) as char else c
  }

  function Lower(s: string): (r: string)
    ensures |r| == |s|
  {
    seq(|s|, i requires 0 <= i < |s| => LowerChar(s[i]))
  }

  /** `needle` occurs in `hay` starting at position `k`. */
  ghost predicate OccursAt(needle: string, hay: string, k: int) {
    0 <= k && k + |needle| <= |hay| && hay[k..k + |needle|] == needle
  }

  /** Moving the search one character to the right loses no occurrence
      once position 0 has been ruled out. */
  lemma ShiftOccurrence(needle: string, hay: string)
    requires |hay| > 0 && !OccursAt(needle, hay, 0)
    ensures (exists k :: OccursAt(needle, hay, k)) <==> (exists k :: OccursAt(needle, hay[1..], k))
  {
    if k :| OccursAt(needle, hay, k) {
      assert k > 0;
      assert hay[1..][k - 1..k - 1 + |needle|] == hay[k..k + |needle|];
      assert OccursAt(needle, hay[1..], k - 1);
    }
    if k :| OccursAt(needle, hay[1..], k) {
      assert hay[k + 1..k + 1 + |needle|] == hay[1..][k..k + |needle|];
      assert OccursAt(needle, hay, k + 1);
    }
  }

  /** Substring test: true exactly when `needle` occurs somewhere in `hay`. */
  function Contains(hay: string, needle: string): (b: bool)
    ensures b <==> exists k :: OccursAt(needle, hay, k)
    decreases |hay|
  {
    if |hay| < |needle| then false
    else if hay[..|needle|] == needle then assert OccursAt(needle, hay, 0); true
    else ShiftOccurrence(needle, hay); Contains(hay[1..], needle)
  }

  /** Case-insensitive substring test, as `str.contains(needle, case=False)`. */
  function ContainsIgnoreCase(hay: string, needle: string): (b: bool)
    ensures b <==> exists k :: OccursAt(Lower(needle), Lower(hay), k)
  {
    Contains(Lower(hay), Lower(needle))
  }

  lemma LowerOfSlice(s: string, i: int, j: int)
    requires 0 <= i <= j <= |s|
    ensures Lower(s[i..j]) == Lower(s)[i..j]
  {
  }

  /** An exact occurrence is also a case-insensitive one. */
  lemma ExactMatchIgnoringCase(hay: string, needle: string)
    requires Contains(hay, needle)
    ensures ContainsIgnoreCase(hay, needle)
  {
    var k :| OccursAt(needle, hay, k);
    LowerOfSlice(hay, k, k + |needle|);
    assert OccursAt(Lower(needle), Lower(hay), k);
  }

  lemma LowerIdempotent(s: string)
    ensures Lower(Lower(s)) == Lower(s)
  {
  }

  /** The case of the searched text does not matter. */
  lemma IgnoresCaseOfText(hay: string, needle: string)
    ensures ContainsIgnoreCase(Lower(hay), needle) == ContainsIgnoreCase(hay, needle)
  {
    LowerIdempotent(hay);
  }
}

/**
 Substring search as the error monitor uses it: `text.find(part) != npos`,
 with an empty part found everywhere. The scan is defined left to right and
 proved equal to the positional definition `OccursAt`.
 */
module Substrings {

  /** `part` occurs in `text` starting at index `i`. */
  ghost predicate OccursAt(text: string, part: string, i: int) {
    0 <= i && i + |part| <= |text| && text[i..i + |part|] == part
  }

  predicate IsPrefix(p: string, s: string) {
    |p| <= |s| && s[..|p|] == p
  }

  /** Occurrences in `text[1..]` are the occurrences in `text` after index 0. */
  lemma OccursShift(text: string, part: string)
    requires |text| > 0
    ensures (exists i :: OccursAt(text[1..], part, i)) <==> (exists i :: 1 <= i && OccursAt(text, part, i))
  {
    if i :| OccursAt(text[1..], part, i) {
      assert text[1..][i..i + |part|] == text[i + 1..i + 1 + |part|];
      assert OccursAt(text, part, i + 1);
    }
    if i :| 1 <= i && OccursAt(text, part, i) {
      assert text[1..][i - 1..i - 1 + |part|] == text[i..i + |part|];
      assert OccursAt(text[1..], part, i - 1);
    }
  }

  /** Whether `part` is a substring of `text`, scanning start positions from
      the left. */
  function Contains(text: string, part: string): (r: bool)
    ensures r <==> exists i :: OccursAt(text, part, i)
    decreases |text|
  {
    if IsPrefix(part, text) then
      assert OccursAt(text, part, 0);
      true
    else if |text| == 0 then
      false
    else
      OccursShift(text, part);
      assert !OccursAt(text, part, 0);
      Contains(text[1..], part)
  }

  /** Whether some string of `parts` is a substring of `text`, as a
      `find_if` over the list. */
  function ContainsAny(text: string, parts: seq<string>): (r: bool)
    ensures r <==> exists k :: 0 <= k < |parts| && Contains(text, parts[k])
    ensures |parts| == 0 ==> !r
    decreases |parts|
  {
    if |parts| == 0 then false
    else if Contains(text, parts[0]) then true
    else
      var rest := ContainsAny(text, parts[1..]);
      assert forall k :: 1 <= k < |parts| ==> parts[k] == parts[1..][k - 1];
      rest
  }

  /** A string contains each of the pieces it is concatenated from. */
  lemma ContainsPieces(a: string, b: string)
    ensures Contains(a + b, a) && Contains(a + b, b)
  {
    assert (a + b)[0..|a|] == a;
    assert OccursAt(a + b, a, 0);
    assert (a + b)[|a|..|a| + |b|] == b;
    assert OccursAt(a + b, b, |a|);
  }
}

/**
 One expected message of the test error monitor (a VuidAndMessage): an
 optional VUID, a plain substring or a regular expression to look for, and
 an optional regular expression that must not appear.
 */
module ExpectedMessages {
  import opened Substrings

  /** `regex_search(text, pattern)`: regular-expression matching is not
      modelled, so every operation that needs it takes it as a parameter. */
  type RegexSearch = (string, string) -> bool

  datatype MatchKind = ByString | ByRegex

  /** `pattern` is the stored message string in both kinds; `undesired` is
      empty when there is no undesired regex. */
  datatype Expected = Expected(vuid: string, kind: MatchKind, pattern: string, undesired: string)

  /** The entry SetDesiredFailureMsg records: any VUID, a substring. */
  function PlainExpected(msg: string): Expected {
    Expected("", ByString, msg, "")
  }

  /** VuidAndMessage::Search: an empty VUID accepts any VUID, otherwise the
      VUIDs must be equal; then the message must contain the string, or match
      the regex. */
  function Search(e: Expected, vuid: string, msg: string, re: RegexSearch): (r: bool)
    ensures e.vuid != "" && e.vuid != vuid ==> !r
    ensures e.kind == ByString ==> (r <==> (e.vuid == "" || e.vuid == vuid) && exists i :: OccursAt(msg, e.pattern, i))
    ensures e.kind == ByRegex ==> (r <==> (e.vuid == "" || e.vuid == vuid) && re(msg, e.pattern))
  {
    var vuidMatches := if e.vuid != "" then e.vuid == vuid else true;
    match e.kind
    case ByString => vuidMatches && Contains(msg, e.pattern)
    case ByRegex => vuidMatches && re(msg, e.pattern)
  }

  /** VuidAndMessage::SearchUndesiredRegex: only a non-empty undesired regex
      can match. */
  predicate SearchUndesired(e: Expected, msg: string, re: RegexSearch) {
    e.undesired != "" && re(msg, e.undesired)
  }

  /** An entry the desired-message scan stops at. */
  predicate Hit(e: Expected, vuid: string, msg: string, re: RegexSearch) {
    SearchUndesired(e, msg, re) || Search(e, vuid, msg, re)
  }

  /** VuidAndMessage::Print: the VUID and a space when there is a VUID, then
      the message string. */
  function Print(e: Expected): (r: string)
    ensures |r| == |e.vuid| + (if e.vuid == "" then 0 else 1) + |e.pattern|
    ensures r[..|e.vuid|] == e.vuid
    ensures e.vuid != "" ==> r[|e.vuid|] == ' '
    ensures r[|r| - |e.pattern|..] == e.pattern
  {
    var prefix := if e.vuid != "" then e.vuid + " " else e.vuid;
    prefix + e.pattern
  }

  /** A printed expectation names both its VUID and its message string. */
  lemma PrintNamesExpectation(e: Expected)
    ensures Contains(Print(e), e.pattern) && Contains(Print(e), e.vuid)
  {
    var prefix := if e.vuid != "" then e.vuid + " " else e.vuid;
    ContainsPieces(prefix, e.pattern);
    ContainsPieces(e.vuid, [' ']);
    var p := Print(e);
    if e.vuid != "" {
      assert p == e.vuid + (" " + e.pattern);
      ContainsPieces(e.vuid, " " + e.pattern);
    }
  }

  /** A plain expectation matches exactly the messages containing its string,
      whatever their VUID. */
  lemma PlainMatchesSubstring(msg: string, vuid: string, text: string, re: RegexSearch)
    ensures Search(PlainExpected(msg), vuid, text, re) <==> Contains(text, msg)
    ensures !SearchUndesired(PlainExpected(msg), text, re)
  {
  }
}

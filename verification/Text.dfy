// Strings as the handlers compare them: Go's strings.TrimSpace and byte-wise ordering.
module Text {
  /** unicode.IsSpace. */
  predicate IsSpace(c: char) {
    || '\t' <= c <= '\r'
    || c == ' ' || c == '\U{0085}' || c == '\U{00A0}' || c == '\U{1680}'
    || '\U{2000}' <= c <= '\U{200A}'
    || c == '\U{2028}' || c == '\U{2029}' || c == '\U{202F}' || c == '\U{205F}' || c == '\U{3000}'
  }

  /** strings.TrimSpace. */
  function TrimSpace(s: string): (t: string)
    ensures t == "" || (!IsSpace(t[0]) && !IsSpace(t[|t| - 1]))
  {
    if s == "" then ""
    else if IsSpace(s[0]) then TrimSpace(s[1..])
    else if IsSpace(s[|s| - 1]) then TrimSpace(s[..|s| - 1])
    else s
  }

  predicate AllSpace(s: string) {
    forall i :: 0 <= i < |s| ==> IsSpace(s[i])
  }

  /** Trimming takes white space off both ends, and nothing else. */
  lemma {:induction false} TrimSpaceKeepsTheRest(s: string) returns (before: string, after: string)
    ensures s == before + TrimSpace(s) + after && AllSpace(before) && AllSpace(after)
    decreases |s|
  {
    before, after := "", "";
    if s == "" {
    } else if IsSpace(s[0]) {
      var rest := s[1..];
      before, after := TrimSpaceKeepsTheRest(rest);
      SpaceAround(rest, before, TrimSpace(rest), after, s[0]);
      assert s == [s[0]] + rest;
      before := [s[0]] + before;
    } else if IsSpace(s[|s| - 1]) {
      var rest := s[..|s| - 1];
      before, after := TrimSpaceKeepsTheRest(rest);
      SpaceAround(rest, before, TrimSpace(rest), after, s[|s| - 1]);
      assert s == rest + [s[|s| - 1]];
      after := after + [s[|s| - 1]];
    }
  }

  lemma SpaceAround(s: string, before: string, middle: string, after: string, c: char)
    requires s == before + middle + after && AllSpace(before) && AllSpace(after) && IsSpace(c)
    ensures [c] + s == ([c] + before) + middle + after && AllSpace([c] + before)
    ensures s + [c] == before + middle + (after + [c]) && AllSpace(after + [c])
  {}
}

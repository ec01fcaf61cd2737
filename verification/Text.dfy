/** Python's `str.strip()`, for ASCII white space. */
module Text {
  predicate IsSpace(c: char) {
    c == ' ' || '\t' <= c <= '\r' || ('\U{1c}' <= c && c <= '\U{1f}')
  }

  function StripLeft(s: string): string {
    if s != [] && IsSpace(s[0]) then StripLeft(s[1..]) else s
  }

  function StripRight(s: string): string {
    if s != [] && IsSpace(s[|s| - 1]) then StripRight(s[..|s| - 1]) else s
  }

  function Strip(s: string): string {
    StripRight(StripLeft(s))
  }

  predicate AllSpace(s: string) {
    forall k :: 0 <= k < |s| ==> IsSpace(s[k])
  }

  lemma {:induction false} StripLeftIsExact(s: string)
    ensures var n := |s| - |StripLeft(s)|;
            && 0 <= n && s[n..] == StripLeft(s) && AllSpace(s[..n]) && (StripLeft(s) != [] ==> !IsSpace(StripLeft(s)[0]))
    decreases |s|
  {
    if s != [] && IsSpace(s[0]) {
      StripLeftIsExact(s[1..]);
      var n := |s| - |StripLeft(s)|;
      assert forall k :: 1 <= k < n ==> s[k] == s[1..][..n - 1][k - 1];
    }
  }

  lemma {:induction false} StripRightIsExact(s: string)
    ensures var r := StripRight(s);
            && |r| <= |s| && s[..|r|] == r && AllSpace(s[|r|..]) && (r != [] ==> !IsSpace(r[|r| - 1]))
    decreases |s|
  {
    var n := |s| - 1;
    if s != [] && IsSpace(s[n]) {
      StripRightIsExact(s[..n]);
      var r := StripRight(s);
      assert forall k :: |r| <= k < n ==> s[k] == s[..n][|r|..][k - |r|];
    }
  }

  /** Stripping removes exactly the white space around a text. */
  lemma {:induction false} StripIsExact(s: string) returns (before: string, after: string)
    ensures s == before + Strip(s) + after && AllSpace(before) && AllSpace(after)
    ensures Strip(s) != [] ==> !IsSpace(Strip(s)[0]) && !IsSpace(Strip(s)[|Strip(s)| - 1])
    ensures Strip(s) == [] <==> AllSpace(s)
  {
    var mid := StripLeft(s);
    StripLeftIsExact(s);
    StripRightIsExact(mid);
    before, after := s[..|s| - |mid|], mid[|Strip(s)|..];
    assert mid == Strip(s) + after;
    if mid != [] {
      assert s[|s| - |mid|] == mid[0] && !IsSpace(mid[0]);
    }
    if Strip(s) == [] {
      assert forall k :: 0 <= k < |s| ==> s[k] == (before + after)[k];
    }
  }

  /** The text with the white space around it removed; not blank. */
  ghost predicate IsTrimmed(text: string, trimmed: string) {
    && trimmed != [] && !IsSpace(trimmed[0]) && !IsSpace(trimmed[|trimmed| - 1])
    && exists i, j :: 0 <= i <= j <= |text| && text[i..j] == trimmed && AllSpace(text[..i]) && AllSpace(text[j..])
  }

  lemma StripTrims(text: string)
    ensures if AllSpace(text) then Strip(text) == [] else IsTrimmed(text, Strip(text))
  {
    var before, after := StripIsExact(text);
    var i, j := |before|, |before + Strip(text)|;
    assert text[i..j] == Strip(text) && text[..i] == before && text[j..] == after;
    hide StripLeft, StripRight, AllSpace;
  }
}

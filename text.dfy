/** String helpers the product handlers rely on: JavaScript's `trim` and a
    case-insensitive substring search. */
module Text {

  /** The characters `String.prototype.trim` removes: the ECMAScript
      WhiteSpace and LineTerminator code points. */
  predicate IsWhiteSpace(c: char)
    ensures c == ' ' || c == '\t' || c == '\n' || c == '\r' ==> IsWhiteSpace(c)
    ensures '0' <= c <= '9' || 'A' <= c <= 'Z' || 'a' <= c <= 'z' ==> !IsWhiteSpace(c)
  {
    c == ' ' || c == '\t' || c == '\n' || c == '\r' || c == '\U{000B}' || c == '\U{000C}'
    || c == '\U{00A0}' || c == '\U{FEFF}' || c == '\U{1680}' || ('\U{2000}' <= c <= '\U{200A}')
    || c == '\U{2028}' || c == '\U{2029}' || c == '\U{202F}' || c == '\U{205F}' || c == '\U{3000}'
  }

  predicate IsBlank(s: string)
  {
    forall i :: 0 <= i < |s| ==> IsWhiteSpace(s[i])
  }

  /** `s` without its leading white space. */
  function TrimStart(s: string): (r: string)
    ensures |r| <= |s| && r == s[|s| - |r|..]
    ensures forall i :: 0 <= i < |s| - |r| ==> IsWhiteSpace(s[i])
    ensures r != [] ==> !IsWhiteSpace(r[0])
  {
    if s != [] && IsWhiteSpace(s[0]) then TrimStart(s[1..]) else s
  }

  /** `s` without its trailing white space. */
  function TrimEnd(s: string): (r: string)
    ensures |r| <= |s| && r == s[..|r|]
    ensures forall i :: |r| <= i < |s| ==> IsWhiteSpace(s[i])
    ensures r != [] ==> !IsWhiteSpace(r[|r| - 1])
  {
    if s != [] && IsWhiteSpace(s[|s| - 1]) then TrimEnd(s[..|s| - 1]) else s
  }

  /** `String.prototype.trim`: `s` without leading and trailing white space.
      The result occurs in `s`, everything before and after it is white
      space, and it starts and ends with a character that is not white space
      unless it is empty. */
  function Trim(s: string): (t: string)
    ensures |t| <= |s|
    ensures exists a :: OccursAt(s, t, a) && IsBlank(s[..a]) && IsBlank(s[a + |t|..])
    ensures t != "" ==> !IsWhiteSpace(t[0]) && !IsWhiteSpace(t[|t| - 1])
  {
    var u := TrimStart(s);
    var t := TrimEnd(u);
    TrimmedSlice(s, u, t);
    t
  }

  /** Cutting white space off the front of `s` and then off the back of the
      rest leaves a slice of `s` with white space alone on either side. */
  lemma TrimmedSlice(s: string, u: string, t: string)
    requires |u| <= |s| && u == s[|s| - |u|..]
    requires forall i :: 0 <= i < |s| - |u| ==> IsWhiteSpace(s[i])
    requires |t| <= |u| && t == u[..|t|]
    requires forall i :: |t| <= i < |u| ==> IsWhiteSpace(u[i])
    ensures var a := |s| - |u|; OccursAt(s, t, a) && IsBlank(s[..a]) && IsBlank(s[a + |t|..])
  {
    var a := |s| - |u|;
    assert OccursAt(s, t, a);
    var head, tail := s[..a], s[a + |t|..];
    forall i | 0 <= i < |head| ensures IsWhiteSpace(head[i]) {
      assert head[i] == s[i];
    }
    forall i | 0 <= i < |tail| ensures IsWhiteSpace(tail[i]) {
      assert tail[i] == u[|t| + i];
    }
  }

  /** Trimming leaves nothing exactly when every character is white space. */
  lemma TrimEmptyIffBlank(s: string)
    ensures Trim(s) == "" <==> IsBlank(s)
  {
  }

  /** ASCII upper-case letters mapped to lower case; other characters kept. */
  function LowerChar(c: char): (r: char)
    ensures !('A' <= r <= 'Z')
    ensures 'A' <= c <= 'Z' || r == c
    ensures 'A' <= c <= 'Z' ==> 'a' <= r <= 'z' && r as int == c as int + 32
  {
    if 'A' <= c <= 'Z' then (c as int + 32) as char else c
  }

  /** `s` with its ASCII upper-case letters lower-cased: no upper-case ASCII
      letter is left, and every other character is kept. */
  function Lower(s: string): (r: string)
    ensures |r| == |s|
    ensures forall i :: 0 <= i < |r| ==> !('A' <= r[i] <= 'Z')
    ensures forall i :: 0 <= i < |s| && !('A' <= s[i] <= 'Z') ==> r[i] == s[i]
    ensures forall i :: 0 <= i < |s| && 'A' <= s[i] <= 'Z' ==> r[i] as int == s[i] as int + 32
  {
    seq(|s|, i requires 0 <= i < |s| => LowerChar(s[i]))
  }

  /** Two characters are the same letter up to ASCII case: equal, or an
      upper-case letter and the letter 32 code points above it. */
  predicate SameIgnoringCase(c: char, d: char)
  {
    || c == d
    || ('A' <= c <= 'Z' && d as int == c as int + 32)
    || ('A' <= d <= 'Z' && c as int == d as int + 32)
  }

  /** Lower-casing makes two strings equal exactly when they agree character
      by character up to ASCII case. */
  lemma LowerEqualIffSameIgnoringCase(x: string, y: string)
    ensures Lower(x) == Lower(y) <==>
      |x| == |y| && forall i :: 0 <= i < |x| ==> SameIgnoringCase(x[i], y[i])
  {
  }

  /** `pattern` occurs in `text` starting at position i. */
  predicate OccursAt(text: string, pattern: string, i: int)
  {
    0 <= i && i + |pattern| <= |text| && text[i..i + |pattern|] == pattern
  }

  /** Substring search by scanning the start positions of `text`. */
  function Contains(text: string, pattern: string): (b: bool)
    ensures b <==> exists i :: OccursAt(text, pattern, i)
  {
    if pattern <= text then
      assert OccursAt(text, pattern, 0);
      true
    else if text == [] then
      false
    else
      var rest := Contains(text[1..], pattern);
      if rest then
        var i :| OccursAt(text[1..], pattern, i);
        assert text[i + 1..i + 1 + |pattern|] == text[1..][i..i + |pattern|];
        assert OccursAt(text, pattern, i + 1);
        true
      else
        assert forall i :: OccursAt(text, pattern, i) ==> i == 0 || OccursAt(text[1..], pattern, i - 1) by {
          forall i | OccursAt(text, pattern, i) && i > 0
            ensures OccursAt(text[1..], pattern, i - 1)
          {
            assert text[1..][i - 1..i - 1 + |pattern|] == text[i..i + |pattern|];
          }
        }
        false
  }

  /** `pattern` occurs in `text` at position i once both are lower-cased. */
  predicate OccursIgnoringCase(text: string, pattern: string, i: int)
  {
    0 <= i && i + |pattern| <= |text| && Lower(text[i..i + |pattern|]) == Lower(pattern)
  }

  /** The search `{ $regex: search, $options: "i" }` with `search` read as a
      literal string: the search occurs somewhere in the text, ignoring case. */
  predicate ContainsIgnoringCase(text: string, pattern: string)
    ensures ContainsIgnoringCase(text, pattern) <==> exists i :: OccursIgnoringCase(text, pattern, i)
    ensures pattern == "" ==> ContainsIgnoringCase(text, pattern)
    ensures ContainsIgnoringCase(text, pattern) ==> |pattern| <= |text|
  {
    var lt, lp := Lower(text), Lower(pattern);
    forall i | 0 <= i && i + |pattern| <= |text|
      ensures OccursAt(lt, lp, i) <==> OccursIgnoringCase(text, pattern, i)
    {
      assert lt[i..i + |lp|] == Lower(text[i..i + |pattern|]);
    }
    assert pattern == "" ==> OccursAt(lt, lp, 0);
    Contains(lt, lp)
  }

  /** An exact occurrence is always found by the case-insensitive search. */
  lemma ExactOccurrenceFound(text: string, pattern: string, i: int)
    requires OccursAt(text, pattern, i)
    ensures ContainsIgnoringCase(text, pattern)
  {
    var lt, lp := Lower(text), Lower(pattern);
    assert lt[i..i + |lp|] == lp;
    assert OccursAt(lt, lp, i);
  }

  /** Changing the case of ASCII letters in the search text does not change the result. */
  lemma SearchIgnoresPatternCase(text: string, pattern: string)
    ensures ContainsIgnoringCase(text, pattern) == ContainsIgnoringCase(text, Lower(pattern))
  {
    assert Lower(Lower(pattern)) == Lower(pattern);
  }
}

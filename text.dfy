/** String trimming as the transaction form applies it to the entered name
    (String.prototype.trim). */
module Text {

  /** The ECMAScript WhiteSpace and LineTerminator code points, which trim removes. */
  predicate IsWhiteSpace(c: char) {
    || c == '\t' || c == '\n' || c == '\U{000B}' || c == '\U{000C}' || c == '\r'
    || c == ' ' || c == '\U{00A0}' || c == '\U{1680}'
    || ('\U{2000}' <= c <= '\U{200A}')
    || c == '\U{2028}' || c == '\U{2029}' || c == '\U{202F}' || c == '\U{205F}'
    || c == '\U{3000}' || c == '\U{FEFF}'
  }

  /** Every character of s is white space (vacuously so for the empty string). */
  predicate AllWhiteSpace(s: string) {
    forall i :: 0 <= i < |s| ==> IsWhiteSpace(s[i])
  }

  /** Joining two runs of white space gives a run of white space. */
  lemma WhiteSpaceAround(a: string, b: string)
    requires AllWhiteSpace(a) && AllWhiteSpace(b)
    ensures AllWhiteSpace(a + b)
  {
  }

  /** Drops the leading white space: the result is a suffix of s that does not
      start with white space, and everything dropped was white space. */
  function TrimStart(s: string): (r: string)
    ensures |r| <= |s| && r == s[|s| - |r|..]
    ensures AllWhiteSpace(s[..|s| - |r|])
    ensures r == [] || !IsWhiteSpace(r[0])
  {
    if s != [] && IsWhiteSpace(s[0]) then
      var r := TrimStart(s[1..]);
      WhiteSpaceAround(s[..1], s[1..][..|s| - 1 - |r|]);
      assert s[..|s| - |r|] == s[..1] + s[1..][..|s| - 1 - |r|];
      r
    else s
  }

  /** Drops the trailing white space: the result is a prefix of s that does not
      end with white space, and everything dropped was white space. */
  function TrimEnd(s: string): (r: string)
    ensures |r| <= |s| && r == s[..|r|]
    ensures AllWhiteSpace(s[|r|..])
    ensures r == [] || !IsWhiteSpace(r[|r| - 1])
  {
    if s != [] && IsWhiteSpace(s[|s| - 1]) then
      var r := TrimEnd(s[..|s| - 1]);
      WhiteSpaceAround(s[..|s| - 1][|r|..], s[|s| - 1..]);
      assert s[|r|..] == s[..|s| - 1][|r|..] + s[|s| - 1..];
      r
    else s
  }

  /** r is s with some white space removed at the front and at the back. */
  predicate TrimmedOf(s: string, r: string) {
    exists i, j :: 0 <= i <= j <= |s| && r == s[i..j] && AllWhiteSpace(s[..i]) && AllWhiteSpace(s[j..])
  }

  /** trim(): the entered text with the white space around it removed. The
      result is a slice of s with only white space before and after it; it is
      empty exactly when every character is white space, and otherwise starts
      and ends with a character that is not white space. */
  function Trim(s: string): (r: string)
    ensures TrimmedOf(s, r)
    ensures r == [] <==> AllWhiteSpace(s)
    ensures r != [] ==> !IsWhiteSpace(r[0]) && !IsWhiteSpace(r[|r| - 1])
  {
    var head := TrimStart(s);
    var r := TrimEnd(head);
    assert TrimSteps(s, head, r);
    TrimmedSlice(s, head, r);
    TrimmedEnds(s, head, r);
    r
  }

  /** What the two trimming steps promise: head is s with white space dropped at
      the front, and r is head with white space dropped at the back. */
  predicate TrimSteps(s: string, head: string, r: string) {
    && |head| <= |s| && head == s[|s| - |head|..] && AllWhiteSpace(s[..|s| - |head|])
    && (head == [] || !IsWhiteSpace(head[0]))
    && |r| <= |head| && r == head[..|r|] && AllWhiteSpace(head[|r|..])
    && (r == [] || !IsWhiteSpace(r[|r| - 1]))
  }

  /** The two trimming steps leave a slice of s with only white space around it. */
  lemma TrimmedSlice(s: string, head: string, r: string)
    requires TrimSteps(s, head, r)
    ensures TrimmedOf(s, r)
  {
    var i := |s| - |head|;
    var j := i + |r|;
    assert r == s[i..j];
    assert s[j..] == head[|r|..];
  }

  /** The two trimming steps leave nothing at all exactly when s is all white
      space, and otherwise a string with no white space at either end. */
  lemma TrimmedEnds(s: string, head: string, r: string)
    requires TrimSteps(s, head, r)
    ensures r == [] <==> AllWhiteSpace(s)
    ensures r != [] ==> !IsWhiteSpace(r[0]) && !IsWhiteSpace(r[|r| - 1])
  {
    var i := |s| - |head|;
    if r == [] {
      assert s == s[..i] + head[|r|..];
    } else {
      assert r[0] == head[0] == s[i];
    }
    if head != [] {
      assert head[0] == s[i];
    }
  }
}

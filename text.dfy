/**
 * String helpers the client uses on user input: JavaScript's
 * `String.prototype.trim` and the blank-input guard that both the
 * create-post form and the comment box apply before sending anything.
 */
module Text {

  /** The characters `trim` removes: ECMAScript WhiteSpace and LineTerminator. */
  predicate IsJsWhitespace(c: char)
  {
    || c == '\t' || c == '\n' || c == '\U{000B}' || c == '\U{000C}' || c == '\r'
    || c == ' ' || c == '\U{00A0}' || c == '\U{1680}'
    || ('\U{2000}' <= c <= '\U{200A}')
    || c == '\U{2028}' || c == '\U{2029}' || c == '\U{202F}' || c == '\U{205F}'
    || c == '\U{3000}' || c == '\U{FEFF}'
  }

  /** Every character of `s` is whitespace (vacuously so for the empty string). */
  predicate IsWhitespaceOnly(s: string)
  {
    forall i :: 0 <= i < |s| ==> IsJsWhitespace(s[i])
  }

  /** Leading whitespace removed: the result is a suffix of `s`, what was dropped is whitespace,
      and the result does not start with whitespace. */
  function TrimStart(s: string): (r: string)
    ensures |r| <= |s| && r == s[|s| - |r|..]
    ensures forall i :: 0 <= i < |s| - |r| ==> IsJsWhitespace(s[i])
    ensures r == [] || !IsJsWhitespace(r[0])
  {
    if s != [] && IsJsWhitespace(s[0]) then TrimStart(s[1..]) else s
  }

  /** Trailing whitespace removed: the result is a prefix of `s`, what was dropped is whitespace,
      and the result does not end with whitespace. */
  function TrimEnd(s: string): (r: string)
    ensures |r| <= |s| && r == s[..|r|]
    ensures forall i :: |r| <= i < |s| ==> IsJsWhitespace(s[i])
    ensures r == [] || !IsJsWhitespace(r[|r| - 1])
  {
    if s != [] && IsJsWhitespace(s[|s| - 1]) then TrimEnd(s[..|s| - 1]) else s
  }

  /** `s.trim()` */
  function Trim(s: string): string
  {
    TrimEnd(TrimStart(s))
  }

  /** The guard `!s || s.trim() === '' || s === ' '` written in CreatePostForm and PostCard. */
  predicate IsBlankInput(s: string)
  {
    s == "" || Trim(s) == "" || s == " "
  }

  /** `trim` yields the empty string exactly on whitespace-only input. */
  lemma {:induction false} TrimEmptyIffWhitespaceOnly(s: string)
    ensures Trim(s) == "" <==> IsWhitespaceOnly(s)
  {
    var t := TrimStart(s);
    if !IsWhitespaceOnly(s) {
      var k :| 0 <= k < |s| && !IsJsWhitespace(s[k]);
      assert t != [];
    }
  }

  /** The client's blank guard rejects exactly the whitespace-only strings, so its
      `=== ' '` test is redundant. */
  lemma BlankInputIffWhitespaceOnly(s: string)
    ensures IsBlankInput(s) <==> IsWhitespaceOnly(s)
  {
    TrimEmptyIffWhitespaceOnly(s);
    if s == " " {
      assert IsJsWhitespace(s[0]);
    }
  }
}

/**
 * The handful of JavaScript values and string built-ins the program relies on:
 * an optional value, the primitive values used as identifiers, and the string
 * operations `trim`, `toLowerCase` and `startsWith`.
 */
module JsValues {

  datatype Option<+T> = None | Some(value: T)

  /** A primitive value used as an identifier; JavaScript's `===` on these is
      equality of this datatype (a number is never `===` a string, and
      `undefined === undefined`). */
  datatype Key = Undefined | Num(n: int) | Str(s: string)

  /** The characters `String.prototype.trim` removes: white space and line terminators. */
  predicate IsWhitespace(c: char) {
    c == '\t' || c == '\n' || c == '\U{B}' || c == '\U{C}' || c == '\r' || c == ' '
    || c == '\U{A0}' || c == '\U{1680}' || ('\U{2000}' <= c <= '\U{200A}')
    || c == '\U{2028}' || c == '\U{2029}' || c == '\U{202F}' || c == '\U{205F}'
    || c == '\U{3000}' || c == '\U{FEFF}'
  }

  predicate AllWhitespace(s: string) {
    forall i :: 0 <= i < |s| ==> IsWhitespace(s[i])
  }

  /** The index of the first character at or after `i` that is not white space. */
  function LeadingEnd(s: string, i: nat): (n: nat)
    requires i <= |s|
    ensures i <= n <= |s|
    ensures forall l :: i <= l < n ==> IsWhitespace(s[l])
    ensures n == |s| || !IsWhitespace(s[n])
    decreases |s| - i
  {
    if i < |s| && IsWhitespace(s[i]) then LeadingEnd(s, i + 1) else i
  }

  /** One past the last character before `j` that is not white space. */
  function TrailingStart(s: string, j: nat): (n: nat)
    requires j <= |s|
    ensures n <= j
    ensures forall l :: n <= l < j ==> IsWhitespace(s[l])
    ensures n == 0 || !IsWhitespace(s[n - 1])
  {
    if j > 0 && IsWhitespace(s[j - 1]) then TrailingStart(s, j - 1) else j
  }

  function TrimStart(s: string): (r: string)
    ensures |r| <= |s| && r == s[|s| - |r|..]
    ensures r == [] || !IsWhitespace(r[0])
    ensures AllWhitespace(s[..|s| - |r|])
  {
    var n := LeadingEnd(s, 0);
    assert forall l :: 0 <= l < n ==> s[..n][l] == s[l];
    s[n..]
  }

  function TrimEnd(s: string): (r: string)
    ensures |r| <= |s| && r == s[..|r|]
    ensures r == [] || !IsWhitespace(r[|r| - 1])
    ensures AllWhitespace(s[|r|..])
  {
    var n := TrailingStart(s, |s|);
    assert forall l :: 0 <= l < |s| - n ==> s[n..][l] == s[n + l];
    s[..n]
  }

  /** `s.trim()`. */
  function Trim(s: string): string {
    TrimEnd(TrimStart(s))
  }

  /** The trimmed string is what is left of the input once the white space at
      both ends is removed: a contiguous piece of it, preceded and followed only
      by white space, with no white space at either of its ends; it is empty
      exactly when the input is all white space. */
  lemma TrimSpec(s: string)
    ensures exists i, j :: 0 <= i <= j <= |s| && Trim(s) == s[i..j]
                           && AllWhitespace(s[..i]) && AllWhitespace(s[j..])
    ensures Trim(s) == [] || (!IsWhitespace(Trim(s)[0]) && !IsWhitespace(Trim(s)[|Trim(s)| - 1]))
    ensures Trim(s) == [] <==> AllWhitespace(s)
  {
    var t := TrimStart(s);
    var i := |s| - |t|;
    var r := TrimEnd(t);
    var j := i + |r|;
    assert r == s[i..j] && AllWhitespace(s[..i]) && AllWhitespace(s[j..]) by {
      assert s[j..] == t[|r|..];
    }
    if r == [] {
      assert AllWhitespace(s) by {
        assert t[|r|..] == t;
        assert s == s[..i];
      }
    } else {
      assert !IsWhitespace(s[i]) by {
        assert r[0] == t[0];
      }
    }
  }

  function LowerChar(c: char): char {
    if 'A' <= c <= 'Z' then (c as int + 32) as char else c
  }

  /** `s.toLowerCase()`, for ASCII letters. */
  function Lower(s: string): (r: string)
    ensures |r| == |s|
    ensures forall i :: 0 <= i < |s| ==> r[i] == LowerChar(s[i])
  {
    if s == [] then [] else [LowerChar(s[0])] + Lower(s[1..])
  }

  /** `s.startsWith(prefix)`. */
  predicate StartsWith(s: string, prefix: string) {
    |prefix| <= |s| && s[..|prefix|] == prefix
  }
}

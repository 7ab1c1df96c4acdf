/**
 * Character-level helpers shared by the indentation core: the whitespace
 * class of the source's regular expressions, the host's first-non-whitespace
 * index, JavaScript's `substring(0, end)` and `String.prototype.repeat`.
 */
module Text {

  /**
   * The ECMAScript `\s` class: the WhiteSpace and LineTerminator code points.
   * The host's first-non-whitespace index is assumed to use the same class.
   */
  predicate IsWhitespace(c: char) {
    || c == ' ' || c == '\t' || c == '\n' || c == '\r'
    || c == '\U{000B}' || c == '\U{000C}' || c == '\U{00A0}' || c == '\U{1680}'
    || ('\U{2000}' <= c <= '\U{200A}')
    || c == '\U{2028}' || c == '\U{2029}' || c == '\U{202F}' || c == '\U{205F}'
    || c == '\U{3000}' || c == '\U{FEFF}'
  }

  /** `TextLine.firstNonWhitespaceCharacterIndex`: the length of the leading whitespace run. */
  function FirstNonWhitespace(line: string): (r: nat)
    ensures r <= |line|
    ensures forall i :: 0 <= i < r ==> IsWhitespace(line[i])
    ensures r < |line| ==> !IsWhitespace(line[r])
  {
    if |line| == 0 || !IsWhitespace(line[0]) then 0
    else 1 + FirstNonWhitespace(line[1..])
  }

  /** JavaScript's `line.substring(0, end)`: an end past the string is clamped to its length. */
  function Substring(line: string, end: nat): (r: string)
    ensures |r| == if end <= |line| then end else |line|
    ensures r <= line
  {
    if end <= |line| then line[..end] else line
  }

  /** JavaScript's `c.repeat(n)` for a one-character string `c`. */
  function Repeat(c: char, n: nat): (r: string)
    ensures |r| == n
    ensures forall i :: 0 <= i < n ==> r[i] == c
  {
    if n == 0 then [] else Repeat(c, n - 1) + [c]
  }

  /** The number of tab characters in `s`. */
  function TabCount(s: string): (n: nat)
    ensures n <= |s|
  {
    if |s| == 0 then 0
    else TabCount(s[..|s| - 1]) + (if s[|s| - 1] == '\t' then 1 else 0)
  }

  lemma {:induction false} TabCountAppend(s: string, t: string)
    ensures TabCount(s + t) == TabCount(s) + TabCount(t)
    decreases |t|
  {
    if |t| == 0 {
      assert s + t == s;
    } else {
      var last := |t| - 1;
      assert (s + t)[..|s + t| - 1] == s + t[..last];
      TabCountAppend(s, t[..last]);
    }
  }

  lemma {:induction false} TabCountRepeat(c: char, n: nat)
    ensures TabCount(Repeat(c, n)) == if c == '\t' then n else 0
  {
    if n > 0 {
      assert Repeat(c, n)[..n - 1] == Repeat(c, n - 1);
      TabCountRepeat(c, n - 1);
    }
  }
}

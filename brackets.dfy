/**
 * Bracket characters and the two regular expressions of the source:
 * `doesLineEndWithOpenBracket` (pattern `(\(|\[|{)\s*$`) and
 * `allBracketsInString` (pattern `(\(|\)|\[|\]|{|})` run with `exec` in a loop).
 */
module Brackets {
  import opened Options
  import opened Text

  /** The bracket families `BracketCounter` keeps a tally for. */
  datatype Family = Paren | Square | Curly | Angle

  /** The characters the bracket-search pattern matches; `<` and `>` are not among them. */
  predicate IsBracket(c: char) {
    c == '(' || c == ')' || c == '[' || c == ']' || c == '{' || c == '}'
  }

  predicate IsOpenBracket(c: char) {
    c == '(' || c == '[' || c == '{'
  }

  /** `isClosingBracket`: note that it also accepts `>`. */
  predicate IsClosingBracket(c: char) {
    c == ')' || c == ']' || c == '}' || c == '>'
  }

  /** The keys of `kBracketKeys`. */
  predicate IsTallied(c: char) {
    IsBracket(c) || c == '<' || c == '>'
  }

  /** `keyForBracket`: the family a tallied character belongs to. */
  function FamilyOf(c: char): (f: Family)
    requires IsTallied(c)
    ensures f == Angle <==> (c == '<' || c == '>')
  {
    if c == '(' || c == ')' then Paren
    else if c == '[' || c == ']' then Square
    else if c == '{' || c == '}' then Curly
    else Angle
  }

  /** Every matched bracket is exactly one of opening and closing. */
  lemma BracketIsOpenOrClosing(c: char)
    requires IsBracket(c)
    ensures IsOpenBracket(c) != IsClosingBracket(c)
    ensures FamilyOf(c) != Angle
  {
  }

  // ----- doesLineEndWithOpenBracket --------------------------------------

  /** `s` without its trailing whitespace run. */
  function TrimTrailingWhitespace(s: string): (r: string)
    ensures r <= s
    ensures forall j :: |r| <= j < |s| ==> IsWhitespace(s[j])
    ensures |r| > 0 ==> !IsWhitespace(r[|r| - 1])
  {
    if |s| == 0 || !IsWhitespace(s[|s| - 1]) then s
    else TrimTrailingWhitespace(s[..|s| - 1])
  }

  /** `doesLineEndWithOpenBracket`: the last non-whitespace character is an opening bracket. */
  predicate DoesLineEndWithOpenBracket(s: string) {
    var t := TrimTrailingWhitespace(s);
    |t| > 0 && IsOpenBracket(t[|t| - 1])
  }

  /** A match of `(\(|\[|{)\s*$` starting at offset `i`. */
  predicate OpenBracketThenWhitespaceAt(s: string, i: int) {
    0 <= i < |s| && IsOpenBracket(s[i]) && forall j :: i < j < |s| ==> IsWhitespace(s[j])
  }

  /** The predicate is exactly the regex search succeeding somewhere in the string. */
  lemma EndsWithOpenBracketIff(s: string)
    ensures DoesLineEndWithOpenBracket(s) <==> exists i :: OpenBracketThenWhitespaceAt(s, i)
  {
    var t := TrimTrailingWhitespace(s);
    if DoesLineEndWithOpenBracket(s) {
      assert OpenBracketThenWhitespaceAt(s, |t| - 1);
    }
    if i :| OpenBracketThenWhitespaceAt(s, i) {
      assert !IsWhitespace(s[i]);
      assert |t| - 1 == i;
    }
  }

  // ----- allBracketsInString ----------------------------------------------

  /** One `regex.exec(s)` with `lastIndex == from`: the first bracket at or after `from`. */
  function NextBracketFrom(s: string, from: nat): (r: Option<nat>)
    ensures r.Some? ==> from <= r.value < |s| && IsBracket(s[r.value])
    ensures r.Some? ==> forall k :: from <= k < r.value ==> !IsBracket(s[k])
    ensures r.None? ==> forall k :: from <= k < |s| ==> !IsBracket(s[k])
    decreases |s| - from
  {
    if from >= |s| then None
    else if IsBracket(s[from]) then Some(from)
    else NextBracketFrom(s, from + 1)
  }

  /** The bracket offsets among the first `n` characters, in document order. */
  function BracketIndicesUpTo(s: string, n: nat): (r: seq<nat>)
    requires n <= |s|
    ensures forall i :: 0 <= i < |r| ==> r[i] < n && IsBracket(s[r[i]])
  {
    if n == 0 then []
    else BracketIndicesUpTo(s, n - 1) + (if IsBracket(s[n - 1]) then [n - 1] else [])
  }

  /** Every bracket offset of `s`, in document order. */
  function BracketIndices(s: string): (r: seq<nat>)
    ensures forall i :: 0 <= i < |r| ==> r[i] < |s| && IsBracket(s[r[i]])
  {
    BracketIndicesUpTo(s, |s|)
  }

  /** The offsets among the first `n` characters are exactly their bracket positions, strictly increasing. */
  lemma {:induction false} BracketIndicesUpToExact(s: string, n: nat)
    requires n <= |s|
    ensures var r := BracketIndicesUpTo(s, n);
            && (forall i, j :: 0 <= i < j < |r| ==> r[i] < r[j])
            && (forall k :: 0 <= k < n ==> (k in r <==> IsBracket(s[k])))
  {
    if n > 0 {
      BracketIndicesUpToExact(s, n - 1);
      var r := BracketIndicesUpTo(s, n);
      var prev := BracketIndicesUpTo(s, n - 1);
      assert n - 1 !in prev;
      assert forall k :: 0 <= k < n - 1 ==> (k in r <==> k in prev);
    }
  }

  /** The offsets are exactly the bracket positions of `s`, strictly increasing. */
  lemma BracketIndicesExact(s: string)
    ensures forall i, j :: 0 <= i < j < |BracketIndices(s)| ==> BracketIndices(s)[i] < BracketIndices(s)[j]
    ensures forall k :: 0 <= k < |s| ==> (k in BracketIndices(s) <==> IsBracket(s[k]))
  {
    BracketIndicesUpToExact(s, |s|);
  }

  /** Skipping a run without brackets adds no offsets. */
  lemma {:induction false} NoBracketsBetween(s: string, lo: nat, hi: nat)
    requires lo <= hi <= |s|
    requires forall k :: lo <= k < hi ==> !IsBracket(s[k])
    ensures BracketIndicesUpTo(s, hi) == BracketIndicesUpTo(s, lo)
    decreases hi
  {
    if lo < hi {
      NoBracketsBetween(s, lo, hi - 1);
    }
  }

  /** `allBracketsInString`: push every match's index while `exec` keeps matching. */
  method AllBracketsInString(s: string) returns (indices: seq<nat>)
    ensures indices == BracketIndices(s)
  {
    indices := [];
    var lastIndex: nat := 0;
    var found := NextBracketFrom(s, lastIndex);
    while found.Some?
      invariant lastIndex <= |s|
      invariant indices == BracketIndicesUpTo(s, lastIndex)
      invariant found == NextBracketFrom(s, lastIndex)
      decreases |s| - lastIndex
    {
      var k := found.value;
      NoBracketsBetween(s, lastIndex, k);
      indices := indices + [k];
      lastIndex := k + 1;
      found := NextBracketFrom(s, lastIndex);
    }
    NoBracketsBetween(s, lastIndex, |s|);
  }
}

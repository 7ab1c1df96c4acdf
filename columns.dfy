/**
 * The column converter `columnOfCharacterInLine`: a character offset becomes
 * a visual column, a tab counting `tabSize` columns and every other offset one.
 * An offset at or past the end of the line reads `undefined`, which is not a
 * tab, so it counts one column.
 */
module Columns {
  import opened Text

  /** The width the converter gives offset `i` of `line`. */
  function Width(line: string, i: nat, tabSize: nat): (r: nat) {
    if i < |line| && line[i] == '\t' then tabSize else 1
  }

  /** The visual column of offset `character`: the widths of the offsets before it. */
  function Column(line: string, character: nat, tabSize: nat): (r: nat) {
    if character == 0 then 0
    else Column(line, character - 1, tabSize) + Width(line, character - 1, tabSize)
  }

  /** The smaller of `a` and `b`. */
  function Min(a: nat, b: nat): (r: nat) {
    if a <= b then a else b
  }

  /** `columnOfCharacterInLine`: the accumulating `for` loop. */
  method ColumnOfCharacterInLine(line: string, character: nat, tabSize: nat) returns (result: nat)
    ensures result == Column(line, character, tabSize)
  {
    result := 0;
    for i := 0 to character
      invariant result == Column(line, i, tabSize)
    {
      if i < |line| && line[i] == '\t' {
        result := result + tabSize;
      } else {
        result := result + 1;
      }
    }
  }

  /** Closed form: every offset counts one, and each tab before the offset `tabSize - 1` more. */
  lemma {:induction false} ColumnClosedForm(line: string, character: nat, tabSize: nat)
    ensures Column(line, character, tabSize)
            == character + (tabSize - 1) * TabCount(line[..Min(character, |line|)])
  {
    if character > 0 {
      var c := character - 1;
      ColumnClosedForm(line, c, tabSize);
      if c < |line| {
        TabCountStep(line, c);
        StepArithmetic(Column(line, c, tabSize), c, tabSize, TabCount(line[..c]),
                       if line[c] == '\t' then 1 else 0);
      } else {
        assert Min(character, |line|) == Min(c, |line|) == |line|;
      }
    }
  }

  lemma TabCountStep(line: string, c: nat)
    requires c < |line|
    ensures TabCount(line[..c + 1]) == TabCount(line[..c]) + (if line[c] == '\t' then 1 else 0)
  {
    assert line[..c + 1][..c] == line[..c];
  }

  lemma StepArithmetic(col: int, c: int, tabSize: int, tabs: int, isTab: int)
    requires isTab == 0 || isTab == 1
    requires col == c + (tabSize - 1) * tabs
    ensures col + (if isTab == 1 then tabSize else 1) == c + 1 + (tabSize - 1) * (tabs + isTab)
  {
  }

  /** Without tabs the visual column is the offset itself. */
  lemma ColumnWithoutTabs(line: string, character: nat, tabSize: nat)
    requires forall i :: 0 <= i < |line| ==> line[i] != '\t'
    ensures Column(line, character, tabSize) == character
  {
    ColumnClosedForm(line, character, tabSize);
    NoTabsCountZero(line[..Min(character, |line|)]);
  }

  lemma {:induction false} NoTabsCountZero(s: string)
    requires forall i :: 0 <= i < |s| ==> s[i] != '\t'
    ensures TabCount(s) == 0
  {
    if |s| > 0 {
      NoTabsCountZero(s[..|s| - 1]);
    }
  }

  /** The visual column never decreases as the offset grows, and grows strictly when tabs are wide. */
  lemma {:induction false} ColumnMonotone(line: string, c1: nat, c2: nat, tabSize: nat)
    requires c1 <= c2
    ensures Column(line, c1, tabSize) <= Column(line, c2, tabSize)
    ensures tabSize > 0 && c1 < c2 ==> Column(line, c1, tabSize) < Column(line, c2, tabSize)
    decreases c2 - c1
  {
    if c1 < c2 {
      ColumnMonotone(line, c1, c2 - 1, tabSize);
    }
  }

  /** The column of an offset depends only on the characters before it. */
  lemma {:induction false} ColumnOfPrefix(line: string, m: nat, character: nat, tabSize: nat)
    requires character <= m <= |line|
    ensures Column(line[..m], character, tabSize) == Column(line, character, tabSize)
  {
    if character > 0 {
      ColumnOfPrefix(line, m, character - 1, tabSize);
    }
  }

  /** Past the end of the line each further offset adds exactly one column. */
  lemma {:induction false} ColumnPastEnd(line: string, character: nat, tabSize: nat)
    requires |line| <= character
    ensures Column(line, character, tabSize) == Column(line, |line|, tabSize) + (character - |line|)
  {
    if character > |line| {
      ColumnPastEnd(line, character - 1, tabSize);
    }
  }

  /** Lines that differ only in non-tab characters have the same visual columns. */
  lemma {:induction false} ColumnIgnoresNonTabs(line: string, other: string, character: nat, tabSize: nat)
    requires |line| == |other|
    requires forall i :: 0 <= i < |line| ==> (line[i] == '\t' <==> other[i] == '\t')
    ensures Column(line, character, tabSize) == Column(other, character, tabSize)
  {
    if character > 0 {
      ColumnIgnoresNonTabs(line, other, character - 1, tabSize);
    }
  }
}

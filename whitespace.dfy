/**
 * `indentationWhitespaceToColumn`: the literal leading whitespace that brings
 * a new line to a visual column, as spaces only or as tabs then spaces.
 */
module Whitespace {
  import opened Text
  import opened Columns

  /**
   * `'\t'.repeat(column / tabSize)` truncates the quotient, so the tab form is
   * `column div tabSize` tabs and `column mod tabSize` spaces. Only the tab
   * form divides, so only it needs a positive tab size.
   */
  function IndentationWhitespaceToColumn(column: nat, tabSize: nat, insertSpaces: bool): (ws: string)
    requires insertSpaces || tabSize > 0
    ensures forall i :: 0 <= i < |ws| ==> ws[i] == ' ' || ws[i] == '\t'
  {
    if insertSpaces then Repeat(' ', column)
    else Repeat('\t', column / tabSize) + Repeat(' ', column % tabSize)
  }

  /** The tab form: all the tabs first, then fewer than `tabSize` spaces. */
  lemma TabsThenSpaces(column: nat, tabSize: nat)
    requires tabSize > 0
    ensures var ws := IndentationWhitespaceToColumn(column, tabSize, false);
            && |ws| == column / tabSize + column % tabSize
            && column % tabSize < tabSize
            && forall i :: 0 <= i < |ws| ==> (ws[i] == '\t' <==> i < column / tabSize)
  {
  }

  /** The space form: exactly `column` spaces. */
  lemma SpacesOnly(column: nat, tabSize: nat)
    ensures var ws := IndentationWhitespaceToColumn(column, tabSize, true);
            |ws| == column && forall i :: 0 <= i < |ws| ==> ws[i] == ' '
  {
  }

  /** Tabs then spaces span `tabSize` columns per tab and one per space. */
  lemma TabsThenSpacesWidth(q: nat, r: nat, tabSize: nat)
    ensures var ws := Repeat('\t', q) + Repeat(' ', r);
            Column(ws, |ws|, tabSize) == tabSize * q + r
  {
    var ws := Repeat('\t', q) + Repeat(' ', r);
    ColumnClosedForm(ws, |ws|, tabSize);
    assert ws[..Min(|ws|, |ws|)] == ws;
    TabCountAppend(Repeat('\t', q), Repeat(' ', r));
    TabCountRepeat('\t', q);
    TabCountRepeat(' ', r);
    Distribute(q, tabSize);
  }

  lemma Distribute(q: nat, tabSize: nat)
    ensures q + (tabSize - 1) * q == tabSize * q
  {
  }

  /** Round trip: the column converter, run over the whole whitespace, gives back `column`. */
  lemma WhitespaceRoundTrip(column: nat, tabSize: nat, insertSpaces: bool)
    requires insertSpaces || tabSize > 0
    ensures var ws := IndentationWhitespaceToColumn(column, tabSize, insertSpaces);
            Column(ws, |ws|, tabSize) == column
  {
    if insertSpaces {
      var ws := Repeat(' ', column);
      ColumnWithoutTabs(ws, |ws|, tabSize);
    } else {
      var q, r := column / tabSize, column % tabSize;
      assert IndentationWhitespaceToColumn(column, tabSize, false) == Repeat('\t', q) + Repeat(' ', r);
      TabsThenSpacesWidth(q, r, tabSize);
    }
  }
}

/** Worked scenarios of the indentation core on concrete documents (tab size 4). */
module Examples {
  import opened Options
  import opened Text
  import opened Columns
  import opened Brackets
  import opened Tally
  import opened LineScanner
  import opened Whitespace
  import opened DocumentScan
  import opened NewLine

  /** Column 6 with tabs is one tab and two spaces, which spans six columns again. */
  lemma TabFormOfColumnSix()
    ensures IndentationWhitespaceToColumn(6, 4, false) == "\t  "
    ensures Column("\t  ", 3, 4) == 6
  {
    assert Repeat('\t', 1) == "\t";
    assert Repeat(' ', 2) == "  ";
  }

  lemma CallPrefixBrackets()
    ensures BracketIndices("foo(bar,") == [3]
  {
    assert BracketIndicesUpTo("foo(bar,", 3) == [];
    assert BracketIndicesUpTo("foo(bar,", 4) == [3];
    NoBracketsBetween("foo(bar,", 4, 8);
  }

  lemma CallPrefixScan()
    ensures ScanLine("foo(bar,", Zero(), 4) == LineScan(Some(4), Zero())
  {
    CallPrefixBrackets();
    assert Column("foo(bar,", 3, 4) == 3 by {
      ColumnWithoutTabs("foo(bar,", 3, 4);
    }
  }

  /** Inside an open parenthesis the new line lines up one column past it. */
  lemma AlignsPastOpenParenthesis(doc: Document)
    requires |doc| == 1 && doc[0] == "foo(bar,"
    ensures PreviousOpenBracket(doc, Position(0, 8), 4) == Some(4)
    ensures IndentationColumn(doc, Position(0, 8), 4) == 4
  {
    var line := "foo(bar,";
    assert StartingLine(doc, Position(0, 8)) == line;
    assert TrimTrailingWhitespace(line) == line;
    CallPrefixScan();
    UpwardStep(doc, 0, line, 0, Zero(), 4);
  }

  /** A prefix ending in an open bracket skips the scan; the default adds one tab width. */
  lemma TrailingOpenBracketUsesDefault()
    ensures PreviousOpenBracket(["foo("], Position(0, 4), 4) == None
    ensures IndentationColumn(["foo("], Position(0, 4), 4) == 4
  {
    var line := "foo(";
    assert StartingLine(["foo("], Position(0, 4)) == line;
    assert TrimTrailingWhitespace(line) == line;
    assert FirstNonWhitespace(line) == 0;
  }

  /** `"  doA();"` holds one balanced pair of parentheses. */
  lemma CallLineBrackets()
    ensures BracketIndices("  doA();") == [5, 6]
  {
    NoBracketsBetween("  doA();", 0, 5);
    assert BracketIndicesUpTo("  doA();", 6) == [5];
    assert BracketIndicesUpTo("  doA();", 7) == [5, 6];
  }

  lemma CallLineScan()
    ensures ScanLine("  doA();", Zero(), 4) == LineScan(None, Zero())
  {
    CallLineBrackets();
    var closed := Add(Zero(), ')', 1);
    assert ScanIndices("  doA();", [5, 6], 2, Zero(), 4) == ScanIndices("  doA();", [5, 6], 1, closed, 4);
    assert ScanIndices("  doA();", [5, 6], 1, closed, 4) == LineScan(None, Add(closed, '(', -1));
    assert Add(closed, '(', -1) == Zero();
  }

  lemma CallLineIndentation()
    ensures FirstNonWhitespace("  doA();") == 2
    ensures Column("  doA();", 2, 4) == 2
  {
    assert "  doA();"[2..][0] == 'd';
    ColumnWithoutTabs("  doA();", 2, 4);
  }

  lemma NoTrailingOpenerOnCallLine(doc: Document)
    requires |doc| == 2 && doc[1] == "  doA();"
    ensures !DoesLineEndWithOpenBracket(StartingLine(doc, Position(1, 8)))
    ensures StartingLine(doc, Position(1, 8)) == "  doA();"
  {
    assert StartingLine(doc, Position(1, 8)) == doc[1] == "  doA();";
    assert TrimTrailingWhitespace("  doA();") == "  doA();";
  }

  lemma BalancedStartingLineScan(doc: Document)
    requires |doc| == 2 && doc[1] == "  doA();"
    ensures PreviousOpenBracket(doc, Position(1, 8), 4) == None
  {
    NoTrailingOpenerOnCallLine(doc);
    CallLineScan();
    BalancedPrefixGivesNone(doc, Position(1, 8), 4);
  }

  lemma BalancedStartingLineDefault(doc: Document)
    requires |doc| == 2 && doc[1] == "  doA();"
    ensures DefaultIndentation(doc, Position(1, 8), 4) == 2
  {
    NoTrailingOpenerOnCallLine(doc);
    assert doc[1] == "  doA();";
    CallLineIndentation();
  }

  /**
   * A cursor after a balanced starting line gets no answer from the scan (the
   * starting line closes every tally) and falls back to the line's indentation.
   */
  lemma BalancedStartingLineFallsBack(doc: Document)
    requires |doc| == 2 && doc[1] == "  doA();"
    ensures PreviousOpenBracket(doc, Position(1, 8), 4) == None
    ensures IndentationColumn(doc, Position(1, 8), 4) == 2
  {
    BalancedStartingLineScan(doc);
    BalancedStartingLineDefault(doc);
  }

  lemma ClosingLineScan()
    ensures ScanLine("      b)", Zero(), 4) == LineScan(None, Add(Zero(), ')', 1))
  {
    NoBracketsBetween("      b)", 0, 7);
    assert BracketIndices("      b)") == [7];
  }

  lemma OpeningLineBrackets()
    ensures BracketIndices("  foo(a,") == [5]
  {
    NoBracketsBetween("  foo(a,", 0, 5);
    assert BracketIndicesUpTo("  foo(a,", 6) == [5];
    NoBracketsBetween("  foo(a,", 6, 8);
  }

  lemma OpeningLineScan()
    ensures ScanLine("  foo(a,", Add(Zero(), ')', 1), 4) == LineScan(None, Zero())
  {
    OpeningLineBrackets();
    assert Add(Add(Zero(), ')', 1), '(', -1) == Zero();
  }

  lemma OpeningLineIndentation()
    ensures FirstNonWhitespace("  foo(a,") == 2
    ensures Column("  foo(a,", 2, 4) == 2
  {
    assert "  foo(a,"[2..][0] == 'f';
    ColumnWithoutTabs("  foo(a,", 2, 4);
  }

  lemma NoTrailingOpenerOnClosingLine(doc: Document)
    requires doc == ["  foo(a,", "      b)"]
    ensures !DoesLineEndWithOpenBracket(StartingLine(doc, Position(1, 8)))
    ensures StartingLine(doc, Position(1, 8)) == "      b)"
  {
    assert StartingLine(doc, Position(1, 8)) == doc[1] == "      b)";
    assert TrimTrailingWhitespace("      b)") == "      b)";
  }

  lemma ClosingLineStep(doc: Document, line: string)
    requires doc == ["  foo(a,", "      b)"]
    requires line == "      b)"
    ensures UpwardScan(doc, 1, line, 1, Zero(), 4) == UpwardScan(doc, 1, line, 0, Add(Zero(), ')', 1), 4)
  {
    ClosingLineScan();
    UpwardStep(doc, 1, line, 1, Zero(), 4);
  }

  lemma OpeningLineStep(doc: Document, line: string)
    requires doc == ["  foo(a,", "      b)"]
    requires line == "      b)"
    ensures UpwardScan(doc, 1, line, 0, Add(Zero(), ')', 1), 4) == Some(2)
  {
    assert LineAt(doc, 1, line, 0) == doc[0] == "  foo(a,";
    OpeningLineScan();
    UpwardStep(doc, 1, line, 0, Add(Zero(), ')', 1), 4);
    OpeningLineIndentation();
  }

  /**
   * When an earlier line closes the brackets left open below it, the new line
   * takes that earlier line's indentation.
   */
  lemma InheritsStatementIndentation(doc: Document)
    requires doc == ["  foo(a,", "      b)"]
    ensures PreviousOpenBracket(doc, Position(1, 8), 4) == Some(2)
  {
    NoTrailingOpenerOnClosingLine(doc);
    ClosingLineStep(doc, "      b)");
    OpeningLineStep(doc, "      b)");
  }

  /**
   * A cursor between two leading tabs: the tab before the cursor spans four
   * columns, the one after it only one, since the converter sees the prefix.
   */
  lemma MixedWidthInsideIndentation(doc: Document)
    requires |doc| == 1 && doc[0] == "\t\tfoo"
    ensures DefaultIndentation(doc, Position(0, 1), 4) == 5
  {
    assert "\t\tfoo"[1..][1..][0] == 'f';
    assert FirstNonWhitespace("\t\tfoo") == 2;
    DefaultIndentationInsideIndentation(doc, Position(0, 1), 4);
  }

  lemma NestedOpenersBrackets()
    ensures BracketIndices("([x") == [0, 1]
  {
    assert BracketIndicesUpTo("([x", 1) == [0];
    assert BracketIndicesUpTo("([x", 2) == [0, 1];
  }

  /**
   * Two openers with nothing closed after them: both meet a zero tally, and
   * the scan, running right to left, answers one past the nearer `[`. The
   * farther `(` accounts for no column.
   */
  lemma NearestOpenerWins(doc: Document)
    requires |doc| == 1 && doc[0] == "([x"
    ensures PreviousOpenBracket(doc, Position(0, 3), 4) == Some(2)
    ensures !AccountsFor(doc, 0, "([x", 0, 1, 4)
  {
    var line := "([x";
    assert StartingLine(doc, Position(0, 3)) == line;
    assert TrimTrailingWhitespace(line) == line;
    NestedOpenersBrackets();
    assert Column(line, 1, 4) == 1 by {
      ColumnWithoutTabs(line, 1, 4);
    }
    UpwardStep(doc, 0, line, 0, Zero(), 4);
    PreviousOpenBracketSound(doc, Position(0, 3), 4);
    var l :| AccountsFor(doc, 0, line, l, 2, 4);
    AccountsForUnique(doc, 0, line, l, 2, 0, 1, 4);
  }
}

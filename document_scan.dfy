/**
 * The document-level part of the core: the upward scan
 * `findIndentationPositionOfPreviousOpenBracket` and the fallback
 * `findDefaultIndentationPosition`. The document is the sequence of its
 * lines' texts; positions are raw character offsets.
 */
module DocumentScan {
  import opened Options
  import opened Text
  import opened Columns
  import opened Brackets
  import opened Tally
  import opened LineScanner

  type Document = seq<string>

  datatype Position = Position(line: nat, character: nat)

  /** `document.lineAt(line).text.substring(0, character)`: the cursor line's text before the cursor. */
  function StartingLine(doc: Document, pos: Position): (s: string)
    requires pos.line < |doc|
    ensures s <= doc[pos.line]
  {
    Substring(doc[pos.line], pos.character)
  }

  /** Line `current` as the upward scan sees it: the prefix on the starting line, else the whole text. */
  function LineAt(doc: Document, start: nat, startingLine: string, current: nat): (r: string)
    requires current <= start < |doc|
  {
    if current == start then startingLine else doc[current]
  }

  /** The upward loop from line `current` down to line 0, carrying the shared tallies `t`. */
  function UpwardScan(doc: Document, start: nat, startingLine: string, current: int, t: Tallies, tabSize: nat)
    : (r: Option<nat>)
    requires start < |doc| && current <= start && Complete(t)
    decreases current + 1
  {
    if current < 0 then None
    else
      var line := LineAt(doc, start, startingLine, current);
      var scan := ScanLine(line, t, tabSize);
      if scan.position.Some? then scan.position
      else if AllClosed(scan.tallies) then
        if current != start then Some(Column(line, FirstNonWhitespace(doc[current]), tabSize)) else None
      else UpwardScan(doc, start, startingLine, current - 1, scan.tallies, tabSize)
  }

  /** What `findIndentationPositionOfPreviousOpenBracket` returns for the cursor at `pos`. */
  function PreviousOpenBracket(doc: Document, pos: Position, tabSize: nat): (r: Option<nat>)
    requires pos.line < |doc|
  {
    var startingLine := StartingLine(doc, pos);
    if DoesLineEndWithOpenBracket(startingLine) then None
    else UpwardScan(doc, pos.line, startingLine, pos.line, Zero(), tabSize)
  }

  /** `findIndentationPositionOfPreviousOpenBracket`: the loop over `currentLineNumber`. */
  method FindIndentationPositionOfPreviousOpenBracket(doc: Document, pos: Position, tabSize: nat)
    returns (position: Option<nat>)
    requires pos.line < |doc|
    ensures position == PreviousOpenBracket(doc, pos, tabSize)
    ensures DoesLineEndWithOpenBracket(StartingLine(doc, pos)) ==> position.None?
  {
    var startingLineNumber := pos.line;
    var startingLine := Substring(doc[startingLineNumber], pos.character);
    if DoesLineEndWithOpenBracket(startingLine) {
      return None;
    }
    var tallies := new BracketCounter();
    var currentLineNumber: int := startingLineNumber;
    while currentLineNumber >= 0
      invariant -1 <= currentLineNumber <= startingLineNumber
      invariant tallies.Valid()
      invariant UpwardScan(doc, startingLineNumber, startingLine, currentLineNumber, tallies.tallies, tabSize)
                == PreviousOpenBracket(doc, pos, tabSize)
      decreases currentLineNumber + 1
    {
      var currentLine := if currentLineNumber == startingLineNumber then startingLine else doc[currentLineNumber];
      assert currentLine == LineAt(doc, startingLineNumber, startingLine, currentLineNumber);
      ghost var scan := ScanLine(currentLine, tallies.tallies, tabSize);
      UpwardStep(doc, startingLineNumber, startingLine, currentLineNumber, tallies.tallies, tabSize);
      var indentationIndex := FindIndentationPositionInLineAndTallyOpenBrackets(currentLine, tallies, tabSize);
      if indentationIndex.Some? {
        return indentationIndex;
      }
      var closed := tallies.AreAllBracketsClosed();
      if closed {
        if currentLineNumber != startingLineNumber {
          var column := ColumnOfCharacterInLine(currentLine, FirstNonWhitespace(doc[currentLineNumber]), tabSize);
          return Some(column);
        } else {
          return None;
        }
      }
      currentLineNumber := currentLineNumber - 1;
    }
    return None;
  }

  /** One iteration of the upward loop, unfolded. */
  lemma UpwardStep(doc: Document, start: nat, startingLine: string, current: nat, t: Tallies, tabSize: nat)
    requires start < |doc| && current <= start && Complete(t)
    ensures var line := LineAt(doc, start, startingLine, current);
            var scan := ScanLine(line, t, tabSize);
            UpwardScan(doc, start, startingLine, current, t, tabSize)
            == if scan.position.Some? then scan.position
               else if AllClosed(scan.tallies) then
                 if current != start then Some(Column(line, FirstNonWhitespace(doc[current]), tabSize)) else None
               else UpwardScan(doc, start, startingLine, current - 1, scan.tallies, tabSize)
  {
  }

  /** `findDefaultIndentationPosition`: the current indentation, one tab width more after an open bracket. */
  function DefaultIndentation(doc: Document, pos: Position, tabSize: nat): (r: nat)
    requires pos.line < |doc|
  {
    var startingLine := StartingLine(doc, pos);
    var lineIndentation := Column(startingLine, FirstNonWhitespace(doc[pos.line]), tabSize);
    if DoesLineEndWithOpenBracket(startingLine) then lineIndentation + tabSize else lineIndentation
  }

  // ----- properties of the upward scan ------------------------------------

  /** `c` is one column past an opening bracket of `line`. */
  predicate OpenerColumn(line: string, c: nat, tabSize: nat) {
    exists j :: 0 <= j < |line| && IsOpenBracket(line[j]) && c == Column(line, j, tabSize) + 1
  }

  /** The net number of closers over openers of family `f` on `line`, as a line scan tallies them. */
  function LineNet(line: string, f: Family): (r: int)
  {
    Net(line, BracketIndices(line), |BracketIndices(line)|, f)
  }

  /** The same net summed over lines `l` to `start`, the starting line taken only up to the cursor. */
  function NetFromLine(doc: Document, start: nat, startingLine: string, l: nat, f: Family): (r: int)
    requires start < |doc|
    ensures l > start ==> r == 0
    decreases start + 1 - l
  {
    if l > start then 0
    else LineNet(LineAt(doc, start, startingLine, l), f) + NetFromLine(doc, start, startingLine, l + 1, f)
  }

  /**
   * The `k`-th bracket of line `l` is an opener that, scanning up from the
   * cursor, meets its family's tally at 0: between it and the cursor its
   * family has as many closers as openers.
   */
  ghost predicate OpenerMeetsZeroAt(doc: Document, start: nat, startingLine: string, l: int, k: int)
    requires start < |doc|
  {
    && 0 <= l <= start
    && var line := LineAt(doc, start, startingLine, l);
       var idx := BracketIndices(line);
       && 0 <= k < |idx|
       && IsOpenBracket(line[idx[k]])
       && var f := FamilyOf(line[idx[k]]);
          Net(line, idx, |idx|, f) - Net(line, idx, k + 1, f) + NetFromLine(doc, start, startingLine, l + 1, f) == 0
  }

  /** No opener of line `l` after its `after`-th bracket meets a zero tally. */
  ghost predicate NoOpenerMeetsZero(doc: Document, start: nat, startingLine: string, l: int, after: int)
    requires start < |doc|
  {
    forall k :: after < k ==> !OpenerMeetsZeroAt(doc, start, startingLine, l, k)
  }

  /** Every family balances from the start of line `l` down to the cursor. */
  ghost predicate LineBalanced(doc: Document, start: nat, startingLine: string, l: nat)
    requires start < |doc|
  {
    forall f: Family :: NetFromLine(doc, start, startingLine, l, f) == 0
  }

  /** Line `m` stops nothing: no opener on it meets a zero tally, and it leaves a tally open. */
  ghost predicate Quiet(doc: Document, start: nat, startingLine: string, m: nat)
    requires start < |doc|
  {
    NoOpenerMeetsZero(doc, start, startingLine, m, -1) && !LineBalanced(doc, start, startingLine, m)
  }

  /** Every line strictly between `l` and the cursor's line, and the cursor's line itself, is quiet. */
  ghost predicate QuietAbove(doc: Document, start: nat, startingLine: string, l: int)
    requires start < |doc|
  {
    forall m: nat :: l < m <= start ==> Quiet(doc, start, startingLine, m)
  }

  /** The starting line resolves nothing and balances every family: the scan stops there with no answer. */
  ghost predicate StartBalanced(doc: Document, start: nat, startingLine: string)
    requires start < |doc|
  {
    NoOpenerMeetsZero(doc, start, startingLine, start, -1) && LineBalanced(doc, start, startingLine, start)
  }

  /**
   * The `k`-th bracket of line `l` is the first opener met with a zero tally:
   * none after it on its line and none on the quiet lines below. `c` is one
   * column past it.
   */
  ghost predicate UnmatchedOpener(doc: Document, start: nat, startingLine: string, l: int, k: int, c: nat, tabSize: nat)
    requires start < |doc|
  {
    && OpenerMeetsZeroAt(doc, start, startingLine, l, k)
    && c == Column(LineAt(doc, start, startingLine, l), BracketIndices(LineAt(doc, start, startingLine, l))[k], tabSize) + 1
    && NoOpenerMeetsZero(doc, start, startingLine, l, k)
    && QuietAbove(doc, start, startingLine, l)
  }

  /**
   * Line `l`, strictly above the start, is the first line that balances
   * every family down to the cursor, no opener met a zero tally before it,
   * and `c` is its indentation.
   */
  ghost predicate InheritedIndentation(doc: Document, start: nat, startingLine: string, l: int, c: nat, tabSize: nat)
    requires start < |doc|
  {
    && 0 <= l < start
    && c == Column(doc[l], FirstNonWhitespace(doc[l]), tabSize)
    && NoOpenerMeetsZero(doc, start, startingLine, l, -1)
    && LineBalanced(doc, start, startingLine, l)
    && QuietAbove(doc, start, startingLine, l)
  }

  /** Line `l` accounts for the column `c`: it holds the first unmatched opener, or its indentation is inherited. */
  ghost predicate AccountsFor(doc: Document, start: nat, startingLine: string, l: int, c: nat, tabSize: nat)
    requires start < |doc|
  {
    || (exists k :: UnmatchedOpener(doc, start, startingLine, l, k, c, tabSize))
    || InheritedIndentation(doc, start, startingLine, l, c, tabSize)
  }

  /** With the tallies of the lines below, the line scan's zero tests are the document-level ones. */
  lemma MeetsZeroInDocument(doc: Document, start: nat, startingLine: string, current: nat, t: Tallies)
    requires start < |doc| && current <= start && Complete(t)
    requires forall f :: f in t ==> t[f] == NetFromLine(doc, start, startingLine, current + 1, f)
    ensures var line := LineAt(doc, start, startingLine, current);
            var idx := BracketIndices(line);
            forall j: nat :: j < |idx| ==> (MeetsZero(line, idx, j, |idx|, t) <==> OpenerMeetsZeroAt(doc, start, startingLine, current, j))
  {
    var line := LineAt(doc, start, startingLine, current);
    var idx := BracketIndices(line);
    forall j: nat | j < |idx|
      ensures MeetsZero(line, idx, j, |idx|, t) <==> OpenerMeetsZeroAt(doc, start, startingLine, current, j)
    {
      if IsOpenBracket(line[idx[j]]) {
        assert FamilyOf(line[idx[j]]) in t;
      }
    }
  }

  /** The tallies after an unresolved line are those before it moved by the line's net. */
  lemma UnresolvedLineTallies(doc: Document, start: nat, startingLine: string, current: nat, t: Tallies, tabSize: nat)
    requires start < |doc| && current <= start && Complete(t)
    requires forall f :: f in t ==> t[f] == NetFromLine(doc, start, startingLine, current + 1, f)
    requires ScanLine(LineAt(doc, start, startingLine, current), t, tabSize).position.None?
    ensures var r := ScanLine(LineAt(doc, start, startingLine, current), t, tabSize).tallies;
            forall f :: f in t ==> f in r && r[f] == NetFromLine(doc, start, startingLine, current, f)
  {
    LineScanNet(LineAt(doc, start, startingLine, current), t, tabSize);
  }

  /**
   * A line that resolves nothing met no opener with a zero tally, and it
   * closes every tally exactly when every family balances from it down to the cursor.
   */
  lemma UnresolvedLine(doc: Document, start: nat, startingLine: string, current: nat, t: Tallies, tabSize: nat)
    requires start < |doc| && current <= start && Complete(t)
    requires forall f :: f in t ==> t[f] == NetFromLine(doc, start, startingLine, current + 1, f)
    requires ScanLine(LineAt(doc, start, startingLine, current), t, tabSize).position.None?
    ensures NoOpenerMeetsZero(doc, start, startingLine, current, -1)
    ensures AllClosed(ScanLine(LineAt(doc, start, startingLine, current), t, tabSize).tallies)
            <==> LineBalanced(doc, start, startingLine, current)
  {
    var line := LineAt(doc, start, startingLine, current);
    var idx := BracketIndices(line);
    var r := ScanLine(line, t, tabSize).tallies;
    ScanIndicesUnresolved(line, idx, |idx|, t, tabSize);
    MeetsZeroInDocument(doc, start, startingLine, current, t);
    UnresolvedLineTallies(doc, start, startingLine, current, t, tabSize);
    if AllClosed(r) {
      forall f: Family
        ensures NetFromLine(doc, start, startingLine, current, f) == 0
      {
        assert f == Paren || f == Square || f == Curly || f == Angle;
      }
    }
  }

  /** A line that resolves does so at the first opener, scanning up from the cursor, that meets a zero tally. */
  lemma ResolvedLineHasUnmatchedOpener(doc: Document, start: nat, startingLine: string, current: nat, t: Tallies, tabSize: nat)
    requires start < |doc| && current <= start && Complete(t)
    requires forall f :: f in t ==> t[f] == NetFromLine(doc, start, startingLine, current + 1, f)
    requires QuietAbove(doc, start, startingLine, current)
    requires ScanLine(LineAt(doc, start, startingLine, current), t, tabSize).position.Some?
    ensures var c := ScanLine(LineAt(doc, start, startingLine, current), t, tabSize).position.value;
            exists k :: UnmatchedOpener(doc, start, startingLine, current, k, c, tabSize)
  {
    var line := LineAt(doc, start, startingLine, current);
    var scan := ScanLine(line, t, tabSize);
    var idx := BracketIndices(line);
    ScanIndicesResolves(line, idx, |idx|, t, tabSize);
    MeetsZeroInDocument(doc, start, startingLine, current, t);
    var k: nat :| ResolvedFirstAt(line, idx, k, |idx|, t, scan, tabSize);
    assert FamilyOf(line[idx[k]]) in t;
    assert MeetsZero(line, idx, k, |idx|, t);
    assert NoOpenerMeetsZero(doc, start, startingLine, current, k) by {
      forall j | k < j
        ensures !OpenerMeetsZeroAt(doc, start, startingLine, current, j)
      {
        if j < |idx| {
          assert !MeetsZero(line, idx, j, |idx|, t);
        }
      }
    }
    assert UnmatchedOpener(doc, start, startingLine, current, k, scan.position.value, tabSize);
  }

  /** A line that resolves ends the scan with a column it accounts for. */
  lemma ResolvedLineAccounts(doc: Document, start: nat, startingLine: string, current: nat, t: Tallies, tabSize: nat)
    requires start < |doc| && current <= start && Complete(t)
    requires forall f :: f in t ==> t[f] == NetFromLine(doc, start, startingLine, current + 1, f)
    requires QuietAbove(doc, start, startingLine, current)
    requires ScanLine(LineAt(doc, start, startingLine, current), t, tabSize).position.Some?
    ensures var r := UpwardScan(doc, start, startingLine, current, t, tabSize);
            r.Some? && AccountsFor(doc, start, startingLine, current, r.value, tabSize)
  {
    ResolvedLineHasUnmatchedOpener(doc, start, startingLine, current, t, tabSize);
    UpwardStep(doc, start, startingLine, current, t, tabSize);
  }

  /**
   * A line that resolves nothing and closes every tally ends the scan: above
   * the start it accounts for its indentation, and on the start it leaves the
   * starting line balanced.
   */
  lemma ClosedLineAccounts(doc: Document, start: nat, startingLine: string, current: nat, t: Tallies, tabSize: nat)
    requires start < |doc| && current <= start && Complete(t)
    requires forall f :: f in t ==> t[f] == NetFromLine(doc, start, startingLine, current + 1, f)
    requires QuietAbove(doc, start, startingLine, current)
    requires ScanLine(LineAt(doc, start, startingLine, current), t, tabSize).position.None?
    requires AllClosed(ScanLine(LineAt(doc, start, startingLine, current), t, tabSize).tallies)
    ensures var r := UpwardScan(doc, start, startingLine, current, t, tabSize);
            && (current < start ==> r.Some? && InheritedIndentation(doc, start, startingLine, current, r.value, tabSize))
            && (current < start ==> r.Some? && AccountsFor(doc, start, startingLine, current, r.value, tabSize))
            && (current == start ==> r.None? && StartBalanced(doc, start, startingLine))
  {
    UnresolvedLine(doc, start, startingLine, current, t, tabSize);
    UpwardStep(doc, start, startingLine, current, t, tabSize);
    if current < start {
      assert LineAt(doc, start, startingLine, current) == doc[current];
    }
  }

  /**
   * A line that resolves nothing and leaves a tally open is quiet, and hands
   * the line above it the net tallies from that line's successor down.
   */
  lemma PendingLineQuiet(doc: Document, start: nat, startingLine: string, current: nat, t: Tallies, tabSize: nat)
    requires start < |doc| && current <= start && Complete(t)
    requires forall f :: f in t ==> t[f] == NetFromLine(doc, start, startingLine, current + 1, f)
    requires QuietAbove(doc, start, startingLine, current)
    requires ScanLine(LineAt(doc, start, startingLine, current), t, tabSize).position.None?
    requires !AllClosed(ScanLine(LineAt(doc, start, startingLine, current), t, tabSize).tallies)
    ensures var scan := ScanLine(LineAt(doc, start, startingLine, current), t, tabSize);
            && UpwardScan(doc, start, startingLine, current, t, tabSize)
               == UpwardScan(doc, start, startingLine, current - 1, scan.tallies, tabSize)
            && Complete(scan.tallies)
            && (forall f :: f in scan.tallies ==> scan.tallies[f] == NetFromLine(doc, start, startingLine, current, f))
            && Quiet(doc, start, startingLine, current)
            && QuietAbove(doc, start, startingLine, current - 1)
  {
    UnresolvedLine(doc, start, startingLine, current, t, tabSize);
    UnresolvedLineTallies(doc, start, startingLine, current, t, tabSize);
    UpwardStep(doc, start, startingLine, current, t, tabSize);
  }

  /**
   * The upward scan from line `current`, handed the net tallies of the quiet
   * lines below it, answers one past the first opener met with a zero tally,
   * or the indentation of the first earlier line that balances every family;
   * it gives no answer when the starting line balances, or when every line
   * from `current` up to line 0 is quiet.
   */
  lemma {:induction false} UpwardScanSound(doc: Document, start: nat, startingLine: string, current: int, t: Tallies, tabSize: nat)
    requires start < |doc| && -1 <= current <= start && Complete(t)
    requires forall f :: f in t ==> t[f] == NetFromLine(doc, start, startingLine, current + 1, f)
    requires QuietAbove(doc, start, startingLine, current)
    ensures var r := UpwardScan(doc, start, startingLine, current, t, tabSize);
            r.Some? ==> exists l :: l <= current && AccountsFor(doc, start, startingLine, l, r.value, tabSize)
    ensures UpwardScan(doc, start, startingLine, current, t, tabSize).None? ==>
              || StartBalanced(doc, start, startingLine)
              || forall m: nat :: m <= current ==> Quiet(doc, start, startingLine, m)
    decreases current + 1
  {
    var r := UpwardScan(doc, start, startingLine, current, t, tabSize);
    if current >= 0 {
      var line := LineAt(doc, start, startingLine, current);
      var scan := ScanLine(line, t, tabSize);
      if scan.position.Some? {
        ResolvedLineAccounts(doc, start, startingLine, current, t, tabSize);
      } else if AllClosed(scan.tallies) {
        ClosedLineAccounts(doc, start, startingLine, current, t, tabSize);
      } else {
        PendingLineQuiet(doc, start, startingLine, current, t, tabSize);
        UpwardScanSound(doc, start, startingLine, current - 1, scan.tallies, tabSize);
      }
    }
  }

  /**
   * The same for the whole operation, which starts at the cursor with every
   * tally at 0: an answer is one past the first opener met with a zero
   * tally or the indentation of the first balanced earlier line, and no
   * answer means the prefix ends with an opener, the starting line balances,
   * or no line up to the top of the document stops the scan.
   */
  lemma PreviousOpenBracketSound(doc: Document, pos: Position, tabSize: nat)
    requires pos.line < |doc|
    ensures var r := PreviousOpenBracket(doc, pos, tabSize);
            r.Some? ==> exists l :: AccountsFor(doc, pos.line, StartingLine(doc, pos), l, r.value, tabSize)
    ensures PreviousOpenBracket(doc, pos, tabSize).None? ==>
              || DoesLineEndWithOpenBracket(StartingLine(doc, pos))
              || StartBalanced(doc, pos.line, StartingLine(doc, pos))
              || forall m: nat :: m <= pos.line ==> Quiet(doc, pos.line, StartingLine(doc, pos), m)
  {
    var startingLine := StartingLine(doc, pos);
    if !DoesLineEndWithOpenBracket(startingLine) {
      UpwardScanSound(doc, pos.line, startingLine, pos.line, Zero(), tabSize);
    }
  }

  /**
   * The answer is determined: two lines that account for a column account for
   * the same column, and none does when the starting line balances or every
   * line is quiet.
   */
  lemma AccountsForUnique(doc: Document, start: nat, startingLine: string, l1: int, c1: nat, l2: int, c2: nat, tabSize: nat)
    requires start < |doc|
    requires AccountsFor(doc, start, startingLine, l1, c1, tabSize)
    ensures AccountsFor(doc, start, startingLine, l2, c2, tabSize) ==> c1 == c2
    ensures !StartBalanced(doc, start, startingLine)
    ensures !forall m: nat :: m <= start ==> Quiet(doc, start, startingLine, m)
  {
    if AccountsFor(doc, start, startingLine, l2, c2, tabSize) {
      AccountsForOrder(doc, start, startingLine, l1, c1, l2, c2, tabSize);
      AccountsForOrder(doc, start, startingLine, l2, c2, l1, c1, tabSize);
    }
    AccountsForStops(doc, start, startingLine, l1, c1, tabSize);
  }

  /** A line that accounts for a column is not quiet, and the starting line then does not balance. */
  lemma AccountsForStops(doc: Document, start: nat, startingLine: string, l: int, c: nat, tabSize: nat)
    requires start < |doc|
    requires AccountsFor(doc, start, startingLine, l, c, tabSize)
    ensures 0 <= l <= start && !Quiet(doc, start, startingLine, l)
    ensures !StartBalanced(doc, start, startingLine)
  {
    if k :| UnmatchedOpener(doc, start, startingLine, l, k, c, tabSize) {
      assert OpenerMeetsZeroAt(doc, start, startingLine, l, k);
      if l < start {
        assert Quiet(doc, start, startingLine, start);
      }
    } else {
      assert Quiet(doc, start, startingLine, start);
    }
  }

  /** Of two accounting lines, neither lies strictly below the other, and on one line they name the same column. */
  lemma AccountsForOrder(doc: Document, start: nat, startingLine: string, l1: int, c1: nat, l2: int, c2: nat, tabSize: nat)
    requires start < |doc|
    requires AccountsFor(doc, start, startingLine, l1, c1, tabSize)
    requires AccountsFor(doc, start, startingLine, l2, c2, tabSize)
    ensures l1 <= l2 ==> l1 == l2 && c1 == c2
  {
    AccountsForStops(doc, start, startingLine, l2, c2, tabSize);
    if l1 == l2 {
      if k1 :| UnmatchedOpener(doc, start, startingLine, l1, k1, c1, tabSize) {
        var k2 :| UnmatchedOpener(doc, start, startingLine, l2, k2, c2, tabSize);
        assert k1 == k2 by {
          assert !(k1 < k2) && !(k2 < k1);
        }
      }
    }
  }


  /** A cursor prefix without brackets leaves every tally closed on the starting line: no answer. */
  lemma PrefixWithoutBracketsGivesNone(doc: Document, pos: Position, tabSize: nat)
    requires pos.line < |doc|
    requires forall i :: 0 <= i < |StartingLine(doc, pos)| ==> !IsBracket(StartingLine(doc, pos)[i])
    ensures PreviousOpenBracket(doc, pos, tabSize) == None
  {
    ScanLineWithoutBrackets(StartingLine(doc, pos), Zero(), tabSize);
  }

  /**
   * A cursor prefix whose brackets balance (no opener left unmatched, every tally
   * back at zero) gives no answer: the scan stops on the starting line.
   */
  lemma BalancedPrefixGivesNone(doc: Document, pos: Position, tabSize: nat)
    requires pos.line < |doc|
    requires ScanLine(StartingLine(doc, pos), Zero(), tabSize).position.None?
    requires AllClosed(ScanLine(StartingLine(doc, pos), Zero(), tabSize).tallies)
    ensures PreviousOpenBracket(doc, pos, tabSize) == None
  {
    UpwardStep(doc, pos.line, StartingLine(doc, pos), pos.line, Zero(), tabSize);
  }

  /**
   * A scan that reaches line 0 with brackets still pending and no opener to
   * resolve at runs off the top of the document: no answer.
   */
  lemma PastFirstLineGivesNone(doc: Document, start: nat, startingLine: string, t: Tallies, tabSize: nat)
    requires start < |doc| && Complete(t)
    requires ScanLine(LineAt(doc, start, startingLine, 0), t, tabSize).position.None?
    requires !AllClosed(ScanLine(LineAt(doc, start, startingLine, 0), t, tabSize).tallies)
    ensures UpwardScan(doc, start, startingLine, 0, t, tabSize) == None
  {
    UpwardStep(doc, start, startingLine, 0, t, tabSize);
  }

  /** On the first line of the document the scan can only resolve at an opener of the prefix. */
  lemma FirstLineResolvesOnlyAtOpener(doc: Document, pos: Position, tabSize: nat)
    requires pos.line == 0 < |doc|
    ensures var r := PreviousOpenBracket(doc, pos, tabSize);
            r.Some? ==> OpenerColumn(StartingLine(doc, pos), r.value, tabSize)
  {
    PreviousOpenBracketSound(doc, pos, tabSize);
    var r := PreviousOpenBracket(doc, pos, tabSize);
    if r.Some? {
      var l :| AccountsFor(doc, pos.line, StartingLine(doc, pos), l, r.value, tabSize);
      var k :| UnmatchedOpener(doc, pos.line, StartingLine(doc, pos), l, k, r.value, tabSize);
      var idx := BracketIndices(StartingLine(doc, pos));
      assert OpenerColumn(StartingLine(doc, pos), r.value, tabSize) by {
        assert idx[k] < |StartingLine(doc, pos)|;
      }
    }
  }

  // ----- properties of the default indentation ----------------------------

  /** A whitespace-only prefix never ends with an open bracket. */
  lemma WhitespaceDoesNotEndWithOpenBracket(s: string)
    requires forall i :: 0 <= i < |s| ==> IsWhitespace(s[i])
    ensures !DoesLineEndWithOpenBracket(s)
  {
  }

  /**
   * With the cursor at or past the indentation, the default is the line's own
   * indentation, plus exactly `tabSize` when the prefix ends with an open bracket.
   */
  lemma DefaultIndentationPastIndentation(doc: Document, pos: Position, tabSize: nat)
    requires pos.line < |doc|
    requires FirstNonWhitespace(doc[pos.line]) <= pos.character
    ensures DefaultIndentation(doc, pos, tabSize)
            == Column(doc[pos.line], FirstNonWhitespace(doc[pos.line]), tabSize)
               + (if DoesLineEndWithOpenBracket(StartingLine(doc, pos)) then tabSize else 0)
  {
    var line := doc[pos.line];
    var m := if pos.character <= |line| then pos.character else |line|;
    assert StartingLine(doc, pos) == line[..m];
    ColumnOfPrefix(line, m, FirstNonWhitespace(line), tabSize);
  }

  /**
   * With the cursor inside the leading whitespace, the converter runs past the
   * end of the prefix: every offset between the cursor and the first
   * non-whitespace character counts one column, whatever it holds, and no tab
   * width is added.
   */
  lemma DefaultIndentationInsideIndentation(doc: Document, pos: Position, tabSize: nat)
    requires pos.line < |doc|
    requires pos.character < FirstNonWhitespace(doc[pos.line])
    ensures DefaultIndentation(doc, pos, tabSize)
            == Column(doc[pos.line], pos.character, tabSize) + (FirstNonWhitespace(doc[pos.line]) - pos.character)
  {
    var line := doc[pos.line];
    var prefix := StartingLine(doc, pos);
    assert prefix == line[..pos.character];
    WhitespaceDoesNotEndWithOpenBracket(prefix);
    ColumnPastEnd(prefix, FirstNonWhitespace(line), tabSize);
    ColumnOfPrefix(line, pos.character, pos.character, tabSize);
  }
}

/**
 * `insertNewLinesAndIndent`: order the selections by where they start, then
 * plan each one's newline: the bracket scan's column when it has one, the
 * default indentation otherwise, rendered as whitespace after a line break.
 */
module NewLine {
  import opened Options
  import opened Text
  import opened Columns
  import opened Whitespace
  import opened DocumentScan

  datatype Selection = Selection(start: Position, end: Position)

  /** What the loop reads from the host at one iteration: the document and the selections as they stand then. */
  datatype EditorView = EditorView(document: Document, selections: seq<Selection>)

  // ----- the document-order sort ------------------------------------------

  /** The sort's comparator: the line difference, or on the same line the character difference. */
  function Compare(sels: seq<Selection>, a: nat, b: nat): (r: int)
    requires a < |sels| && b < |sels|
  {
    var lineDelta := sels[a].start.line - sels[b].start.line;
    if lineDelta == 0 then sels[a].start.character - sels[b].start.character else lineDelta
  }

  /** Strictly earlier in the document: an earlier line, or the same line and an earlier character. */
  predicate StartsBefore(p: Position, q: Position) {
    p.line < q.line || (p.line == q.line && p.character < q.character)
  }

  /** The comparator's sign is the document order of the selections' starts. */
  lemma CompareIsDocumentOrder(sels: seq<Selection>, a: nat, b: nat)
    requires a < |sels| && b < |sels|
    ensures Compare(sels, a, b) < 0 <==> StartsBefore(sels[a].start, sels[b].start)
    ensures Compare(sels, a, b) == 0 <==> sels[a].start == sels[b].start
    ensures Compare(sels, a, b) > 0 <==> StartsBefore(sels[b].start, sels[a].start)
  {
  }

  /** Index `x` goes before index `y`: an earlier start, or the same start and (the sort being stable) a smaller index. */
  predicate Before(sels: seq<Selection>, x: nat, y: nat) {
    && x < |sels| && y < |sels|
    && (StartsBefore(sels[x].start, sels[y].start) || (sels[x].start == sels[y].start && x < y))
  }

  predicate InDocumentOrder(sels: seq<Selection>, order: seq<nat>) {
    forall i, j :: 0 <= i < j < |order| ==> Before(sels, order[i], order[j])
  }

  /** `[...editor.selections.keys()]`. */
  function Indices(n: nat): (r: seq<nat>)
    ensures |r| == n && forall k :: 0 <= k < n ==> r[k] == k
  {
    seq(n, k => k)
  }

  /** The first `n` entries of `order` are in document order. */
  predicate SortedUpTo(sels: seq<Selection>, order: seq<nat>, n: nat)
    requires n <= |order|
  {
    forall p, q :: 0 <= p < q < n ==> Before(sels, order[p], order[q])
  }

  /** Exchange `a[j - 1]` and `a[j]`. */
  method SwapDown(a: array<nat>, j: nat)
    requires 0 < j < a.Length
    modifies a
    ensures a[..] == old(a[..])[j - 1 := old(a[j])][j := old(a[j - 1])]
    ensures multiset(a[..]) == multiset(old(a[..]))
  {
    a[j - 1], a[j] := a[j], a[j - 1];
  }

  /**
   * Midway through inserting entry `i`: it sits at `j`, the other entries up
   * to `i` keep their relative document order, and `i` goes before all that
   * it has already passed.
   */
  predicate Inserting(sels: seq<Selection>, s: seq<nat>, i: nat, j: nat) {
    && j <= i < |s|
    && s[j] == i
    && (forall k :: 0 <= k <= i && k != j ==> s[k] < i)
    && (forall p, q :: 0 <= p < q <= i && p != j && q != j ==> Before(sels, s[p], s[q]))
    && (forall q :: j < q <= i ==> Before(sels, s[j], s[q]))
  }

  lemma InsertingStarts(sels: seq<Selection>, s: seq<nat>, i: nat)
    requires i < |s| == |sels| && s[i] == i
    requires forall k :: 0 <= k < i ==> s[k] < i
    requires SortedUpTo(sels, s, i)
    ensures Inserting(sels, s, i, i)
  {
  }

  lemma InsertingSwaps(sels: seq<Selection>, s: seq<nat>, i: nat, j: nat)
    requires Inserting(sels, s, i, j) && 0 < j && s[j - 1] < |sels| && s[j] < |sels|
    requires Compare(sels, s[j - 1], s[j]) > 0
    ensures Inserting(sels, s[j - 1 := s[j]][j := s[j - 1]], i, j - 1)
  {
  }

  lemma InsertingEnds(sels: seq<Selection>, s: seq<nat>, i: nat, j: nat)
    requires Inserting(sels, s, i, j) && i < |sels|
    requires j > 0 ==> s[j - 1] < |sels| && Compare(sels, s[j - 1], s[j]) <= 0
    ensures SortedUpTo(sels, s, i + 1)
    ensures forall k :: 0 <= k <= i ==> s[k] <= i
  {
    forall p, q | 0 <= p < q < i + 1
      ensures Before(sels, s[p], s[q])
    {
      if q == j && p < j - 1 {
        assert Before(sels, s[p], s[j - 1]);
      }
    }
  }

  /** Move the entry `a[i] == i` down past every entry that starts after it. */
  method InsertIntoSorted(a: array<nat>, sels: seq<Selection>, i: nat)
    requires i < a.Length == |sels|
    requires a[i] == i
    requires forall k :: 0 <= k < i ==> a[k] < i
    requires SortedUpTo(sels, a[..], i)
    modifies a
    ensures multiset(a[..]) == multiset(old(a[..]))
    ensures forall k :: i < k < a.Length ==> a[k] == old(a[k])
    ensures forall k :: 0 <= k <= i ==> a[k] <= i
    ensures SortedUpTo(sels, a[..], i + 1)
  {
    InsertingStarts(sels, a[..], i);
    var j: nat := i;
    while j > 0 && Compare(sels, a[j - 1], a[j]) > 0
      invariant Inserting(sels, a[..], i, j)
      invariant multiset(a[..]) == multiset(old(a[..]))
      invariant forall k :: i < k < a.Length ==> a[k] == old(a[k])
    {
      InsertingSwaps(sels, a[..], i, j);
      SwapDown(a, j);
      j := j - 1;
    }
    InsertingEnds(sels, a[..], i, j);
  }

  /**
   * The in-place stable sort of the index array with the comparator above
   * (any stable sort with this comparator gives the same array).
   */
  method SortByStart(a: array<nat>, sels: seq<Selection>)
    requires a.Length == |sels|
    requires forall k :: 0 <= k < a.Length ==> a[k] == k
    modifies a
    ensures multiset(a[..]) == multiset(old(a[..]))
    ensures InDocumentOrder(sels, a[..])
  {
    var i := 0;
    while i < a.Length
      invariant 0 <= i <= a.Length
      invariant multiset(a[..]) == multiset(old(a[..]))
      invariant forall k :: 0 <= k < i ==> a[k] < i
      invariant forall k :: i <= k < a.Length ==> a[k] == k
      invariant SortedUpTo(sels, a[..], i)
    {
      InsertIntoSorted(a, sels, i);
      i := i + 1;
    }
  }

  /** `sorted_indices`: a permutation of the selection indices in document order. */
  method SortSelectionIndices(sels: seq<Selection>) returns (sorted: seq<nat>)
    ensures multiset(sorted) == multiset(Indices(|sels|))
    ensures InDocumentOrder(sels, sorted)
  {
    var a := new nat[|sels|](k => k);
    assert a[..] == Indices(|sels|);
    SortByStart(a, sels);
    sorted := a[..];
  }

  /** A permutation of the indices lists each selection exactly once. */
  lemma PermutationListsEachIndexOnce(sorted: seq<nat>, n: nat)
    requires multiset(sorted) == multiset(Indices(n))
    ensures |sorted| == n
    ensures forall k :: 0 <= k < n ==> k in sorted
    ensures forall i :: 0 <= i < |sorted| ==> sorted[i] < n
  {
    assert |sorted| == |multiset(sorted)| == |multiset(Indices(n))| == n;
    forall k | 0 <= k < n
      ensures k in sorted
    {
      assert Indices(n)[k] == k;
      assert k in multiset(Indices(n));
    }
    forall i | 0 <= i < |sorted|
      ensures sorted[i] < n
    {
      assert sorted[i] in multiset(Indices(n));
    }
  }

  // ----- the per-selection plan -------------------------------------------

  /** The column the new line is indented to: the bracket scan's answer, else the default. */
  function IndentationColumn(doc: Document, pos: Position, tabSize: nat): (r: nat)
    requires pos.line < |doc|
  {
    match PreviousOpenBracket(doc, pos, tabSize)
    case Some(column) => column
    case None => DefaultIndentation(doc, pos, tabSize)
  }

  /** The text inserted at the selection: a line break and the new line's indentation. */
  function PlanText(doc: Document, pos: Position, tabSize: nat, insertSpaces: bool): (r: string)
    requires pos.line < |doc|
    requires insertSpaces || tabSize > 0
  {
    "\n" + IndentationWhitespaceToColumn(IndentationColumn(doc, pos, tabSize), tabSize, insertSpaces)
  }

  /** The body of the loop for one selection, down to the text handed to the host. */
  method PlanNewLine(doc: Document, pos: Position, tabSize: nat, insertSpaces: bool) returns (text: string)
    requires pos.line < |doc|
    requires insertSpaces || tabSize > 0
    ensures text == PlanText(doc, pos, tabSize, insertSpaces)
    ensures PreviousOpenBracket(doc, pos, tabSize).Some? ==>
              text == "\n" + IndentationWhitespaceToColumn(PreviousOpenBracket(doc, pos, tabSize).value, tabSize, insertSpaces)
    ensures PreviousOpenBracket(doc, pos, tabSize).None? ==>
              text == "\n" + IndentationWhitespaceToColumn(DefaultIndentation(doc, pos, tabSize), tabSize, insertSpaces)
  {
    var indentationPosition := FindIndentationPositionOfPreviousOpenBracket(doc, pos, tabSize);
    var column: nat;
    if indentationPosition.None? {
      column := DefaultIndentation(doc, pos, tabSize);
    } else {
      column := indentationPosition.value;
    }
    text := "\n" + IndentationWhitespaceToColumn(column, tabSize, insertSpaces);
  }

  /** The planned text breaks the line and starts the new one exactly at the chosen column. */
  lemma PlanTextReachesColumn(doc: Document, pos: Position, tabSize: nat, insertSpaces: bool)
    requires pos.line < |doc|
    requires insertSpaces || tabSize > 0
    ensures var text := PlanText(doc, pos, tabSize, insertSpaces);
            && |text| >= 1 && text[0] == '\n'
            && (forall i :: 1 <= i < |text| ==> text[i] == ' ' || text[i] == '\t')
            && Column(text[1..], |text| - 1, tabSize) == IndentationColumn(doc, pos, tabSize)
  {
    var ws := IndentationWhitespaceToColumn(IndentationColumn(doc, pos, tabSize), tabSize, insertSpaces);
    assert ("\n" + ws)[1..] == ws;
    WhitespaceRoundTrip(IndentationColumn(doc, pos, tabSize), tabSize, insertSpaces);
  }

  /** Every selection of every view lies on a line of that view's document. */
  predicate ViewsFit(views: seq<EditorView>, n: nat) {
    forall i :: 0 <= i < |views| ==>
      |views[i].selections| == n &&
      forall k :: 0 <= k < n ==> views[i].selections[k].start.line < |views[i].document|
  }

  /**
   * `insertNewLinesAndIndent` up to the edits: sort the initial selections,
   * then at iteration `i` plan selection `sorted[i]` against the host's view
   * `views[i]` (the edits of earlier iterations are the host's to apply).
   */
  method InsertNewLinesAndIndent(initial: seq<Selection>, views: seq<EditorView>, tabSize: nat, insertSpaces: bool)
    returns (sorted: seq<nat>, texts: seq<string>)
    requires |views| == |initial| && ViewsFit(views, |initial|)
    requires insertSpaces || tabSize > 0
    ensures multiset(sorted) == multiset(Indices(|initial|))
    ensures InDocumentOrder(initial, sorted)
    ensures |texts| == |sorted| == |initial|
    ensures forall i :: 0 <= i < |texts| ==>
              sorted[i] < |initial| &&
              texts[i] == PlanText(views[i].document, views[i].selections[sorted[i]].start, tabSize, insertSpaces)
  {
    sorted := SortSelectionIndices(initial);
    PermutationListsEachIndexOnce(sorted, |initial|);
    texts := [];
    for i := 0 to |sorted|
      invariant |texts| == i
      invariant forall k :: 0 <= k < i ==>
                  texts[k] == PlanText(views[k].document, views[k].selections[sorted[k]].start, tabSize, insertSpaces)
    {
      var selection := views[i].selections[sorted[i]];
      var text := PlanNewLine(views[i].document, selection.start, tabSize, insertSpaces);
      texts := texts + [text];
    }
  }
}

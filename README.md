# indent-to-bracket: the indentation core

The extension replaces the editor's newline handling. When Enter is pressed
it picks the visual column for the new line by scanning brackets backwards
from the cursor. It walks from right to left over the cursor line's prefix,
then over whole earlier lines. Closing brackets are tallied per family, and
openers cancel them. The first opener with nothing pending wins: the new
line starts one column past it. If the tallies all come back to zero on an
earlier line, that line's indentation is used. If the scan has no answer,
the fallback is the current line's indentation, plus one tab width when the
prefix ends with an opening bracket. The chosen column is written out as
spaces, or as tabs followed by spaces. With several cursors, the selections
are handled in document order.

This project models that core from `src/extension.ts` in Dafny and proves
properties of the model. It is split into these modules:

- `Text`: the ECMAScript `\s` whitespace set, the host's first-non-whitespace
  index, `substring(0, end)` and `repeat`.
- `Columns`: `columnOfCharacterInLine`, as a specification function and as
  the source's accumulating loop.
- `Brackets`: the bracket characters, `isClosingBracket`,
  `doesLineEndWithOpenBracket` and `allBracketsInString` (the `exec` loop).
- `Tally`: `BracketCounter`, a class whose `tallies` map is updated in place.
- `LineScanner`: `findIndentationPositionInLineAndTallyOpenBrackets`, as a
  specification function and as the source's loop over a shared counter.
- `DocumentScan`: `findIndentationPositionOfPreviousOpenBracket` (the upward
  loop) and `findDefaultIndentationPosition`.
- `Whitespace`: `indentationWhitespaceToColumn`.
- `NewLine`: the index sort and the per-selection plan of
  `insertNewLinesAndIndent`.
- `Examples`: worked scenarios on concrete lines.

A document is a sequence of line texts, a position is a line and a raw
character offset, and integers are unbounded. The tab size and the
`insertSpaces` flag are plain inputs.

Behaviour of this code worth knowing:

- A prefix that ends in an opening bracket gets no answer from the upward
  scan. The fallback then gives the line's indentation plus one tab width
  (`TrailingOpenBracketUsesDefault`).
- When the starting line's own brackets balance, the scan returns no answer.
  It does not take an earlier line's indentation (`BalancedPrefixGivesNone`).
- The fallback measures the first non-whitespace index over the cursor's
  prefix, not over the whole line. With the cursor inside the leading
  whitespace, offsets past the prefix count one column each, even tabs. When
  the indentation holds tabs, the result can be neither the prefix's width
  nor the line's indentation (`DefaultIndentationInsideIndentation`,
  `MixedWidthInsideIndentation`).
- `<` and `>` have an `angle` tally, but the bracket search never matches
  them, so they never affect the scan.

The upward scan is specified by counting brackets between a point and the
cursor. An opener *meets a zero tally* when its family has as many closers as
openers between it and the cursor. A line is *quiet* when none of its
openers meets a zero tally and some family does not balance from its start
down to the cursor: the scan passes over it. The scan stops at the first
line, from the cursor up, that is not quiet. If an opener on that line meets
a zero tally, the answer is one past the nearest such opener. Otherwise every
family balances from that line down, and the answer is its indentation, or
no answer when it is the starting line. If every line up to line 0 is quiet,
there is no answer. `AccountsForUnique` shows this determines the answer.

## Model

| member | source | states |
|---|---|---|
| Text.FirstNonWhitespace | src/extension.ts:159 | the index is the length of the leading whitespace run: every character before it is whitespace, and the character at it is not (or it is the line length) |
| Text.Substring | src/extension.ts:138 | `substring(0, end)` keeps the first `end` characters, clamped to the line length, and is a prefix of the line |
| Text.Repeat | src/extension.ts:189-191 | `repeat(n)` of one character has length `n` and holds only that character |
| Columns.ColumnOfCharacterInLine | src/extension.ts:95-107 | the loop's result is the column function: `tabSize` for each tab before the offset, one for every other offset, including offsets past the end of the line |
| Columns.ColumnClosedForm | src/extension.ts:95-107 | the column equals `character + (tabSize - 1) * (tabs among the first min(character, length) characters)` |
| Columns.ColumnWithoutTabs | src/extension.ts:95-107 | on a line without tabs the column is the offset itself |
| Columns.ColumnMonotone | src/extension.ts:95-107 | the column never decreases as the offset grows, and strictly increases when `tabSize > 0` |
| Columns.ColumnOfPrefix | src/extension.ts:98-103 | the column of an offset is the same over any prefix that still contains the offset's predecessors |
| Columns.ColumnPastEnd | src/extension.ts:98-103 | past the end of the line each further offset adds exactly one column, because `line[i]` is not a tab there |
| Columns.ColumnIgnoresNonTabs | src/extension.ts:98-103 | two equally long lines with tabs in the same places have the same columns |
| Brackets.FamilyOf | src/extension.ts:45-53 | `keyForBracket` maps a tallied character to its family, and the family is `angle` exactly for `<` and `>` |
| Brackets.IsClosingBracket | src/extension.ts:74-76 | a predicate without a contract of its own: `)`, `]`, `}` and `>`; `BracketIsOpenOrClosing` states what it means for the matched characters |
| Brackets.BracketIsOpenOrClosing | src/extension.ts:74-76 | every character the bracket search matches is either an opener or a closer for `isClosingBracket`, never both, and its family is not `angle` |
| Brackets.TrimTrailingWhitespace | src/extension.ts:79 | the trimmed string is a prefix, everything cut off is whitespace, and its last character is not whitespace |
| Brackets.DoesLineEndWithOpenBracket | src/extension.ts:78-81 | a predicate without a contract of its own, over the trimmed string; `EndsWithOpenBracketIff` proves it equal to the regex search |
| Brackets.EndsWithOpenBracketIff | src/extension.ts:78-81 | the predicate holds exactly when the pattern `(\(|\[|{)\s*$` matches somewhere: an opener followed only by whitespace |
| Brackets.NextBracketFrom | src/extension.ts:84-88 | one `exec` from `lastIndex` finds the first bracket at or after it, or reports there is none from there on |
| Brackets.BracketIndicesUpToExact | src/extension.ts:83-93 | the offsets among the first `n` characters are strictly increasing and are exactly the positions of `( ) [ ] { }` |
| Brackets.BracketIndicesExact | src/extension.ts:83-93 | the offsets of the whole string are strictly increasing and are exactly its bracket positions |
| Brackets.AllBracketsInString | src/extension.ts:83-93 | the `exec` loop pushes exactly the specified bracket offsets, in order |
| Tally.Zero | src/extension.ts:49 | the initial dictionary has a tally for every family |
| Tally.Add | src/extension.ts:55-57 | adding to a bracket's tally changes its family's tally by `amount` and leaves every other family unchanged |
| Tally.BracketCounter.constructor | src/extension.ts:49 | a new counter has all four tallies at zero |
| Tally.BracketCounter.AddToTallyForBracket | src/extension.ts:55-57 | the tallies become the old tallies with the bracket's family moved by `amount` |
| Tally.BracketCounter.BracketTallyForBracket | src/extension.ts:59-61 | a getter of the bracket's family tally, with no other effect; it is 0 when all are closed and non-negative when all are |
| Tally.BracketCounter.AreAllBracketsClosed | src/extension.ts:63-71 | true exactly when the paren, square, curly and angle tallies are all 0 |
| LineScanner.FindIndentationPositionInLineAndTallyOpenBrackets | src/extension.ts:110-132 | the loop over the shared counter returns the specified scan's column and leaves the counter at the scan's tallies; non-negative tallies stay non-negative |
| LineScanner.ScanIndicesKeepsNonNegative | src/extension.ts:117-128 | over any prefix of the offsets, tallies that start non-negative stay non-negative, since an opener only cancels a positive tally |
| LineScanner.LineScanKeepsNonNegative | src/extension.ts:117-128 | a line scan never makes a tally negative |
| LineScanner.ScanIndicesKeepsAngle | src/extension.ts:84 | no scan step touches the angle tally |
| LineScanner.LineScanKeepsAngle | src/extension.ts:84 | the angle tally after a line scan is the one it started with |
| LineScanner.ScanIndicesNet | src/extension.ts:121-128 | an unresolved scan moves each family's tally by its closers minus its openers |
| LineScanner.LineScanNet | src/extension.ts:121-128 | an unresolved line scan moves each tally by the line's closers minus openers of that family |
| LineScanner.ScanIndices | src/extension.ts:117-131 | the right-to-left scan over the first `n` bracket offsets keeps a tally for every family; its answer and tallies are characterised by `ScanIndicesResolves`, `ScanIndicesUnresolved` and `ScanIndicesNet` |
| LineScanner.ScanLine | src/extension.ts:110-132 | the scan of a whole line over its bracket offsets, with no contract of its own; `LineScanNet`, `LineScanKeepsNonNegative` and the scanner method carry its properties |
| LineScanner.ScanIndicesResolves | src/extension.ts:121-125 | a resolved column is one past an opener of the line whose family tally was 0 when it was met, and the tallies then are the starting tallies moved by the net closers over openers of every bracket after it (`TalliedAfter`), so the opener's family balances from it to the end of the scanned text; no opener after it would have met a zero tally (`NoZeroAfter`), so it is the nearest such opener |
| LineScanner.ScanIndicesUnresolved | src/extension.ts:117-131 | a scan that resolves nothing had no opener whose family starting tally plus the net closers over openers after it is 0 |
| LineScanner.ScanLineWithoutBrackets | src/extension.ts:113-115 | a line without brackets resolves nothing and leaves the tallies unchanged |
| LineScanner.ScanLineIgnoresOtherCharacters | src/extension.ts:110-132 | changing characters that are neither brackets nor tabs (`<` and `>` included) does not change the scan |
| DocumentScan.StartingLine | src/extension.ts:138 | the starting line is a prefix of the cursor's line |
| DocumentScan.FindIndentationPositionOfPreviousOpenBracket | src/extension.ts:134-168 | the loop returns the specified upward scan; with a prefix that ends in an opening bracket it returns no answer |
| DocumentScan.UpwardScan | src/extension.ts:148-167 | the upward loop from a given line and tallies, with no contract of its own; `UpwardScanSound` characterises its answer and its no-answer case |
| DocumentScan.PreviousOpenBracket | src/extension.ts:134-168 | the whole operation, with no contract of its own; `PreviousOpenBracketSound`, `AccountsForUnique` and the loop method carry its properties |
| DocumentScan.MeetsZeroInDocument | src/extension.ts:121-125 | with the tallies of the lines below, the line scan's zero test at an opener is the document-level one (`OpenerMeetsZeroAt`): the opener's family balances between it and the cursor |
| DocumentScan.UnresolvedLineTallies | src/extension.ts:150-165 | after a line that resolves nothing, each tally is the net closers over openers from that line down to the cursor |
| DocumentScan.UnresolvedLine | src/extension.ts:150-160 | a line that resolves nothing has no opener whose family balances between it and the cursor, and it closes every tally exactly when every family balances from its start down to the cursor |
| DocumentScan.ResolvedLineHasUnmatchedOpener | src/extension.ts:150-154 | a line that resolves yields one past an opener whose family balances between it and the cursor, with no later opener on the line doing so, given that the lines below are quiet (`UnmatchedOpener`) |
| DocumentScan.ResolvedLineAccounts | src/extension.ts:150-154 | the upward scan stops at a resolving line with a column that line accounts for |
| DocumentScan.ClosedLineAccounts | src/extension.ts:156-163 | a line that resolves nothing and closes every tally ends the scan: above the start it gives its indentation, which it then accounts for (`InheritedIndentation`), and on the start it gives no answer and the starting line balances |
| DocumentScan.PendingLineQuiet | src/extension.ts:150-165 | a line that resolves nothing and leaves a tally open is quiet, the scan moves on to the line above, and the tallies it hands over are the net closers over openers from that line down to the cursor |
| DocumentScan.UpwardScanSound | src/extension.ts:148-167 | given that the tallies handed to a line are the net closers over openers of the quiet lines below it, every answer is one past the first opener whose family has as many closers as openers between it and the cursor (`UnmatchedOpener`), or the indentation of the first line strictly above the start from which every family balances down to the cursor (`InheritedIndentation`); no answer means the starting line balances, or every line from the current one up to line 0 is quiet |
| DocumentScan.PreviousOpenBracketSound | src/extension.ts:134-168 | the same for the whole operation, starting from all-zero tallies at the cursor; no answer means the prefix ends with an opener, the starting line balances, or every line from the cursor's up to line 0 is quiet |
| DocumentScan.AccountsForUnique | src/extension.ts:148-167 | the answer is determined: two lines that account for a column account for the same column, and no line does when the starting line balances or every line is quiet |
| DocumentScan.AccountsForStops | src/extension.ts:150-163 | a line that accounts for a column is not quiet, and the starting line then does not balance |
| DocumentScan.AccountsForOrder | src/extension.ts:148-167 | of two lines that account for columns, neither lies strictly below the other, and on one line they account for the same column |
| DocumentScan.PrefixWithoutBracketsGivesNone | src/extension.ts:156-163 | a prefix without brackets gives no answer |
| DocumentScan.BalancedPrefixGivesNone | src/extension.ts:156-163 | a prefix that resolves nothing and leaves every tally at 0 gives no answer |
| DocumentScan.PastFirstLineGivesNone | src/extension.ts:148-167 | when line 0 resolves nothing and leaves a tally open, the scan runs off the top and gives no answer |
| DocumentScan.FirstLineResolvesOnlyAtOpener | src/extension.ts:148-167 | on the document's first line, an answer is always one past an opener of the prefix |
| DocumentScan.WhitespaceDoesNotEndWithOpenBracket | src/extension.ts:78-81 | a whitespace-only prefix never ends with an open bracket |
| DocumentScan.DefaultIndentation | src/extension.ts:170-185 | the fallback column, with no contract of its own; `DefaultIndentationPastIndentation` and `DefaultIndentationInsideIndentation` state its value |
| DocumentScan.DefaultIndentationPastIndentation | src/extension.ts:170-185 | with the cursor at or past the indentation, the default is the line's indentation column, plus exactly `tabSize` when the prefix ends with an open bracket |
| DocumentScan.DefaultIndentationInsideIndentation | src/extension.ts:176-179 | with the cursor inside the leading whitespace, the default is the cursor's column plus one per offset up to the first non-whitespace character, with no tab width added |
| Whitespace.IndentationWhitespaceToColumn | src/extension.ts:187-193 | the result holds only spaces and tabs |
| Whitespace.TabsThenSpaces | src/extension.ts:191 | the tab form is `column div tabSize` tabs followed by `column mod tabSize` spaces, fewer than `tabSize` |
| Whitespace.SpacesOnly | src/extension.ts:189 | the space form is exactly `column` spaces |
| Whitespace.TabsThenSpacesWidth | src/extension.ts:191 | `q` tabs and then `r` spaces span `tabSize * q + r` columns |
| Whitespace.WhitespaceRoundTrip | src/extension.ts:187-193 | the column converter run over the whole whitespace, in either form, gives back `column` |
| NewLine.Compare | src/extension.ts:233-240 | the comparator, with no contract of its own; `CompareIsDocumentOrder` states its sign |
| NewLine.SortByStart | src/extension.ts:232-240 | sorting the identity index array in place yields a permutation of it in document order of the selections' starts, equal starts kept in index order |
| NewLine.CompareIsDocumentOrder | src/extension.ts:233-240 | the comparator is negative, zero or positive exactly when the first start is before, equal to or after the second |
| NewLine.SortSelectionIndices | src/extension.ts:231-240 | `sorted_indices` is a permutation of the selection indices, in document order of their starts, equal starts kept in index order |
| NewLine.PermutationListsEachIndexOnce | src/extension.ts:231 | a permutation of the indices has one entry per selection, and every entry is a valid index |
| NewLine.IndentationColumn | src/extension.ts:250-254 | the bracket scan's answer, else the default, with no contract of its own; `PlanNewLine` and `PlanTextReachesColumn` carry it |
| NewLine.PlanNewLine | src/extension.ts:249-256 | the inserted text is a line break plus the whitespace for the bracket scan's answer when there is one, and for the default indentation otherwise |
| NewLine.PlanTextReachesColumn | src/extension.ts:250-259 | the planned text is a line break followed only by spaces and tabs, and the new line starts exactly at the chosen column |
| NewLine.InsertNewLinesAndIndent | src/extension.ts:228-261 | the selections are visited in document order, each once, and the text for iteration `i` is planned against the document and selections the host shows at that iteration |
| Examples.TabFormOfColumnSix | src/extension.ts:191 | column 6 with tab size 4 becomes one tab and two spaces, which span 6 columns again |
| Examples.AlignsPastOpenParenthesis | src/extension.ts:123-125 | after `foo(bar,` the new line starts at column 4, one past the parenthesis |
| Examples.NearestOpenerWins | src/extension.ts:117-125 | after `([x` the new line starts at column 2, one past the nearer `[`, and the farther `(` accounts for no column |
| Examples.TrailingOpenBracketUsesDefault | src/extension.ts:141-144 | after `foo(` the scan gives no answer and the default indents by one tab width |
| Examples.BalancedStartingLineFallsBack | src/extension.ts:156-163 | after `  doA();` the scan gives no answer and the new line keeps the 2-column indentation |
| Examples.InheritsStatementIndentation | src/extension.ts:156-160 | after `      b)` that closes `  foo(a,` on the line above, the new line takes that line's 2-column indentation |
| Examples.MixedWidthInsideIndentation | src/extension.ts:176-179 | on `\t\tfoo` with the cursor between the tabs, the default is 5 with tab size 4 |

## Left out

- `activate`, `overrideCommand` and `deactivate` are not modelled. They are command registration, the `debug:input` bypass and console logging in the host.
- `editorEdit` and `performInsertEditWithWorkingRedo` are not modelled. They are asynchronous wrappers around the host's edit call, including deleting a non-empty selection, failure and promise rejection. A selection's end is kept only as data.
- The undo-stop empty insert and the edits themselves are not modelled. The host applies them and moves the selections after each edit, and that happens outside this source. Instead, `NewLine.InsertNewLinesAndIndent` takes what the host shows at each iteration as a parameter (`views`).
- Text.IsWhitespace: a fixed set of characters, the ECMAScript `\s` class. The host's first-non-whitespace index is taken to use the same set. No Unicode database, normalisation or surrogate pairs are modelled: a string is a sequence of single characters.
- Whitespace.IndentationWhitespaceToColumn: requires a positive tab size for the tab form. With tab size 0 the source divides by zero, and `repeat` receives an infinite or NaN count. The editor never supplies tab size 0.
- Editor options are read once, as a number and a flag. Their retrieval and casts from the host are not modelled.
- JavaScript's sort is taken to be stable, as the language has required since ES2019. `NewLine.SortByStart` is an insertion sort with the source's comparator, and any stable sort with that comparator gives the same order.

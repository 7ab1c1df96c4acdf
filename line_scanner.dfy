/**
 * `findIndentationPositionInLineAndTallyOpenBrackets`: walk one line's
 * brackets from right to left, tallying closers and cancelling openers
 * against them, and stop at the first opener whose family has nothing
 * pending: the new line is indented one column past it.
 */
module LineScanner {
  import opened Options
  import opened Brackets
  import opened Columns
  import opened Tally

  /** What a line scan yields: a resolved column, if any, and the tallies it leaves. */
  datatype LineScan = LineScan(position: Option<nat>, tallies: Tallies)

  /** Offsets that point at bracket characters of `line`. */
  predicate WellFormed(line: string, idx: seq<nat>) {
    forall k :: 0 <= k < |idx| ==> idx[k] < |line| && IsBracket(line[idx[k]])
  }

  /** The right-to-left scan over the first `n` bracket offsets `idx` (offset `idx[n - 1]` is visited first). */
  function ScanIndices(line: string, idx: seq<nat>, n: nat, t: Tallies, tabSize: nat): (r: LineScan)
    requires Complete(t) && WellFormed(line, idx) && n <= |idx|
    ensures Complete(r.tallies)
  {
    if n == 0 then LineScan(None, t)
    else
      var index := idx[n - 1];
      var c := line[index];
      if IsClosingBracket(c) then ScanIndices(line, idx, n - 1, Add(t, c, 1), tabSize)
      else if t[FamilyOf(c)] == 0 then LineScan(Some(Column(line, index, tabSize) + 1), t)
      else ScanIndices(line, idx, n - 1, Add(t, c, -1), tabSize)
  }

  /** The scan of a whole line (or of the cursor's prefix of it). */
  function ScanLine(line: string, t: Tallies, tabSize: nat): (r: LineScan)
    requires Complete(t)
  {
    ScanIndices(line, BracketIndices(line), |BracketIndices(line)|, t, tabSize)
  }

  /** The line scanner, mutating the shared counter as the source does. */
  method FindIndentationPositionInLineAndTallyOpenBrackets(line: string, tallies: BracketCounter, tabSize: nat)
    returns (position: Option<nat>)
    requires tallies.Valid()
    modifies tallies
    ensures tallies.Valid()
    ensures LineScan(position, tallies.tallies) == ScanLine(line, old(tallies.tallies), tabSize)
    ensures NonNegative(old(tallies.tallies)) ==> NonNegative(tallies.tallies)
  {
    ghost var start := tallies.tallies;
    ghost var goal := ScanLine(line, start, tabSize);
    if NonNegative(start) {
      LineScanKeepsNonNegative(line, start, tabSize);
    }
    var indices := AllBracketsInString(line);
    if |indices| == 0 {
      return None;
    }
    var i := |indices| - 1;
    while i >= 0
      invariant -1 <= i < |indices|
      invariant tallies.Valid()
      invariant ScanIndices(line, indices, i + 1, tallies.tallies, tabSize) == goal
    {
      var index := indices[i];
      var c := line[index];
      if IsClosingBracket(c) {
        tallies.AddToTallyForBracket(c, 1);
      } else if tallies.BracketTallyForBracket(c) == 0 {
        var column := ColumnOfCharacterInLine(line, index, tabSize);
        return Some(column + 1);
      } else {
        tallies.AddToTallyForBracket(c, -1);
      }
      i := i - 1;
    }
    return None;
  }

  // ----- properties of the scan -------------------------------------------

  /** Tallies never go negative: an opener only cancels a tally that is positive. */
  lemma {:induction false} ScanIndicesKeepsNonNegative(line: string, idx: seq<nat>, n: nat, t: Tallies, tabSize: nat)
    requires Complete(t) && WellFormed(line, idx) && n <= |idx| && NonNegative(t)
    ensures NonNegative(ScanIndices(line, idx, n, t, tabSize).tallies)
  {
    if n > 0 {
      var c := line[idx[n - 1]];
      if IsClosingBracket(c) {
        ScanIndicesKeepsNonNegative(line, idx, n - 1, Add(t, c, 1), tabSize);
      } else if t[FamilyOf(c)] != 0 {
        ScanIndicesKeepsNonNegative(line, idx, n - 1, Add(t, c, -1), tabSize);
      }
    }
  }

  lemma LineScanKeepsNonNegative(line: string, t: Tallies, tabSize: nat)
    requires Complete(t) && NonNegative(t)
    ensures NonNegative(ScanLine(line, t, tabSize).tallies)
  {
    ScanIndicesKeepsNonNegative(line, BracketIndices(line), |BracketIndices(line)|, t, tabSize);
  }

  /** The angle tally is never touched: the bracket pattern does not match `<` or `>`. */
  lemma {:induction false} ScanIndicesKeepsAngle(line: string, idx: seq<nat>, n: nat, t: Tallies, tabSize: nat)
    requires Complete(t) && WellFormed(line, idx) && n <= |idx|
    ensures ScanIndices(line, idx, n, t, tabSize).tallies[Angle] == t[Angle]
  {
    if n > 0 {
      var c := line[idx[n - 1]];
      if IsClosingBracket(c) {
        ScanIndicesKeepsAngle(line, idx, n - 1, Add(t, c, 1), tabSize);
      } else if t[FamilyOf(c)] != 0 {
        ScanIndicesKeepsAngle(line, idx, n - 1, Add(t, c, -1), tabSize);
      }
    }
  }

  lemma LineScanKeepsAngle(line: string, t: Tallies, tabSize: nat)
    requires Complete(t)
    ensures ScanLine(line, t, tabSize).tallies[Angle] == t[Angle]
  {
    ScanIndicesKeepsAngle(line, BracketIndices(line), |BracketIndices(line)|, t, tabSize);
  }

  /** A bracket's contribution to its family's tally: +1 for a closer, -1 for an opener. */
  function Effect(c: char, f: Family): (r: int) {
    if IsBracket(c) && FamilyOf(c) == f then (if IsClosingBracket(c) then 1 else -1) else 0
  }

  /** The net number of closers over openers of family `f` among the first `n` offsets. */
  function Net(line: string, idx: seq<nat>, n: nat, f: Family): (r: int)
    requires WellFormed(line, idx) && n <= |idx|
  {
    if n == 0 then 0 else Net(line, idx, n - 1, f) + Effect(line[idx[n - 1]], f)
  }

  /** An unresolved scan moves each tally by exactly its family's closers minus its openers. */
  lemma {:induction false} ScanIndicesNet(line: string, idx: seq<nat>, n: nat, t: Tallies, tabSize: nat)
    requires Complete(t) && WellFormed(line, idx) && n <= |idx|
    ensures var r := ScanIndices(line, idx, n, t, tabSize);
            r.position.None? ==> forall f :: f in t ==> f in r.tallies && r.tallies[f] == t[f] + Net(line, idx, n, f)
  {
    if n > 0 {
      var c := line[idx[n - 1]];
      if IsClosingBracket(c) {
        ScanIndicesNet(line, idx, n - 1, Add(t, c, 1), tabSize);
      } else if t[FamilyOf(c)] != 0 {
        ScanIndicesNet(line, idx, n - 1, Add(t, c, -1), tabSize);
      }
    }
  }

  /** The same for a whole line. */
  lemma LineScanNet(line: string, t: Tallies, tabSize: nat)
    requires Complete(t)
    ensures var r := ScanLine(line, t, tabSize);
            r.position.None? ==> forall f :: f in t ==>
              f in r.tallies && r.tallies[f] == t[f] + Net(line, BracketIndices(line), |BracketIndices(line)|, f)
  {
    ScanIndicesNet(line, BracketIndices(line), |BracketIndices(line)|, t, tabSize);
  }

  /** The scan resolves at `idx[k]`: an opener whose family has nothing pending, one column past it. */
  predicate ResolvedAt(line: string, idx: seq<nat>, k: int, r: LineScan, tabSize: nat)
    requires WellFormed(line, idx) && Complete(r.tallies)
  {
    && 0 <= k < |idx|
    && IsOpenBracket(line[idx[k]])
    && r.position == Some(Column(line, idx[k], tabSize) + 1)
    && r.tallies[FamilyOf(line[idx[k]])] == 0
  }

  /**
   * The tallies `r` carries are `t` moved by every bracket after offset `idx[k]`
   * among the first `n`: each of those was tallied before `idx[k]` was met.
   */
  predicate TalliedAfter(line: string, idx: seq<nat>, k: nat, n: nat, t: Tallies, r: LineScan)
    requires WellFormed(line, idx) && k < n <= |idx| && Complete(t) && Complete(r.tallies)
  {
    forall f :: f in t ==> f in r.tallies && r.tallies[f] == t[f] + Net(line, idx, n, f) - Net(line, idx, k + 1, f)
  }

  /**
   * When the scan reaches the opener `idx[j]`, having tallied every bracket
   * after it among the first `n`, its family's tally is 0.
   */
  predicate MeetsZero(line: string, idx: seq<nat>, j: nat, n: nat, t: Tallies)
    requires WellFormed(line, idx) && j < n <= |idx| && Complete(t)
  {
    && IsOpenBracket(line[idx[j]])
    && var f := FamilyOf(line[idx[j]]);
       t[f] + Net(line, idx, n, f) - Net(line, idx, j + 1, f) == 0
  }

  /** No opener after `idx[k]` among the first `n` meets a zero tally. */
  predicate NoZeroAfter(line: string, idx: seq<nat>, k: int, n: nat, t: Tallies)
    requires WellFormed(line, idx) && n <= |idx| && Complete(t)
  {
    forall j: nat :: k < j < n ==> !MeetsZero(line, idx, j, n, t)
  }

  /**
   * The scan resolves at `idx[k]`, the first opener it meets with its family's
   * tally at 0, and its tallies are `t` moved by every bracket after it.
   */
  predicate ResolvedFirstAt(line: string, idx: seq<nat>, k: nat, n: nat, t: Tallies, r: LineScan, tabSize: nat)
    requires WellFormed(line, idx) && n <= |idx| && Complete(t) && Complete(r.tallies)
  {
    && k < n
    && ResolvedAt(line, idx, k, r, tabSize)
    && TalliedAfter(line, idx, k, n, t, r)
    && NoZeroAfter(line, idx, k, n, t)
  }

  /**
   * A resolved column comes from the first opener the scan meets with its
   * family's tally at 0: nothing to its right is left for it to match.
   */
  lemma {:induction false} ScanIndicesResolves(line: string, idx: seq<nat>, n: nat, t: Tallies, tabSize: nat)
    requires Complete(t) && WellFormed(line, idx) && n <= |idx|
    ensures var r := ScanIndices(line, idx, n, t, tabSize);
            r.position.Some? ==> exists k: nat :: ResolvedFirstAt(line, idx, k, n, t, r, tabSize)
  {
    var r := ScanIndices(line, idx, n, t, tabSize);
    if n > 0 {
      var c := line[idx[n - 1]];
      if IsClosingBracket(c) || t[FamilyOf(c)] != 0 {
        var t' := if IsClosingBracket(c) then Add(t, c, 1) else Add(t, c, -1);
        ScanIndicesResolves(line, idx, n - 1, t', tabSize);
        if r.position.Some? {
          var k: nat :| ResolvedFirstAt(line, idx, k, n - 1, t', r, tabSize);
          ResolvedFirstStep(line, idx, k, n, t, t', r, tabSize);
        }
      } else {
        assert ResolvedFirstAt(line, idx, n - 1, n, t, r, tabSize);
      }
    }
  }

  lemma ResolvedFirstStep(line: string, idx: seq<nat>, k: nat, n: nat, t: Tallies, t': Tallies, r: LineScan, tabSize: nat)
    requires Complete(t) && Complete(t') && Complete(r.tallies) && WellFormed(line, idx) && 0 < n <= |idx|
    requires IsClosingBracket(line[idx[n - 1]]) || t[FamilyOf(line[idx[n - 1]])] != 0
    requires t' == if IsClosingBracket(line[idx[n - 1]]) then Add(t, line[idx[n - 1]], 1) else Add(t, line[idx[n - 1]], -1)
    requires ResolvedFirstAt(line, idx, k, n - 1, t', r, tabSize)
    ensures ResolvedFirstAt(line, idx, k, n, t, r, tabSize)
  {
    StepTallies(line, idx, n, t, t');
    assert TalliedAfter(line, idx, k, n, t, r);
  }

  /** Tallying the bracket `idx[n - 1]` turns `t` into `t'`: the zero tests over the rest agree. */
  lemma StepTallies(line: string, idx: seq<nat>, n: nat, t: Tallies, t': Tallies)
    requires Complete(t) && Complete(t') && WellFormed(line, idx) && 0 < n <= |idx|
    requires IsClosingBracket(line[idx[n - 1]]) || t[FamilyOf(line[idx[n - 1]])] != 0
    requires t' == if IsClosingBracket(line[idx[n - 1]]) then Add(t, line[idx[n - 1]], 1) else Add(t, line[idx[n - 1]], -1)
    ensures forall f :: f in t ==> f in t' && t'[f] == t[f] + Effect(line[idx[n - 1]], f)
    ensures forall j: nat :: j < n - 1 ==> (MeetsZero(line, idx, j, n - 1, t') <==> MeetsZero(line, idx, j, n, t))
    ensures !MeetsZero(line, idx, n - 1, n, t)
  {
    var c := line[idx[n - 1]];
    assert forall f :: f in t ==> f in t' && t'[f] == t[f] + Effect(c, f);
  }

  /** An unresolved scan met no opener with its family's tally at 0. */
  lemma {:induction false} ScanIndicesUnresolved(line: string, idx: seq<nat>, n: nat, t: Tallies, tabSize: nat)
    requires Complete(t) && WellFormed(line, idx) && n <= |idx|
    ensures ScanIndices(line, idx, n, t, tabSize).position.None? ==>
              forall j: nat :: j < n ==> !MeetsZero(line, idx, j, n, t)
  {
    if n > 0 {
      var c := line[idx[n - 1]];
      if IsClosingBracket(c) || t[FamilyOf(c)] != 0 {
        var t' := if IsClosingBracket(c) then Add(t, c, 1) else Add(t, c, -1);
        StepTallies(line, idx, n, t, t');
        ScanIndicesUnresolved(line, idx, n - 1, t', tabSize);
      }
    }
  }

  /** A line without brackets resolves nothing and leaves the tallies alone. */
  lemma ScanLineWithoutBrackets(line: string, t: Tallies, tabSize: nat)
    requires Complete(t)
    requires forall i :: 0 <= i < |line| ==> !IsBracket(line[i])
    ensures ScanLine(line, t, tabSize) == LineScan(None, t)
  {
  }

  /**
   * Characters other than the six brackets and the tab never affect the scan;
   * in particular replacing `<` or `>` changes nothing.
   */
  lemma ScanLineIgnoresOtherCharacters(line: string, other: string, t: Tallies, tabSize: nat)
    requires Complete(t) && |line| == |other|
    requires forall i :: 0 <= i < |line| && line[i] != other[i] ==>
               !IsBracket(line[i]) && !IsBracket(other[i]) && line[i] != '\t' && other[i] != '\t'
    ensures ScanLine(line, t, tabSize) == ScanLine(other, t, tabSize)
  {
    SameBracketIndices(line, other, |line|);
    var idx := BracketIndices(line);
    ScanIndicesAgree(line, other, idx, |idx|, t, tabSize);
  }

  lemma {:induction false} SameBracketIndices(line: string, other: string, n: nat)
    requires n <= |line| == |other|
    requires forall i :: 0 <= i < |line| && line[i] != other[i] ==> !IsBracket(line[i]) && !IsBracket(other[i])
    ensures BracketIndicesUpTo(line, n) == BracketIndicesUpTo(other, n)
  {
    if n > 0 {
      SameBracketIndices(line, other, n - 1);
    }
  }

  lemma {:induction false} ScanIndicesAgree(line: string, other: string, idx: seq<nat>, n: nat, t: Tallies, tabSize: nat)
    requires Complete(t) && |line| == |other| && n <= |idx|
    requires WellFormed(line, idx) && WellFormed(other, idx)
    requires forall k :: 0 <= k < |idx| ==> line[idx[k]] == other[idx[k]]
    requires forall i :: 0 <= i < |line| ==> (line[i] == '\t' <==> other[i] == '\t')
    ensures ScanIndices(line, idx, n, t, tabSize) == ScanIndices(other, idx, n, t, tabSize)
  {
    if n > 0 {
      var c := line[idx[n - 1]];
      assert other[idx[n - 1]] == c;
      if IsClosingBracket(c) {
        ScanIndicesAgree(line, other, idx, n - 1, Add(t, c, 1), tabSize);
      } else if t[FamilyOf(c)] == 0 {
        ColumnIgnoresNonTabs(line, other, idx[n - 1], tabSize);
      } else {
        ScanIndicesAgree(line, other, idx, n - 1, Add(t, c, -1), tabSize);
      }
    }
  }
}

/**
 * `BracketCounter`: one signed tally per bracket family, updated in place by
 * the scanners, and the "all brackets closed" test.
 */
module Tally {
  import opened Brackets

  /** The `tallies` dictionary, keyed by family. */
  type Tallies = map<Family, int>

  /** Every family has a tally: the four keys the dictionary starts with. */
  predicate Complete(t: Tallies) {
    Paren in t && Square in t && Curly in t && Angle in t
  }

  /** The initial dictionary `{paren: 0, square: 0, curly: 0, angle: 0}`. */
  function Zero(): (t: Tallies)
    ensures Complete(t)
  {
    map[Paren := 0, Square := 0, Curly := 0, Angle := 0]
  }

  predicate AllClosed(t: Tallies)
    requires Complete(t)
  {
    t[Paren] == 0 && t[Square] == 0 && t[Curly] == 0 && t[Angle] == 0
  }

  predicate NonNegative(t: Tallies)
    requires Complete(t)
  {
    t[Paren] >= 0 && t[Square] >= 0 && t[Curly] >= 0 && t[Angle] >= 0
  }

  /** `addToTallyForBracket` as a value: the bracket's family moves by `amount`, nothing else does. */
  function Add(t: Tallies, bracket: char, amount: int): (r: Tallies)
    requires Complete(t) && IsTallied(bracket)
    ensures Complete(r)
    ensures r[FamilyOf(bracket)] == t[FamilyOf(bracket)] + amount
    ensures forall f :: f in t && f != FamilyOf(bracket) ==> f in r && r[f] == t[f]
  {
    t[FamilyOf(bracket) := t[FamilyOf(bracket)] + amount]
  }

  /** The dictionary's own key order, the order `for (var key in this.tallies)` visits. */
  const FamilyOrder: seq<Family> := [Paren, Square, Curly, Angle]

  class BracketCounter {
    var tallies: Tallies

    ghost predicate Valid()
      reads this
    {
      Complete(tallies)
    }

    constructor ()
      ensures Valid() && tallies == Zero()
    {
      tallies := Zero();
    }

    method AddToTallyForBracket(bracket: char, amount: int)
      requires Valid() && IsTallied(bracket)
      modifies this
      ensures Valid()
      ensures tallies == Add(old(tallies), bracket, amount)
    {
      tallies := tallies[FamilyOf(bracket) := tallies[FamilyOf(bracket)] + amount];
    }

    /** `bracketTallyForBracket`: an opening bracket and its closer read the same tally. */
    function BracketTallyForBracket(bracket: char): (n: int)
      reads this
      requires Valid() && IsTallied(bracket)
      ensures AllClosed(tallies) ==> n == 0
      ensures NonNegative(tallies) ==> n >= 0
    {
      tallies[FamilyOf(bracket)]
    }

    /** `areAllBracketsClosed`: visit every key, stop at the first nonzero tally. */
    method AreAllBracketsClosed() returns (closed: bool)
      requires Valid()
      ensures closed <==> AllClosed(tallies)
    {
      var k := 0;
      while k < |FamilyOrder|
        invariant 0 <= k <= |FamilyOrder|
        invariant forall j :: 0 <= j < k ==> tallies[FamilyOrder[j]] == 0
      {
        if tallies[FamilyOrder[k]] != 0 {
          return false;
        }
        k := k + 1;
      }
      assert tallies[FamilyOrder[0]] == 0 && tallies[FamilyOrder[1]] == 0;
      assert tallies[FamilyOrder[2]] == 0 && tallies[FamilyOrder[3]] == 0;
      return true;
    }
  }
}

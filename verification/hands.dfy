/** Hands, their per-slot status, and the blackjack hand value with soft aces. */
module Hands {
  import opened Cards

  type Hand = seq<Card>

  /** The status of one hand slot of a player: still to act, stood, or busted. */
  datatype HandStatus = Waiting | Stand | Bust

  /** The total with every ace counted as 11. */
  function HighTotal(hand: Hand): int {
    if hand == [] then 0 else HighTotal(hand[..|hand| - 1]) + Value(hand[|hand| - 1])
  }

  /** The number of aces in the hand. */
  function AceCount(hand: Hand): nat {
    if hand == [] then 0
    else AceCount(hand[..|hand| - 1]) + (if hand[|hand| - 1].rank == Ace then 1 else 0)
  }

  /** The total when j of the aces are counted as 1 instead of 11. */
  function ValueWith(hand: Hand, j: nat): int {
    HighTotal(hand) - 10 * j
  }

  /** The total with every ace counted as 1. */
  function LowTotal(hand: Hand): int {
    ValueWith(hand, AceCount(hand))
  }

  function Min(a: int, b: int): int { if a <= b then a else b }

  /** How many aces the scorer counts as 1: the least number that brings the
      total to 21 or below, or every ace when no number does. */
  function Reductions(hand: Hand): (k: nat)
    ensures k <= AceCount(hand)
    ensures ValueWith(hand, k) <= 21 || k == AceCount(hand)
    ensures forall j: nat :: j < k ==> ValueWith(hand, j) > 21
  {
    var h := HighTotal(hand);
    if h <= 21 then 0 else Min(AceCount(hand), (h - 21 + 9) / 10)
  }

  /** The value of a hand: aces as 11, minus 10 for each ace the scorer reduces. */
  function HandValue(hand: Hand): int {
    ValueWith(hand, Reductions(hand))
  }

  /** A two-card 21. */
  predicate IsNatural(hand: Hand) {
    |hand| == 2 && HandValue(hand) == 21
  }

  /** The three conditions of Reductions single out one number. */
  lemma LeastReductionUnique(hand: Hand, k: nat)
    requires k <= AceCount(hand)
    requires ValueWith(hand, k) <= 21 || k == AceCount(hand)
    requires forall j: nat :: j < k ==> ValueWith(hand, j) > 21
    ensures k == Reductions(hand)
  {
    var r := Reductions(hand);
    assert ValueWith(hand, r) == HighTotal(hand) - 10 * r;
  }

  /** The scorer of the table: counts every ace as 11, then takes 10 off per
      ace while the total is over 21. */
  method CalculateHandValue(hand: Hand) returns (value: int)
    ensures value == HandValue(hand)
  {
    value := 0;
    var aces := 0;
    var i := 0;
    while i < |hand|
      invariant i <= |hand|
      invariant value == HighTotal(hand[..i])
      invariant aces == AceCount(hand[..i])
    {
      assert hand[..i + 1][..i] == hand[..i];
      if hand[i].rank == Ace {
        aces := aces + 1;
        value := value + 11;
      } else {
        value := value + Value(hand[i]);
      }
      i := i + 1;
    }
    assert hand[..|hand|] == hand;
    ghost var total := aces;
    while value > 21 && aces > 0
      invariant aces <= total
      invariant value == ValueWith(hand, total - aces)
      invariant forall j: nat :: j < total - aces ==> ValueWith(hand, j) > 21
      decreases aces
    {
      value := value - 10;
      aces := aces - 1;
    }
    LeastReductionUnique(hand, total - aces);
  }

  /** The value lies between the all-aces-low and the all-aces-high totals. */
  lemma HandValueBounds(hand: Hand)
    ensures LowTotal(hand) <= HandValue(hand) <= HighTotal(hand)
  {
  }

  /** The value is 21 or less exactly when the all-aces-low total is. */
  lemma {:induction false} HandValueAtMost21Iff(hand: Hand)
    ensures HandValue(hand) <= 21 <==> LowTotal(hand) <= 21
  {
    var k := Reductions(hand);
    if k < AceCount(hand) {
      assert HandValue(hand) <= 21;
      assert LowTotal(hand) <= HandValue(hand);
    }
  }

  /** No other way of counting aces gives a better total of 21 or below. */
  lemma HandValueIsBest(hand: Hand, j: nat)
    requires j <= AceCount(hand)
    requires ValueWith(hand, j) <= 21
    ensures ValueWith(hand, j) <= HandValue(hand) <= 21
  {
    assert j < Reductions(hand) ==> ValueWith(hand, j) > 21;
  }

  /** Appending a card adds its value to the high total and counts an ace. */
  lemma TotalsOfAppend(hand: Hand, c: Card)
    ensures HighTotal(hand + [c]) == HighTotal(hand) + Value(c)
    ensures AceCount(hand + [c]) == AceCount(hand) + if c.rank == Ace then 1 else 0
  {
    assert (hand + [c])[..|hand|] == hand;
  }

  /** A+A+9 is 21: of the two aces only one is counted as 1. */
  lemma SoftAceExample()
    ensures HandValue([Card(Spade, Ace), Card(Heart, Ace), Card(Club, Pip(9))]) == 21
  {
    var a1, a2, n9 := Card(Spade, Ace), Card(Heart, Ace), Card(Club, Pip(9));
    TotalsOfAppend([], a1);
    TotalsOfAppend([a1], a2);
    TotalsOfAppend([a1, a2], n9);
    assert [a1, a2] + [n9] == [a1, a2, n9];
    assert HighTotal([a1, a2, n9]) == 31 && AceCount([a1, a2, n9]) == 2;
  }

  /** A+K is a natural. */
  /** An ace and any ten-valued card make a natural, in either suit. */
  lemma AceAndTenNatural(a: Card, c: Card)
    requires a.rank == Ace && Value(c) == 10
    ensures IsNatural([a, c])
  {
    TotalsOfAppend([], a);
    TotalsOfAppend([a], c);
    assert [a] + [c] == [a, c];
  }

  lemma NaturalExample()
    ensures IsNatural([Card(Spade, Ace), Card(Heart, King)])
  {
    var a, k := Card(Spade, Ace), Card(Heart, King);
    TotalsOfAppend([], a);
    TotalsOfAppend([a], k);
    assert [a] + [k] == [a, k];
    assert HighTotal([a, k]) == 21;
  }
}

/** The outcome of one hand against the dealer: the result record of the table
    and the chip credit the plugin pays out for it. */
module Settlement {
  import opened Hands

  datatype Outcome = Lose | Win | Push | Blackjack

  /** One entry of the table's result list: outcome, net winnings, natural flag. */
  datatype HandResult = HandResult(outcome: Outcome, winnings: int, blackjack: bool)

  /** A player's hand counts as a natural only as the first hand of the slot list. */
  predicate PlayerNatural(hand: Hand, handIdx: nat) {
    IsNatural(hand) && handIdx == 0
  }

  /** The natural test the design intends: a player's hand is a natural only
      while the player has not split, that is, while it holds its one
      original hand. */
  predicate NaturalUnsplit(hands: seq<Hand>, handIdx: nat): (b: bool)
    ensures |hands| == 1 ==> (b <==> PlayerNatural(hands[0], handIdx))
    ensures |hands| != 1 ==> !b
  {
    |hands| == 1 && handIdx == 0 && IsNatural(hands[0])
  }

  /** x / 2 rounded toward zero, which is what truncating the float x * 0.5
      to an integer gives. */
  function HalfTowardZero(x: int): (h: int)
    ensures 0 <= x ==> 0 <= x - 2 * h <= 1
    ensures x < 0 ==> 0 <= 2 * h - x <= 1
  {
    if x >= 0 then x / 2 else -((-x) / 2)
  }

  /** The net winnings each outcome stands for: the 3:2 payout is truncated
      toward zero. */
  function WinningsFor(outcome: Outcome, bet: int): int {
    match outcome
    case Lose => -bet
    case Win => bet
    case Push => 0
    case Blackjack => HalfTowardZero(3 * bet)
  }

  /** The table takes any stake, negative ones included; 3:2 on a stake of 3
      is 4 and on a stake of -3 is -4. */
  lemma NaturalPayoutRounding()
    ensures WinningsFor(Blackjack, 3) == 4 && WinningsFor(Blackjack, -3) == -4
    ensures WinningsFor(Blackjack, 100) == 150
  {
  }

  /** The result of one hand, with the table's checks taken in order: bust,
      natural against no natural, dealer natural, two naturals, dealer bust,
      higher, lower, equal. */
  function SettleHand(status: HandStatus, hand: Hand, handIdx: nat, bet: int, dealer: Hand): (r: HandResult)
    ensures r.winnings == WinningsFor(r.outcome, bet)
    ensures r.blackjack <==> status != Bust && PlayerNatural(hand, handIdx)
    ensures status == Bust ==> r.outcome == Lose
    ensures r.outcome == Blackjack ==> PlayerNatural(hand, handIdx) && !IsNatural(dealer)
  {
    var dealerValue := HandValue(dealer);
    var playerValue := HandValue(hand);
    var natural := PlayerNatural(hand, handIdx);
    var dealerNatural := IsNatural(dealer);
    if status == Bust then HandResult(Lose, -bet, false)
    else if natural && !dealerNatural then HandResult(Blackjack, HalfTowardZero(3 * bet), true)
    else if dealerNatural && !natural then HandResult(Lose, -bet, false)
    else if natural && dealerNatural then HandResult(Push, 0, true)
    else if dealerValue > 21 then HandResult(Win, bet, false)
    else if playerValue > dealerValue then HandResult(Win, bet, false)
    else if playerValue < dealerValue then HandResult(Lose, -bet, false)
    else HandResult(Push, 0, false)
  }

  /** Between two hands that are neither bust nor natural the result is the
      comparison of values, with a dealer bust counting as a player win. */
  lemma ComparedOutcome(status: HandStatus, hand: Hand, handIdx: nat, bet: int, dealer: Hand)
    requires status != Bust && !PlayerNatural(hand, handIdx) && !IsNatural(dealer)
    ensures var o := SettleHand(status, hand, handIdx, bet, dealer).outcome;
            && (o == Win <==> HandValue(dealer) > 21 || HandValue(hand) > HandValue(dealer))
            && (o == Lose <==> HandValue(dealer) <= 21 && HandValue(hand) < HandValue(dealer))
            && (o == Push <==> HandValue(dealer) <= 21 && HandValue(hand) == HandValue(dealer))
  {
  }

  /** Naturals decide before values: a lone natural wins 3:2 or loses the bet,
      two naturals push. */
  lemma NaturalOutcome(status: HandStatus, hand: Hand, handIdx: nat, bet: int, dealer: Hand)
    requires status != Bust && (PlayerNatural(hand, handIdx) || IsNatural(dealer))
    ensures var o := SettleHand(status, hand, handIdx, bet, dealer).outcome;
            o == (if !IsNatural(dealer) then Blackjack
                  else if !PlayerNatural(hand, handIdx) then Lose
                  else Push)
  {
  }

  /** The chips the plugin credits for one hand at settlement: nothing for a
      bust, 2.5 times the bet (truncated) for a natural against none, nothing
      against a dealer natural, the bet back on two naturals, twice the bet on a
      win, nothing on a loss, the bet back on a push. Whatever the stake, that
      is the stake plus the table's net winnings for the hand. */
  function ChipCredit(status: HandStatus, hand: Hand, handIdx: nat, bet: int, dealer: Hand): (c: int)
    ensures c == bet + SettleHand(status, hand, handIdx, bet, dealer).winnings
  {
    var dealerValue := HandValue(dealer);
    var playerValue := HandValue(hand);
    var natural := PlayerNatural(hand, handIdx);
    var dealerNatural := IsNatural(dealer);
    if status == Bust then 0
    else if natural && !dealerNatural then HalfTowardZero(5 * bet)
    else if dealerNatural && !natural then 0
    else if natural && dealerNatural then bet
    else if dealerValue > 21 then 2 * bet
    else if playerValue > dealerValue then 2 * bet
    else if playerValue < dealerValue then 0
    else bet
  }

  /** A stake that is not negative never brings a negative credit. */
  lemma CreditNotNegative(status: HandStatus, hand: Hand, handIdx: nat, bet: int, dealer: Hand)
    requires bet >= 0
    ensures ChipCredit(status, hand, handIdx, bet, dealer) >= 0
  {
  }

  /** The table's result list for one player: one result per hand, in hand order. */
  function SettlePlayer(hands: seq<Hand>, bets: seq<int>, statuses: seq<HandStatus>, dealer: Hand): (r: seq<HandResult>)
    requires |bets| == |hands| && |statuses| == |hands|
    ensures |r| == |hands|
  {
    seq(|hands|, i requires 0 <= i < |hands| => SettleHand(statuses[i], hands[i], i, bets[i], dealer))
  }

  /** The chips the plugin credits to one player for the first n hands. */
  function TotalCredit(hands: seq<Hand>, bets: seq<int>, statuses: seq<HandStatus>, dealer: Hand, n: nat): int
    requires n <= |hands| && |bets| == |hands| && |statuses| == |hands|
  {
    if n == 0 then 0
    else TotalCredit(hands, bets, statuses, dealer, n - 1) + ChipCredit(statuses[n - 1], hands[n - 1], n - 1, bets[n - 1], dealer)
  }

  function SumBets(bets: seq<int>): int {
    if bets == [] then 0 else SumBets(bets[..|bets| - 1]) + bets[|bets| - 1]
  }

  function SumWinnings(results: seq<HandResult>): int {
    if results == [] then 0 else SumWinnings(results[..|results| - 1]) + results[|results| - 1].winnings
  }

  /** Over all of a player's hands, the plugin credits the stakes plus the
      table's net winnings. */
  lemma {:induction false} TotalCreditIsStakesPlusWinnings(hands: seq<Hand>, bets: seq<int>, statuses: seq<HandStatus>, dealer: Hand, n: nat)
    requires n <= |hands| && |bets| == |hands| && |statuses| == |hands|
    ensures TotalCredit(hands, bets, statuses, dealer, n)
            == SumBets(bets[..n]) + SumWinnings(SettlePlayer(hands, bets, statuses, dealer)[..n])
  {
    if n > 0 {
      TotalCreditIsStakesPlusWinnings(hands, bets, statuses, dealer, n - 1);
      assert bets[..n][..n - 1] == bets[..n - 1];
      var results := SettlePlayer(hands, bets, statuses, dealer);
      assert results[..n][..n - 1] == results[..n - 1];
    }
  }
}

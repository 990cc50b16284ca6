/** The table of one round: the shoe, every participant's hands with their
    bets and statuses, the dealer's hand, the phase and whose turn it is.
    The value-level functions over Snapshot say what each table action does;
    the Game class carries the state and its methods are proved to do exactly
    that. */
module Table {
  import opened Wrappers
  import opened Cards
  import opened Hands
  import opened Settlement
  import opened Turns

  /** The round's phase; Idle is the phase of a table no round has started on. */
  datatype Phase = Idle | Betting | Playing | DealerTurn | Finished

  /** Decks in a shoe, and the size below which a new round takes a fresh shoe. */
  const ShoeDecks: nat := 6
  const ReshuffleBelow: nat := 52 * 6 / 2

  predicate Distinct(ids: seq<PlayerId>) {
    forall i, j :: 0 <= i < j < |ids| ==> ids[i] != ids[j]
  }

  /** Everything the table holds, as one value. */
  datatype Snapshot = Snapshot(
    shoe: seq<Card>,
    hands: map<PlayerId, seq<Hand>>,
    dealer: Hand,
    bets: map<PlayerId, seq<int>>,
    statuses: map<PlayerId, seq<HandStatus>>,
    phase: Phase,
    player: int,
    handIdx: map<PlayerId, int>,
    order: seq<PlayerId>)

  /** The shape the table keeps: every participant has parallel non-empty
      lists of hands, bets and statuses and a hand index inside them, the
      hands are kept for participants only, and during play the player index
      points at a participant. */
  ghost predicate WellFormed(s: Snapshot) {
    && Distinct(s.order)
    && (forall p :: p in s.order ==>
          && p in s.hands && p in s.bets && p in s.statuses && p in s.handIdx
          && 1 <= |s.hands[p]|
          && |s.bets[p]| == |s.hands[p]|
          && |s.statuses[p]| == |s.hands[p]|
          && 0 <= s.handIdx[p] < |s.hands[p]|)
    && (forall p :: p in s.hands ==> p in s.order)
    && 0 <= s.player <= |s.order|
    && (s.phase == Idle || s.phase == Betting ==> s.player == 0)
    && (s.phase == Playing && s.order != [] ==> s.player < |s.order|)
  }

  /** A complete shoe of n decks: every card n times. */
  ghost predicate FullShoe(cards: seq<Card>, n: nat) {
    |cards| == 52 * n && forall c :: multiset(cards)[c] == n
  }

  /** The same value for every participant. */
  function ForEach<T>(ids: seq<PlayerId>, v: T): (m: map<PlayerId, T>)
    ensures forall p :: p in m <==> p in ids
    ensures forall p :: p in m ==> m[p] == v
  {
    map p | p in ids :: v
  }

  /** A new round with the given participants, all seated at one empty hand
      with bet 0, waiting, at hand 0; betting is open. */
  function Seated(ids: seq<PlayerId>, shoe: seq<Card>): (t: Snapshot)
    requires Distinct(ids)
    ensures WellFormed(t)
  {
    Snapshot(shoe, ForEach(ids, [[]]), [], ForEach(ids, [0]), ForEach(ids, [Waiting]),
             Betting, 0, ForEach(ids, 0), ids)
  }

  /** pid may act: the round is in play, pid is the current player and its
      current hand is still waiting. */
  predicate OnTurn(s: Snapshot, pid: PlayerId)
    requires WellFormed(s)
  {
    && s.phase == Playing
    && 0 <= s.player < |s.order|
    && s.order[s.player] == pid
    && s.statuses[pid][s.handIdx[pid]] == Waiting
  }

  function ActiveHand(s: Snapshot, pid: PlayerId): Hand
    requires WellFormed(s) && pid in s.order
  {
    s.hands[pid][s.handIdx[pid]]
  }

  /** pid may split: on turn with a two-card hand whose cards count the same. */
  predicate Splittable(s: Snapshot, pid: PlayerId)
    requires WellFormed(s)
  {
    && OnTurn(s, pid)
    && |ActiveHand(s, pid)| == 2
    && Value(ActiveHand(s, pid)[0]) == Value(ActiveHand(s, pid)[1])
  }

  /** No participant's first bet is still 0. */
  predicate AllBetsPlaced(s: Snapshot)
    requires WellFormed(s)
  {
    forall p | p in s.order :: s.bets[p][0] != 0
  }

  /** A bet overwrites the first hand's stake and nothing else. */
  function BetPlaced(s: Snapshot, pid: PlayerId, amount: int): (t: Snapshot)
    requires WellFormed(s) && pid in s.order
    ensures WellFormed(t)
  {
    s.(bets := s.bets[pid := s.bets[pid][0 := amount]])
  }

  /** Two cards on top of participant p's first hand. */
  function GiveTwo(hands: map<PlayerId, seq<Hand>>, p: PlayerId, a: Card, b: Card): (r: map<PlayerId, seq<Hand>>)
  {
    if p in hands && |hands[p]| > 0 then hands[p := hands[p][0 := hands[p][0] + [a, b]]] else hands
  }

  /** The participants' hands once the first k in turn order have received
      their two opening cards from the top of shoe. */
  function DealtTo(hands: map<PlayerId, seq<Hand>>, order: seq<PlayerId>, shoe: seq<Card>, k: nat)
    : (r: map<PlayerId, seq<Hand>>)
    requires k <= |order| && |shoe| >= 2 * k
  {
    if k == 0 then hands
    else
      var n := |shoe|;
      GiveTwo(DealtTo(hands, order, shoe, k - 1), order[k - 1], shoe[n - 2 * k + 1], shoe[n - 2 * k])
  }

  /** The opening deal seats nobody new and adds no hand. */
  lemma {:induction false} DealtToShape(hands: map<PlayerId, seq<Hand>>, order: seq<PlayerId>, shoe: seq<Card>, k: nat)
    requires k <= |order| && |shoe| >= 2 * k
    ensures forall p {:trigger p in DealtTo(hands, order, shoe, k)} :: p in DealtTo(hands, order, shoe, k) <==> p in hands
    ensures forall p :: p in hands ==> |DealtTo(hands, order, shoe, k)[p]| == |hands[p]|
  {
    if k > 0 {
      DealtToShape(hands, order, shoe, k - 1);
    }
  }

  /** After k participants have been dealt to, the participant at turn index
      i < k holds the shoe's (2i+1)-th and (2i+2)-th cards from the top on
      its first hand, and everybody else is untouched. */
  lemma {:induction false} DealtToContents(hands: map<PlayerId, seq<Hand>>, order: seq<PlayerId>, shoe: seq<Card>, k: nat)
    requires Distinct(order) && (forall p | p in order :: p in hands && |hands[p]| >= 1)
    requires k <= |order| && |shoe| >= 2 * k
    ensures forall p :: p in hands ==> p in DealtTo(hands, order, shoe, k)
    ensures forall i :: 0 <= i < k ==>
              DealtTo(hands, order, shoe, k)[order[i]]
              == hands[order[i]][0 := hands[order[i]][0] + [shoe[|shoe| - 1 - 2 * i], shoe[|shoe| - 2 - 2 * i]]]
    ensures forall i :: k <= i < |order| ==> DealtTo(hands, order, shoe, k)[order[i]] == hands[order[i]]
  {
    DealtToShape(hands, order, shoe, k);
    if k > 0 {
      DealtToContents(hands, order, shoe, k - 1);
    }
  }

  /** The opening deal: two cards to each participant's first hand in turn
      order, then two to the dealer, all from the top of the shoe; play
      begins. */
  function InitialDealApplied(s: Snapshot): (t: Snapshot)
    requires WellFormed(s) && s.phase == Betting && |s.shoe| >= 2 * |s.order| + 2
    ensures WellFormed(t)
  {
    var m := |s.order|;
    var n := |s.shoe|;
    DealtToShape(s.hands, s.order, s.shoe, m);
    s.(shoe := s.shoe[..n - (2 * m + 2)],
       hands := DealtTo(s.hands, s.order, s.shoe, m),
       dealer := s.dealer + [s.shoe[n - 1 - 2 * m], s.shoe[n - 2 - 2 * m]],
       phase := Playing)
  }

  /** A hit: the top card joins the active hand, which goes bust exactly when
      its value passes 21. */
  function HitApplied(s: Snapshot, pid: PlayerId): (t: Snapshot)
    requires WellFormed(s) && OnTurn(s, pid) && |s.shoe| >= 1
    ensures WellFormed(t)
  {
    var hi := s.handIdx[pid];
    var hand := s.hands[pid][hi] + [s.shoe[|s.shoe| - 1]];
    s.(shoe := s.shoe[..|s.shoe| - 1],
       hands := s.hands[pid := s.hands[pid][hi := hand]],
       statuses := if HandValue(hand) > 21 then s.statuses[pid := s.statuses[pid][hi := Bust]] else s.statuses)
  }

  /** A stand: the active hand is closed. */
  function StandApplied(s: Snapshot, pid: PlayerId): (t: Snapshot)
    requires WellFormed(s) && OnTurn(s, pid)
    ensures WellFormed(t)
  {
    s.(statuses := s.statuses[pid := s.statuses[pid][s.handIdx[pid] := Stand]])
  }

  /** A double down: the active hand's bet doubles, it takes exactly one card
      and is closed, as bust or standing. */
  function DoubledApplied(s: Snapshot, pid: PlayerId): (t: Snapshot)
    requires WellFormed(s) && OnTurn(s, pid) && |ActiveHand(s, pid)| == 2 && |s.shoe| >= 1
    ensures WellFormed(t)
  {
    var hi := s.handIdx[pid];
    var hand := s.hands[pid][hi] + [s.shoe[|s.shoe| - 1]];
    s.(shoe := s.shoe[..|s.shoe| - 1],
       hands := s.hands[pid := s.hands[pid][hi := hand]],
       bets := s.bets[pid := s.bets[pid][hi := 2 * s.bets[pid][hi]]],
       statuses := s.statuses[pid := s.statuses[pid][hi := if HandValue(hand) > 21 then Bust else Stand]])
  }

  /** A split: the active hand keeps its first card and takes the next card of
      the shoe; its second card starts a new last hand that takes the card
      after that, with the same bet and a waiting status. */
  function SplitApplied(s: Snapshot, pid: PlayerId): (t: Snapshot)
    requires WellFormed(s) && Splittable(s, pid) && |s.shoe| >= 2
    ensures WellFormed(t)
  {
    var hi := s.handIdx[pid];
    var hand := s.hands[pid][hi];
    var n := |s.shoe|;
    s.(shoe := s.shoe[..n - 2],
       hands := s.hands[pid := s.hands[pid][hi := [hand[0], s.shoe[n - 1]]] + [[hand[1], s.shoe[n - 2]]]],
       bets := s.bets[pid := s.bets[pid] + [s.bets[pid][hi]]],
       statuses := s.statuses[pid := s.statuses[pid] + [Waiting]])
  }

  /** As written, splitting a pair of aces on the first hand and dealing a
      ten-valued card to it leaves that hand a natural: settled after a stand
      against a dealer without one, it is paid 3:2. */
  lemma SplitAcesNaturalAsWritten(s: Snapshot, pid: PlayerId, bet: int)
    requires WellFormed(s) && Splittable(s, pid) && |s.shoe| >= 2
    requires s.handIdx[pid] == 0 && ActiveHand(s, pid)[0].rank == Ace && Value(s.shoe[|s.shoe| - 1]) == 10
    ensures var t := SplitApplied(s, pid);
            && |t.hands[pid]| == |s.hands[pid]| + 1
            && forall dealer :: !IsNatural(dealer) ==>
                 SettleHand(Stand, t.hands[pid][0], 0, bet, dealer) == HandResult(Blackjack, HalfTowardZero(3 * bet), true)
  {
    AceAndTenNatural(ActiveHand(s, pid)[0], s.shoe[|s.shoe| - 1]);
  }

  /** With the intended natural test, no hand of a player who has split is a
      natural. */
  lemma SplitLeavesNoNatural(s: Snapshot, pid: PlayerId)
    requires WellFormed(s) && Splittable(s, pid) && |s.shoe| >= 2
    ensures var t := SplitApplied(s, pid);
            forall i :: 0 <= i < |t.hands[pid]| ==> !NaturalUnsplit(t.hands[pid], i)
  {
  }

  /** The turn moves to hand h of the player at index p. */
  function MovedTo(s: Snapshot, p: nat, h: nat): (t: Snapshot)
    requires WellFormed(s) && p < |s.order| && h < |s.hands[s.order[p]]|
    requires s.phase == Playing
    ensures WellFormed(t)
  {
    s.(player := p, handIdx := s.handIdx[s.order[p] := h])
  }

  /** How many cards the dealer draws from shoe: none once the hand is worth
      17 or more, and none from an empty shoe. */
  function DealerDrawCount(dealer: Hand, shoe: seq<Card>): (d: nat)
    ensures d <= |shoe|
    ensures forall k :: 0 <= k < d ==> HandValue(dealer + Drawn(shoe, k)) < 17
    ensures d == |shoe| || HandValue(dealer + Drawn(shoe, d)) >= 17
    decreases |shoe|
  {
    assert Drawn(shoe, 0) == [] && dealer + [] == dealer;
    if HandValue(dealer) >= 17 || shoe == [] then 0
    else
      var rest := shoe[..|shoe| - 1];
      var top := shoe[|shoe| - 1];
      DrawnFromRest(shoe);
      var d := DealerDrawCount(dealer + [top], rest);
      assert forall k :: 1 <= k <= d + 1 ==> dealer + Drawn(shoe, k) == (dealer + [top]) + Drawn(rest, k - 1);
      1 + d
  }

  /** A count that meets the three conditions above is the dealer's count. */
  lemma DealerDrawCountUnique(dealer: Hand, shoe: seq<Card>, d: nat)
    requires d <= |shoe|
    requires forall k :: 0 <= k < d ==> HandValue(dealer + Drawn(shoe, k)) < 17
    requires d == |shoe| || HandValue(dealer + Drawn(shoe, d)) >= 17
    ensures d == DealerDrawCount(dealer, shoe)
  {
    var e := DealerDrawCount(dealer, shoe);
    var atD := HandValue(dealer + Drawn(shoe, d));
    var atE := HandValue(dealer + Drawn(shoe, e));
  }

  /** The dealer's hand and the shoe after the dealer has drawn. */
  function DealerDrawn(s: Snapshot): (t: Snapshot)
    ensures WellFormed(s) ==> WellFormed(t)
    ensures WellFormed(s.(phase := DealerTurn)) ==> WellFormed(t.(phase := DealerTurn))
  {
    var d := DealerDrawCount(s.dealer, s.shoe);
    s.(shoe := s.shoe[..|s.shoe| - d], dealer := s.dealer + Drawn(s.shoe, d))
  }

  /** The table's dealer turn: the dealer draws, and the round is finished
      when the hand reached 17; a shoe that runs dry leaves it in the dealer's
      turn. */
  function DealerPlayed(s: Snapshot): (t: Snapshot)
    ensures WellFormed(s.(phase := DealerTurn)) ==> WellFormed(t)
  {
    var t := DealerDrawn(s);
    t.(phase := if HandValue(t.dealer) >= 17 then Finished else DealerTurn)
  }

  class Game {
    var deck: Deck
    var playerHands: map<PlayerId, seq<Hand>>
    var dealerHand: Hand
    var playerBets: map<PlayerId, seq<int>>
    var playerStatuses: map<PlayerId, seq<HandStatus>>
    var gameStatus: Phase
    var currentPlayerIdx: int
    var currentHandIdx: map<PlayerId, int>
    var playersOrder: seq<PlayerId>

    function State(): Snapshot
      reads this, deck
    {
      Snapshot(deck.cards, playerHands, dealerHand, playerBets, playerStatuses,
               gameStatus, currentPlayerIdx, currentHandIdx, playersOrder)
    }

    ghost predicate Valid()
      reads this, deck
    {
      WellFormed(State())
    }

    /** An idle table with no participants and a fresh six-deck shoe. */
    constructor ()
      ensures fresh(deck) && FullShoe(deck.cards, ShoeDecks)
      ensures State() == Snapshot(deck.cards, map[], [], map[], map[], Idle, 0, map[], [])
      ensures Valid()
    {
      deck := new Deck(ShoeDecks);
      playerHands := map[];
      dealerHand := [];
      playerBets := map[];
      playerStatuses := map[];
      gameStatus := Idle;
      currentPlayerIdx := 0;
      currentHandIdx := map[];
      playersOrder := [];
    }

    /** Seats the participants for a new round and opens the betting; the shoe
        is replaced by a fresh one exactly when fewer than half its cards are
        left. */
    method StartNewGame(ids: seq<PlayerId>)
      requires Distinct(ids)
      modifies this
      ensures State() == Seated(ids, deck.cards)
      ensures Valid()
      ensures old(deck.Remaining()) < ReshuffleBelow ==> fresh(deck) && FullShoe(deck.cards, ShoeDecks)
      ensures old(deck.Remaining()) >= ReshuffleBelow ==> deck == old(deck) && deck.cards == old(deck.cards)
    {
      playerHands := ForEach(ids, [[]]);
      dealerHand := [];
      playerBets := ForEach(ids, [0]);
      playerStatuses := ForEach(ids, [Waiting]);
      currentHandIdx := ForEach(ids, 0);
      gameStatus := Betting;
      currentPlayerIdx := 0;
      playersOrder := ids;
      RenewShoeIfLow();
    }

    /** A fresh shoe when fewer than half the cards are left. */
    method RenewShoeIfLow()
      modifies this`deck
      ensures old(deck.Remaining()) < ReshuffleBelow ==> fresh(deck) && FullShoe(deck.cards, ShoeDecks)
      ensures old(deck.Remaining()) >= ReshuffleBelow ==> deck == old(deck) && deck.cards == old(deck.cards)
    {
      if deck.Remaining() < ReshuffleBelow {
        deck := new Deck(ShoeDecks);
      }
    }

    /** Records a bet for a participant during betting; refused otherwise. */
    method PlaceBet(pid: PlayerId, amount: int) returns (ok: bool)
      requires Valid()
      modifies this
      ensures ok <==> old(gameStatus) == Betting && pid in old(playersOrder)
      ensures deck == old(deck) && State() == if ok then BetPlaced(old(State()), pid, amount) else old(State())
      ensures Valid()
    {
      if gameStatus != Betting || pid !in playerHands {
        return false;
      }
      playerBets := playerBets[pid := playerBets[pid][0 := amount]];
      ok := true;
    }

    /** Deals the opening cards once every participant has bet; refused in
        any other phase or while a first bet is still 0. */
    method DealInitialCards() returns (ok: bool)
      requires Valid()
      requires gameStatus == Betting && AllBetsPlaced(State()) ==> |deck.cards| >= 2 * |playersOrder| + 2
      modifies this, deck
      ensures ok <==> old(gameStatus) == Betting && old(AllBetsPlaced(State()))
      ensures deck == old(deck) && State() == if ok then InitialDealApplied(old(State())) else old(State())
      ensures Valid()
    {
      if gameStatus != Betting {
        return false;
      }
      if !AllBetsPlaced(State()) {
        return false;
      }
      DealOpeningCards();
      ok := true;
    }

    /** The opening deal itself, once betting is complete. */
    method DealOpeningCards()
      requires Valid() && gameStatus == Betting && |deck.cards| >= 2 * |playersOrder| + 2
      modifies this, deck
      ensures deck == old(deck) && State() == InitialDealApplied(old(State()))
    {
      ghost var s := State();
      ghost var t := InitialDealApplied(s);
      ghost var n := |s.shoe|;
      ghost var m := |s.order|;
      DealToPlayers(s.hands, s.shoe);
      assert playerHands == t.hands;
      var up, hole := DealPair();
      assert deck.cards == t.shoe;
      dealerHand := dealerHand + [up, hole];
      assert dealerHand == t.dealer;
      gameStatus := Playing;
    }

    /** Two cards to each participant's first hand, in turn order. */
    method DealToPlayers(ghost hands: map<PlayerId, seq<Hand>>, ghost shoe: seq<Card>)
      requires playerHands == hands && deck.cards == shoe
      requires |shoe| >= 2 * |playersOrder|
      modifies this`playerHands, deck
      ensures playerHands == DealtTo(hands, playersOrder, shoe, |playersOrder|)
      ensures deck.cards == shoe[..|shoe| - 2 * |playersOrder|]
    {
      var order := playersOrder;
      var dealtTo := playerHands;
      var i := 0;
      while i < |order|
        modifies deck
        invariant 0 <= i <= |order|
        invariant deck.cards == shoe[..|shoe| - 2 * i]
        invariant dealtTo == DealtTo(hands, order, shoe, i)
      {
        var first, second := DealPair();
        dealtTo := GiveTwo(dealtTo, order[i], first, second);
        i := i + 1;
      }
      playerHands := dealtTo;
    }

    /** Two successive deals from a shoe that holds at least two cards. */
    method DealPair() returns (first: Card, second: Card)
      requires |deck.cards| >= 2
      modifies deck
      ensures var n := |old(deck.cards)|;
              && first == old(deck.cards)[n - 1] && second == old(deck.cards)[n - 2]
              && deck.cards == old(deck.cards)[..n - 2]
    {
      var a := deck.Deal();
      var b := deck.Deal();
      first, second := a.value, b.value;
    }

    /** The participant whose turn it is, if the player index points at one. */
    function GetCurrentPlayer(): (r: Option<PlayerId>)
      reads this
      ensures r.Some? <==> 0 <= currentPlayerIdx < |playersOrder|
      ensures r.Some? ==> r.value in playersOrder
    {
      if 0 <= currentPlayerIdx < |playersOrder| then Some(playersOrder[currentPlayerIdx]) else None
    }

    /** Whether pid may act now, looking up an unknown player's hand index and
        statuses with empty defaults. */
    function IsPlayerTurn(pid: PlayerId): (r: bool)
      reads this, deck
      ensures Valid() ==> (r <==> OnTurn(State(), pid))
    {
      if gameStatus != Playing || GetCurrentPlayer() != Some(pid) then false
      else
        var hi := if pid in currentHandIdx then currentHandIdx[pid] else 0;
        var statuses := if pid in playerStatuses then playerStatuses[pid] else [];
        if !(0 <= hi < |statuses|) then false
        else statuses[hi] == Waiting
    }

    /** Whether pid may split now. */
    function CanSplit(pid: PlayerId): (r: bool)
      reads this, deck
      requires Valid()
      ensures r <==> Splittable(State(), pid)
    {
      if !IsPlayerTurn(pid) then false
      else
        var hand := playerHands[pid][currentHandIdx[pid]];
        |hand| == 2 && Value(hand[0]) == Value(hand[1])
    }

    /** The current player takes one card; refused unless pid is on turn. */
    method Hit(pid: PlayerId) returns (ok: bool, card: Option<Card>, value: int, bust: bool)
      requires Valid()
      requires OnTurn(State(), pid) ==> |deck.cards| >= 1
      modifies this, deck
      ensures ok <==> old(OnTurn(State(), pid))
      ensures ok ==>
                && deck == old(deck) && State() == HitApplied(old(State()), pid)
                && card == Some(old(deck.cards)[|old(deck.cards)| - 1])
                && value == HandValue(ActiveHand(State(), pid))
                && (bust <==> value > 21)
      ensures !ok ==> deck == old(deck) && State() == old(State()) && card == None && value == 0 && !bust
      ensures Valid()
    {
      if gameStatus != Playing || pid !in playerHands || playersOrder[currentPlayerIdx] != pid {
        return false, None, 0, false;
      }
      var hi := currentHandIdx[pid];
      if playerStatuses[pid][hi] != Waiting {
        return false, None, 0, false;
      }
      card, value, bust := HitActiveHand(pid);
      ok := true;
    }

    /** The hit itself, once the guard has passed. */
    method HitActiveHand(pid: PlayerId) returns (card: Option<Card>, value: int, bust: bool)
      requires Valid() && OnTurn(State(), pid) && |deck.cards| >= 1
      modifies this, deck
      ensures deck == old(deck) && State() == HitApplied(old(State()), pid)
      ensures card == Some(old(deck.cards)[|old(deck.cards)| - 1])
      ensures value == HandValue(ActiveHand(State(), pid))
      ensures bust <==> value > 21
    {
      ghost var s := State();
      ghost var t := HitApplied(s, pid);
      var hi := currentHandIdx[pid];
      card := deck.Deal();
      var hand := playerHands[pid][hi] + [card.value];
      playerHands := playerHands[pid := playerHands[pid][hi := hand]];
      value := CalculateHandValue(hand);
      bust := value > 21;
      if bust {
        playerStatuses := playerStatuses[pid := playerStatuses[pid][hi := Bust]];
      }
      assert State() == t;
    }

    /** The current player stands on the active hand; refused unless pid is
        on turn. */
    method Stand(pid: PlayerId) returns (ok: bool)
      requires Valid()
      modifies this
      ensures ok <==> old(OnTurn(State(), pid))
      ensures deck == old(deck) && State() == if ok then StandApplied(old(State()), pid) else old(State())
      ensures Valid()
    {
      if gameStatus != Playing || pid !in playerHands || playersOrder[currentPlayerIdx] != pid {
        return false;
      }
      var hi := currentHandIdx[pid];
      if playerStatuses[pid][hi] != Waiting {
        return false;
      }
      playerStatuses := playerStatuses[pid := playerStatuses[pid][hi := HandStatus.Stand]];
      ok := true;
    }

    /** The current player doubles; refused unless pid is on turn with a
        two-card hand. */
    method DoubleDown(pid: PlayerId) returns (ok: bool, card: Option<Card>, value: int, bust: bool)
      requires Valid()
      requires OnTurn(State(), pid) ==> |deck.cards| >= 1
      modifies this, deck
      ensures ok <==> old(OnTurn(State(), pid)) && old(|ActiveHand(State(), pid)|) == 2
      ensures ok ==>
                && deck == old(deck) && State() == DoubledApplied(old(State()), pid)
                && card == Some(old(deck.cards)[|old(deck.cards)| - 1])
                && value == HandValue(ActiveHand(State(), pid))
                && (bust <==> value > 21)
      ensures !ok ==> deck == old(deck) && State() == old(State()) && card == None && value == 0 && !bust
      ensures Valid()
    {
      if gameStatus != Playing || pid !in playerHands || playersOrder[currentPlayerIdx] != pid {
        return false, None, 0, false;
      }
      var hi := currentHandIdx[pid];
      if playerStatuses[pid][hi] != Waiting || |playerHands[pid][hi]| != 2 {
        return false, None, 0, false;
      }
      card, value, bust := DoubleActiveHand(pid);
      ok := true;
    }

    /** The double down itself, once the guard has passed. */
    method DoubleActiveHand(pid: PlayerId) returns (card: Option<Card>, value: int, bust: bool)
      requires Valid() && OnTurn(State(), pid) && |ActiveHand(State(), pid)| == 2 && |deck.cards| >= 1
      modifies this, deck
      ensures deck == old(deck) && State() == DoubledApplied(old(State()), pid)
      ensures card == Some(old(deck.cards)[|old(deck.cards)| - 1])
      ensures value == HandValue(ActiveHand(State(), pid))
      ensures bust <==> value > 21
    {
      ghost var s := State();
      ghost var t := DoubledApplied(s, pid);
      var hi := currentHandIdx[pid];
      playerBets := playerBets[pid := playerBets[pid][hi := 2 * playerBets[pid][hi]]];
      assert playerBets == t.bets;
      card := deck.Deal();
      assert deck.cards == t.shoe;
      var hand := playerHands[pid][hi] + [card.value];
      playerHands := playerHands[pid := playerHands[pid][hi := hand]];
      assert playerHands == t.hands;
      value := CalculateHandValue(hand);
      bust := value > 21;
      var closed := if bust then Bust else HandStatus.Stand;
      playerStatuses := playerStatuses[pid := playerStatuses[pid][hi := closed]];
      assert playerStatuses == t.statuses;
    }

    /** The current player splits a pair; refused unless pid is on turn with
        two cards of the same value. */
    method Split(pid: PlayerId) returns (ok: bool)
      requires Valid()
      requires Splittable(State(), pid) ==> |deck.cards| >= 2
      modifies this, deck
      ensures ok <==> old(Splittable(State(), pid))
      ensures deck == old(deck) && State() == if ok then SplitApplied(old(State()), pid) else old(State())
      ensures Valid()
    {
      if gameStatus != Playing || pid !in playerHands || playersOrder[currentPlayerIdx] != pid {
        return false;
      }
      var hi := currentHandIdx[pid];
      if playerStatuses[pid][hi] != Waiting || |playerHands[pid][hi]| != 2 {
        return false;
      }
      var hand := playerHands[pid][hi];
      if Value(hand[0]) != Value(hand[1]) {
        return false;
      }
      SplitActiveHand(pid);
      ok := true;
    }

    /** The split itself, once the guard has passed. */
    method SplitActiveHand(pid: PlayerId)
      requires Valid() && Splittable(State(), pid) && |deck.cards| >= 2
      modifies this, deck
      ensures deck == old(deck) && State() == SplitApplied(old(State()), pid)
    {
      ghost var s := State();
      ghost var t := SplitApplied(s, pid);
      var hi := currentHandIdx[pid];
      var hand := playerHands[pid][hi];
      var hands := playerHands[pid][hi := hand[..1]] + [[hand[1]]];
      var first := deck.Deal();
      hands := hands[hi := hands[hi] + [first.value]];
      var second := deck.Deal();
      hands := hands[|hands| - 1 := hands[|hands| - 1] + [second.value]];
      assert hands[hi] == [hand[0], s.shoe[|s.shoe| - 1]];
      assert hands[|hands| - 1] == [hand[1], s.shoe[|s.shoe| - 2]];
      assert hands == t.hands[pid];
      playerHands := playerHands[pid := hands];
      playerBets := playerBets[pid := playerBets[pid] + [playerBets[pid][hi]]];
      playerStatuses := playerStatuses[pid := playerStatuses[pid] + [Waiting]];
      assert State() == t;
    }

    /** The table's own turn advance: the current player's next hand if any,
        otherwise the first later player with a waiting hand, at that hand,
        otherwise the dealer's turn. */
    method AdvanceToNextPlayer()
      requires Valid() && gameStatus == Playing && 0 <= currentPlayerIdx < |playersOrder|
      modifies this, deck
      ensures deck == old(deck)
      ensures State() == match TableAdvance(old(playersOrder), old(playerStatuses), old(currentPlayerIdx),
                                            old(currentHandIdx[playersOrder[currentPlayerIdx]]))
                         case NextHand(p, h) => MovedTo(old(State()), p, h)
                         case ToDealer(p) => DealerPlayed(old(State()).(player := p))
      ensures Valid()
    {
      var pid := playersOrder[currentPlayerIdx];
      var hi := currentHandIdx[pid];
      if hi < |playerHands[pid]| - 1 {
        currentHandIdx := currentHandIdx[pid := hi + 1];
      } else {
        PassTurnOn();
      }
    }

    /** The current player's last hand is done: the turn passes to the first
        later player with a waiting hand, or to the dealer. */
    method PassTurnOn()
      requires Valid() && gameStatus == Playing && 0 <= currentPlayerIdx < |playersOrder|
      modifies this, deck
      ensures deck == old(deck)
      ensures var next := NextWaitingPlayer(old(playersOrder), old(playerStatuses), old(currentPlayerIdx) + 1);
              State() == if next < |old(playersOrder)|
                         then MovedTo(old(State()), next, FirstWaitingFrom(old(playerStatuses)[old(playersOrder)[next]], 0))
                         else DealerPlayed(old(State()).(player := next))
      ensures Valid()
    {
      var next := FindWaitingPlayer(playersOrder, playerStatuses, currentPlayerIdx + 1);
      if next < |playersOrder| {
        TurnTo(next);
      } else {
        currentPlayerIdx := next;
        RunDealerTurn();
      }
    }

    /** The turn moves to the first waiting hand of the player at index next. */
    method TurnTo(next: nat)
      requires Valid() && gameStatus == Playing && next < |playersOrder|
      requires HasWaiting(playerStatuses[playersOrder[next]])
      modifies this`currentPlayerIdx, this`currentHandIdx
      ensures State() == MovedTo(old(State()), next, FirstWaitingFrom(old(playerStatuses)[old(playersOrder)[next]], 0))
      ensures Valid()
    {
      var pid := playersOrder[next];
      FirstWaitingFound(playerStatuses[pid]);
      var first := FindWaitingHand(playerStatuses[pid], 0);
      currentPlayerIdx := next;
      currentHandIdx := currentHandIdx[pid := first];
    }

    /** The dealer draws from the shoe while the hand is worth less than 17;
        the result says whether the hand reached 17 before the shoe ran dry. */
    method DrawDealerCards() returns (complete: bool)
      modifies this`dealerHand, deck
      ensures deck == old(deck) && State() == DealerDrawn(old(State()))
      ensures complete <==> HandValue(dealerHand) >= 17
    {
      ghost var s := State();
      var value;
      ghost var d;
      value, d := DrawBelowSeventeen();
      DealerDrawCountUnique(s.dealer, s.shoe, d);
      assert State() == s.(shoe := deck.cards, dealer := dealerHand);
      complete := value >= 17;
    }

    /** The dealer's drawing loop: d cards are drawn, each while the hand was
        below 17, and drawing stops at 17 or on an empty shoe. */
    method DrawBelowSeventeen() returns (value: int, ghost d: nat)
      modifies this`dealerHand, deck
      ensures d <= |old(deck.cards)|
      ensures deck.cards == old(deck.cards)[..|old(deck.cards)| - d]
      ensures dealerHand == old(dealerHand) + Drawn(old(deck.cards), d)
      ensures value == HandValue(dealerHand)
      ensures forall k :: 0 <= k < d ==> HandValue(old(dealerHand) + Drawn(old(deck.cards), k)) < 17
      ensures d == |old(deck.cards)| || value >= 17
    {
      ghost var shoe := deck.cards;
      ghost var start := dealerHand;
      d := 0;
      value := CalculateHandValue(dealerHand);
      while value < 17 && deck.Remaining() > 0
        invariant d <= |shoe|
        invariant deck.cards == shoe[..|shoe| - d]
        invariant dealerHand == start + Drawn(shoe, d)
        invariant value == HandValue(dealerHand)
        invariant forall k :: 0 <= k < d ==> HandValue(start + Drawn(shoe, k)) < 17
        decreases |deck.cards|
      {
        var c := deck.Deal();
        DrawnNext(shoe, d);
        dealerHand := dealerHand + [c.value];
        d := d + 1;
        value := CalculateHandValue(dealerHand);
      }
    }

    /** The table's dealer turn; a hand that reached 17 goes on to settlement. */
    method RunDealerTurn()
      requires WellFormed(State().(phase := DealerTurn))
      modifies this, deck
      ensures deck == old(deck) && State() == DealerPlayed(old(State()))
      ensures Valid()
    {
      ghost var s := State().(phase := DealerTurn);
      ghost var drawn := DealerDrawn(s);
      assert WellFormed(drawn);
      gameStatus := DealerTurn;
      var complete := DrawDealerCards();
      assert State() == drawn;
      if complete {
        var _ := DetermineWinners();
      }
    }

    /** Settles every hand against the dealer: one result list per participant,
        one result per hand in hand order; the round is finished. */
    method DetermineWinners() returns (results: map<PlayerId, seq<HandResult>>)
      requires Valid()
      modifies this`gameStatus
      ensures State() == old(State()).(phase := Finished)
      ensures forall p :: p in results <==> p in playersOrder
      ensures forall p :: p in playersOrder ==>
                results[p] == SettlePlayer(playerHands[p], playerBets[p], playerStatuses[p], dealerHand)
    {
      gameStatus := Finished;
      results := SettleAll(State());
    }

    /** The results of every participant, in turn order. */
    static method SettleAll(s: Snapshot) returns (results: map<PlayerId, seq<HandResult>>)
      requires WellFormed(s)
      ensures forall p :: p in results <==> p in s.order
      ensures forall p :: p in s.order ==>
                results[p] == SettlePlayer(s.hands[p], s.bets[p], s.statuses[p], s.dealer)
    {
      results := map[];
      var i := 0;
      while i < |s.order|
        invariant 0 <= i <= |s.order|
        invariant forall p :: p in results ==> p in s.order
        invariant forall k :: 0 <= k < i ==>
                    && s.order[k] in results
                    && results[s.order[k]] == SettlePlayer(s.hands[s.order[k]], s.bets[s.order[k]], s.statuses[s.order[k]], s.dealer)
      {
        var pid := s.order[i];
        var row := SettleHands(s.hands[pid], s.bets[pid], s.statuses[pid], s.dealer);
        results := results[pid := row];
        i := i + 1;
      }
    }

    /** One participant's results, hand by hand. */
    static method SettleHands(hands: seq<Hand>, bets: seq<int>, statuses: seq<HandStatus>, dealer: Hand)
      returns (row: seq<HandResult>)
      requires |bets| == |hands| && |statuses| == |hands|
      ensures row == SettlePlayer(hands, bets, statuses, dealer)
    {
      row := [];
      var j := 0;
      while j < |hands|
        invariant 0 <= j <= |hands|
        invariant row == SettlePlayer(hands, bets, statuses, dealer)[..j]
      {
        row := row + [SettleHand(statuses[j], hands[j], j, bets[j], dealer)];
        j := j + 1;
      }
    }
  }
}

/** The chat-bot side of the game: the registered players' chip records, the
    checks the bot makes before it passes a command on to the table, the chips
    it debits during play, its own turn advance, its own dealer turn with the
    chip credits of settlement, and the daily check-in. One table is modelled. */
module Casino {
  import opened Wrappers
  import opened Cards
  import opened Hands
  import opened Settlement
  import opened Turns
  import opened Table

  /** A registered player's record in the player store. */
  datatype PlayerRecord = PlayerRecord(chips: int, level: int, exp: int, lastCheckin: string)

  type Players = map<PlayerId, PlayerRecord>

  /** Why the bot turns a command down. */
  datatype Refusal =
    | NotRegistered
    | RoundInProgress
    | NoReadyPlayers
    | NotBettingPhase
    | NotParticipant
    | BadAmountFormat
    | NonPositiveAmount
    | InsufficientChips
    | NotPlayingPhase
    | NotYourTurn
    | ActionFailed
    | NeedTwoCards
    | NotAPair
    | AlreadyCheckedIn

  /** The checks before a round starts: a registered caller, no round under
      way, and at least one player ready. */
  function StartRefusal(players: Players, phase: Phase, pid: PlayerId, ready: seq<PlayerId>): (r: Option<Refusal>)
    ensures r.None? <==> pid in players && phase == Idle && |ready| >= 1
    ensures r == Some(NotRegistered) <==> pid !in players
  {
    if pid !in players then Some(NotRegistered)
    else if phase != Idle then Some(RoundInProgress)
    else if |ready| < 1 then Some(NoReadyPlayers)
    else None
  }

  /** The checks on a bet, in the bot's order; amount is None when the message
      does not hold an integer. A bet is accepted with its amount exactly when
      the caller is registered and seated, betting is open and the amount is
      positive and covered by the caller's chips. */
  function CheckBet(players: Players, s: Snapshot, pid: PlayerId, amount: Option<int>): (r: Result<int, Refusal>)
    ensures r.Success? <==> && pid in players && s.phase == Betting && pid in s.hands
                            && amount.Some? && 0 < amount.value <= players[pid].chips
    ensures r.Success? ==> r.value == amount.value
    ensures r == Failure(NotRegistered) <==> pid !in players
    ensures r == Failure(NotBettingPhase) <==> pid in players && s.phase != Betting
    ensures r == Failure(NotParticipant) <==> pid in players && s.phase == Betting && pid !in s.hands
    ensures r == Failure(BadAmountFormat) <==> pid in players && s.phase == Betting && pid in s.hands && amount.None?
    ensures r == Failure(NonPositiveAmount) <==>
              pid in players && s.phase == Betting && pid in s.hands && amount.Some? && amount.value <= 0
    ensures r == Failure(InsufficientChips) <==>
              && pid in players && s.phase == Betting && pid in s.hands
              && amount.Some? && 0 < amount.value && players[pid].chips < amount.value
  {
    if pid !in players then Failure(NotRegistered)
    else if s.phase != Betting then Failure(NotBettingPhase)
    else if pid !in s.hands then Failure(NotParticipant)
    else if amount.None? then Failure(BadAmountFormat)
    else if amount.value <= 0 then Failure(NonPositiveAmount)
    else if amount.value > players[pid].chips then Failure(InsufficientChips)
    else Success(amount.value)
  }

  /** The participants, in turn order, whose first bet is still 0. */
  function StillToBet(order: seq<PlayerId>, bets: map<PlayerId, seq<int>>): (r: seq<PlayerId>)
    requires forall p :: p in order ==> p in bets && |bets[p]| >= 1
    ensures forall p :: p in r <==> p in order && bets[p][0] == 0
  {
    if order == [] then []
    else
      var last := order[|order| - 1];
      StillToBet(order[..|order| - 1], bets) + if bets[last][0] == 0 then [last] else []
  }

  /** Nobody is still to bet exactly when the table would accept the deal. */
  lemma StillToBetEmpty(s: Snapshot)
    requires WellFormed(s)
    ensures StillToBet(s.order, s.bets) == [] <==> AllBetsPlaced(s)
  {
    var r := StillToBet(s.order, s.bets);
    if r != [] {
      assert r[0] in r;
    }
  }

  /** The pending-bet test as the bot writes it: it compares a participant's
      bet entry, which is a list of stakes, with the number 0. In Python a list
      is never equal to an integer, so this `==` is always False, and the
      predicate is the constant false. */
  predicate BetEntryIsZeroAsWritten(entry: seq<int>) {
    false
  }

  /** The waiting list as the bot builds it with that test. */
  function StillToBetAsWritten(order: seq<PlayerId>, bets: map<PlayerId, seq<int>>): (r: seq<PlayerId>)
    requires forall p :: p in order ==> p in bets
    ensures forall p :: p in r <==> p in order && BetEntryIsZeroAsWritten(bets[p])
  {
    if order == [] then []
    else
      var last := order[|order| - 1];
      StillToBetAsWritten(order[..|order| - 1], bets) + if BetEntryIsZeroAsWritten(bets[last]) then [last] else []
  }

  /** As written, nobody is ever on the waiting list, whatever the bets: the
      test it is built from is the constant false. */
  lemma {:induction false} StillToBetAsWrittenEmpty(order: seq<PlayerId>, bets: map<PlayerId, seq<int>>)
    requires forall p :: p in order ==> p in bets
    ensures StillToBetAsWritten(order, bets) == []
  {
    if order != [] {
      StillToBetAsWrittenEmpty(order[..|order| - 1], bets);
    }
  }

  /** With two participants, after the first bet the waiting list as written is
      empty, so the bot goes on to deal; the table refuses because the second
      bet is still 0, and the dealer hand the bot then reads its up card from
      is empty. */
  lemma DealAttemptedBeforeAllBets()
    ensures var s := BetPlaced(Seated(["a", "b"], []), "a", 100);
            && StillToBetAsWritten(s.order, s.bets) == []
            && !AllBetsPlaced(s)
            && s.dealer == []
  {
    var order := ["a", "b"];
    assert Distinct(order);
    var s := BetPlaced(Seated(order, []), "a", 100);
    assert "b" in order && s.bets["b"] == [0];
    StillToBetAsWrittenEmpty(s.order, s.bets);
  }

  /** The checks of the play commands: a registered caller, a round in play,
      and the caller's position in the turn order equal to the current player
      index. Since the order has no repeats this is the table's own test that
      the caller is the current player. */
  function TurnRefusal(players: Players, s: Snapshot, pid: PlayerId): (r: Option<Refusal>)
    requires WellFormed(s)
    ensures r.None? <==> pid in players && s.phase == Playing && 0 <= s.player < |s.order| && s.order[s.player] == pid
  {
    if pid !in players then Some(NotRegistered)
    else if s.phase != Playing then Some(NotPlayingPhase)
    else if IndexOf(s.order, pid) != s.player then Some(NotYourTurn)
    else None
  }

  /** Hit and stand: the turn checks, then the table's own refusal when the
      active hand is no longer waiting. */
  function PlayRefusal(players: Players, s: Snapshot, pid: PlayerId): (r: Option<Refusal>)
    requires WellFormed(s)
    ensures r.None? <==> pid in players && OnTurn(s, pid)
  {
    var turn := TurnRefusal(players, s, pid);
    if turn.Some? then turn
    else if !OnTurn(s, pid) then Some(ActionFailed)
    else None
  }

  /** The stake of pid's active hand. */
  function ActiveBet(s: Snapshot, pid: PlayerId): int
    requires WellFormed(s) && pid in s.order
  {
    s.bets[pid][s.handIdx[pid]]
  }

  /** Double down: the turn checks, exactly two cards, chips covering the
      hand's stake, then the table's own refusal. */
  function DoubleRefusal(players: Players, s: Snapshot, pid: PlayerId): (r: Option<Refusal>)
    requires WellFormed(s)
    ensures r.None? <==> && pid in players && OnTurn(s, pid) && |ActiveHand(s, pid)| == 2
                         && ActiveBet(s, pid) <= players[pid].chips
    ensures r == Some(NeedTwoCards) ==> TurnRefusal(players, s, pid).None? && |ActiveHand(s, pid)| != 2
  {
    var turn := TurnRefusal(players, s, pid);
    if turn.Some? then turn
    else if |ActiveHand(s, pid)| != 2 then Some(NeedTwoCards)
    else if players[pid].chips < ActiveBet(s, pid) then Some(InsufficientChips)
    else if !OnTurn(s, pid) then Some(ActionFailed)
    else None
  }

  /** Split: the turn checks, chips covering the hand's stake, then a pair the
      table would split; a refusal there says whether the hand lacks two cards
      or is not a pair. */
  function SplitRefusal(players: Players, s: Snapshot, pid: PlayerId): (r: Option<Refusal>)
    requires WellFormed(s)
    ensures r.None? <==> pid in players && Splittable(s, pid) && ActiveBet(s, pid) <= players[pid].chips
    ensures r == Some(NotAPair) ==> TurnRefusal(players, s, pid).None? && |ActiveHand(s, pid)| == 2
  {
    var turn := TurnRefusal(players, s, pid);
    if turn.Some? then turn
    else if players[pid].chips < ActiveBet(s, pid) then Some(InsufficientChips)
    else if !Splittable(s, pid) then
      if |ActiveHand(s, pid)| != 2 then Some(NeedTwoCards) else Some(NotAPair)
    else None
  }

  /** amount taken from pid's chips; every other record and field stays. */
  function Debit(players: Players, pid: PlayerId, amount: int): (r: Players)
    requires pid in players
    ensures r.Keys == players.Keys
    ensures r[pid] == players[pid].(chips := players[pid].chips - amount)
    ensures forall q :: q in players && q != pid ==> r[q] == players[q]
  {
    players[pid := players[pid].(chips := players[pid].chips - amount)]
  }

  /** amount added to pid's chips, when pid is registered. */
  function CreditOne(players: Players, pid: PlayerId, amount: int): Players {
    if pid in players then players[pid := players[pid].(chips := players[pid].chips + amount)] else players
  }

  /** The chips credited to a participant at settlement, over all its hands. */
  function PlayerCredit(s: Snapshot, pid: PlayerId): int
    requires WellFormed(s) && pid in s.order
  {
    TotalCredit(s.hands[pid], s.bets[pid], s.statuses[pid], s.dealer, |s.hands[pid]|)
  }

  /** The records once the first k participants in turn order have been
      credited. */
  function Credited(players: Players, s: Snapshot, k: nat): Players
    requires WellFormed(s) && k <= |s.order|
  {
    if k == 0 then players
    else CreditOne(Credited(players, s, k - 1), s.order[k - 1], PlayerCredit(s, s.order[k - 1]))
  }

  /** Crediting registers nobody and drops nobody. */
  lemma {:induction false} CreditedKeys(players: Players, s: Snapshot, k: nat)
    requires WellFormed(s) && k <= |s.order|
    ensures forall p :: p in Credited(players, s, k) <==> p in players
  {
    if k > 0 {
      CreditedKeys(players, s, k - 1);
    }
  }

  /** A record that is not among the first k participants is untouched. */
  lemma {:induction false} CreditedUntouched(players: Players, s: Snapshot, k: nat, p: PlayerId)
    requires WellFormed(s) && k <= |s.order|
    requires p in players && p !in s.order[..k]
    ensures p in Credited(players, s, k) && Credited(players, s, k)[p] == players[p]
  {
    if k > 0 {
      var q := s.order[k - 1];
      assert s.order[..k] == s.order[..k - 1] + [q];
      assert p != q && p !in s.order[..k - 1];
      CreditedUntouched(players, s, k - 1, p);
      CreditOneOther(Credited(players, s, k - 1), q, PlayerCredit(s, q), p);
    }
  }

  /** Crediting one player leaves every other record as it was. */
  lemma CreditOneOther(players: Players, q: PlayerId, amount: int, p: PlayerId)
    requires p in players && p != q
    ensures p in CreditOne(players, q, amount) && CreditOne(players, q, amount)[p] == players[p]
  {
  }

  /** The registered participant at turn index i < k gets its settlement
      credit exactly once. */
  lemma {:induction false} CreditedParticipant(players: Players, s: Snapshot, k: nat, i: nat)
    requires WellFormed(s) && i < k <= |s.order|
    requires s.order[i] in players
    ensures s.order[i] in Credited(players, s, k)
    ensures Credited(players, s, k)[s.order[i]]
            == players[s.order[i]].(chips := players[s.order[i]].chips + PlayerCredit(s, s.order[i]))
  {
    var q := s.order[k - 1];
    if i == k - 1 {
      var before := s.order[..k - 1];
      forall j | 0 <= j < |before| ensures before[j] != q {
        assert before[j] == s.order[j];
      }
      CreditedUntouched(players, s, k - 1, q);
    } else {
      assert s.order[i] != q;
      CreditedParticipant(players, s, k - 1, i);
    }
  }

  /** What the bot credits a participant is the sum of its stakes plus the net
      winnings of the table's own results for its hands. */
  lemma CreditMatchesResults(s: Snapshot, pid: PlayerId)
    requires WellFormed(s) && pid in s.order
    ensures PlayerCredit(s, pid)
            == SumBets(s.bets[pid]) + SumWinnings(SettlePlayer(s.hands[pid], s.bets[pid], s.statuses[pid], s.dealer))
  {
    var n := |s.hands[pid]|;
    TotalCreditIsStakesPlusWinnings(s.hands[pid], s.bets[pid], s.statuses[pid], s.dealer, n);
    assert s.bets[pid][..n] == s.bets[pid];
    var results := SettlePlayer(s.hands[pid], s.bets[pid], s.statuses[pid], s.dealer);
    assert results[..n] == results;
  }

  /** Settlement as written, for a participant with one hand that stood,
      neither hand a natural and the dealer not bust. The bot takes no chips
      when the bet is placed and none when the hand stands, so the credit is
      the whole chip change of the round. A lower hand loses its stake at the
      table yet costs no chips; a higher hand wins its stake at the table yet
      brings twice the stake. */
  lemma OneStoodHandAsWritten(players: Players, s: Snapshot, pid: PlayerId)
    requires WellFormed(s) && pid in s.order && pid in players
    requires |s.hands[pid]| == 1 && s.statuses[pid][0] == Stand
    requires !PlayerNatural(s.hands[pid][0], 0) && !IsNatural(s.dealer) && HandValue(s.dealer) <= 21
    ensures var bet := s.bets[pid][0];
            var net := SumWinnings(SettlePlayer(s.hands[pid], s.bets[pid], s.statuses[pid], s.dealer));
            && pid in Credited(players, s, |s.order|)
            && (HandValue(s.hands[pid][0]) < HandValue(s.dealer) ==>
                  Credited(players, s, |s.order|)[pid] == players[pid] && net == -bet)
            && (HandValue(s.hands[pid][0]) > HandValue(s.dealer) ==>
                  Credited(players, s, |s.order|)[pid].chips == players[pid].chips + 2 * bet && net == bet)
  {
    var i := IndexOf(s.order, pid);
    CreditedParticipant(players, s, |s.order|, i);
    var hand, bet := s.hands[pid][0], s.bets[pid][0];
    assert TotalCredit(s.hands[pid], s.bets[pid], s.statuses[pid], s.dealer, 0) == 0;
    assert PlayerCredit(s, pid) == ChipCredit(Stand, hand, 0, bet, s.dealer);
    var results := SettlePlayer(s.hands[pid], s.bets[pid], s.statuses[pid], s.dealer);
    assert results[0] == SettleHand(Stand, hand, 0, bet, s.dealer);
    assert results[..0] == [];
    assert SumWinnings(results) == results[0].winnings;
  }

  /** The chip change of a round as the settlement code means it: every stake
      a participant's hands carry at the end (the bet, the top-up of a double
      down, the copy of a split) is taken when it is placed, and the settlement
      credit is paid back. That change is exactly the table's net winnings. */
  function IntendedNet(s: Snapshot, pid: PlayerId): (r: int)
    requires WellFormed(s) && pid in s.order
    ensures r == SumWinnings(SettlePlayer(s.hands[pid], s.bets[pid], s.statuses[pid], s.dealer))
  {
    CreditMatchesResults(s, pid);
    PlayerCredit(s, pid) - SumBets(s.bets[pid])
  }

  /** A table as a new table object starts: no round, nobody seated, a full shoe. */
  ghost predicate FreshTable(t: Snapshot) {
    && t == Snapshot(t.shoe, map[], [], map[], map[], Idle, 0, map[], [])
    && FullShoe(t.shoe, ShoeDecks)
  }

  /** The bot's dealer turn from table s: the dealer draws while below 17; once
      the hand reaches 17 every registered participant is credited and the
      table is replaced by a new one, while a shoe that runs dry leaves the
      table in the dealer's turn and the chips as they were. */
  ghost predicate DealerTurnDone(s: Snapshot, players: Players, t: Snapshot, players': Players)
    requires WellFormed(s.(phase := DealerTurn))
  {
    var d := DealerDrawn(s.(phase := DealerTurn));
    if HandValue(d.dealer) >= 17 then FreshTable(t) && players' == Credited(players, d, |d.order|)
    else t == d && players' == players
  }

  /** The table and records after the turn moves as adv says from table s:
      to a hand, or to the dealer's turn with the given player index. */
  ghost predicate MovedBy(adv: Advance, s: Snapshot, players: Players, t: Snapshot, players': Players)
    requires WellFormed(s) && s.phase == Playing
    requires adv.NextHand? ==> adv.player < |s.order| && adv.hand < |s.hands[s.order[adv.player]]|
    requires adv.ToDealer? ==> adv.player <= |s.order|
  {
    match adv
    case NextHand(p, h) => t == MovedTo(s, p, h) && players' == players
    case ToDealer(p) => DealerTurnDone(s.(player := p), players, t, players')
  }

  /** The bot's turn advance from table s, as the plugin rule picks it: another
      hand of the current player or a later player's first waiting hand, or the
      dealer's turn with the player index one past the current player. */
  ghost predicate Moved(s: Snapshot, players: Players, t: Snapshot, players': Players)
    requires WellFormed(s) && s.phase == Playing && 0 <= s.player < |s.order|
  {
    MovedBy(PluginAdvance(s.order, s.statuses, s.player, s.handIdx[s.order[s.player]]), s, players, t, players')
  }

  /** Experience a player of level L needs to go up a level, L*100*(1 + (L-1)/2),
      which is always a whole number. */
  function ExpNeeded(level: int): (e: int)
    ensures 2 * e == level * 100 * (2 + (level - 1))
  {
    100 * level + 50 * level * (level - 1)
  }

  /** One check-in on date today: refused on the date of the last check-in;
      otherwise 200 chips plus 50 per level and 10 experience, and a level up
      with 300 chips more when the new experience reaches what the level needs.
      Experience is not reset on a level up. */
  function Checkin(rec: PlayerRecord, today: string): (r: Result<PlayerRecord, Refusal>)
    ensures r.Failure? <==> rec.lastCheckin == today
    ensures r.Failure? ==> r.error == AlreadyCheckedIn
    ensures r.Success? ==>
              && r.value.lastCheckin == today
              && r.value.exp == rec.exp + 10
              && rec.level <= r.value.level <= rec.level + 1
              && (r.value.level == rec.level + 1 <==> rec.exp + 10 >= ExpNeeded(rec.level))
              && r.value.chips == rec.chips + 200 + 50 * rec.level + (if r.value.level > rec.level then 300 else 0)
  {
    if rec.lastCheckin == today then Failure(AlreadyCheckedIn)
    else
      var reward := 200 + rec.level * 50;
      var exp := rec.exp + 10;
      if exp >= ExpNeeded(rec.level) then Success(PlayerRecord(rec.chips + reward + 300, rec.level + 1, exp, today))
      else Success(PlayerRecord(rec.chips + reward, rec.level, exp, today))
  }

  /** A second check-in on the same date is refused. */
  lemma CheckinOncePerDay(rec: PlayerRecord, today: string)
    requires Checkin(rec, today).Success?
    ensures Checkin(Checkin(rec, today).value, today) == Failure(AlreadyCheckedIn)
  {
  }

  /** Level 1 needs 100 experience: a check-in at 80 brings 250 chips and no
      level, the next one at 90 brings 550 chips and level 2. */
  lemma FirstLevelUp()
    ensures ExpNeeded(1) == 100
    ensures Checkin(PlayerRecord(1000, 1, 80, "d1"), "d2") == Success(PlayerRecord(1250, 1, 90, "d2"))
    ensures Checkin(PlayerRecord(1250, 1, 90, "d2"), "d3") == Success(PlayerRecord(1800, 2, 100, "d3"))
  {
  }

  /** The bot: the player store and the one table. */
  class Bot {
    var game: Game
    var players: Players

    ghost predicate Valid()
      reads this, game, game.deck
    {
      game.Valid()
    }

    /** A bot with the given registered players and a table with no round. */
    constructor (registered: Players)
      ensures players == registered && fresh(game) && FreshTable(game.State())
      ensures Valid()
    {
      game := new Game();
      players := registered;
    }

    /** Starts a round for the ready players on a new table. */
    method StartRound(pid: PlayerId, ready: seq<PlayerId>) returns (err: Option<Refusal>)
      requires Valid() && Distinct(ready)
      modifies this
      ensures players == old(players)
      ensures err == StartRefusal(old(players), old(game.gameStatus), pid, ready)
      ensures err.Some? ==> game == old(game)
      ensures err.None? ==> fresh(game) && fresh(game.deck) && FullShoe(game.deck.cards, ShoeDecks)
                            && game.State() == Seated(ready, game.deck.cards)
      ensures Valid()
    {
      if pid !in players {
        return Some(NotRegistered);
      }
      if game.gameStatus != Idle {
        return Some(RoundInProgress);
      }
      if |ready| < 1 {
        return Some(NoReadyPlayers);
      }
      game := new Game();
      game.StartNewGame(ready);
      err := None;
    }

    /** A bet: the checks, the table's bet, and the opening deal once nobody is
        still to bet. */
    method PlaceBet(pid: PlayerId, amount: Option<int>) returns (err: Option<Refusal>)
      requires Valid()
      requires CheckBet(players, game.State(), pid, amount).Success?
               && AllBetsPlaced(BetPlaced(game.State(), pid, amount.value))
               ==> |game.deck.cards| >= 2 * |game.playersOrder| + 2
      modifies game, game.deck
      ensures match CheckBet(players, old(game.State()), pid, amount)
              case Failure(e) => err == Some(e) && game.State() == old(game.State())
              case Success(a) =>
                var b := BetPlaced(old(game.State()), pid, a);
                && err == None
                && game.State() == if StillToBet(b.order, b.bets) == [] then InitialDealApplied(b) else b
      ensures Valid()
    {
      if pid !in players {
        return Some(NotRegistered);
      }
      if game.gameStatus != Betting {
        return Some(NotBettingPhase);
      }
      if pid !in game.playerHands {
        return Some(NotParticipant);
      }
      if amount.None? {
        return Some(BadAmountFormat);
      }
      if amount.value <= 0 {
        return Some(NonPositiveAmount);
      }
      if amount.value > players[pid].chips {
        return Some(InsufficientChips);
      }
      var _ := game.PlaceBet(pid, amount.value);
      var waiting := CollectStillToBet(game.playersOrder, game.playerBets);
      StillToBetEmpty(game.State());
      if waiting == [] {
        DealWhenAllBet();
      }
      err := None;
    }

    /** The opening deal the bot asks for once every bet is in; it then puts
        the round in play at the first player. */
    method DealWhenAllBet()
      requires Valid() && game.gameStatus == Betting && StillToBet(game.playersOrder, game.playerBets) == []
      requires |game.deck.cards| >= 2 * |game.playersOrder| + 2
      modifies game, game.deck
      ensures game.State() == InitialDealApplied(old(game.State()))
      ensures Valid()
    {
      StillToBetEmpty(game.State());
      var _ := game.DealInitialCards();
      game.gameStatus := Playing;
      game.currentPlayerIdx := 0;
    }

    /** The scan for participants whose first bet is still 0. */
    static method CollectStillToBet(order: seq<PlayerId>, bets: map<PlayerId, seq<int>>) returns (waiting: seq<PlayerId>)
      requires forall p :: p in order ==> p in bets && |bets[p]| >= 1
      ensures waiting == StillToBet(order, bets)
    {
      waiting := [];
      var i := 0;
      while i < |order|
        invariant i <= |order|
        invariant waiting == StillToBet(order[..i], bets)
      {
        assert order[..i + 1][..i] == order[..i];
        if bets[order[i]][0] == 0 {
          waiting := waiting + [order[i]];
        }
        i := i + 1;
      }
      assert order[..|order|] == order;
    }

    /** A hit: the checks, the table's hit, and on a bust the hand's stake is
        debited and the turn advances; any other hit leaves the turn where it
        is. */
    method Hit(pid: PlayerId) returns (err: Option<Refusal>)
      requires Valid()
      requires OnTurn(game.State(), pid) ==> |game.deck.cards| >= 1
      modifies this, game, game.deck
      ensures err == PlayRefusal(old(players), old(game.State()), pid)
      ensures err.Some? ==> game == old(game) && game.State() == old(game.State()) && players == old(players)
      ensures err.None? ==>
                var h := HitApplied(old(game.State()), pid);
                var hi := h.handIdx[pid];
                if h.statuses[pid][hi] == Bust
                then Moved(h, Debit(old(players), pid, h.bets[pid][hi]), game.State(), players)
                else game == old(game) && game.State() == h && players == old(players)
      ensures Valid()
    {
      err := TurnChecks(pid);
      if err.Some? {
        return;
      }
      var hi := game.currentHandIdx[pid];
      ghost var s := game.State();
      var ok, card, value, bust := game.Hit(pid);
      if !ok {
        return Some(ActionFailed);
      }
      ghost var h := HitApplied(s, pid);
      assert game.State() == h;
      assert h.statuses[pid][hi] == Bust <==> value > 21;
      if value > 21 {
        DebitAndMove(pid, game.playerBets[pid][hi]);
      }
    }

    /** A finished hand's stake is debited and the turn advances. */
    method DebitAndMove(pid: PlayerId, amount: int)
      requires Valid() && game.gameStatus == Playing && 0 <= game.currentPlayerIdx < |game.playersOrder|
      requires pid in players
      modifies this, game, game.deck
      ensures Moved(old(game.State()), Debit(old(players), pid, amount), game.State(), players)
      ensures Valid()
    {
      players := Debit(players, pid, amount);
      MoveToNextPlayer();
    }

    /** A stand: the checks, the table's stand, and the turn advances. */
    method Stand(pid: PlayerId) returns (err: Option<Refusal>)
      requires Valid()
      modifies this, game, game.deck
      ensures err == PlayRefusal(old(players), old(game.State()), pid)
      ensures err.Some? ==> game == old(game) && game.State() == old(game.State()) && players == old(players)
      ensures err.None? ==> Moved(StandApplied(old(game.State()), pid), old(players), game.State(), players)
      ensures Valid()
    {
      err := TurnChecks(pid);
      if err.Some? {
        return;
      }
      var ok := game.Stand(pid);
      if !ok {
        return Some(ActionFailed);
      }
      MoveToNextPlayer();
    }

    /** A double down: the checks, the table's double, the original stake
        debited once more, and the turn advances. */
    method DoubleDown(pid: PlayerId) returns (err: Option<Refusal>)
      requires Valid()
      requires OnTurn(game.State(), pid) ==> |game.deck.cards| >= 1
      modifies this, game, game.deck
      ensures err == DoubleRefusal(old(players), old(game.State()), pid)
      ensures err.Some? ==> game == old(game) && game.State() == old(game.State()) && players == old(players)
      ensures err.None? ==>
                Moved(DoubledApplied(old(game.State()), pid), Debit(old(players), pid, ActiveBet(old(game.State()), pid)),
                      game.State(), players)
      ensures Valid()
    {
      err := TurnChecks(pid);
      if err.Some? {
        return;
      }
      var hi := game.currentHandIdx[pid];
      if |game.playerHands[pid][hi]| != 2 {
        return Some(NeedTwoCards);
      }
      var bet := game.playerBets[pid][hi];
      if players[pid].chips < bet {
        return Some(InsufficientChips);
      }
      var ok, card, value, bust := game.DoubleDown(pid);
      if !ok {
        return Some(ActionFailed);
      }
      DebitAndMove(pid, bet);
    }

    /** A split: the checks, the table's split, and the copied stake debited;
        the turn stays on the first of the two hands. */
    method Split(pid: PlayerId) returns (err: Option<Refusal>)
      requires Valid()
      requires Splittable(game.State(), pid) ==> |game.deck.cards| >= 2
      modifies this, game, game.deck
      ensures err == SplitRefusal(old(players), old(game.State()), pid)
      ensures game == old(game)
      ensures err.Some? ==> game.State() == old(game.State()) && players == old(players)
      ensures err.None? ==>
                && game.State() == SplitApplied(old(game.State()), pid)
                && players == Debit(old(players), pid, ActiveBet(old(game.State()), pid))
      ensures Valid()
    {
      err := TurnChecks(pid);
      if err.Some? {
        return;
      }
      var hi := game.currentHandIdx[pid];
      var bet := game.playerBets[pid][hi];
      if players[pid].chips < bet {
        return Some(InsufficientChips);
      }
      if !game.CanSplit(pid) {
        if |game.playerHands[pid][hi]| != 2 {
          return Some(NeedTwoCards);
        }
        return Some(NotAPair);
      }
      var _ := game.Split(pid);
      players := Debit(players, pid, bet);
    }

    /** The checks every play command starts with. */
    method TurnChecks(pid: PlayerId) returns (err: Option<Refusal>)
      requires Valid()
      ensures err == TurnRefusal(players, game.State(), pid)
    {
      if pid !in players {
        return Some(NotRegistered);
      }
      if game.gameStatus != Playing {
        return Some(NotPlayingPhase);
      }
      var index := IndexOf(game.playersOrder, pid);
      if index != game.currentPlayerIdx {
        return Some(NotYourTurn);
      }
      err := None;
    }

    /** The bot's turn advance: the scans pick where the turn goes, and the
        turn goes there. */
    method MoveToNextPlayer()
      requires Valid() && game.gameStatus == Playing && 0 <= game.currentPlayerIdx < |game.playersOrder|
      modifies this, game, game.deck
      ensures Moved(old(game.State()), old(players), game.State(), players)
      ensures Valid()
    {
      var pid := game.playersOrder[game.currentPlayerIdx];
      var adv := NextTurn(game.playersOrder, game.playerStatuses, game.currentPlayerIdx, game.currentHandIdx[pid]);
      TakeTurn(adv);
    }

    /** Where the turn goes from hand hi of the player at index cp: when that
        hand is finished and not the last, the player's first waiting hand
        after it, or simply the next hand; otherwise the first later player
        with a waiting hand, at its first waiting hand; otherwise the dealer,
        one past the current player. */
    static method NextTurn(order: seq<PlayerId>, statuses: map<PlayerId, seq<HandStatus>>, cp: nat, hi: nat)
      returns (adv: Advance)
      requires cp < |order| && Covers(order, statuses)
      ensures adv == PluginAdvance(order, statuses, cp, hi)
    {
      var own := statuses[order[cp]];
      if hi < |own| - 1 && own[hi] != Waiting {
        var i := FindWaitingHand(own, hi + 1);
        return NextHand(cp, if i < |own| then i else hi + 1);
      }
      var next := FindWaitingPlayer(order, statuses, cp + 1);
      if next < |order| {
        var first := FindWaitingHand(statuses[order[next]], 0);
        return NextHand(next, first);
      }
      adv := ToDealer(cp + 1);
    }

    /** The turn moves as adv says: to a hand, or past the last player to the
        dealer's turn. */
    method TakeTurn(adv: Advance)
      requires Valid() && game.gameStatus == Playing
      requires adv.NextHand? ==> adv.player < |game.playersOrder| && adv.hand < |game.playerHands[game.playersOrder[adv.player]]|
      requires adv.ToDealer? ==> adv.player <= |game.playersOrder|
      modifies this, game, game.deck
      ensures MovedBy(adv, old(game.State()), old(players), game.State(), players)
      ensures Valid()
    {
      match adv
      case NextHand(p, h) =>
        game.currentPlayerIdx := p;
        game.currentHandIdx := game.currentHandIdx[game.playersOrder[p] := h];
      case ToDealer(p) =>
        game.currentPlayerIdx := p;
        PlayDealerTurn();
    }

    /** The bot's dealer turn: draw while below 17, then, if the hand got
        there, credit every registered participant and put a new table in
        place of the old one. */
    method PlayDealerTurn()
      requires WellFormed(game.State().(phase := DealerTurn))
      modifies this, game, game.deck
      ensures DealerTurnDone(old(game.State()), old(players), game.State(), players)
      ensures Valid()
    {
      game.gameStatus := DealerTurn;
      var complete := game.DrawDealerCards();
      if complete {
        players := CreditParticipants(players, game.State());
        game := new Game();
      }
    }

    /** Settlement on table s: each registered participant, in turn order, is
        credited for all its hands; unregistered participants are skipped. */
    static method CreditParticipants(start: Players, s: Snapshot) returns (credited: Players)
      requires WellFormed(s)
      ensures credited == Credited(start, s, |s.order|)
    {
      credited := start;
      var k := 0;
      while k < |s.order|
        invariant 0 <= k <= |s.order|
        invariant credited == Credited(start, s, k)
      {
        var pid := s.order[k];
        if pid in credited {
          var total := HandsCredit(s.hands[pid], s.bets[pid], s.statuses[pid], s.dealer);
          credited := CreditOne(credited, pid, total);
        }
        k := k + 1;
      }
    }

    /** One participant's credit, hand by hand. */
    static method HandsCredit(hands: seq<Hand>, bets: seq<int>, statuses: seq<HandStatus>, dealer: Hand) returns (total: int)
      requires |bets| == |hands| && |statuses| == |hands|
      ensures total == TotalCredit(hands, bets, statuses, dealer, |hands|)
    {
      total := 0;
      var j := 0;
      while j < |hands|
        invariant j <= |hands|
        invariant total == TotalCredit(hands, bets, statuses, dealer, j)
      {
        total := total + ChipCredit(statuses[j], hands[j], j, bets[j], dealer);
        j := j + 1;
      }
    }

    /** The daily check-in of a registered player on date today. */
    method DailyCheckin(pid: PlayerId, today: string) returns (err: Option<Refusal>)
      modifies this`players
      ensures pid !in old(players) ==> err == Some(NotRegistered) && players == old(players)
      ensures pid in old(players) ==>
                match Checkin(old(players)[pid], today)
                case Failure(e) => err == Some(e) && players == old(players)
                case Success(rec) => err == None && players == old(players)[pid := rec]
    {
      if pid !in players {
        return Some(NotRegistered);
      }
      var result := Checkin(players[pid], today);
      if result.Failure? {
        return Some(result.error);
      }
      players := players[pid := result.value];
      err := None;
    }
  }
}

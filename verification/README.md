# Blackjack table and chat-bot plugin, modelled in Dafny

This project models the card-game engine of a chat-bot blackjack plugin for a single table. It has two parts.

The table class (`BJGame`) holds the six-deck shoe and every participant's parallel lists of hands, bets and statuses. It also holds the dealer's hand, the round phase (waiting, betting, playing, dealer turn, finished) and the current player and hand indices. Its guarded actions are place bet, opening deal, hit, stand, double down and split. It also has its own turn advance, the dealer's draw to 17 and per-hand settlement.

The plugin (`BlackJack`) drives the table from chat commands. It keeps a store of player records (chips, level, experience, date of the last check-in). It checks a command before passing it on and debits chips on a bust, a double down and a split. It has its own turn advance and its own dealer turn, which credits chips hand by hand and then puts a new table in place. It also runs the daily check-in.

Modules, in dependency order:

- `Wrappers`: `Option` and `Result`.
- `Cards`: ranks, card values, the shoe as the `Deck` class (construction loops, shuffle, deal from the end).
- `Hands`: the hand value with soft aces, as a closed form and as the scorer's two loops.
- `Settlement`: the table's result for a hand and the plugin's chip credit for it.
- `Turns`: both turn-advance rules as functions of the hand statuses, their scans as loops, and where the rules agree and differ.
- `Table`: the round as a `Snapshot` value with one function per action, and the `Game` class whose methods are proved to move the snapshot exactly as those functions say.
- `Casino`: the plugin's checks as refusal functions, the chip debits and credits, check-in arithmetic, and the `Bot` class holding the player map and the table.

The shuffle is a nondeterministic permutation. The check-in date is a parameter. Chat messages, files and the per-group registry of tables are outside the model.

## Model

| member | source | states |
|---|---|---|
| Cards.Value | blackjack_game.py:16-23 | A card is worth 11 exactly when it is an ace, 10 exactly when it is a ten or a face card, otherwise its pips; always between 2 and 11 |
| Cards.Deck.constructor | blackjack_game.py:27-34 | A new shoe of n decks holds 52·n cards with every suit/rank pair exactly n times, whatever order the shuffle leaves |
| Cards.Deck.BuildShoe | blackjack_game.py:29-33 | The construction loops build n decks one after another, each suit by suit and rank by rank |
| Cards.Deck.AppendDeck | blackjack_game.py:31-33 | One pass of the deck loop appends the four suits in order |
| Cards.Deck.AppendSuit | blackjack_game.py:32-33 | One pass of the suit loop appends the thirteen ranks of that suit in order |
| Cards.FreshShoeLength | blackjack_game.py:29-33 | The unshuffled shoe of n decks has 52·n cards |
| Cards.OneDeckMultiplicity | blackjack_game.py:31-33 | One deck holds every suit/rank pair exactly once |
| Cards.FreshShoeMultiplicity | blackjack_game.py:29-33 | The unshuffled shoe of n decks holds every suit/rank pair exactly n times |
| Cards.Deck.Shuffle | blackjack_game.py:36-38 | Shuffling only permutes: same multiset, same size |
| Cards.Deck.Remaining | blackjack_game.py:46-48 | The count of cards left, 0 exactly when the shoe is empty, and the size of the shoe's multiset |
| Cards.Deck.Deal | blackjack_game.py:40-44 | A deal removes and returns the last card and lowers the count by one; on an empty shoe it returns None and changes nothing |
| Cards.DrawnAndRest | blackjack_game.py:40-44 | After d deals, the cards dealt and the cards left together are exactly the original shoe |
| Hands.Reductions | blackjack_game.py:405-408 | The number of aces the scorer counts as 1 is the least number that brings the total to 21 or below, or all aces when none does |
| Hands.LeastReductionUnique | blackjack_game.py:405-408 | Any count with those three properties is that number |
| Hands.CalculateHandValue | blackjack_game.py:386-410 | The scorer's two loops compute the hand value: all aces as 11, minus 10 for each reduced ace |
| Hands.HandValueBounds | blackjack_game.py:395-410 | The value lies between the all-aces-as-1 total and the all-aces-as-11 total |
| Hands.HandValueAtMost21Iff | blackjack_game.py:395-410 | The value is at most 21 exactly when the all-aces-as-1 total is |
| Hands.HandValueIsBest | blackjack_game.py:395-410 | No other way of counting the aces gives a higher total that is still at most 21 |
| Hands.TotalsOfAppend | blackjack_game.py:398-403 | One more card adds its value to the high total and counts one more ace if it is an ace |
| Hands.SoftAceExample | blackjack_game.py:395-410 | A, A, 9 is worth 21 |
| Hands.AceAndTenNatural | blackjack_game.py:332 | An ace and any ten-valued card make a natural |
| Hands.NaturalExample | blackjack_game.py:332 | A, K is a natural |
| Settlement.SettleHand | blackjack_game.py:318-382 | The net winnings match the outcome (3:2 truncated toward zero for a natural); the natural flag holds exactly for a non-bust natural first hand; a bust hand loses; a natural wins only against a dealer without one |
| Settlement.ComparedOutcome | blackjack_game.py:355-382 | Without busts or naturals: win exactly when the dealer busts or the player is higher, lose exactly when the player is lower, push on equal values |
| Settlement.NaturalOutcome | blackjack_game.py:331-354 | Naturals decide before values: a lone player natural wins, a lone dealer natural wins for the dealer, two naturals push |
| Settlement.NaturalUnsplit | blackjack_game.py:331 | The intended natural test: it agrees with the written one while the player holds one hand, and is false for every hand once there are more |
| Settlement.HalfTowardZero | blackjack_game.py:338 | Half of a number rounded toward zero, as `int()` truncates a float: the remainder left over is 0 or 1 on the side of the number's sign |
| Settlement.NaturalPayoutRounding | blackjack.py:902 | A natural on a stake of 3 wins 4 and on a stake of -3 loses 4, truncated toward zero; a stake of 100 wins 150 |
| Settlement.ChipCredit | blackjack.py:898-966 | For every stake, the plugin's credit for a hand is the stake plus the table's net winnings for that hand |
| Settlement.CreditNotNegative | blackjack.py:898-966 | A stake that is not negative never brings a negative credit |
| Settlement.SettlePlayer | blackjack_game.py:318-382 | One result per hand |
| Settlement.TotalCreditIsStakesPlusWinnings | blackjack.py:885-967 | Over all of a player's hands, the plugin credits the sum of the stakes plus the table's net winnings |
| Turns.IndexOf | blackjack.py:619-620 | -1 exactly when the player is not in the order; otherwise the first position holding the player |
| Turns.FirstWaitingFrom | blackjack.py:802-805 | The first waiting hand at or after the start, or the list length when there is none |
| Turns.FirstWaitingFound | blackjack_game.py:282-288 | A status list with a waiting hand has a first waiting hand inside the list |
| Turns.NextWaitingPlayer | blackjack.py:821-831 | The first player at or after the start with a waiting hand, every player skipped having none |
| Turns.FindWaitingHand | blackjack.py:802-805 | The hand scan returns the first waiting hand at or after its start |
| Turns.FindWaitingPlayer | blackjack_game.py:279-290 | The player scan returns the first player at or after its start with a waiting hand |
| Turns.TableAdvance | blackjack_game.py:264-294 | The table's rule always lands on an existing hand of an existing player, or on the dealer |
| Turns.PluginAdvance | blackjack.py:786-835 | The plugin's rule lands on an existing hand, or on the dealer with the player index one past the current player |
| Turns.PluginAdvanceProgress | blackjack.py:796-835 | The plugin's rule moves forward: to the first later waiting hand of the same player, or the next hand when none is waiting, or to a later player's first waiting hand with every player in between finished, or to the dealer when no later player has a waiting hand |
| Turns.AdvanceRulesAgree | blackjack.py:796-835 | Right after the current hand is finished, with the later hands untouched, both rules pick the same hand; only the index left for the dealer differs |
| Turns.AdvanceRulesDiverge | blackjack_game.py:270-273 | On a hand still waiting the table moves to the next hand and the plugin to the next player; the dealer index also differs when a later player is done |
| Turns.TwoPlayerTurnOrder | blackjack.py:817-835 | Two one-hand players: after the first stands the second is on turn; after the second stands the dealer is |
| Table.Seated | blackjack_game.py:71-78 | A new round seats each participant at one empty hand with bet 0, waiting, at hand 0, in betting, and is well formed |
| Table.BetPlaced | blackjack_game.py:94-98 | Overwriting the first stake keeps the table well formed |
| Table.DealtToShape | blackjack_game.py:110-112 | The opening deal seats nobody new and adds no hand |
| Table.DealtToContents | blackjack_game.py:110-112 | The participant at turn position i receives the shoe's (2i+1)-th and (2i+2)-th cards from the end on its first hand; nobody else changes |
| Table.InitialDealApplied | blackjack_game.py:109-117 | The opening deal keeps the table well formed |
| Table.HitApplied | blackjack_game.py:141-151 | A hit keeps the table well formed |
| Table.StandApplied | blackjack_game.py:176 | A stand keeps the table well formed |
| Table.DoubledApplied | blackjack_game.py:201-216 | A double down keeps the table well formed |
| Table.SplitApplied | blackjack_game.py:247-260 | A split keeps the table well formed |
| Table.SplitAcesNaturalAsWritten | blackjack_game.py:247-260 | As written, splitting aces on the first hand and dealing it a ten-valued card makes that hand a natural, paid 3:2 after a stand against a dealer without one |
| Table.SplitLeavesNoNatural | blackjack_game.py:331 | With the intended test, no hand of a player who has just split is a natural |
| Table.MovedTo | blackjack_game.py:283-288 | Moving the turn to an existing hand keeps the table well formed |
| Table.DealerDrawCount | blackjack_game.py:301-302 | The dealer draws while below 17: every earlier hand was below 17, and drawing stops at 17 or on an empty shoe |
| Table.DealerDrawCountUnique | blackjack_game.py:301-302 | Any count with those properties is the dealer's count |
| Table.DealerDrawn | blackjack_game.py:301-302 | The dealer's draw keeps the table well formed |
| Table.DealerPlayed | blackjack_game.py:296-308 | The table's dealer turn keeps the table well formed |
| Table.Game.constructor | blackjack_game.py:52-62 | A new table has no participants, is waiting and holds a full six-deck shoe |
| Table.Game.StartNewGame | blackjack_game.py:64-82 | The new round is the seated table; the shoe is replaced by a full one exactly when fewer than 156 cards are left |
| Table.Game.RenewShoeIfLow | blackjack_game.py:80-82 | A fresh full shoe exactly when fewer than 156 cards are left, otherwise the same shoe |
| Table.Game.PlaceBet | blackjack_game.py:84-98 | Accepted exactly in betting for a participant, and then only the first stake changes; refused with nothing changed otherwise |
| Table.Game.DealInitialCards | blackjack_game.py:100-118 | Accepted exactly in betting with every first stake non-zero, and then the state is the opening deal; refused with nothing changed otherwise |
| Table.Game.DealOpeningCards | blackjack_game.py:109-117 | Two cards to each participant in turn order, then two to the dealer, and play begins |
| Table.Game.DealToPlayers | blackjack_game.py:110-112 | The dealing loop gives every participant its two cards and takes 2 cards per participant off the shoe |
| Table.Game.DealPair | blackjack_game.py:111-112 | Two deals return the last and second-to-last cards and remove them |
| Table.Game.GetCurrentPlayer | blackjack_game.py:454-458 | A player exactly when the index is inside the order, and then the player at that index |
| Table.Game.IsPlayerTurn | blackjack_game.py:464-474 | True exactly when the round is in play, the player is current and its active hand is waiting |
| Table.Game.CanSplit | blackjack_game.py:476-486 | True exactly when the player is on turn with two cards of equal value |
| Table.Game.Hit | blackjack_game.py:120-153 | Accepted exactly when the player is on turn; then one card is added to the active hand, which goes bust exactly when its value passes 21; refused with nothing changed otherwise |
| Table.Game.HitActiveHand | blackjack_game.py:141-153 | The hit's effect and the returned card, value and bust flag |
| Table.Game.Stand | blackjack_game.py:155-177 | Accepted exactly when the player is on turn; then the active hand stands; refused with nothing changed otherwise |
| Table.Game.DoubleDown | blackjack_game.py:179-218 | Accepted exactly when the player is on turn with two cards; then the stake doubles, one card is added and the hand is closed as bust or stand |
| Table.Game.DoubleActiveHand | blackjack_game.py:201-218 | The double down's effect and the returned card, value and bust flag |
| Table.Game.Split | blackjack_game.py:220-262 | Accepted exactly when the player is on turn with a pair; then the pair becomes two hands of one card each plus one dealt card, the new hand with the same stake and waiting, and the hand index unchanged |
| Table.Game.SplitActiveHand | blackjack_game.py:247-260 | The split's effect on hands, stakes, statuses and shoe |
| Table.Game.AdvanceToNextPlayer | blackjack_game.py:264-294 | The turn moves as the table's rule says, and to the dealer's turn when it picks the dealer |
| Table.Game.PassTurnOn | blackjack_game.py:275-294 | The turn passes to the first later player with a waiting hand, at that hand, or to the dealer |
| Table.Game.TurnTo | blackjack_game.py:280-289 | The player index and that player's hand index move to its first waiting hand, nothing else |
| Table.Game.DrawBelowSeventeen | blackjack_game.py:301-302 | The dealer's hand is only appended to from the end of the shoe, each card drawn below 17, until 17 or an empty shoe |
| Table.Game.DrawDealerCards | blackjack_game.py:301-302 | The dealer's draw, and whether the hand reached 17 |
| Table.Game.RunDealerTurn | blackjack_game.py:296-304 | The table's dealer turn, ending finished once the hand reached 17 |
| Table.Game.DetermineWinners | blackjack_game.py:306-384 | One result list per participant and one result per hand, in hand order; the round is finished and nothing else changes |
| Table.Game.SettleAll | blackjack_game.py:315-318 | The participant loop gives every participant its result list and nobody else |
| Table.Game.SettleHands | blackjack_game.py:318-382 | The hand loop gives one result per hand, in order |
| Casino.StartRefusal | blackjack.py:429-443 | A round starts exactly for a registered caller with no round under way and at least one player ready |
| Casino.CheckBet | blackjack.py:477-518 | A bet is accepted, with its amount, exactly for a registered participant in betting with a parsed amount above 0 and within its chips; each refusal holds for exactly its case |
| Casino.StillToBet | blackjack.py:527-533 | Exactly the participants whose first stake is still 0 |
| Casino.StillToBetEmpty | blackjack.py:535-541 | Nobody is left to bet exactly when the table would accept the opening deal |
| Casino.StillToBetAsWritten | blackjack.py:527-533 | As written, the pending-bet list holds exactly the participants whose stake list passes the comparison with 0, which no list does |
| Casino.StillToBetAsWrittenEmpty | blackjack.py:530 | As written, the pending-bet test never lists anybody |
| Casino.DealAttemptedBeforeAllBets | blackjack.py:527-541 | With two participants, after the first bet the list as written is empty while the table refuses the deal and the dealer hand is empty |
| Casino.TurnRefusal | blackjack.py:614-624 | A play command passes the turn checks exactly for a registered caller, in play, at the current player's position |
| Casino.PlayRefusal | blackjack.py:599-632 | Hit and stand go through exactly when the registered caller is on turn with a waiting hand |
| Casino.DoubleRefusal | blackjack.py:727-753 | Double down goes through exactly when the caller is on turn with two cards and chips covering the stake; the two-card refusal comes only after the turn checks pass |
| Casino.SplitRefusal | blackjack.py:1216-1246 | Split goes through exactly when the caller is on turn with a pair and chips covering the stake; the not-a-pair refusal comes only on a two-card hand |
| Casino.CreditedKeys | blackjack.py:876-879 | Settlement registers nobody and drops nobody |
| Casino.CreditedUntouched | blackjack.py:876-879 | A record of somebody not yet settled is untouched |
| Casino.CreditedParticipant | blackjack.py:876-971 | Every registered participant is credited its settlement total exactly once |
| Casino.CreditMatchesResults | blackjack.py:885-967 | What the plugin credits a participant is its stakes plus the table's own net winnings for its hands |
| Casino.OneStoodHandAsWritten | blackjack.py:519-525 | As written, a participant with one stood hand, no naturals and a dealer who did not bust keeps its chips on a loss that the table counts as -bet, and gains 2·bet on a win that the table counts as +bet |
| Casino.IntendedNet | blackjack.py:913-921 | With every final stake taken when placed, the chips a participant gains or loses over the round are exactly the table's net winnings for its hands |
| Casino.Debit | blackjack.py:649-651 | Takes the amount from the one record named and leaves every other record, and the set of registered players, as it was |
| Casino.ExpNeeded | blackjack.py:226 | The experience a level needs is level·100·(1 + (level-1)/2), a whole number |
| Casino.Checkin | blackjack.py:211-250 | Refused exactly on the date of the last check-in; otherwise the date is recorded, 10 experience and 200 + 50·level chips are added, and the level goes up by one, with 300 chips more, exactly when the new experience reaches what the level needs |
| Casino.CheckinOncePerDay | blackjack.py:211-213 | A second check-in on the same date is refused |
| Casino.FirstLevelUp | blackjack.py:215-250 | Level 1 needs 100 experience; at 80 a check-in brings 250 chips, at 90 it brings 550 and level 2 |
| Casino.Bot.constructor | blackjack.py:37-62 | A bot with the given players and a new table with no round |
| Casino.Bot.StartRound | blackjack.py:429-449 | Refuses as StartRefusal says, changing nothing; otherwise a new table with a full shoe seats the ready players |
| Casino.Bot.PlaceBet | blackjack.py:477-543 | Refuses as CheckBet says, changing nothing; otherwise the stake is recorded, and the opening deal follows exactly when nobody is left to bet |
| Casino.Bot.DealWhenAllBet | blackjack.py:545-579 | The opening deal, with play starting at the first player |
| Casino.Bot.CollectStillToBet | blackjack.py:527-533 | The scan builds the list of participants still to bet |
| Casino.Bot.Hit | blackjack.py:599-658 | Refuses as PlayRefusal says, changing nothing; otherwise the hit; on a bust the hand's stake is debited and the turn advances, otherwise the turn stays and no chips move |
| Casino.Bot.DebitAndMove | blackjack.py:649-654 | The stake is debited and the turn advances by the plugin's rule |
| Casino.Bot.Stand | blackjack.py:660-709 | Refuses as PlayRefusal says, changing nothing; otherwise the stand, then the turn advances |
| Casino.Bot.DoubleDown | blackjack.py:711-784 | Refuses as DoubleRefusal says, changing nothing; otherwise the double down, the original stake debited once, then the turn advances |
| Casino.Bot.Split | blackjack.py:1201-1250 | Refuses as SplitRefusal says, changing nothing; otherwise the split and the copied stake debited, with the turn left on the same hand |
| Casino.Bot.TurnChecks | blackjack.py:614-624 | The turn checks' refusal |
| Casino.Bot.MoveToNextPlayer | blackjack.py:786-845 | The turn moves as the plugin's rule says; on the dealer's turn settlement follows |
| Casino.Bot.NextTurn | blackjack.py:792-835 | The scans compute the plugin's rule |
| Casino.Bot.TakeTurn | blackjack.py:796-835 | The table moves to the chosen hand, or the dealer's turn is played |
| Casino.Bot.PlayDealerTurn | blackjack.py:847-974 | The dealer draws below 17; once at 17 every registered participant is credited in turn order and a new table replaces the old one |
| Casino.Bot.CreditParticipants | blackjack.py:876-971 | The settlement loop credits exactly as the specification of the credits says |
| Casino.Bot.HandsCredit | blackjack.py:885-967 | The hand loop sums the per-hand credits |
| Casino.Bot.DailyCheckin | blackjack.py:204-250 | An unregistered caller is refused; otherwise the record changes exactly as Checkin says, or not at all when refused |

## Left out

- Player store: the CSV file, its string-typed fields, backups and registration are left out. A player record is a map entry of chips, level, experience and last check-in date. Statistics counters (wins, losses, draws, naturals) and the current-bet field are not kept.
- The "god" nickname flag and its settlement bonus (blackjack.py:954-955) are not reproduced. A lower hand credits nothing for every player.
- Messages: chat dispatch, reply texts, card and hand formatting, help, rules, leaderboard, state display and admin resets are left out.
- Groups: one table is modelled, not the per-group registry of tables and ready lists. "No table for this group" is modelled as a table that is waiting. That refuses bets and play commands with the same outcome, though the refusal name differs.
- `player_ready` (blackjack.py:402-427): building the ready list is left out. `Casino.Bot.StartRound` takes the ready players as a list without repeats, as that function leaves it.
- Bet parsing (blackjack.py:500-511) is replaced by an optional integer. None stands for text that does not hold a number.
- Randomness: the shuffle is an arbitrary permutation, chosen nondeterministically.
- Dates: the check-in date comes in as a parameter instead of being read from the clock.
- Floating point: `int(bet*1.5)`, `int(bet*2.5)` and the experience formula are modelled as exact integer expressions. Both payouts truncate toward zero, as `int()` does, so they agree with the source for every stake, negative ones included, while the products are exact as doubles, that is while |stake| stays well below 2^53. The same holds for levels well below 2^40. Past that point the source rounds through doubles and the model does not: a stake of 2^53+1 gives a natural 1 more than `int(b*1.5)`. The members concerned are `Settlement.SettleHand`, `Settlement.ChipCredit` and `Casino.ExpNeeded`.
- Empty shoe: the source appends the missing card and then fails when it scores the hand. The opening deal, hit, double down and split therefore require enough cards in the shoe. The dealer's draw stops on an empty shoe and leaves the round in the dealer's turn without settling.
- Chip conservation: the bot keeps the chip flow as written. A bet takes no chips; the bust, double-down and split debits and the settlement credits are as the source has them. Under the intended flow of the second finding below, the bust debit at blackjack.py:649-651 would charge the stake a second time. The bot therefore does not follow `Casino.IntendedNet`, which states that intended flow as a function.
- `Casino.StillToBet`: it lists every participant with a first stake of 0. The source also skips a participant whose record has gone from the store. That cannot happen during a round: the admin reset (blackjack.py:1094-1133) also drops every table (blackjack.py:1127).
- `Settlement.SettleHand`, `Settlement.ChipCredit` and the bot keep the natural test as written, so a split first hand can still be paid 3:2. `Settlement.NaturalUnsplit` states the intended test beside them, as the third finding below says.
- `Casino.Bot.NextTurn`: it scans the player's status list, where the source scans the hand list. The two always have the same length.
- `Casino.Bot.MoveToNextPlayer`: it picks the target first and then moves there. The source assigns the indices as it scans. The result is the same.
- `Casino.Bot.Split`: the refusal of the table's split after `can_split` has passed cannot happen, so it is not modelled.
- `Table.Game.RunDealerTurn`: it settles only once the dealer's hand reaches 17. A dry shoe is not settled.

## Findings

| source | as written | input that shows it | evidently intended | confidence | as-written member | corrected member |
|---|---|---|---|---|---|---|
| blackjack.py:530 | The pending-bet test compares a participant's list of stakes with the number 0. A list never equals a number, so nobody is ever listed and the bot deals after every bet. | Two participants, and the first of them bets. The table refuses the deal because the second stake is still 0. The bot then reads the up card of an empty dealer hand (blackjack.py:554) and the command fails. | List the participants whose first stake is 0, and deal only when that list is empty. | not executed | Casino.DealAttemptedBeforeAllBets | Casino.StillToBetEmpty |
| blackjack.py:519-525 | The bet handler records the stake at the table but takes no chips. Settlement still treats the stake as taken: it pays the stake back on a push and credits nothing on a loss (comments at blackjack.py:913-914 and 949-950). | One participant stakes 100 and stands on 19 against the dealer's 20: the table counts -100, yet the chips stay the same. Against the dealer's 18 the table counts +100, yet the chips go up by 200. | Take the stake when the bet is placed, so that a round changes the chips by exactly the table's net winnings. | not executed | Casino.OneStoodHandAsWritten | Casino.IntendedNet |
| blackjack_game.py:332 | A hand is a natural when it has two cards worth 21 and is the player's first hand. A split keeps the first hand in place, so a split hand can still be a natural, although the comment at blackjack_game.py:331 says only the original hand can be one. blackjack.py:898 repeats the test. | A player splits a pair of aces on the first hand, and the shoe's next card is a king. The first hand is now ace and king; after a stand against a dealer without a natural it is paid 3:2. | A hand counts as a natural only while the player has not split. | not executed | Table.SplitAcesNaturalAsWritten | Settlement.NaturalUnsplit |

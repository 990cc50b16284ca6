/** Who acts next. The table class and the plugin each carry a turn-advance
    rule; both are stated here as functions of the hand statuses so that they
    can be compared. */
module Turns {
  import opened Hands

  type PlayerId = string

  /** Where a turn advance lands: a hand of a player, or the dealer's turn with
      the player index the rule leaves behind. */
  datatype Advance = NextHand(player: nat, hand: nat) | ToDealer(player: nat)

  /** The position of p in the order, as a list lookup finds it, or -1. */
  function IndexOf(order: seq<PlayerId>, p: PlayerId): (r: int)
    ensures -1 <= r < |order|
    ensures r == -1 <==> p !in order
    ensures r >= 0 ==> order[r] == p && forall k :: 0 <= k < r ==> order[k] != p
  {
    if order == [] then -1
    else if order[0] == p then 0
    else var r := IndexOf(order[1..], p); if r == -1 then -1 else r + 1
  }

  predicate HasWaiting(s: seq<HandStatus>) {
    Waiting in s
  }

  /** Every player of the order has a status list. */
  predicate Covers(order: seq<PlayerId>, statuses: map<PlayerId, seq<HandStatus>>) {
    forall p :: p in order ==> p in statuses
  }

  /** The first waiting hand at or after index from, or |s| when there is none. */
  function FirstWaitingFrom(s: seq<HandStatus>, from: nat): (i: nat)
    requires from <= |s|
    ensures from <= i <= |s|
    ensures i < |s| ==> s[i] == Waiting
    ensures forall j :: from <= j < i ==> s[j] != Waiting
    decreases |s| - from
  {
    if from == |s| then |s|
    else if s[from] == Waiting then from
    else FirstWaitingFrom(s, from + 1)
  }

  /** A status list with a waiting hand has a first waiting hand. */
  lemma FirstWaitingFound(s: seq<HandStatus>)
    requires HasWaiting(s)
    ensures FirstWaitingFrom(s, 0) < |s|
  {
    var w :| 0 <= w < |s| && s[w] == Waiting;
    assert FirstWaitingFrom(s, 0) <= w;
  }

  /** The first player at or after index from with a waiting hand, or |order|
      when there is none. */
  function NextWaitingPlayer(order: seq<PlayerId>, statuses: map<PlayerId, seq<HandStatus>>, from: nat): (j: nat)
    requires from <= |order| && Covers(order, statuses)
    ensures from <= j <= |order|
    ensures j < |order| ==> HasWaiting(statuses[order[j]])
    ensures forall k :: from <= k < j ==> !HasWaiting(statuses[order[k]])
    decreases |order| - from
  {
    if from == |order| then |order|
    else if HasWaiting(statuses[order[from]]) then from
    else NextWaitingPlayer(order, statuses, from + 1)
  }

  /** The scan for the first waiting hand at or after index from. */
  method FindWaitingHand(s: seq<HandStatus>, from: nat) returns (i: nat)
    requires from <= |s|
    ensures i == FirstWaitingFrom(s, from)
  {
    i := from;
    while i < |s|
      invariant from <= i <= |s|
      invariant FirstWaitingFrom(s, i) == FirstWaitingFrom(s, from)
      decreases |s| - i
    {
      if s[i] == Waiting {
        return;
      }
      i := i + 1;
    }
  }

  /** The scan for the first player at or after index from with any waiting hand. */
  method FindWaitingPlayer(order: seq<PlayerId>, statuses: map<PlayerId, seq<HandStatus>>, from: nat) returns (j: nat)
    requires from <= |order| && Covers(order, statuses)
    ensures j == NextWaitingPlayer(order, statuses, from)
  {
    j := from;
    while j < |order|
      invariant from <= j <= |order|
      invariant NextWaitingPlayer(order, statuses, j) == NextWaitingPlayer(order, statuses, from)
      decreases |order| - j
    {
      if Waiting in statuses[order[j]] {
        return;
      }
      j := j + 1;
    }
  }

  /** The table class's rule: the next hand of the same player if there is one,
      whatever its status; otherwise the first later player with a waiting hand,
      at that hand; otherwise the dealer, with the index run past the last player. */
  function TableAdvance(order: seq<PlayerId>, statuses: map<PlayerId, seq<HandStatus>>, cp: nat, hi: nat): (r: Advance)
    requires cp < |order| && Covers(order, statuses)
    ensures r.NextHand? ==> r.player < |order| && r.hand < |statuses[order[r.player]]|
  {
    var s := statuses[order[cp]];
    if hi < |s| - 1 then NextHand(cp, hi + 1)
    else
      var j := NextWaitingPlayer(order, statuses, cp + 1);
      if j < |order| then FirstWaitingFound(statuses[order[j]]); NextHand(j, FirstWaitingFrom(statuses[order[j]], 0))
      else ToDealer(|order|)
  }

  /** The plugin's rule: when the current hand is finished and not the last,
      the first later waiting hand of the same player (or simply the next hand);
      otherwise the first later player with a waiting hand, at that hand;
      otherwise the dealer, with the index one past the current player. */
  function PluginAdvance(order: seq<PlayerId>, statuses: map<PlayerId, seq<HandStatus>>, cp: nat, hi: nat): (r: Advance)
    requires cp < |order| && Covers(order, statuses)
    ensures r.NextHand? ==> r.player < |order| && r.hand < |statuses[order[r.player]]|
    ensures r.ToDealer? ==> r.player == cp + 1
  {
    var s := statuses[order[cp]];
    if hi < |s| - 1 && s[hi] != Waiting then
      var i := FirstWaitingFrom(s, hi + 1);
      NextHand(cp, if i < |s| then i else hi + 1)
    else
      var j := NextWaitingPlayer(order, statuses, cp + 1);
      if j < |order| then FirstWaitingFound(statuses[order[j]]); NextHand(j, FirstWaitingFrom(statuses[order[j]], 0))
      else ToDealer(cp + 1)
  }

  /** The plugin's rule always moves forward: to the first later waiting hand
      of the same player (or the next hand when none is waiting), or to a later
      player's first waiting hand with every player in between done, or to the
      dealer when no later player has a waiting hand. */
  lemma PluginAdvanceProgress(order: seq<PlayerId>, statuses: map<PlayerId, seq<HandStatus>>, cp: nat, hi: nat)
    requires cp < |order| && Covers(order, statuses)
    ensures match PluginAdvance(order, statuses, cp, hi)
            case NextHand(p, h) =>
              && p < |order| && h < |statuses[order[p]]|
              && (p == cp ==>
                    && hi < h
                    && ((statuses[order[p]][h] == Waiting && forall i :: hi < i < h ==> statuses[order[p]][i] != Waiting)
                        || (h == hi + 1 && forall i :: hi < i < |statuses[order[p]]| ==> statuses[order[p]][i] != Waiting)))
              && (p != cp ==>
                    && cp < p && statuses[order[p]][h] == Waiting
                    && (forall i :: 0 <= i < h ==> statuses[order[p]][i] != Waiting)
                    && (forall k :: cp < k < p ==> !HasWaiting(statuses[order[k]])))
            case ToDealer(p) =>
              p == cp + 1 && forall k :: cp < k < |order| ==> !HasWaiting(statuses[order[k]])
  {
    var s := statuses[order[cp]];
    if !(hi < |s| - 1 && s[hi] != Waiting) {
      var j := NextWaitingPlayer(order, statuses, cp + 1);
      if j < |order| {
        var t := statuses[order[j]];
        var h := FirstWaitingFrom(t, 0);
        assert Waiting in t;
        var w :| 0 <= w < |t| && t[w] == Waiting;
        assert h <= w;
      }
    }
  }

  /** Called, as the plugin does, right after the current hand is finished and
      while the later hands of that player are untouched, both rules pick the
      same hand; they differ only in the player index left behind for the dealer. */
  lemma AdvanceRulesAgree(order: seq<PlayerId>, statuses: map<PlayerId, seq<HandStatus>>, cp: nat, hi: nat)
    requires cp < |order| && Covers(order, statuses)
    requires hi < |statuses[order[cp]]| && statuses[order[cp]][hi] != Waiting
    requires forall i :: hi < i < |statuses[order[cp]]| ==> statuses[order[cp]][i] == Waiting
    ensures PluginAdvance(order, statuses, cp, hi)
            == match TableAdvance(order, statuses, cp, hi)
               case ToDealer(_) => ToDealer(cp + 1)
               case NextHand(p, h) => NextHand(p, h)
  {
    var s := statuses[order[cp]];
    if hi < |s| - 1 {
      assert FirstWaitingFrom(s, hi + 1) == hi + 1;
    }
  }

  /** The rules part ways when called on a hand that is still waiting (the
      table class moves to the player's next hand, the plugin to the next
      player), and when a player behind the current one has finished (the
      dealer index differs). */
  lemma AdvanceRulesDiverge()
    ensures var order := ["a", "b"];
            var statuses := map["a" := [Waiting, Waiting], "b" := [Waiting]];
            TableAdvance(order, statuses, 0, 0) == NextHand(0, 1)
            && PluginAdvance(order, statuses, 0, 0) == NextHand(1, 0)
    ensures var order := ["a", "b"];
            var statuses := map["a" := [Stand], "b" := [Bust]];
            TableAdvance(order, statuses, 0, 0) == ToDealer(2)
            && PluginAdvance(order, statuses, 0, 0) == ToDealer(1)
  {
    var order := ["a", "b"];
    var s1 := map["a" := [Waiting, Waiting], "b" := [Waiting]];
    assert HasWaiting(s1[order[1]]);
    assert FirstWaitingFrom(s1[order[1]], 0) == 0;
    var s2 := map["a" := [Stand], "b" := [Bust]];
    assert !HasWaiting(s2[order[1]]);
    assert NextWaitingPlayer(order, s2, 2) == 2;
    assert NextWaitingPlayer(order, s2, 1) == 2;
  }

  /** Two players with one hand each: once the first has stood the second is
      on turn, and once the second has stood the dealer is. */
  lemma TwoPlayerTurnOrder()
    ensures PluginAdvance(["p1", "p2"], map["p1" := [Stand], "p2" := [Waiting]], 0, 0) == NextHand(1, 0)
    ensures PluginAdvance(["p1", "p2"], map["p1" := [Stand], "p2" := [Stand]], 1, 0) == ToDealer(2)
  {
    var order := ["p1", "p2"];
    var s1 := map["p1" := [Stand], "p2" := [Waiting]];
    assert HasWaiting(s1[order[1]]);
    assert FirstWaitingFrom(s1[order[1]], 0) == 0;
    var s2 := map["p1" := [Stand], "p2" := [Stand]];
    assert NextWaitingPlayer(order, s2, 2) == 2;
  }
}

/** Playing cards and the multi-deck shoe they are dealt from. */
module Cards {
  import opened Wrappers

  datatype Suit = Spade | Heart | Diamond | Club

  /** The face value of a number card, '2' to '10'. */
  type PipCount = n: int | 2 <= n <= 10 witness 2

  datatype Rank = Ace | Pip(pips: PipCount) | Jack | Queen | King

  datatype Card = Card(suit: Suit, rank: Rank)

  /** The order in which a fresh deck is built: suits, then ranks within a suit. */
  const Suits: seq<Suit> := [Spade, Heart, Diamond, Club]
  const Ranks: seq<Rank> := [Ace, Pip(2), Pip(3), Pip(4), Pip(5), Pip(6), Pip(7),
                             Pip(8), Pip(9), Pip(10), Jack, Queen, King]

  /** The points a card is worth before any ace is counted as 1. */
  function Value(c: Card): (v: int)
    ensures 2 <= v <= 11
    ensures v == 11 <==> c.rank == Ace
    ensures v == 10 <==> c.rank in {Pip(10), Jack, Queen, King}
    ensures c.rank.Pip? ==> v == c.rank.pips
  {
    match c.rank
    case Jack | Queen | King => 10
    case Ace => 11
    case Pip(n) => n
  }

  /** Where a rank sits in Ranks. */
  function RankIndex(r: Rank): (i: nat)
    ensures i < |Ranks| && Ranks[i] == r
  {
    match r
    case Ace => 0
    case Pip(n) => n - 1
    case Jack => 10
    case Queen => 11
    case King => 12
  }

  /** The thirteen cards of one suit, in rank order. */
  function SuitCards(s: Suit): (r: seq<Card>)
    ensures |r| == |Ranks|
  {
    seq(|Ranks|, i requires 0 <= i < |Ranks| => Card(s, Ranks[i]))
  }

  /** The cards of the first k suits of one deck. */
  function SuitsPrefix(k: nat): seq<Card>
    requires k <= |Suits|
  {
    if k == 0 then [] else SuitsPrefix(k - 1) + SuitCards(Suits[k - 1])
  }

  /** One 52-card deck in construction order. */
  function OneDeck(): seq<Card> { SuitsPrefix(|Suits|) }

  /** n copies of deck, one after another. */
  function Repeat(deck: seq<Card>, n: nat): seq<Card> {
    if n == 0 then [] else Repeat(deck, n - 1) + deck
  }

  /** The unshuffled shoe of n decks, in construction order. */
  function FreshShoe(n: nat): seq<Card> {
    Repeat(OneDeck(), n)
  }

  lemma {:induction false} RepeatLength(deck: seq<Card>, n: nat)
    ensures |Repeat(deck, n)| == n * |deck|
  {
    if n > 0 {
      RepeatLength(deck, n - 1);
    }
  }

  lemma {:induction false} SuitsPrefixLength(k: nat)
    requires k <= |Suits|
    ensures |SuitsPrefix(k)| == 13 * k
  {
    if k > 0 {
      SuitsPrefixLength(k - 1);
    }
  }

  lemma FreshShoeLength(n: nat)
    ensures |FreshShoe(n)| == 52 * n
  {
    SuitsPrefixLength(|Suits|);
    RepeatLength(OneDeck(), n);
  }

  /** The d cards that d successive deals take from shoe s, in the order dealt
      (deals pop from the end). */
  function Drawn(s: seq<Card>, d: nat): (r: seq<Card>)
    requires d <= |s|
    ensures |r| == d
  {
    seq(d, i requires 0 <= i < d => s[|s| - 1 - i])
  }

  /** One more deal adds the next card from the end. */
  lemma DrawnNext(s: seq<Card>, d: nat)
    requires d < |s|
    ensures Drawn(s, d + 1) == Drawn(s, d) + [s[|s| - 1 - d]]
  {
    assert Drawn(s, d + 1)[..d] == Drawn(s, d);
  }

  /** Drawing k + 1 cards is taking the last card and then k from the rest. */
  lemma DrawnFromRest(s: seq<Card>)
    requires 0 < |s|
    ensures forall k {:trigger Drawn(s[..|s| - 1], k)} :: 0 <= k < |s| ==> Drawn(s, k + 1) == [s[|s| - 1]] + Drawn(s[..|s| - 1], k)
  {
    forall k {:trigger Drawn(s[..|s| - 1], k)} | 0 <= k < |s|
      ensures Drawn(s, k + 1) == [s[|s| - 1]] + Drawn(s[..|s| - 1], k)
    {
      assert Drawn(s, k + 1)[1..] == Drawn(s[..|s| - 1], k);
    }
  }

  /** The cards drawn and the cards left make up the shoe that was drawn from. */
  lemma {:induction false} DrawnAndRest(s: seq<Card>, d: nat)
    requires d <= |s|
    ensures multiset(s[..|s| - d]) + multiset(Drawn(s, d)) == multiset(s)
  {
    if d == 0 {
      assert s[..|s|] == s;
    } else {
      DrawnAndRest(s, d - 1);
      DrawnNext(s, d - 1);
      var rest, top := s[..|s| - d], s[|s| - d];
      assert s[..|s| - (d - 1)] == rest + [top];
      assert multiset(s[..|s| - (d - 1)]) == multiset(rest) + multiset{top};
      assert multiset(Drawn(s, d)) == multiset(Drawn(s, d - 1)) + multiset{top};
    }
  }

  predicate NoDuplicates<T(==)>(s: seq<T>) {
    forall i, j :: 0 <= i < j < |s| ==> s[i] != s[j]
  }

  lemma {:induction false} DistinctMultiplicity<T>(s: seq<T>, e: T)
    requires NoDuplicates(s)
    ensures multiset(s)[e] == if e in s then 1 else 0
  {
    if s != [] {
      var t := s[..|s| - 1];
      assert s == t + [s[|s| - 1]];
      assert NoDuplicates(t);
      DistinctMultiplicity(t, e);
      assert forall k :: 0 <= k < |t| ==> t[k] == s[k] && s[k] != s[|s| - 1];
    }
  }

  lemma SuitCardsMultiplicity(s: Suit, c: Card)
    ensures multiset(SuitCards(s))[c] == if c.suit == s then 1 else 0
  {
    var cs := SuitCards(s);
    forall i, j | 0 <= i < j < |cs| ensures cs[i] != cs[j] {
      assert RankIndex(Ranks[i]) == i && RankIndex(Ranks[j]) == j;
    }
    DistinctMultiplicity(cs, c);
    if c.suit == s {
      assert cs[RankIndex(c.rank)] == c;
    }
  }

  /** Where a suit sits in Suits. */
  function SuitIndex(s: Suit): (i: nat)
    ensures i < |Suits| && Suits[i] == s
  {
    match s
    case Spade => 0
    case Heart => 1
    case Diamond => 2
    case Club => 3
  }

  lemma {:induction false} SuitsPrefixMultiplicity(k: nat, c: Card)
    requires k <= |Suits|
    ensures multiset(SuitsPrefix(k))[c] == if SuitIndex(c.suit) < k then 1 else 0
  {
    if k > 0 {
      SuitsPrefixMultiplicity(k - 1, c);
      SuitCardsMultiplicity(Suits[k - 1], c);
      assert c.suit == Suits[k - 1] <==> SuitIndex(c.suit) == k - 1;
      assert multiset(SuitsPrefix(k)) == multiset(SuitsPrefix(k - 1)) + multiset(SuitCards(Suits[k - 1]));
    }
  }

  /** One deck holds every suit/rank pair exactly once. */
  lemma OneDeckMultiplicity(c: Card)
    ensures multiset(OneDeck())[c] == 1
  {
    SuitsPrefixMultiplicity(|Suits|, c);
  }

  lemma {:induction false} RepeatMultiplicity(deck: seq<Card>, n: nat, c: Card)
    requires multiset(deck)[c] == 1
    ensures multiset(Repeat(deck, n))[c] == n
  {
    if n > 0 {
      RepeatMultiplicity(deck, n - 1, c);
      assert multiset(Repeat(deck, n)) == multiset(Repeat(deck, n - 1)) + multiset(deck);
    }
  }

  /** A fresh shoe of n decks holds every suit/rank pair exactly n times. */
  lemma FreshShoeMultiplicity(n: nat, c: Card)
    ensures multiset(FreshShoe(n))[c] == n
  {
    OneDeckMultiplicity(c);
    RepeatMultiplicity(OneDeck(), n, c);
  }

  /** The shoe: an ordered pile of cards dealt from its end. */
  class Deck {
    var cards: seq<Card>

    /** Builds numDecks decks, suit by suit and rank by rank, then shuffles. */
    constructor (numDecks: nat)
      ensures |cards| == 52 * numDecks
      ensures forall c :: multiset(cards)[c] == numDecks
    {
      var built := BuildShoe(numDecks);
      FreshShoeLength(numDecks);
      ghost var m := multiset(built);
      assert forall c :: m[c] == numDecks by {
        forall c ensures m[c] == numDecks {
          FreshShoeMultiplicity(numDecks, c);
        }
      }
      cards := built;
      new;
      Shuffle();
    }

    /** The construction loops over decks and suits, before the shuffle. */
    static method BuildShoe(numDecks: nat) returns (built: seq<Card>)
      ensures built == FreshShoe(numDecks)
    {
      built := [];
      var d := 0;
      while d < numDecks
        invariant d <= numDecks
        invariant built == FreshShoe(d)
      {
        built := AppendDeck(built);
        d := d + 1;
      }
    }

    /** One deck's construction: the four suits in order. */
    static method AppendDeck(built: seq<Card>) returns (r: seq<Card>)
      ensures r == built + OneDeck()
    {
      r := built;
      var s := 0;
      while s < |Suits|
        invariant s <= |Suits|
        invariant r == built + SuitsPrefix(s)
      {
        assert built + SuitsPrefix(s + 1) == built + SuitsPrefix(s) + SuitCards(Suits[s]);
        r := AppendSuit(r, Suits[s]);
        s := s + 1;
      }
    }

    /** The innermost construction loop: one card of each rank of one suit. */
    static method AppendSuit(built: seq<Card>, suit: Suit) returns (r: seq<Card>)
      ensures r == built + SuitCards(suit)
    {
      r := built;
      var i := 0;
      while i < |Ranks|
        invariant i <= |Ranks|
        invariant r == built + SuitCards(suit)[..i]
      {
        assert SuitCards(suit)[..i + 1] == SuitCards(suit)[..i] + [Card(suit, Ranks[i])];
        r := r + [Card(suit, Ranks[i])];
        i := i + 1;
      }
      assert SuitCards(suit)[..|Ranks|] == SuitCards(suit);
    }

    /** Puts the cards in an arbitrary order: the random permutation of the
        source is a nondeterministic choice here. */
    method Shuffle()
      modifies this
      ensures multiset(cards) == old(multiset(cards))
      ensures |cards| == old(|cards|)
    {
      var order :| multiset(order) == multiset(cards);
      cards := order;
    }

    /** Removes and returns the last card; on an empty shoe returns None and
        changes nothing. */
    method Deal() returns (c: Option<Card>)
      modifies this
      ensures old(|cards|) > 0 ==> c == Some(old(cards[|cards| - 1])) && cards == old(cards[..|cards| - 1])
      ensures old(|cards|) == 0 ==> c == None && cards == old(cards)
      ensures Remaining() == if old(|cards|) > 0 then old(Remaining()) - 1 else old(Remaining())
    {
      if |cards| > 0 {
        c := Some(cards[|cards| - 1]);
        cards := cards[..|cards| - 1];
      } else {
        c := None;
      }
    }

    /** The number of cards left in the shoe. */
    function Remaining(): (n: nat)
      reads this
      ensures n == 0 <==> cards == []
      ensures n == |multiset(cards)|
    {
      |cards|
    }
  }
}

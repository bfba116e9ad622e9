/** Cards and the deck (poker/game_models.py). */
module Cards {
  import opened Prelude

  datatype Suit = Hearts | Diamonds | Clubs | Spades

  /** The constructor of a card rejects every other rank. */
  type Rank = r: int | 2 <= r <= 14 witness 2

  datatype Card = Card(rank: Rank, suit: Suit)

  const SUITS := [Hearts, Diamonds, Clubs, Spades]

  /** The 52 cards in the order in which the deck is rebuilt. */
  function FullDeck(): (d: seq<Card>)
    ensures |d| == 52
  {
    seq(52, i requires 0 <= i < 52 => Card(2 + i % 13, SUITS[i / 13]))
  }

  function SuitIndex(s: Suit): (i: nat)
    ensures i < 4 && SUITS[i] == s
  {
    match s case Hearts => 0 case Diamonds => 1 case Clubs => 2 case Spades => 3
  }

  /** The 52 cards in any order. */
  predicate Shuffled(order: seq<Card>): (b: bool)
    ensures b ==> |order| == 52
  {
    assert |multiset(order)| == |order| && |multiset(FullDeck())| == |FullDeck()|;
    multiset(order) == multiset(FullDeck())
  }

  /** Every card of the game is in the full deck exactly once. */
  lemma FullDeckHasEveryCardOnce(c: Card)
    ensures multiset(FullDeck())[c] == 1
  {
    var k := 13 * SuitIndex(c.suit) + (c.rank - 2);
    assert FullDeck()[k] == c;
    forall i, j | 0 <= i < j < 52 ensures FullDeck()[i] != FullDeck()[j] {
    }
    DistinctMeansOnce(FullDeck(), k);
  }

  lemma {:induction false} DistinctMeansOnce<T>(s: seq<T>, k: nat)
    requires k < |s|
    requires forall i, j :: 0 <= i < j < |s| ==> s[i] != s[j]
    ensures multiset(s)[s[k]] == 1
  {
    var p, x := s[..|s| - 1], s[|s| - 1];
    assert s == p + [x];
    if k < |p| {
      DistinctMeansOnce(p, k);
    } else {
      assert x !in p;
    }
  }

  class Deck {
    var cards: seq<Card>

    constructor ()
      ensures cards == []
    {
      cards := [];
    }

    /** Rebuilds the 52 cards suit by suit and shuffles them; the outcome of the shuffle is `order`. */
    method Reset(order: seq<Card>)
      requires Shuffled(order)
      modifies this
      ensures cards == order
    {
      cards := [];
      for s := 0 to 4
        invariant |cards| == 13 * s && cards == FullDeck()[..13 * s]
      {
        for rank := 2 to 15
          invariant |cards| == 13 * s + (rank - 2) && cards == FullDeck()[..|cards|]
        {
          assert FullDeck()[|cards|] == Card(rank, SUITS[s]);
          cards := cards + [Card(rank, SUITS[s])];
        }
      }
      assert FullDeck()[..52] == FullDeck();
      Shuffle(order);
    }

    method Shuffle(order: seq<Card>)
      requires multiset(order) == multiset(cards)
      modifies this
      ensures cards == order
    {
      cards := order;
    }

    /** Takes the last card; `None` stands for the error an empty deck raises. */
    method DealCard() returns (card: Option<Card>)
      modifies this
      ensures old(cards) == [] ==> card == None && cards == []
      ensures old(cards) != [] ==> card.Some? && cards + [card.value] == old(cards)
    {
      if cards == [] {
        return None;
      }
      card := Some(cards[|cards| - 1]);
      cards := cards[..|cards| - 1];
    }
  }
}

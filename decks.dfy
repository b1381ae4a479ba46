/** The deck of poker.py: a list of cards that `refill` restocks and `draw` pops from. */
module Decks {
  import opened Cards
  import opened Sequences

  class Deck {
    /** The `_deck` list, in list order. */
    var cards: seq<Card>

    /** `Deck()` (poker.py:85-86) refills on construction. */
    constructor ()
      ensures cards == FullDeck()
    {
      cards := FullDeck();
    }

    /** `refill` (poker.py:91-94): the deck becomes the 52 cards of the product, in order. */
    method Refill()
      modifies this
      ensures cards == FullDeck()
    {
      cards := FullDeck();
    }

    /**
     * `draw(amount)` (poker.py:88-89): `amount` times, the card at a random position is removed and kept.
     * The chosen position is left open (any position may be picked). When the deck runs out first,
     * `randrange` raises ValueError: the call fails and the deck is left empty, because the cards
     * popped so far are lost with the unfinished list.
     */
    method Draw(amount: int) returns (ok: bool, drawn: seq<Card>)
      modifies this
      ensures ok <==> amount <= |old(cards)|
      ensures ok ==> |drawn| == if amount < 0 then 0 else amount
      ensures ok ==> multiset(drawn) + multiset(cards) == multiset(old(cards))
      ensures !ok ==> cards == [] && drawn == []
    {
      drawn := [];
      var k := 0;
      while k < amount
        invariant 0 <= k && (amount >= 0 ==> k <= amount) && (amount < 0 ==> k == 0)
        invariant |drawn| == k && |cards| == |old(cards)| - k
        invariant multiset(drawn) + multiset(cards) == multiset(old(cards))
      {
        if |cards| == 0 {
          ok, drawn := false, [];
          return;
        }
        var i :| 0 <= i < |cards|;
        assert cards == cards[..i] + [cards[i]] + cards[i + 1..];
        drawn := drawn + [cards[i]];
        cards := cards[..i] + cards[i + 1..];
        k := k + 1;
      }
      ok := true;
    }
  }

  /**
   * Cards drawn from a deck without duplicates are pairwise different and none of them is
   * still in the deck: no card is dealt twice before the next refill.
   */
  lemma DrawnCardsAreFresh(before: seq<Card>, drawn: seq<Card>, after: seq<Card>)
    requires Distinct(before)
    requires multiset(drawn) + multiset(after) == multiset(before)
    ensures Distinct(drawn) && Distinct(after)
    ensures forall c :: c in drawn ==> c !in after && c in before
  {
    SplitDistinct(before, drawn, after);
    forall c | c in drawn ensures c in before {
      assert multiset(before)[c] >= multiset(drawn)[c] > 0;
    }
  }
}

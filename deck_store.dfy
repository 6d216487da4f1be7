// The deck store of the client (src/stores/useDeckStore.js): the shared deck
// loaded from a batch, drawing from its front, and the discard pile.
//
// `Math.random()` is not part of this model: `shuffle` takes the values it
// would have returned, one per swap, as the parameter `random`.

module DeckStore {
  import opened Wrappers
  import opened SimRules

  /** The part of a batch file the store reads. */
  datatype Batch = Batch(batchId: Option<string>, cards: seq<Card>)

  /** `Math.floor(r * (i + 1))` for a draw `r` in [0, 1): an index in [0, i]. */
  function SwapIndex(r: real, i: nat): (j: nat)
    requires 0.0 <= r < 1.0
    ensures j <= i
  {
    var x := r * (i + 1) as real;
    ScaledDrawBounds(r, (i + 1) as real);
    x.Floor
  }

  /** A draw in [0, 1) scaled by a positive n lies in [0, n). */
  lemma ScaledDrawBounds(r: real, n: real)
    requires 0.0 <= r < 1.0 && n > 0.0
    ensures 0.0 <= r * n < n
  {
    assert (1.0 - r) * n > 0.0;
  }

  /** `splice(0, count)` keeps the deleted count within [0, |cards|]. */
  function DrawCount(count: int, available: nat): (n: nat)
    ensures n <= available
    ensures 0 <= count <= available ==> n == count
    ensures count < 0 ==> n == 0
    ensures count > available ==> n == available
  {
    if count < 0 then 0 else if count > available then available else count
  }

  /** Every draw is a value `Math.random()` can return. */
  predicate RandomDraws(random: seq<real>)
  {
    forall k :: 0 <= k < |random| ==> 0.0 <= random[k] < 1.0
  }

  /**
   * The swaps of `shuffle` from position i down to 1: position i is
   * exchanged with the position its draw picks. The draw for position i is
   * `random[|s| - 1 - i]`, so the first draw goes to the last position.
   */
  function SwapsFrom(s: seq<Card>, i: nat, random: seq<real>): (r: seq<Card>)
    requires i < |s| && |random| >= |s| - 1 && RandomDraws(random)
    ensures |r| == |s|
    decreases i
  {
    if i == 0 then s
    else
      var j := SwapIndex(random[|s| - 1 - i], i);
      SwapsFrom(s[i := s[j]][j := s[i]], i - 1, random)
  }

  /** The deck after `shuffle`. */
  function Shuffled(s: seq<Card>, random: seq<real>): (r: seq<Card>)
    requires |random| >= |s| - 1 && RandomDraws(random)
  {
    if s == [] then [] else SwapsFrom(s, |s| - 1, random)
  }

  lemma {:induction false} SwapsFromPermutes(s: seq<Card>, i: nat, random: seq<real>)
    requires i < |s| && |random| >= |s| - 1 && RandomDraws(random)
    ensures multiset(SwapsFrom(s, i, random)) == multiset(s)
    decreases i
  {
    if i > 0 {
      var j := SwapIndex(random[|s| - 1 - i], i);
      var t := s[i := s[j]][j := s[i]];
      SwapsFromPermutes(t, i - 1, random);
      SwapPermutes(s, i, j);
    }
  }

  /** Exchanging two positions keeps the same cards. */
  lemma SwapPermutes(s: seq<Card>, i: nat, j: nat)
    requires i < |s| && j < |s|
    ensures multiset(s[i := s[j]][j := s[i]]) == multiset(s)
  {
    if i != j {
      var t := s[i := s[j]];
      assert multiset(t) == multiset(s) - multiset{s[i]} + multiset{s[j]};
      assert t[j] == s[j];
    }
  }

  /** Shuffling is a permutation of the deck, whatever the draws. */
  lemma ShuffledPermutes(s: seq<Card>, random: seq<real>)
    requires |random| >= |s| - 1 && RandomDraws(random)
    ensures |Shuffled(s, random)| == |s| && multiset(Shuffled(s, random)) == multiset(s)
  {
    if s != [] {
      SwapsFromPermutes(s, |s| - 1, random);
    }
  }

  class Deck {
    var batchId: Option<string>
    var cards: seq<Card>
    var discardPile: seq<Card>

    /** An empty store. */
    constructor ()
      ensures batchId == None && cards == [] && discardPile == []
    {
      batchId := None;
      cards := [];
      discardPile := [];
    }

    /** `cardsRemaining`. */
    function CardsRemaining(): (n: nat)
      reads this
      ensures n == |cards|
    {
      |cards|
    }

    /** `isEmpty`: no card is left exactly when none remains. */
    function IsEmpty(): (b: bool)
      reads this
      ensures b <==> CardsRemaining() == 0
    {
      |cards| == 0
    }

    /** `loadBatch`: the deck is a copy of the batch's cards and the discard pile is emptied. */
    method LoadBatch(batch: Batch)
      modifies this
      ensures batchId == batch.batchId && cards == batch.cards && discardPile == []
    {
      batchId := batch.batchId;
      cards := batch.cards;
      discardPile := [];
    }

    /** `shuffle`: the Fisher-Yates swaps from the last position down to the second. */
    method Shuffle(random: seq<real>)
      requires |random| >= |cards| - 1 && RandomDraws(random)
      modifies this
      ensures cards == Shuffled(old(cards), random)
      ensures multiset(cards) == old(multiset(cards))
      ensures batchId == old(batchId) && discardPile == old(discardPile)
    {
      ShuffledPermutes(cards, random);
      if |cards| > 0 {
        ghost var goal := Shuffled(cards, random);
        var n := |cards|;
        var i := n - 1;
        while i > 0
          invariant 0 <= i < n && |cards| == n
          invariant SwapsFrom(cards, i, random) == goal
          invariant batchId == old(batchId) && discardPile == old(discardPile)
          decreases i
        {
          var j := SwapIndex(random[n - 1 - i], i);
          cards := cards[i := cards[j]][j := cards[i]];
          i := i - 1;
        }
      }
    }

    /** `draw(count)`: the first cards of the deck, as many as asked for and as there are. */
    method Draw(count: int) returns (drawn: seq<Card>)
      modifies this
      ensures drawn == old(cards)[..DrawCount(count, |old(cards)|)]
      ensures cards == old(cards)[DrawCount(count, |old(cards)|)..]
      ensures drawn + cards == old(cards)
      ensures batchId == old(batchId) && discardPile == old(discardPile)
    {
      var n := DrawCount(count, |cards|);
      drawn := cards[..n];
      cards := cards[n..];
      assert drawn + cards == old(cards);
    }

    /** `discard`: the card goes on top of the discard pile; the deck is untouched. */
    method Discard(card: Card)
      modifies this
      ensures discardPile == old(discardPile) + [card]
      ensures cards == old(cards) && batchId == old(batchId)
    {
      discardPile := discardPile + [card];
    }

    /** `$reset`: no batch, no cards. */
    method Reset()
      modifies this
      ensures batchId == None && cards == [] && discardPile == []
    {
      batchId := None;
      cards := [];
      discardPile := [];
    }
  }
}

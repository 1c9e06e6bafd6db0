/**
 * Hands of cards: removing a played card from the hand (`hand.filter(c =>
 * c.id !== card.id)`) and dealing a hand from a shuffled deck.
 */
module Hands {
  import opened Cards

  /** The hand with every card carrying `id` dropped, the others kept in order. */
  function RemoveById(hand: seq<Card>, id: string): (r: seq<Card>)
    ensures |r| <= |hand|
    ensures forall c :: c in r <==> c in hand && c.id != id
    ensures multiset(r) <= multiset(hand)
  {
    if hand == [] then []
    else
      var rest := RemoveById(hand[1..], id);
      assert hand == [hand[0]] + hand[1..];
      if hand[0].id != id then [hand[0]] + rest else rest
  }

  /** The number of cards in `hand` carrying `id`. */
  function CountId(hand: seq<Card>, id: string): nat
  {
    if hand == [] then 0 else (if hand[0].id == id then 1 else 0) + CountId(hand[1..], id)
  }

  /** Filtering keeps order: filtering a concatenation filters each part. */
  lemma {:induction false} RemoveByIdAppend(a: seq<Card>, b: seq<Card>, id: string)
    ensures RemoveById(a + b, id) == RemoveById(a, id) + RemoveById(b, id)
  {
    if a == [] {
      assert a + b == b;
    } else {
      assert (a + b)[0] == a[0];
      assert (a + b)[1..] == a[1..] + b;
      RemoveByIdAppend(a[1..], b, id);
    }
  }

  /** Exactly the cards with that id are dropped. */
  lemma {:induction false} RemoveByIdCount(hand: seq<Card>, id: string)
    ensures |RemoveById(hand, id)| == |hand| - CountId(hand, id)
  {
    if hand != [] {
      RemoveByIdCount(hand[1..], id);
    }
  }

  /** Playing a card that is held removes at least that card. */
  lemma {:induction false} RemoveHeldShrinks(hand: seq<Card>, c: Card)
    requires c in hand
    ensures |RemoveById(hand, c.id)| < |hand|
  {
    if hand[0] != c {
      assert c in hand[1..];
      RemoveHeldShrinks(hand[1..], c);
    }
  }

  /** A hand holding no card with that id is left as it was. */
  lemma {:induction false} RemoveByIdAbsent(hand: seq<Card>, id: string)
    requires forall c :: c in hand ==> c.id != id
    ensures RemoveById(hand, id) == hand
  {
    if hand != [] {
      assert hand[0] in hand;
      assert forall c :: c in hand[1..] ==> c in hand;
      RemoveByIdAbsent(hand[1..], id);
      assert hand == [hand[0]] + hand[1..];
    }
  }

  /** The result of dealCards. */
  datatype Deal = Deal(hand: seq<Card>, remainingDeck: seq<Card>)

  /**
   * dealCards: the shuffled deck is split after `count` cards. `shuffled`
   * stands for `[...deck].sort(() => Math.random() - 0.5)`, which is some
   * ordering of the deck.
   */
  function DealCards(deck: seq<Card>, count: nat, shuffled: seq<Card>): (d: Deal)
    requires multiset(shuffled) == multiset(deck)
    ensures |d.hand| == if count <= |deck| then count else |deck|
    ensures d.hand + d.remainingDeck == shuffled
    ensures multiset(d.hand + d.remainingDeck) == multiset(deck)
    ensures multiset(d.hand) <= multiset(deck)
  {
    assert |shuffled| == |multiset(shuffled)| == |deck|;
    var n := if count <= |shuffled| then count else |shuffled|;
    assert shuffled[..n] + shuffled[n..] == shuffled;
    Deal(shuffled[..n], shuffled[n..])
  }
}

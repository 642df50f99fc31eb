/** The dealer's play (`play_dealer`): a fresh hand drawn from the round's
    deck until it scores at least 17. */
module Dealer {
  import opened Base
  import opened Cards
  import opened Msg
  import opened Scoring
  import opened Dealing
  import opened GameStore

  datatype Dealt = Dealt(hand: PlayerHand, deck: GameDeck)

  /** Keep drawing onto `hand` while it scores below 17. */
  function DealerDraw(hand: PlayerHand, d: GameDeck): Result<Dealt>
    decreases 0x100 - d.nextFreeCard
  {
    if Score(hand) >= 17 then Ok(Dealt(hand, d))
    else
      var drawn :- Draw(d);
      var h :- AddCard(hand, drawn.card);
      DealerDraw(h, drawn.deck)
  }

  /** The score of a card sequence held with its raw total. */
  function CardsScore(cs: seq<Card>): int {
    var t := RawTotal(cs);
    if t > 21 then t else Promote(t, cs)
  }

  /** Drawing takes the deck's next cards in order and moves the cursor past
      exactly those. */
  lemma {:induction false} DealerDrawTakes(hand: PlayerHand, d: GameDeck)
    ensures var r := DealerDraw(hand, d);
      && (r.Err? ==> r.error == DeckExhausted || r.error == Overflow)
      && (r.Ok? ==>
            && r.value.deck.deck == d.deck
            && |hand.cards| <= |r.value.hand.cards|
            && r.value.deck.nextFreeCard == d.nextFreeCard + (|r.value.hand.cards| - |hand.cards|)
            && r.value.hand.cards[..|hand.cards|] == hand.cards
            && (Score(hand) < 17 ==> |hand.cards| < |r.value.hand.cards|)
            && (|hand.cards| < |r.value.hand.cards| ==>
                  && r.value.deck.nextFreeCard <= |d.deck|
                  && r.value.hand.cards[|hand.cards|..] == d.deck[d.nextFreeCard..r.value.deck.nextFreeCard]))
    decreases 0x100 - d.nextFreeCard
  {
    if Score(hand) < 17 {
      var drawn := Draw(d);
      if drawn.Ok? {
        var h := AddCard(hand, drawn.value.card);
        if h.Ok? {
          DealerDrawTakes(h.value, drawn.value.deck);
          var r := DealerDraw(h.value, drawn.value.deck);
          assert DealerDraw(hand, d) == r;
          if r.Ok? {
            var cs := r.value.hand.cards;
            var n, n' := d.nextFreeCard, r.value.deck.nextFreeCard;
            assert cs[..|hand.cards|] == cs[..|h.value.cards|][..|hand.cards|];
            assert cs[|hand.cards|] == cs[..|h.value.cards|][|hand.cards|] == d.deck[n];
            if |h.value.cards| < |cs| {
              assert cs[|hand.cards|..] == [cs[|hand.cards|]] + cs[|h.value.cards|..];
              assert d.deck[n..n'] == [d.deck[n]] + d.deck[n + 1..n'];
            } else {
              assert cs[|hand.cards|..] == [cs[|hand.cards|]];
              assert d.deck[n..n'] == [d.deck[n]];
            }
          }
        }
      }
    }
  }

  /** Drawing stops at the first hand that scores 17 or more, and from a hand
      of raw total at most 26 it never passes 26. */
  lemma {:induction false} DealerDrawStops(hand: PlayerHand, d: GameDeck)
    requires Consistent(hand)
    requires hand.totalValue <= 26
    ensures var r := DealerDraw(hand, d);
      r.Ok? ==>
        && Consistent(r.value.hand)
        && 17 <= Score(r.value.hand) <= 26
        && forall i :: |hand.cards| <= i < |r.value.hand.cards| ==> CardsScore(r.value.hand.cards[..i]) < 17
    decreases 0x100 - d.nextFreeCard
  {
    ScoreBounds(hand);
    if Score(hand) < 17 {
      var drawn := Draw(d);
      if drawn.Ok? {
        var h := AddCard(hand, drawn.value.card);
        if h.Ok? {
          DealerDrawStops(h.value, drawn.value.deck);
          DealerDrawTakes(h.value, drawn.value.deck);
          var r := DealerDraw(h.value, drawn.value.deck);
          if r.Ok? {
            var cs := r.value.hand.cards;
            assert cs[..|hand.cards|] == cs[..|h.value.cards|][..|hand.cards|];
            forall i | |hand.cards| <= i < |cs|
              ensures CardsScore(cs[..i]) < 17
            {
              if i == |hand.cards| {
                assert CardsScore(cs[..i]) == Score(hand);
              }
            }
          }
        }
      }
    }
  }

  /** The dealer's hand is drawn from an empty hand: it is the deck's next
      cards in order, it scores between 17 and 26, every shorter prefix of it
      scored below 17, and the cursor moves past exactly the cards taken.
      Running out of cards, or the `u8` cursor running over, fails. */
  lemma DealerHandRules(d: GameDeck)
    ensures var r := DealerDraw(EMPTY_HAND, d);
      && (r.Err? ==> r.error == DeckExhausted || r.error == Overflow)
      && (r.Ok? ==>
            && |r.value.hand.cards| >= 1
            && r.value.deck.nextFreeCard == d.nextFreeCard + |r.value.hand.cards|
            && d.nextFreeCard + |r.value.hand.cards| <= |d.deck|
            && r.value.deck == d.(nextFreeCard := d.nextFreeCard + |r.value.hand.cards|)
            && r.value.hand.cards == d.deck[d.nextFreeCard..d.nextFreeCard + |r.value.hand.cards|]
            && Consistent(r.value.hand)
            && 17 <= Score(r.value.hand) <= 26
            && forall i :: 0 <= i < |r.value.hand.cards| ==> CardsScore(r.value.hand.cards[..i]) < 17)
  {
    DealerDrawTakes(EMPTY_HAND, d);
    DealerDrawStops(EMPTY_HAND, d);
    var r := DealerDraw(EMPTY_HAND, d);
    if r.Ok? {
      var n := |r.value.hand.cards|;
      assert d.nextFreeCard + (n - 1) < |d.deck|;
    }
  }

  /** `play_dealer`: the dealer's new hand goes on the table, and the deck
      with its moved cursor is stored. */
  function DealerPlays(w: World): Result<World> {
    var dealt :- DealerDraw(EMPTY_HAND, w.deck);
    Ok(w.(deck := dealt.deck, table := w.table.(dealerHand := Some(dealt.hand))))
  }

  /** `play_dealer`, as the source's loop. */
  method PlayDealer(w: World) returns (r: Result<World>)
    ensures r == DealerPlays(w)
  {
    var deck := w.deck;
    var hand := EMPTY_HAND;
    var score := GetPlayerScore(hand);
    while score < 17
      invariant score == Score(hand)
      invariant DealerDraw(EMPTY_HAND, w.deck) == DealerDraw(hand, deck)
      decreases 0x100 - deck.nextFreeCard
    {
      var drawn :- Draw(deck);
      hand :- AddCard(hand, drawn.card);
      deck := drawn.deck;
      score := GetPlayerScore(hand);
    }
    return Ok(w.(deck := deck, table := w.table.(dealerHand := Some(hand))));
  }
}

/** Dealing from the deck and the per-seat state lattice
    (`on_player_hit`, `on_player_state_change`). The source reads
    `deck.deck[next_free_card]` without a bounds check; here that read is a
    fallible accessor, failing where the source would panic. */
module Dealing {
  import opened Base
  import opened Cards
  import opened Msg
  import opened Scoring

  datatype Drawn = Drawn(card: Card, deck: GameDeck)

  /** Read the next card and advance the `u8` cursor by one. */
  function Draw(d: GameDeck): (r: Result<Drawn>)
    ensures r.Ok? <==> d.nextFreeCard < |d.deck| && d.nextFreeCard + 1 < 0x100
    ensures r.Ok? ==> r.value.card == d.deck[d.nextFreeCard]
    ensures r.Ok? ==> r.value.deck == d.(nextFreeCard := d.nextFreeCard + 1)
    ensures r.Err? ==> r.error == DeckExhausted || r.error == Overflow
  {
    if d.nextFreeCard >= |d.deck| then Err(DeckExhausted)
    else if d.nextFreeCard + 1 >= 0x100 then Err(Overflow)
    else Ok(Drawn(d.deck[d.nextFreeCard], d.(nextFreeCard := d.nextFreeCard + 1)))
  }

  /** Push a card onto a hand and add its value to the `u8` total. */
  function AddCard(h: PlayerHand, c: Card): (r: Result<PlayerHand>)
    ensures r.Ok? <==> h.totalValue + CardValue(c) < 0x100
    ensures r.Ok? ==> r.value == PlayerHand(h.cards + [c], h.totalValue + CardValue(c))
    ensures r.Ok? && Consistent(h) ==> Consistent(r.value)
  {
    RawTotalAppend(h.cards, c);
    var total :- AddU8(h.totalValue, CardValue(c));
    Ok(PlayerHand(h.cards + [c], total))
  }

  /** A seat and the deck after a lattice step. */
  datatype Step = Step(player: Player, deck: GameDeck)

  /** `on_player_hit`: deal one card to a hand whose total is below 21. */
  function OnPlayerHit(p: Player, d: GameDeck): Result<Step> {
    if p.hand.None? then Err(MissingHand)
    else if p.hand.value.totalValue >= 21 then Err(CannotHitWithScore(p.hand.value.totalValue))
    else
      var drawn :- Draw(d);
      var hand :- AddCard(p.hand.value, drawn.card);
      Ok(Step(p.(hand := Some(hand)), drawn.deck))
  }

  /** The opening deal of a bid: the next two cards. */
  function DealOpeningHand(p: Player, d: GameDeck): Result<Step> {
    var first :- Draw(d);
    var second :- Draw(first.deck);
    var hand := PlayerHand([first.card, second.card], CardValue(first.card) + CardValue(second.card));
    Ok(Step(p.(hand := Some(hand)), second.deck))
  }

  /** `on_player_state_change`: the effect of moving a seat from `prev` to
      `next`. The caller has already written the new state into the seat. */
  function OnPlayerStateChange(p: Player, prev: PlayerState, next: PlayerState, d: GameDeck): Result<Step> {
    match prev
    case NotPlaying =>
      if next == PlayerState.Bid then DealOpeningHand(p, d) else Err(UnexpectedPlayerTransition)
    case Bid =>
      if next == PlayerState.Hit then OnPlayerHit(p, d)
      else if next == PlayerState.Hold then Ok(Step(p, d))
      else Err(UnexpectedPlayerTransition)
    case Hit =>
      if next == PlayerState.Hit then OnPlayerHit(p, d)
      else if next == PlayerState.Hold then Ok(Step(p, d))
      else Err(UnexpectedPlayerTransition)
    case Hold => Err(UnexpectedPlayerTransition)
  }

  /** The lattice NotPlaying -> Bid -> Hit* -> Hold: a bid deals the next two
      cards, a hit deals one card and needs a total below 21, a hold deals
      nothing, and every other step fails. Only the hand and the cursor
      change; the cards dealt are the deck's next ones in order. */
  lemma PlayerLattice(p: Player, prev: PlayerState, next: PlayerState, d: GameDeck)
    ensures var r := OnPlayerStateChange(p, prev, next, d);
      && (prev == NotPlaying && next == PlayerState.Bid ==>
            && (r.Ok? <==> d.nextFreeCard + 1 < |d.deck| && d.nextFreeCard + 2 < 0x100)
            && (r.Ok? ==>
                  && r.value.deck == d.(nextFreeCard := d.nextFreeCard + 2)
                  && r.value.player == p.(hand := r.value.player.hand)
                  && r.value.player.hand.Some?
                  && r.value.player.hand.value.cards == d.deck[d.nextFreeCard..d.nextFreeCard + 2]
                  && Consistent(r.value.player.hand.value)))
      && ((prev == PlayerState.Bid || prev == PlayerState.Hit) && next == PlayerState.Hit ==>
            && (r.Ok? <==>
                  && p.hand.Some? && p.hand.value.totalValue < 21
                  && d.nextFreeCard < |d.deck| && d.nextFreeCard + 1 < 0x100)
            && (r.Ok? ==>
                  && r.value.deck == d.(nextFreeCard := d.nextFreeCard + 1)
                  && r.value.player == p.(hand := Some(PlayerHand(p.hand.value.cards + [d.deck[d.nextFreeCard]],
                                                              p.hand.value.totalValue + CardValue(d.deck[d.nextFreeCard])))))
            && (r.Err? && p.hand.Some? && p.hand.value.totalValue >= 21 ==>
                  r.error == CannotHitWithScore(p.hand.value.totalValue)))
      && ((prev == PlayerState.Bid || prev == PlayerState.Hit) && next == PlayerState.Hold ==>
            r == Ok(Step(p, d)))
      && (!(prev == NotPlaying && next == PlayerState.Bid)
          && !((prev == PlayerState.Bid || prev == PlayerState.Hit) && (next == PlayerState.Hit || next == PlayerState.Hold)) ==>
            r == Err(UnexpectedPlayerTransition))
  {
    if prev == NotPlaying && next == PlayerState.Bid {
      var r := OnPlayerStateChange(p, prev, next, d);
      if r.Ok? {
        var c0, c1 := d.deck[d.nextFreeCard], d.deck[d.nextFreeCard + 1];
        assert d.deck[d.nextFreeCard..d.nextFreeCard + 2] == [c0, c1];
        assert [c0, c1][..1] == [c0];
        assert [c0][..0] == [];
        assert RawTotal([c0]) == CardValue(c0);
        assert RawTotal([c0, c1]) == CardValue(c0) + CardValue(c1);
      }
    }
  }
}

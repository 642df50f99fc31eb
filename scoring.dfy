/** Hand scoring (`get_player_score`): the raw total with each ace promoted
    from 1 to 11 while that keeps the running result at or below 21. */
module Scoring {
  import opened Base
  import opened Cards
  import opened Msg

  /** The source's ace loop: walk the cards in order, adding 10 for an ace
      whenever the result stays at or below 21. */
  function Promote(result: int, cs: seq<Card>): int
    decreases |cs|
  {
    if cs == [] then result
    else Promote(if IsAce(cs[0]) && result + 10 <= 21 then result + 10 else result, cs[1..])
  }

  /** The score of a hand: a bust total is returned unchanged, otherwise the
      aces are promoted. */
  function Score(h: PlayerHand): int {
    if h.totalValue > 21 then h.totalValue else Promote(h.totalValue, h.cards)
  }

  /** A hand is consistent when its stored total is the raw total of its cards;
      every hand the table deals is. */
  predicate Consistent(h: PlayerHand) {
    h.totalValue == RawTotal(h.cards)
  }

  lemma {:induction false} PromoteBounds(r: int, cs: seq<Card>)
    requires r <= 21
    ensures r <= Promote(r, cs) <= 21
    ensures (Promote(r, cs) - r) % 10 == 0
    decreases |cs|
  {
    if cs != [] {
      var r' := if IsAce(cs[0]) && r + 10 <= 21 then r + 10 else r;
      PromoteBounds(r', cs[1..]);
    }
  }

  /** Promotion adds ten at most once when the result cannot be promoted twice:
      an ace is promoted exactly when the result is still at most 11. */
  lemma {:induction false} PromoteOnce(r: int, cs: seq<Card>)
    requires r <= 21
    requires CountAces(cs) >= 2 ==> r >= 2
    ensures Promote(r, cs) == if r <= 11 && HasAce(cs) then r + 10 else r
    decreases |cs|
  {
    CountAcesBound(cs);
    if cs != [] {
      CountAcesBound(cs[1..]);
      if IsAce(cs[0]) {
        assert HasAce(cs);
        if r <= 11 {
          PromoteOnce(r + 10, cs[1..]);
        } else {
          PromoteOnce(r, cs[1..]);
        }
      } else {
        PromoteOnce(r, cs[1..]);
        assert HasAce(cs) <==> HasAce(cs[1..]);
      }
    }
  }

  /** The score of any hand: a bust total comes back unchanged; otherwise the
      score lies between the total and 21 and differs from it by a multiple of
      ten. */
  lemma ScoreBounds(h: PlayerHand)
    ensures h.totalValue > 21 ==> Score(h) == h.totalValue
    ensures h.totalValue <= 21 ==> h.totalValue <= Score(h) <= 21 && (Score(h) - h.totalValue) % 10 == 0
    ensures 0 <= Score(h) < 0x100
  {
    if h.totalValue <= 21 {
      PromoteBounds(h.totalValue, h.cards);
    }
  }

  /** For a hand the table dealt, the score is the raw total, plus ten exactly
      when the hand holds an ace and the total is at most 11. */
  lemma ScoreOfConsistentHand(h: PlayerHand)
    requires Consistent(h)
    ensures h.totalValue <= 21 ==>
      Score(h) == if h.totalValue <= 11 && HasAce(h.cards) then h.totalValue + 10 else h.totalValue
    ensures h.totalValue <= 21 ==> Score(h) == h.totalValue || Score(h) == h.totalValue + 10
  {
    RawTotalBounds(h.cards);
    CountAcesBound(h.cards);
    if h.totalValue <= 21 {
      PromoteOnce(h.totalValue, h.cards);
    }
  }

  /** `get_player_score`, as the source's loop over the cards. */
  method GetPlayerScore(h: PlayerHand) returns (r: uint8)
    ensures r == Score(h)
  {
    if h.totalValue > 21 {
      return h.totalValue;
    }
    var result: uint8 := h.totalValue;
    var i := 0;
    while i < |h.cards|
      invariant 0 <= i <= |h.cards|
      invariant h.totalValue <= result <= 21
      invariant Promote(result, h.cards[i..]) == Promote(h.totalValue, h.cards)
    {
      assert h.cards[i..][1..] == h.cards[i + 1..];
      if IsAce(h.cards[i]) && result + 10 <= 21 {
        result := result + 10;
      }
      i := i + 1;
    }
    assert h.cards[i..] == [];
    r := result;
  }
}

/** Playing cards as the poker library defines them, and their blackjack
    values (`get_card_value`). */
module Cards {
  import opened Base

  /** The thirteen card values, in the library's order (Two is the lowest). */
  datatype Value = Two | Three | Four | Five | Six | Seven | Eight | Nine | Ten | Jack | Queen | King | Ace

  datatype Suit = Spade | Club | Heart | Diamond

  datatype Card = Card(value: Value, suit: Suit)

  /** The position of a value in the library's ordering: Two is 0, Ace is 12. */
  function Ordinal(v: Value): (n: nat)
    ensures n < 13
  {
    match v
    case Two => 0
    case Three => 1
    case Four => 2
    case Five => 3
    case Six => 4
    case Seven => 5
    case Eight => 6
    case Nine => 7
    case Ten => 8
    case Jack => 9
    case Queen => 10
    case King => 11
    case Ace => 12
  }

  function Min(a: int, b: int): int {
    if a <= b then a else b
  }

  predicate IsAce(c: Card) {
    c.value == Ace
  }

  /** Blackjack value of a card: pips for Two to Ten, 10 for a face card, and
      1 for an ace (an ace's extra 10 is added by the scoring). */
  function CardValue(c: Card): (r: uint8)
    ensures 1 <= r <= 10
    ensures IsAce(c) <==> r == 1
    ensures !IsAce(c) ==> r == Min(Ordinal(c.value) + 2, 10)
  {
    match c.value
    case Two => 2
    case Three => 3
    case Four => 4
    case Five => 5
    case Six => 6
    case Seven => 7
    case Eight => 8
    case Nine => 9
    case Ten => 10
    case Jack => 10
    case Queen => 10
    case King => 10
    case Ace => 1
  }

  /** The sum of the card values of `cs`, in the order they were dealt. */
  function RawTotal(cs: seq<Card>): nat {
    if cs == [] then 0 else RawTotal(cs[..|cs| - 1]) + CardValue(cs[|cs| - 1])
  }

  function CountAces(cs: seq<Card>): nat {
    if cs == [] then 0 else (if IsAce(cs[0]) then 1 else 0) + CountAces(cs[1..])
  }

  predicate HasAce(cs: seq<Card>) {
    exists i :: 0 <= i < |cs| && IsAce(cs[i])
  }

  /** Each card is worth at least 1 and at most 10. */
  lemma {:induction false} RawTotalBounds(cs: seq<Card>)
    ensures |cs| <= RawTotal(cs) <= 10 * |cs|
  {
    if cs != [] {
      RawTotalBounds(cs[..|cs| - 1]);
    }
  }

  lemma {:induction false} CountAcesBound(cs: seq<Card>)
    ensures CountAces(cs) <= |cs|
    ensures CountAces(cs) > 0 <==> HasAce(cs)
  {
    if cs != [] {
      CountAcesBound(cs[1..]);
      if IsAce(cs[0]) {
        assert HasAce(cs);
      } else {
        if HasAce(cs) {
          var i :| 0 <= i < |cs| && IsAce(cs[i]);
          assert IsAce(cs[1..][i - 1]);
        }
        if HasAce(cs[1..]) {
          var i :| 0 <= i < |cs[1..]| && IsAce(cs[1..][i]);
          assert IsAce(cs[i + 1]);
        }
      }
    }
  }

  /** Dealing one more card adds its value to the raw total. */
  lemma RawTotalAppend(cs: seq<Card>, c: Card)
    ensures RawTotal(cs + [c]) == RawTotal(cs) + CardValue(c)
  {
    assert (cs + [c])[..|cs + [c]| - 1] == cs;
  }
}

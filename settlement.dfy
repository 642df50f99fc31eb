/** Settling a round (`game_roundup`): every seated player who holds is
    compared with the dealer, paid or not, has their escrowed bid released,
    and is reset to NotPlaying. */
module Settlement {
  import opened Base
  import opened Cards
  import opened Msg
  import opened State
  import opened Scoring
  import opened GameStore

  /** A score that beats the dealer: not bust, and above the dealer's or the
      dealer bust. A tie loses. */
  predicate Wins(score: int, dealer: int) {
    score <= 21 && (score > dealer || dealer > 21)
  }

  /** What the bank pays a winner on top of the returned stake: the stake,
      or for a score of exactly 21 the stake times 125/100, computed with a
      checked `u128` multiplication. */
  function Award(stake: uint128, score: int): (r: Result<uint128>)
    ensures score != 21 ==> r == Ok(stake)
    ensures score == 21 && stake * 125 < UINT128_LIMIT ==> r == Ok(stake * 125 / 100)
    ensures score == 21 && stake * 125 >= UINT128_LIMIT ==> r == Err(Overflow)
  {
    if score == 21 then
      if stake * 125 >= UINT128_LIMIT then Err(Overflow) else Ok(stake * 125 / 100)
    else Ok(stake)
  }

  /** Payouts are never below the stake, and a 21 gets at most a quarter more. */
  lemma AwardBounds(stake: uint128, score: int)
    requires Award(stake, score).Ok?
    ensures stake <= Award(stake, score).value
    ensures 4 * Award(stake, score).value <= 5 * stake
  {
  }

  /** The players, balances, result slots and messages while the seats are
      being settled. */
  datatype Tally = Tally(players: Seats, balances: map<Addr, uint128>, results: SeatResults, msgs: seq<CosmosMsg>)

  /** The seat takes part in settlement: seated and holding. */
  predicate Settles(p: Player) {
    Occupied(p) && p.state == PlayerState.Hold
  }

  /** The loop body of `game_roundup` for one seat. */
  function SettleSeat(acc: Tally, seat: nat, dealerScore: int, game: Addr, bank: Addr): Result<Tally>
    requires seat < SEATS
  {
    var p := acc.players[seat];
    if !Settles(p) then Ok(acc)
    else
      var stake := ReadUserBalance(acc.balances, p.address);
      if p.hand.None? then Err(MissingHand)
      else
        ScoreBounds(p.hand.value);
        var score := Score(p.hand.value) as uint8;
        var players := acc.players[seat := p.(state := NotPlaying)];
        var balances := ZeroUserBalance(acc.balances, p.address);
        if Wins(score, dealerScore) then
          var award :- Award(stake, score);
          Ok(Tally(players, balances, acc.results[seat := Some(PlayerResult(p.address, true, score, award))],
                     acc.msgs + [PayToWinner(bank, award, p.address)] + [Send(game, p.address, stake)]))
        else
          Ok(Tally(players, balances, acc.results[seat := Some(PlayerResult(p.address, false, score, stake))],
                     acc.msgs + [Send(game, bank, stake)]))
  }

  /** The settlement loop from seat `seat` on. */
  function SettleFrom(acc: Tally, seat: nat, dealerScore: int, game: Addr, bank: Addr): Result<Tally>
    decreases SEATS - seat
  {
    if seat >= SEATS then Ok(acc)
    else
      var next :- SettleSeat(acc, seat, dealerScore, game, bank);
      SettleFrom(next, seat + 1, dealerScore, game, bank)
  }

  /** The dealer's line in the results: no address, never a winner, no reward. */
  function DealerResult(dealerScore: uint8): PlayerResult {
    PlayerResult(EMPTY_ADDR, false, dealerScore, 0)
  }

  /** `game_roundup`: settle the seats against the dealer's hand and store
      the results. The contract's own address `game` is the sender of the
      escrow releases. */
  function Settled(w: World, game: Addr): Result<Effect> {
    if w.table.dealerHand.None? then Err(MissingHand)
    else
      ScoreBounds(w.table.dealerHand.value);
      var dealerScore := Score(w.table.dealerHand.value) as uint8;
      var done :- SettleFrom(Tally(w.table.players, w.balances, NO_RESULTS, []), 0, dealerScore, game, w.bank);
      Ok(Effect(w.(table := w.table.(players := done.players),
                   balances := done.balances,
                   scores := Scores(done.results, DealerResult(dealerScore))),
                done.msgs))
  }

  /** Seated players sit at pairwise different addresses. */
  predicate DistinctAddresses(players: Seats) {
    forall i, j :: 0 <= i < SEATS && 0 <= j < SEATS && i != j && Occupied(players[i]) ==> players[i].address != players[j].address
  }

  /** The coins sent out of the contract `game` by a message list. */
  function SentBy(msgs: seq<CosmosMsg>, game: Addr): int {
    if msgs == [] then 0
    else
      SentBy(msgs[..|msgs| - 1], game)
      + (match msgs[|msgs| - 1] case Send(from, _, amount) => if from == game then amount else 0 case _ => 0)
  }

  /** The escrowed bids of the seats from `seat` on that settle. */
  function StakesFrom(players: Seats, balances: map<Addr, uint128>, seat: nat): int
    decreases SEATS - seat
  {
    if seat >= SEATS then 0
    else (if Settles(players[seat]) then ReadUserBalance(balances, players[seat].address) else 0)
         + StakesFrom(players, balances, seat + 1)
  }

  /** The stakes from `seat` on depend only on those seats and their balances. */
  lemma {:induction false} StakesFrame(p1: Seats, b1: map<Addr, uint128>, p2: Seats, b2: map<Addr, uint128>, seat: nat)
    requires forall s :: seat <= s < SEATS ==> p1[s] == p2[s]
    requires forall s :: seat <= s < SEATS && Settles(p1[s]) ==> ReadUserBalance(b1, p1[s].address) == ReadUserBalance(b2, p1[s].address)
    ensures StakesFrom(p1, b1, seat) == StakesFrom(p2, b2, seat)
    decreases SEATS - seat
  {
    if seat < SEATS {
      StakesFrame(p1, b1, p2, b2, seat + 1);
    }
  }

  /** One seat's settlement: a seat that does not hold is left alone; a
      holding seat fails only without a hand or on a winning payout that
      overflows. */
  lemma SettleSeatFails(acc: Tally, seat: nat, dealerScore: int, game: Addr, bank: Addr)
    requires seat < SEATS
    ensures var r := SettleSeat(acc, seat, dealerScore, game, bank);
      var p := acc.players[seat];
      && (!Settles(p) ==> r == Ok(acc))
      && (Settles(p) ==> (r.Err? <==> p.hand.None? || (Wins(Score(p.hand.value), dealerScore)
                                                       && Award(ReadUserBalance(acc.balances, p.address), Score(p.hand.value)).Err?)))
  {
  }

  /** A holding seat is reset to NotPlaying, its balance is zeroed and its
      result slot is filled with its address; no other seat, balance or
      result slot changes. */
  lemma SettleSeatFrame(acc: Tally, seat: nat, dealerScore: int, game: Addr, bank: Addr)
    requires seat < SEATS
    ensures var r := SettleSeat(acc, seat, dealerScore, game, bank);
      var p := acc.players[seat];
      r.Ok? ==>
        && r.value.players[seat] == (if Settles(p) then p.(state := NotPlaying) else p)
        && (forall s :: 0 <= s < SEATS && s != seat ==> r.value.players[s] == acc.players[s])
        && (Settles(p) ==> ReadUserBalance(r.value.balances, p.address) == 0)
        && (forall a :: a != p.address ==> ReadUserBalance(r.value.balances, a) == ReadUserBalance(acc.balances, a))
        && (forall s :: 0 <= s < SEATS && s != seat ==> r.value.results[s] == acc.results[s])
        && (!Settles(p) ==> r.value == acc)
        && (Settles(p) ==> r.value.results[seat].Some? && r.value.results[seat].value.address == p.address)
  {
  }

  /** A holding seat's result: its score, whether it beat the dealer, and
      its reward. A winner is paid the award by the bank and gets its stake
      back from the contract; a loser's stake goes from the contract to the
      bank, and the reward recorded for it is the stake it lost. */
  lemma SettleSeatOutcome(acc: Tally, seat: nat, dealerScore: int, game: Addr, bank: Addr)
    requires seat < SEATS
    requires Settles(acc.players[seat])
    ensures var r := SettleSeat(acc, seat, dealerScore, game, bank);
      var p := acc.players[seat];
      var stake := ReadUserBalance(acc.balances, p.address);
      r.Ok? ==>
        && r.value.results[seat].Some?
        && r.value.results[seat].value.score as int == Score(p.hand.value)
        && r.value.results[seat].value.won == Wins(Score(p.hand.value), dealerScore)
        && (r.value.results[seat].value.won ==>
              && Award(stake, Score(p.hand.value)) == Ok(r.value.results[seat].value.reward)
              && r.value.msgs == acc.msgs + [PayToWinner(bank, r.value.results[seat].value.reward, p.address),
                                             Send(game, p.address, stake)])
        && (!r.value.results[seat].value.won ==>
              && r.value.results[seat].value.reward == stake
              && r.value.msgs == acc.msgs + [Send(game, bank, stake)])
  {
    var p := acc.players[seat];
    if p.hand.Some? {
      ScoreBounds(p.hand.value);
      var r := SettleSeat(acc, seat, dealerScore, game, bank);
      if r.Ok? && r.value.results[seat].value.won {
        var stake := ReadUserBalance(acc.balances, p.address);
        var award := r.value.results[seat].value.reward;
        assert acc.msgs + [PayToWinner(bank, award, p.address)] + [Send(game, p.address, stake)]
            == acc.msgs + [PayToWinner(bank, award, p.address), Send(game, p.address, stake)];
      }
    }
  }

  /** One seat's settlement sends its stake out of the contract, and nothing
      more, when its address is neither the contract's nor the bank's own. */
  lemma SettleSeatSends(acc: Tally, seat: nat, dealerScore: int, game: Addr, bank: Addr)
    requires seat < SEATS
    requires game != bank && acc.players[seat].address != game
    ensures var r := SettleSeat(acc, seat, dealerScore, game, bank);
      var p := acc.players[seat];
      r.Ok? ==> SentBy(r.value.msgs, game)
                == SentBy(acc.msgs, game) + (if Settles(p) then ReadUserBalance(acc.balances, p.address) else 0)
  {
    var p := acc.players[seat];
    if Settles(p) {
      SettleSeatOutcome(acc, seat, dealerScore, game, bank);
      var r := SettleSeat(acc, seat, dealerScore, game, bank);
      if r.Ok? {
        var m := r.value.msgs;
        if r.value.results[seat].value.won {
          assert m[..|m| - 1] == acc.msgs + [PayToWinner(bank, r.value.results[seat].value.reward, p.address)];
          assert m[..|m| - 1][..|m| - 2] == acc.msgs;
        } else {
          assert m[..|m| - 1] == acc.msgs;
        }
      }
    }
  }

  /** The escrow is released exactly: settling the seats from `seat` on sends
      out of the contract precisely the stakes of the holding seats, when the
      seated addresses are distinct and differ from the contract's. */
  lemma {:induction false} SettleFromReleasesStakes(acc: Tally, seat: nat, dealerScore: int, game: Addr, bank: Addr)
    requires seat <= SEATS
    requires DistinctAddresses(acc.players)
    requires game != bank && forall s :: seat <= s < SEATS ==> acc.players[s].address != game
    ensures var r := SettleFrom(acc, seat, dealerScore, game, bank);
      r.Ok? ==> SentBy(r.value.msgs, game) == SentBy(acc.msgs, game) + StakesFrom(acc.players, acc.balances, seat)
    decreases SEATS - seat
  {
    if seat < SEATS {
      var step := SettleSeat(acc, seat, dealerScore, game, bank);
      if step.Ok? {
        var next := step.value;
        SettleSeatFrame(acc, seat, dealerScore, game, bank);
        SettleSeatSends(acc, seat, dealerScore, game, bank);
        assert DistinctAddresses(next.players) by {
          forall i, j | 0 <= i < SEATS && 0 <= j < SEATS && i != j && Occupied(next.players[i])
            ensures next.players[i].address != next.players[j].address
          {
            assert next.players[i].address == acc.players[i].address;
            assert next.players[j].address == acc.players[j].address;
          }
        }
        SettleFromReleasesStakes(next, seat + 1, dealerScore, game, bank);
        forall s | seat + 1 <= s < SEATS && Settles(next.players[s])
          ensures ReadUserBalance(next.balances, next.players[s].address) == ReadUserBalance(acc.balances, next.players[s].address)
        {
          assert next.players[s].address != acc.players[seat].address;
        }
        StakesFrame(next.players, next.balances, acc.players, acc.balances, seat + 1);
      }
    }
  }

  /** After the seats from `seat` on are settled, every seat among them that
      held is NotPlaying and every other seat is as it was; seats before
      `seat` keep their result slots. */
  lemma {:induction false} RoundupResetsHolders(acc: Tally, seat: nat, dealerScore: int, game: Addr, bank: Addr)
    requires seat <= SEATS
    ensures var r := SettleFrom(acc, seat, dealerScore, game, bank);
      r.Ok? ==>
        && (forall s :: 0 <= s < seat ==> r.value.players[s] == acc.players[s] && r.value.results[s] == acc.results[s])
        && (forall s :: seat <= s < SEATS ==>
              r.value.players[s] == (if Settles(acc.players[s]) then acc.players[s].(state := NotPlaying) else acc.players[s]))
    decreases SEATS - seat
  {
    if seat < SEATS {
      var step := SettleSeat(acc, seat, dealerScore, game, bank);
      if step.Ok? {
        SettleSeatFrame(acc, seat, dealerScore, game, bank);
        RoundupResetsHolders(step.value, seat + 1, dealerScore, game, bank);
      }
    }
  }

  /** After the seats from `seat` on are settled, every seat among them that
      held has a result with its address and a zero balance; every other
      seat keeps its result slot. */
  lemma {:induction false} RoundupSettlesHolders(acc: Tally, seat: nat, dealerScore: int, game: Addr, bank: Addr)
    requires seat <= SEATS
    ensures var r := SettleFrom(acc, seat, dealerScore, game, bank);
      r.Ok? ==>
        && (forall s :: seat <= s < SEATS && !Settles(acc.players[s]) ==> r.value.results[s] == acc.results[s])
        && (forall s :: seat <= s < SEATS && Settles(acc.players[s]) ==>
              r.value.results[s].Some? && r.value.results[s].value.address == acc.players[s].address
              && ReadUserBalance(r.value.balances, acc.players[s].address) == 0)
    decreases SEATS - seat
  {
    if seat < SEATS {
      var step := SettleSeat(acc, seat, dealerScore, game, bank);
      if step.Ok? {
        SettleSeatFrame(acc, seat, dealerScore, game, bank);
        RoundupSettlesHolders(step.value, seat + 1, dealerScore, game, bank);
        RoundupResetsHolders(step.value, seat + 1, dealerScore, game, bank);
        if Settles(acc.players[seat]) {
          BalanceStaysZero(step.value, seat + 1, dealerScore, game, bank, acc.players[seat].address);
        }
      }
    }
  }

  /** A zero balance stays zero through later seats' settlement. */
  lemma {:induction false} BalanceStaysZero(acc: Tally, seat: nat, dealerScore: int, game: Addr, bank: Addr, a: Addr)
    requires seat <= SEATS
    requires ReadUserBalance(acc.balances, a) == 0
    ensures var r := SettleFrom(acc, seat, dealerScore, game, bank);
      r.Ok? ==> ReadUserBalance(r.value.balances, a) == 0
    decreases SEATS - seat
  {
    if seat < SEATS {
      var step := SettleSeat(acc, seat, dealerScore, game, bank);
      if step.Ok? {
        SettleSeatFrame(acc, seat, dealerScore, game, bank);
        BalanceStaysZero(step.value, seat + 1, dealerScore, game, bank, a);
      }
    }
  }

  /** A settled round: every seat that held is reset to NotPlaying, has a
      result and a zero balance; every other seat is untouched and has no
      result; the dealer's line has the dealer's score. */
  lemma SettledRound(w: World, game: Addr)
    ensures var r := Settled(w, game);
      r.Ok? ==>
        && w.table.dealerHand.Some?
        && r.value.world.scores.dealer == DealerResult(Score(w.table.dealerHand.value) as uint8)
        && r.value.world.table == w.table.(players := r.value.world.table.players)
        && (forall s :: 0 <= s < SEATS ==>
              && r.value.world.table.players[s]
                 == (if Settles(w.table.players[s]) then w.table.players[s].(state := NotPlaying) else w.table.players[s])
              && (r.value.world.scores.players[s].Some? <==> Settles(w.table.players[s]))
              && (Settles(w.table.players[s]) ==>
                    && r.value.world.scores.players[s].value.address == w.table.players[s].address
                    && ReadUserBalance(r.value.world.balances, w.table.players[s].address) == 0))
        && r.value.world.deck == w.deck && r.value.world.secret == w.secret && r.value.world.seatSecrets == w.seatSecrets
  {
    if w.table.dealerHand.Some? {
      ScoreBounds(w.table.dealerHand.value);
      var dealerScore := Score(w.table.dealerHand.value) as uint8;
      RoundupResetsHolders(Tally(w.table.players, w.balances, NO_RESULTS, []), 0, dealerScore, game, w.bank);
      RoundupSettlesHolders(Tally(w.table.players, w.balances, NO_RESULTS, []), 0, dealerScore, game, w.bank);
    }
  }

  /** The escrow of a settled round is released in full: when the seated
      addresses are distinct and are not the contract's, and the bank is not
      the contract, the coins the contract sends out are exactly the
      holding seats' stakes. */
  lemma SettledReleasesEscrow(w: World, game: Addr)
    requires DistinctAddresses(w.table.players) && game != w.bank
    requires forall s :: 0 <= s < SEATS ==> w.table.players[s].address != game
    ensures var r := Settled(w, game);
      r.Ok? ==> SentBy(r.value.msgs, game) == StakesFrom(w.table.players, w.balances, 0)
  {
    if w.table.dealerHand.Some? {
      ScoreBounds(w.table.dealerHand.value);
      var dealerScore := Score(w.table.dealerHand.value) as uint8;
      SettleFromReleasesStakes(Tally(w.table.players, w.balances, NO_RESULTS, []), 0, dealerScore, game, w.bank);
    }
  }

  /** `game_roundup`, as the source's loop over the seats. */
  method GameRoundup(w: World, game: Addr) returns (r: Result<Effect>)
    ensures r == Settled(w, game)
  {
    if w.table.dealerHand.None? {
      return Err(MissingHand);
    }
    var dealerScore := GetPlayerScore(w.table.dealerHand.value);
    var acc := Tally(w.table.players, w.balances, NO_RESULTS, []);
    ghost var start := acc;
    var seat := 0;
    while seat < SEATS
      invariant 0 <= seat <= SEATS
      invariant SettleFrom(start, 0, dealerScore, game, w.bank) == SettleFrom(acc, seat, dealerScore, game, w.bank)
    {
      acc :- SettleSeat(acc, seat, dealerScore, game, w.bank);
      seat := seat + 1;
    }
    return Ok(Effect(w.(table := w.table.(players := acc.players),
                        balances := acc.balances,
                        scores := Scores(acc.results, DealerResult(dealerScore))),
                     acc.msgs));
  }
}

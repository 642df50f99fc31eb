/** The six actions of the game contract (`sit`, `stand`, `bid`, `hit`,
    `hold`, `kick`) and their dispatch (`handle`), each as the whole effect
    of one call on the stored world. A failing call keeps nothing, since
    the chain reverts a call that returns an error or panics. */
module Handlers {
  import opened Base
  import opened Cards
  import opened Msg
  import opened State
  import opened Scoring
  import opened GameStore
  import opened Dealing
  import opened Seating
  import opened Turns
  import opened Settlement
  import opened Flow

  /** `sit`: take a free seat with a secret; the first player to sit at an
      idle table starts a round. */
  function AfterSit(w: World, env: Env, seat: uint8, secret: uint64, rng: Rng): Result<Effect> {
    var p :- GetPlayer(w.table, None, seat);
    if Occupied(p) then Err(SeatWasTaken(seat))
    else
      var w1 :- AddPlayer(w, env.sender, seat, secret);
      if w.table.state.NoPlayers? then
        StateChange(w1.(table := w1.table.(state := PlayerTurn(seat, true, 0))), env, NoPlayers, rng)
      else Ok(Effect(w1, []))
  }

  /** `stand`: leave one's own seat between rounds. */
  function AfterStand(w: World, env: Env, seat: uint8, rng: Rng): Result<Effect> {
    var p :- GetPlayer(w.table, None, seat);
    if !Occupied(p) then Err(SeatEmpty(seat))
    else if p.address != env.sender then Err(NotSeatedThere(seat))
    else if p.state != NotPlaying then Err(CannotStandWhilePlaying)
    else
      var w1 :- RemovePlayer(w, env.sender, seat);
      var w2 :- AdvanceTurn(w1, seat, true, env.time, rng);
      StateChange(w2, env, PlayerTurn(seat, true, 0), rng)
  }

  /** The largest bid the bank's balance allows: the balance times 100 over
      125 times 6, with the multiplication checked in `u128`. */
  function MaxBid(bankBalance: uint128): (r: Result<uint128>)
    ensures r.Ok? <==> bankBalance * 100 < UINT128_LIMIT
    ensures r.Ok? ==> r.value == bankBalance * 100 / 750
  {
    if bankBalance * 100 >= UINT128_LIMIT then Err(Overflow) else Ok(bankBalance * 100 / 750)
  }

  /** `bid`: on one's first turn, escrow `amount` (sent along as uscrt) and
      be dealt two cards; the dealer gets its first card. `bankBalance` is
      the bank's answer to the balance query. */
  function AfterBid(w: World, env: Env, amount: uint128, seat: uint8, bankBalance: uint128): Result<Effect> {
    match w.table.state
    case PlayerTurn(turnSeat, isFirst, started) =>
      if turnSeat != seat then Err(NotOnTurn(BidAction))
      else if !isFirst then Err(BidOnlyOnFirstTurn)
      else
        var drawn :- Draw(w.deck);
        var dealer := PlayerHand([drawn.card], CardValue(drawn.card));
        var t := w.table.(state := PlayerTurn(turnSeat, false, started), dealerHand := Some(dealer));
        if amount == 0 then Err(AmountNotSet)
        else if Coin(USCRT, amount) !in env.funds then Err(WrongAmountSent(amount))
        else
          var maxBid :- MaxBid(bankBalance);
          if amount > maxBid then Err(MaxBidExceeded(maxBid))
          else
            var p :- GetPlayer(t, Some(env.sender), seat);
            var balances :- AddUserBalance(w.balances, env.sender, amount);
            var step :- OnPlayerStateChange(p.(state := PlayerState.Bid), NotPlaying, PlayerState.Bid, drawn.deck);
            var t2 := SetSeat(t, seat, step.player).(state := PlayerTurn(seat, false, env.time));
            Ok(Effect(w.(table := t2, deck := step.deck, balances := balances), []))
    case _ => Err(NotOnTurn(BidAction))
  }

  /** The seat state a hit or a hold writes before the lattice step: the
      target state from Bid or Hit, otherwise the state is left as it was. */
  function Moved(p: Player, target: PlayerState): Player {
    if p.state == PlayerState.Bid || p.state == PlayerState.Hit then p.(state := target) else p
  }

  /** `hit`: after bidding, on one's own turn, take one more card. The turn
      does not move. */
  function AfterHit(w: World, env: Env, seat: uint8): Result<Effect> {
    match w.table.state
    case PlayerTurn(turnSeat, isFirst, _) =>
      if turnSeat != seat then Err(NotOnTurn(HitAction))
      else if isFirst then Err(HitBeforeBid)
      else
        var p :- GetPlayer(w.table, Some(env.sender), seat);
        var step :- OnPlayerStateChange(Moved(p, PlayerState.Hit), p.state, PlayerState.Hit, w.deck);
        Ok(Effect(w.(table := SetSeat(w.table, seat, step.player), deck := step.deck), []))
    case _ => Err(NotOnTurn(HitAction))
  }

  /** `hold`: after bidding, on one's own turn, stop; the turn moves on, and
      when it passes to the dealer the round is played out. */
  function AfterHold(w: World, env: Env, seat: uint8, rng: Rng): Result<Effect> {
    match w.table.state
    case PlayerTurn(turnSeat, isFirst, _) =>
      if turnSeat != seat then Err(NotOnTurn(HoldAction))
      else if isFirst then Err(HoldBeforeBid)
      else
        var p :- GetPlayer(w.table, Some(env.sender), seat);
        var step :- OnPlayerStateChange(Moved(p, PlayerState.Hold), p.state, PlayerState.Hold, w.deck);
        var w1 := w.(table := SetSeat(w.table, seat, step.player), deck := step.deck);
        var w2 :- AdvanceTurn(w1, seat, false, env.time, rng);
        StateChange(w2, env, w.table.state, rng)
    case _ => Err(NotOnTurn(HoldAction))
  }

  /** The source's idle limit for a turn, in seconds. */
  const KICK_IDLE_SECONDS: nat := 300

  /** `kick`: anyone may unseat the player on turn once the turn has lasted
      300 seconds. The time difference is a `u64` subtraction. */
  function AfterKick(w: World, env: Env, target: Addr, seat: uint8, rng: Rng): Result<Effect> {
    match w.table.state
    case PlayerTurn(turnSeat, _, started) =>
      if turnSeat != seat then Err(KickOnlyPlayingPlayer)
      else if env.time < started then Err(Overflow)
      else if env.time - started < KICK_IDLE_SECONDS then Err(KickTooEarly)
      else
        var w1 :- RemovePlayer(w, target, seat);
        var w2 :- AdvanceTurn(w1, seat, true, env.time, rng);
        StateChange(w2, env, w.table.state, rng)
    case _ => Err(NotOnTurn(BidAction))
  }

  /** `handle`: dispatch on the message. */
  function HandleOutcome(w: World, env: Env, msg: HandleMsg, bankBalance: uint128, rng: Rng): Result<Effect> {
    match msg
    case Hold(seat) => AfterHold(w, env, seat, rng)
    case Bid(amount, seat) => AfterBid(w, env, amount, seat, bankBalance)
    case Sit(secret, seat) => AfterSit(w, env, seat, secret, rng)
    case Stand(seat) => AfterStand(w, env, seat, rng)
    case Kick(target, seat) => AfterKick(w, env, target, seat, rng)
    case Hit(seat) => AfterHit(w, env, seat)
  }

  /** The seat a message names. */
  function SeatOf(msg: HandleMsg): uint8 {
    match msg
    case Hold(seat) => seat
    case Bid(_, seat) => seat
    case Sit(_, seat) => seat
    case Stand(seat) => seat
    case Kick(_, seat) => seat
    case Hit(seat) => seat
  }

  /** No bid is larger than 1/7.5 of the bank's balance, so six seats each
      winning with 21 are covered: the bank never owes more than it holds. */
  lemma MaxBidCoversPayouts(bankBalance: uint128, amounts: seq<uint128>)
    requires MaxBid(bankBalance).Ok?
    requires |amounts| <= SEATS
    requires forall i :: 0 <= i < |amounts| ==> amounts[i] <= MaxBid(bankBalance).value
    ensures TotalAward(amounts) <= bankBalance
  {
    var cap: int := MaxBid(bankBalance).value;
    TotalAwardBound(amounts, cap);
    SixAwardsBound(bankBalance, cap, |amounts|);
  }

  /** The arithmetic behind the bid limit: `n <= 6` awards of 125% of
      `balance * 100 / 750` stay within `balance`. */
  lemma SixAwardsBound(balance: nat, cap: nat, n: nat)
    requires cap == balance * 100 / 750 && n <= 6
    ensures n * (cap * 125 / 100) <= balance
  {
    var x := cap * 125 / 100;
    assert x * 100 <= cap * 125;
    assert cap * 750 <= balance * 100;
    assert 6 * x * 100 <= 6 * cap * 125;
    assert n * x <= 6 * x;
  }

  /** The bank's payouts if every stake in `amounts` won with 21. */
  function TotalAward(amounts: seq<uint128>): nat {
    if amounts == [] then 0 else TotalAward(amounts[..|amounts| - 1]) + amounts[|amounts| - 1] as int * 125 / 100
  }

  lemma {:induction false} TotalAwardBound(amounts: seq<uint128>, cap: nat)
    requires forall i :: 0 <= i < |amounts| ==> amounts[i] <= cap
    ensures TotalAward(amounts) <= |amounts| * (cap * 125 / 100)
  {
    if amounts != [] {
      var last := amounts[|amounts| - 1];
      TotalAwardBound(amounts[..|amounts| - 1], cap);
      assert last * 125 / 100 <= cap * 125 / 100 by {
        assert last as int * 125 <= cap * 125;
      }
    }
  }
}

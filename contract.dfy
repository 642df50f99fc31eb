/** The game contract as the chain runs it: instantiation, the six actions
    executed step by step with the loop methods, and the queries. Storage is
    the fields of `GameContract`; an action's changes are written back only
    when it succeeds, as the chain reverts a failed call. */
module Contract {
  import opened Base
  import opened Cards
  import opened Msg
  import opened State
  import opened GameStore
  import opened Dealing
  import opened Seating
  import opened Turns
  import opened Flow
  import opened Handlers

  /** `sit`, as the source's steps (with `add_player` inlined). */
  method HandleSit(w: World, env: Env, seat: uint8, secret: uint64, rng: Rng) returns (r: Result<Effect>)
    ensures r == AfterSit(w, env, seat, secret, rng)
  {
    var t := w.table;
    var p :- GetPlayer(t, None, seat);
    if Occupied(p) {
      return Err(SeatWasTaken(seat));
    }
    // add_player: the seat bound and the free-seat test it repeats hold here
    var seated := GetPlayerSeat(t, env.sender);
    if seated.Ok? {
      return Err(PlayerAlreadySeated);
    }
    t := SetSeat(t, seat, t.players[seat].(address := env.sender));
    var count :- AddU8(t.playersCount, 1);
    t := t.(playersCount := count);
    var w1 := w.(table := t, seatSecrets := StorePlayerSecret(w.seatSecrets, seat, secret));
    if w.table.state.NoPlayers? {
      r := OnGameStateChange(w1.(table := t.(state := PlayerTurn(seat, true, 0))), env, NoPlayers, rng);
      return;
    }
    return Ok(Effect(w1, []));
  }

  /** `stand`, as the source's steps. */
  method HandleStand(w: World, env: Env, seat: uint8, rng: Rng) returns (r: Result<Effect>)
    ensures r == AfterStand(w, env, seat, rng)
  {
    var p :- GetPlayer(w.table, None, seat);
    if !Occupied(p) {
      return Err(SeatEmpty(seat));
    }
    if p.address != env.sender {
      return Err(NotSeatedThere(seat));
    }
    if p.state != NotPlaying {
      return Err(CannotStandWhilePlaying);
    }
    var w1 :- RemovePlayer(w, env.sender, seat);
    var w2 :- AdvanceToNextPlayer(w1, seat, true, env.time, rng);
    r := OnGameStateChange(w2, env, PlayerTurn(seat, true, 0), rng);
  }

  /** `bid`, as the source's steps. */
  method HandleBid(w: World, env: Env, amount: uint128, seat: uint8, bankBalance: uint128) returns (r: Result<Effect>)
    ensures r == AfterBid(w, env, amount, seat, bankBalance)
  {
    if !w.table.state.PlayerTurn? || w.table.state.playerSeat != seat {
      return Err(NotOnTurn(BidAction));
    }
    if !w.table.state.isFirst {
      return Err(BidOnlyOnFirstTurn);
    }
    var t := w.table.(state := w.table.state.(isFirst := false));
    var drawn :- Draw(w.deck);
    // the dealer's hand restarts from this one card; 0 plus a card value cannot overflow
    t := t.(dealerHand := Some(PlayerHand([drawn.card], CardValue(drawn.card))));
    var deck := drawn.deck;
    if amount == 0 {
      return Err(AmountNotSet);
    }
    if Coin(USCRT, amount) !in env.funds {
      return Err(WrongAmountSent(amount));
    }
    var maxBid :- MaxBid(bankBalance);
    if amount > maxBid {
      return Err(MaxBidExceeded(maxBid));
    }
    var p :- GetPlayer(t, Some(env.sender), seat);
    p := p.(state := PlayerState.Bid);
    var balances :- AddUserBalance(w.balances, env.sender, amount);
    var step :- OnPlayerStateChange(p, NotPlaying, PlayerState.Bid, deck);
    t := SetSeat(t, seat, step.player).(state := PlayerTurn(seat, false, env.time));
    return Ok(Effect(w.(table := t, deck := step.deck, balances := balances), []));
  }

  /** `hit`, as the source's steps. */
  method HandleHit(w: World, env: Env, seat: uint8) returns (r: Result<Effect>)
    ensures r == AfterHit(w, env, seat)
  {
    if !w.table.state.PlayerTurn? || w.table.state.playerSeat != seat {
      return Err(NotOnTurn(HitAction));
    }
    if w.table.state.isFirst {
      return Err(HitBeforeBid);
    }
    var p :- GetPlayer(w.table, Some(env.sender), seat);
    var prev := p.state;
    if prev == PlayerState.Bid || prev == PlayerState.Hit {
      p := p.(state := PlayerState.Hit);
    }
    var step :- OnPlayerStateChange(p, prev, PlayerState.Hit, w.deck);
    return Ok(Effect(w.(table := SetSeat(w.table, seat, step.player), deck := step.deck), []));
  }

  /** `hold`, as the source's steps. */
  method HandleHold(w: World, env: Env, seat: uint8, rng: Rng) returns (r: Result<Effect>)
    ensures r == AfterHold(w, env, seat, rng)
  {
    var prevState := w.table.state;
    if !prevState.PlayerTurn? || prevState.playerSeat != seat {
      return Err(NotOnTurn(HoldAction));
    }
    if prevState.isFirst {
      return Err(HoldBeforeBid);
    }
    var p :- GetPlayer(w.table, Some(env.sender), seat);
    var prev := p.state;
    if prev == PlayerState.Bid || prev == PlayerState.Hit {
      p := p.(state := PlayerState.Hold);
    }
    var step :- OnPlayerStateChange(p, prev, PlayerState.Hold, w.deck);
    var w1 := w.(table := SetSeat(w.table, seat, step.player), deck := step.deck);
    var w2 :- AdvanceToNextPlayer(w1, seat, false, env.time, rng);
    r := OnGameStateChange(w2, env, prevState, rng);
  }

  /** `kick`, as the source's steps. */
  method HandleKick(w: World, env: Env, target: Addr, seat: uint8, rng: Rng) returns (r: Result<Effect>)
    ensures r == AfterKick(w, env, target, seat, rng)
  {
    var prevState := w.table.state;
    if !prevState.PlayerTurn? {
      return Err(NotOnTurn(BidAction));
    }
    if prevState.playerSeat != seat {
      return Err(KickOnlyPlayingPlayer);
    }
    if env.time < prevState.turnStartTime {
      return Err(Overflow);
    }
    if env.time - prevState.turnStartTime < KICK_IDLE_SECONDS {
      return Err(KickTooEarly);
    }
    var w1 :- RemovePlayer(w, target, seat);
    var w2 :- AdvanceToNextPlayer(w1, seat, true, env.time, rng);
    r := OnGameStateChange(w2, env, prevState, rng);
  }

  /** `query`: the answer to each query on the stored world. */
  function Answer(w: World, q: QueryMsg): QueryAnswer {
    match q
    case GetUserBalance(address) => UserBalance(ReadUserBalance(w.balances, address))
    case GetTable => TableData(w.table)
    case GetLastScore => LastScore(w.scores)
  }

  /** The `handle` dispatch: run the action a message names. */
  method Dispatch(w: World, env: Env, msg: HandleMsg, bankBalance: uint128, rng: Rng) returns (outcome: Result<Effect>)
    ensures outcome == HandleOutcome(w, env, msg, bankBalance, rng)
  {
    match msg {
      case Hold(seat) => outcome := HandleHold(w, env, seat, rng);
      case Bid(amount, seat) => outcome := HandleBid(w, env, amount, seat, bankBalance);
      case Sit(s, seat) => outcome := HandleSit(w, env, seat, s, rng);
      case Stand(seat) => outcome := HandleStand(w, env, seat, rng);
      case Kick(target, seat) => outcome := HandleKick(w, env, target, seat, rng);
      case Hit(seat) => outcome := HandleHit(w, env, seat);
    }
  }

  /** The world a freshly instantiated contract stores. */
  function InitialWorld(msg: InitMsg): World {
    World(EMPTY_TABLE, GameDeck([], 0), StoreSecret(msg.secret), map[], map[], INITIAL_SCORES, msg.bankAddress)
  }

  /** The game contract's storage. */
  class GameContract {
    var table: Table
    var deck: GameDeck
    var secret: Option<uint64>
    var seatSecrets: map<uint8, uint64>
    var balances: map<Addr, uint128>
    var scores: Scores
    var bank: Addr
    var bankCodeHash: string
    var gameAddress: Addr

    /** The stored keys the actions work on. */
    function Stored(): World
      reads this
    {
      World(table, deck, secret, seatSecrets, balances, scores, bank)
    }

    /** `init`: store the bank's address and code hash, the contract's own
        address and the round secret; an empty table, empty scores and an
        empty deck. */
    constructor (env: Env, msg: InitMsg)
      ensures Stored() == InitialWorld(msg)
      ensures bankCodeHash == msg.bankCodeHash && gameAddress == env.contract
    {
      table := EMPTY_TABLE;
      deck := GameDeck([], 0);
      secret := StoreSecret(msg.secret);
      seatSecrets := map[];
      balances := map[];
      scores := INITIAL_SCORES;
      bank := msg.bankAddress;
      bankCodeHash := msg.bankCodeHash;
      gameAddress := env.contract;
    }

    /** `init` with its message: the bank is told the game's address. */
    static method Instantiate(env: Env, msg: InitMsg) returns (c: GameContract, msgs: seq<CosmosMsg>)
      ensures fresh(c) && c.Stored() == InitialWorld(msg)
      ensures msgs == [UpdateGameAddress(msg.bankAddress, env.contract)]
    {
      c := new GameContract(env, msg);
      msgs := [UpdateGameAddress(msg.bankAddress, env.contract)];
    }

    /** `handle`: run one action; keep its changes and return its messages
        if it succeeds, keep nothing if it fails. */
    method Handle(env: Env, msg: HandleMsg, bankBalance: uint128, rng: Rng) returns (r: Result<seq<CosmosMsg>>)
      modifies this
      ensures var o := HandleOutcome(old(Stored()), env, msg, bankBalance, rng);
        && (o.Ok? ==> r == Ok(o.value.msgs) && Stored() == o.value.world)
        && (o.Err? ==> r == Err(o.error) && Stored() == old(Stored()))
      ensures bankCodeHash == old(bankCodeHash) && gameAddress == old(gameAddress)
    {
      var outcome := Dispatch(Stored(), env, msg, bankBalance, rng);
      match outcome {
        case Ok(e) =>
          table, deck, secret, seatSecrets := e.world.table, e.world.deck, e.world.secret, e.world.seatSecrets;
          balances, scores, bank := e.world.balances, e.world.scores, e.world.bank;
          r := Ok(e.msgs);
        case Err(err) =>
          r := Err(err);
      }
    }

    /** `query`: reads only. */
    method Query(q: QueryMsg) returns (a: QueryAnswer)
      ensures a == Answer(Stored(), q)
    {
      match q {
        case GetUserBalance(address) => a := UserBalance(ReadUserBalance(balances, address));
        case GetTable => a := TableData(table);
        case GetLastScore => a := LastScore(scores);
      }
    }
  }

  /** A fresh contract's table satisfies the table invariant and waits for
      players; its round secret reads back as the one it was given. */
  lemma InitialWorldRules(msg: InitMsg)
    ensures InitialWorld(msg).table.state == NoPlayers && InitialWorld(msg).table.playersCount == 0
    ensures forall s :: 0 <= s < SEATS ==> !Occupied(InitialWorld(msg).table.players[s])
    ensures CountMatches(InitialWorld(msg).table)
    ensures ReadSecret(InitialWorld(msg).secret) == Ok(msg.secret)
  {
    var players := InitialWorld(msg).table.players;
    assert OccupiedFrom(players, 6) == 0;
    assert OccupiedFrom(players, 5) == 0;
    assert OccupiedFrom(players, 4) == 0;
    assert OccupiedFrom(players, 3) == 0;
    assert OccupiedFrom(players, 2) == 0;
    assert OccupiedFrom(players, 1) == 0;
  }
}

/** The sit and stand sequences the game contract's unit tests walk
    through, from a freshly instantiated contract. */
module Scenarios {
  import opened Base
  import opened Msg
  import opened State
  import opened GameStore
  import opened Seating
  import opened Turns
  import opened Flow
  import opened Handlers
  import opened Contract

  /** The first player to sit at a fresh table starts a round on their own
      seat; sitting again fails, and a second player joining leaves the turn
      where it is. */
  lemma SitScenario(msg: InitMsg, a: Env, b: Env, rng: Rng)
    requires msg.secret < 0xFFFF_FFFF_FFFF_FFFF
    requires a.sender != EMPTY_ADDR && b.sender != EMPTY_ADDR && a.sender != b.sender
    ensures var first := AfterSit(InitialWorld(msg), a, 4, 4321, rng);
      && first.Ok?
      && first.value.world.table.state == PlayerTurn(4, true, a.time)
      && AfterSit(first.value.world, a, 4, 4321, rng).Err?
      && var second := AfterSit(first.value.world, b, 5, 4321, rng);
      && second.Ok?
      && second.value.world.table.state == PlayerTurn(4, true, a.time)
  {
    SitScenarioStep(msg, a, rng);
  }

  /** The only player standing up empties the table, and standing up from
      an empty seat fails. */
  lemma LoneStandScenario(msg: InitMsg, a: Env, rng: Rng)
    requires msg.secret < 0xFFFF_FFFF_FFFF_FFFF
    requires a.sender != EMPTY_ADDR
    ensures var sat := AfterSit(InitialWorld(msg), a, 4, 4321, rng);
      && sat.Ok?
      && AfterStand(sat.value.world, a, 5, rng) == Err(SeatEmpty(5))
      && var stood := AfterStand(sat.value.world, a, 4, rng);
      && stood.Ok?
      && stood.value.world.table.state == NoPlayers
      && stood.value.world.table.playersCount == 0
  {
    SitScenarioStep(msg, a, rng);
    LoneStand(AfterSit(InitialWorld(msg), a, 4, 4321, rng).value.world, a, rng);
  }

  /** The only seated player, not playing, standing up on their turn
      leaves an empty table with nobody's turn. */
  lemma LoneStand(w: World, a: Env, rng: Rng)
    requires a.sender != EMPTY_ADDR
    requires w.table.players == EMPTY_TABLE.players[4 := Player(a.sender, None, NotPlaying)]
    requires w.table.playersCount == 1 && w.table.state.PlayerTurn?
    ensures var r := AfterStand(w, a, 4, rng);
      r.Ok? && r.value.world.table.state == NoPlayers && r.value.world.table.playersCount == 0
  {
    var w1 := RemovePlayer(w, a.sender, 4);
    assert w1.Ok? && w1.value.table.playersCount == 0;
    assert w1.value.table.players == EMPTY_TABLE.players;
    var w2 := AdvanceTurn(w1.value, 4, true, a.time, rng);
    assert w2.Ok? && w2.value.table.state == NoPlayers && w2.value.table.players == EMPTY_TABLE.players;
  }

  /** The world after the first sit of a fresh table. */
  lemma SitScenarioStep(msg: InitMsg, a: Env, rng: Rng)
    requires msg.secret < 0xFFFF_FFFF_FFFF_FFFF
    requires a.sender != EMPTY_ADDR
    ensures var sat := AfterSit(InitialWorld(msg), a, 4, 4321, rng);
      && sat.Ok?
      && sat.value.world.table.players == EMPTY_TABLE.players[4 := Player(a.sender, None, NotPlaying)]
      && sat.value.world.table.playersCount == 1
      && sat.value.world.table.state == PlayerTurn(4, true, a.time)
  {
  }

  /** With a second player seated behind them, the player on turn standing
      up passes the turn to that player. */
  lemma StandPassesTurnScenario(msg: InitMsg, a: Env, b: Env, rng: Rng)
    requires msg.secret < 0xFFFF_FFFF_FFFF_FFFF
    requires a.sender != EMPTY_ADDR && b.sender != EMPTY_ADDR && a.sender != b.sender
    ensures var sat := AfterSit(InitialWorld(msg), a, 4, 4321, rng);
      && sat.Ok?
      && var joined := AfterSit(sat.value.world, b, 5, 4321, rng);
      && joined.Ok?
      && var left := AfterStand(joined.value.world, a, 4, rng);
      && left.Ok?
      && left.value.world.table.state == PlayerTurn(5, true, a.time)
  {
    SitScenarioStep(msg, a, rng);
    var sat := AfterSit(InitialWorld(msg), a, 4, 4321, rng).value.world;
    var joined := AfterSit(sat, b, 5, 4321, rng);
    assert joined.Ok?;
    assert joined.value.world.table.players
        == EMPTY_TABLE.players[4 := Player(a.sender, None, NotPlaying)][5 := Player(b.sender, None, NotPlaying)];
    assert joined.value.world.table.state == PlayerTurn(4, true, a.time);
  }

  /** A seated player who is not playing may stand up during another
      player's turn. When nobody sits after them and nobody holds yet, the
      call starts a new round, but the lowest seat is still mid-hand, so the
      round ends in NoPlayers with that player left seated in Hit: no
      messages, and their stake stays escrowed. */
  lemma StandOffTurnAbandonsRound(w: World, x: Env, y: Env, t: uint64, rng: Rng)
    requires x.sender != EMPTY_ADDR && y.sender != EMPTY_ADDR && x.sender != y.sender
    requires w.table.players
          == EMPTY_TABLE.players[1 := Player(x.sender, None, PlayerState.Hit)][4 := Player(y.sender, None, NotPlaying)]
    requires w.table.playersCount == 2 && w.table.state == PlayerTurn(1, false, t)
    ensures var r := AfterStand(w, y, 4, rng);
      && r.Ok? && r.value.msgs == []
      && r.value.world.table.state == NoPlayers
      && r.value.world.table.players[1] == Player(x.sender, None, PlayerState.Hit)
      && ReadUserBalance(r.value.world.balances, x.sender) == ReadUserBalance(w.balances, x.sender)
  {
    var w1 := RemovePlayer(w, y.sender, 4);
    assert w1.Ok?;
    assert w1.value.table.players == EMPTY_TABLE.players[1 := Player(x.sender, None, PlayerState.Hit)];
    assert FirstOccupied(w1.value.table.players, 1);
    NewRoundWithoutTurn(w1.value, y.time, rng);
    assert !AnyHolding(w1.value.table.players) by {
      forall s | 0 <= s < SEATS && Occupied(w1.value.table.players[s])
        ensures w1.value.table.players[s].state != PlayerState.Hold
      {
        assert s == 1;
      }
    }
    AdvanceTurnRules(w1.value, 4, true, y.time, rng);
  }

  /** In the table that abandoned round leaves, the player still in Hit can
      neither stand up nor play: stand refuses a player in play, and hit and
      hold need a player turn. */
  lemma AbandonedHandIsStuck(w: World, x: Env, rng: Rng)
    requires w.table.state == NoPlayers
    requires w.table.players[1] == Player(x.sender, None, PlayerState.Hit)
    ensures x.sender != EMPTY_ADDR ==> AfterStand(w, x, 1, rng) == Err(CannotStandWhilePlaying)
    ensures AfterHit(w, x, 1) == Err(NotOnTurn(HitAction))
    ensures AfterHold(w, x, 1, rng) == Err(NotOnTurn(HoldAction))
  {
  }
}

/** The game-level state machine (`on_game_state_change`): leaving
    NoPlayers starts a round, and a player turn that has passed to the
    dealer plays the dealer, settles the round and starts the next one. */
module Flow {
  import opened Base
  import opened Msg
  import opened GameStore
  import opened Turns
  import opened Dealer
  import opened Settlement

  /** `on_game_state_change`, given the state before the call (`prev`) and
      the table as the call has left it. */
  function StateChange(w: World, env: Env, prev: GameState, rng: Rng): Result<Effect> {
    match prev
    case NoPlayers =>
      if w.table.state.PlayerTurn? then
        var w1 :- NewRound(w, env.time, rng);
        Ok(Effect(w1, []))
      else Err(UnexpectedGameTransition)
    case PlayerTurn(_, _, _) =>
      if w.table.state.DealerTurn? then
        var played :- DealerPlays(w);
        var settled :- Settled(played, env.contract);
        var next :- NewRound(settled.world, env.time, rng);
        Ok(Effect(next, settled.msgs))
      else Ok(Effect(w, []))
    case DealerTurn => Err(UnexpectedGameTransition)
  }

  /** Two seat lists with the same address in every seat. */
  predicate SameSeating(p1: Seats, p2: Seats) {
    forall s :: 0 <= s < SEATS ==> p1[s].address == p2[s].address
  }

  /** No step of the game flow moves, seats or unseats anyone. */
  lemma NewRoundKeepsSeating(w: World, now: uint64, rng: Rng)
    ensures var r := NewRound(w, now, rng);
      r.Ok? ==> SameSeating(w.table.players, r.value.table.players) && r.value.table.playersCount == w.table.playersCount
  {
    NewRoundKeeps(w, now, rng);
  }

  /** The game flow never seats or unseats anyone and never leaves the table
      in the dealer's turn: from a player turn that passed to the dealer it
      settles the round and ends in a fresh player turn or NoPlayers, keeping
      the settled results and sending only the settlement's messages. Any
      other transition out of a player turn changes nothing, and leaving
      the dealer's turn, or leaving NoPlayers other than to a player turn,
      fails. */
  lemma StateChangeRules(w: World, env: Env, prev: GameState, rng: Rng)
    ensures var r := StateChange(w, env, prev, rng);
      && (prev.DealerTurn? ==> r == Err(UnexpectedGameTransition))
      && (prev.NoPlayers? && !w.table.state.PlayerTurn? ==> r == Err(UnexpectedGameTransition))
      && (prev.PlayerTurn? && !w.table.state.DealerTurn? ==> r == Ok(Effect(w, [])))
      && (prev.NoPlayers? && w.table.state.PlayerTurn? && r.Ok? ==> r.value.msgs == [])
      && (r.Ok? ==> SameSeating(w.table.players, r.value.world.table.players)
                    && r.value.world.table.playersCount == w.table.playersCount)
      && (prev.PlayerTurn? && w.table.state.DealerTurn? && r.Ok? ==>
            && !r.value.world.table.state.DealerTurn?
            && r.value.world.scores == Settled(DealerPlays(w).value, env.contract).value.world.scores
            && r.value.msgs == Settled(DealerPlays(w).value, env.contract).value.msgs)
  {
    var r := StateChange(w, env, prev, rng);
    if prev.NoPlayers? && w.table.state.PlayerTurn? {
      NewRoundKeepsSeating(w, env.time, rng);
      NewRoundNeverDealer(w, env.time, rng);
    }
    if prev.PlayerTurn? && w.table.state.DealerTurn? {
      var played := DealerPlays(w);
      if played.Ok? {
        var settled := Settled(played.value, env.contract);
        SettledRound(played.value, env.contract);
        if settled.Ok? {
          NewRoundKeepsSeating(settled.value.world, env.time, rng);
          NewRoundNeverDealer(settled.value.world, env.time, rng);
        }
      }
    }
  }

  /** A new round ends in a player turn or in NoPlayers, and leaves the
      stored scores alone. */
  lemma NewRoundNeverDealer(w: World, now: uint64, rng: Rng)
    ensures var r := NewRound(w, now, rng);
      r.Ok? ==> (r.value.table.state.PlayerTurn? || r.value.table.state.NoPlayers?) && r.value.scores == w.scores
  {
  }

  /** `on_game_state_change`, as the source's steps, running the loop
      methods of the dealer, the settlement and the new round. */
  method OnGameStateChange(w: World, env: Env, prev: GameState, rng: Rng) returns (r: Result<Effect>)
    ensures r == StateChange(w, env, prev, rng)
  {
    match prev {
      case NoPlayers =>
        if w.table.state.PlayerTurn? {
          var w1 :- StartNewRound(w, env.time, rng);
          return Ok(Effect(w1, []));
        }
        return Err(UnexpectedGameTransition);
      case PlayerTurn(_, _, _) =>
        if w.table.state.DealerTurn? {
          var played :- PlayDealer(w);
          var settled :- GameRoundup(played, env.contract);
          var next :- StartNewRound(settled.world, env.time, rng);
          return Ok(Effect(next, settled.msgs));
        }
        return Ok(Effect(w, []));
      case DealerTurn =>
        return Err(UnexpectedGameTransition);
    }
  }
}

/** What each action of the game contract guarantees: the turn guards, the
    admission rules of each action, and the table invariant every action
    keeps (the seat counter matches the seats, and no address sits twice). */
module HandlerRules {
  import opened Base
  import opened Cards
  import opened Msg
  import opened State
  import opened Scoring
  import opened GameStore
  import opened Dealing
  import opened Dealer
  import opened Seating
  import opened Turns
  import opened Settlement
  import opened Flow
  import opened Handlers

  /** Bid, hit, hold and kick act only on the seat whose turn it is, and
      fail with the source's own message otherwise; only a first turn may
      bid, and only a later one may hit or hold. */
  lemma TurnGuards(w: World, env: Env, msg: HandleMsg, bankBalance: uint128, rng: Rng)
    requires !msg.Sit? && !msg.Stand?
    ensures var r := HandleOutcome(w, env, msg, bankBalance, rng);
      var onTurn := w.table.state.PlayerTurn? && w.table.state.playerSeat == SeatOf(msg);
      && (!onTurn && msg.Bid? ==> r == Err(NotOnTurn(BidAction)))
      && (!onTurn && msg.Hit? ==> r == Err(NotOnTurn(HitAction)))
      && (!onTurn && msg.Hold? ==> r == Err(NotOnTurn(HoldAction)))
      && (!onTurn && msg.Kick? ==> r == Err(if w.table.state.PlayerTurn? then KickOnlyPlayingPlayer else NotOnTurn(BidAction)))
      && (onTurn && msg.Bid? && !w.table.state.isFirst ==> r == Err(BidOnlyOnFirstTurn))
      && (onTurn && msg.Hit? && w.table.state.isFirst ==> r == Err(HitBeforeBid))
      && (onTurn && msg.Hold? && w.table.state.isFirst ==> r == Err(HoldBeforeBid))
  {
  }

  /** An admitted bid: it was the bidder's first turn in their own seat, a
      positive amount was sent along as exactly that uscrt coin and is within
      the bank's limit; the amount is credited to the bidder's escrow, the
      dealer holds the deck's next card, the bidder the two after it, and the
      turn stays with the bidder, no longer first, timed from now. */
  lemma BidRules(w: World, env: Env, amount: uint128, seat: uint8, bankBalance: uint128)
    ensures var r := AfterBid(w, env, amount, seat, bankBalance);
      r.Ok? ==>
        && w.table.state.PlayerTurn? && w.table.state.playerSeat == seat && w.table.state.isFirst
        && seat < SEATS && w.table.players[seat].address == env.sender
        && 0 < amount && Coin(USCRT, amount) in env.funds
        && MaxBid(bankBalance).Ok? && amount <= MaxBid(bankBalance).value
        && ReadUserBalance(r.value.world.balances, env.sender) == ReadUserBalance(w.balances, env.sender) + amount
        && (forall a :: a != env.sender ==> ReadUserBalance(r.value.world.balances, a) == ReadUserBalance(w.balances, a))
        && r.value.world.deck == w.deck.(nextFreeCard := w.deck.nextFreeCard + 3)
        && r.value.world.table.dealerHand == Some(PlayerHand([w.deck.deck[w.deck.nextFreeCard]], CardValue(w.deck.deck[w.deck.nextFreeCard])))
        && r.value.world.table.players[seat].address == env.sender
        && r.value.world.table.players[seat].state == PlayerState.Bid
        && r.value.world.table.players[seat].hand.Some?
        && r.value.world.table.players[seat].hand.value.cards == w.deck.deck[w.deck.nextFreeCard + 1..w.deck.nextFreeCard + 3]
        && Consistent(r.value.world.table.players[seat].hand.value)
        && (forall s :: 0 <= s < SEATS && s != seat ==> r.value.world.table.players[s] == w.table.players[s])
        && r.value.world.table.state == PlayerTurn(seat, false, env.time)
        && r.value.world.table.playersCount == w.table.playersCount
        && r.value.msgs == []
  {
    var r := AfterBid(w, env, amount, seat, bankBalance);
    if r.Ok? {
      var drawn := Draw(w.deck).value;
      var p := w.table.players[seat];
      PlayerLattice(p.(state := PlayerState.Bid), NotPlaying, PlayerState.Bid, drawn.deck);
      ReadAfterAdd(w.balances, env.sender, env.sender, amount);
      forall a | a != env.sender
        ensures ReadUserBalance(r.value.world.balances, a) == ReadUserBalance(w.balances, a)
      {
        ReadAfterAdd(w.balances, env.sender, a, amount);
      }
      assert w.deck.deck[w.deck.nextFreeCard + 1..w.deck.nextFreeCard + 3]
          == drawn.deck.deck[drawn.deck.nextFreeCard..drawn.deck.nextFreeCard + 2];
    }
  }

  /** An admitted hit: on the hitter's own later turn, from Bid or Hit,
      with a raw total below 21; the seat gets exactly the deck's next card
      and is in Hit, the cursor moves by one, and nothing else changes. */
  lemma HitRules(w: World, env: Env, seat: uint8)
    ensures var r := AfterHit(w, env, seat);
      r.Ok? ==>
        && w.table.state.PlayerTurn? && w.table.state.playerSeat == seat && !w.table.state.isFirst
        && seat < SEATS
        && var p := w.table.players[seat];
        && p.address == env.sender
        && (p.state == PlayerState.Bid || p.state == PlayerState.Hit)
        && p.hand.Some? && p.hand.value.totalValue < 21
        && w.deck.nextFreeCard < |w.deck.deck|
        && r.value.world.table.players[seat]
           == p.(state := PlayerState.Hit,
                 hand := Some(PlayerHand(p.hand.value.cards + [w.deck.deck[w.deck.nextFreeCard]],
                                         p.hand.value.totalValue + CardValue(w.deck.deck[w.deck.nextFreeCard]))))
        && (forall s :: 0 <= s < SEATS && s != seat ==> r.value.world.table.players[s] == w.table.players[s])
        && r.value.world.table.state == w.table.state
        && r.value.world.table.playersCount == w.table.playersCount
        && r.value.world.deck == w.deck.(nextFreeCard := w.deck.nextFreeCard + 1)
        && r.value.world.balances == w.balances
        && r.value.msgs == []
  {
    var r := AfterHit(w, env, seat);
    if r.Ok? {
      var p := w.table.players[seat];
      PlayerLattice(Moved(p, PlayerState.Hit), p.state, PlayerState.Hit, w.deck);
    }
  }

  /** The table invariant: the counter matches the seats, and no address
      sits in two seats. */
  predicate TableInvariant(t: Table) {
    CountMatches(t) && DistinctAddresses(t.players)
  }

  lemma {:induction false} OccupiedSameSeating(p1: Seats, p2: Seats, from: nat)
    requires SameSeating(p1, p2)
    ensures OccupiedFrom(p1, from) == OccupiedFrom(p2, from)
    decreases SEATS - from
  {
    if from < SEATS {
      OccupiedSameSeating(p1, p2, from + 1);
    }
  }

  /** The invariant depends only on who sits where and on the counter. */
  lemma SameSeatingKeepsInvariant(t1: Table, t2: Table)
    requires SameSeating(t1.players, t2.players) && t1.playersCount == t2.playersCount
    ensures TableInvariant(t1) ==> TableInvariant(t2)
  {
    OccupiedSameSeating(t1.players, t2.players, 0);
  }

  /** Passing the turn never seats or unseats anyone. */
  lemma AdvanceTurnKeepsSeating(w: World, current: uint8, shouldStart: bool, now: uint64, rng: Rng)
    ensures var r := AdvanceTurn(w, current, shouldStart, now, rng);
      r.Ok? ==> SameSeating(w.table.players, r.value.table.players) && r.value.table.playersCount == w.table.playersCount
  {
    if current as int + 1 < 0x100 {
      var scan := ScanFrom(w.table.players, current as nat + 1, Scan(current as nat, w.table.state), now);
      if scan.Ok? {
        NewRoundKeepsSeating(w.(table := w.table.(state := scan.value.state)), now, rng);
      }
    }
  }

  /** An admitted sit: the seat was free and the sender sat nowhere; the
      sender now sits there with the secret stored for the seat, nobody else
      moves, the counter grows by one, and the invariant is kept. */
  lemma SitRules(w: World, env: Env, seat: uint8, secret: uint64, rng: Rng)
    ensures var r := AfterSit(w, env, seat, secret, rng);
      r.Ok? ==>
        && seat < SEATS && !Occupied(w.table.players[seat]) && !IsSeated(w.table.players, env.sender)
        && r.value.world.table.players[seat].address == env.sender
        && (forall s :: 0 <= s < SEATS && s != seat ==> r.value.world.table.players[s].address == w.table.players[s].address)
        && r.value.world.table.playersCount == w.table.playersCount + 1
        && ReadPlayerSecret(r.value.world.seatSecrets, seat) == Ok(secret)
        && (TableInvariant(w.table) ==> TableInvariant(r.value.world.table))
  {
    var r := AfterSit(w, env, seat, secret, rng);
    if r.Ok? {
      AddPlayerRules(w, env.sender, seat, secret);
      var w1 := AddPlayer(w, env.sender, seat, secret).value;
      assert env.sender != EMPTY_ADDR by {
        assert w.table.players[seat].address == EMPTY_ADDR;
      }
      SitKeepsSeating(w, env, seat, secret, rng);
      if TableInvariant(w.table) {
        assert DistinctAddresses(w1.table.players);
        SameSeatingKeepsInvariant(w1.table, r.value.world.table);
      }
    }
  }

  /** The game flow a sit may start moves nobody the sit seated. */
  lemma SitKeepsSeating(w: World, env: Env, seat: uint8, secret: uint64, rng: Rng)
    requires AfterSit(w, env, seat, secret, rng).Ok?
    ensures AddPlayer(w, env.sender, seat, secret).Ok?
    ensures var w1 := AddPlayer(w, env.sender, seat, secret).value;
      var r := AfterSit(w, env, seat, secret, rng).value.world;
      && SameSeating(w1.table.players, r.table.players)
      && r.table.playersCount == w1.table.playersCount
      && r.seatSecrets == w1.seatSecrets
  {
    var w1 := AddPlayer(w, env.sender, seat, secret).value;
    if w.table.state.NoPlayers? {
      var w2 := w1.(table := w1.table.(state := PlayerTurn(seat, true, 0)));
      StateChangeRules(w2, env, NoPlayers, rng);
      NewRoundKeeps(w2, env.time, rng);
    }
  }

  /** An admitted stand: the sender sat in the seat and was not playing; the
      seat is now free, nobody else moves, the counter drops by one, and the
      invariant is kept. */
  lemma StandRules(w: World, env: Env, seat: uint8, rng: Rng)
    ensures var r := AfterStand(w, env, seat, rng);
      r.Ok? ==>
        && seat < SEATS && Occupied(w.table.players[seat])
        && w.table.players[seat].address == env.sender && w.table.players[seat].state == NotPlaying
        && !Occupied(r.value.world.table.players[seat])
        && (forall s :: 0 <= s < SEATS && s != seat ==> r.value.world.table.players[s].address == w.table.players[s].address)
        && r.value.world.table.playersCount == w.table.playersCount - 1
        && (TableInvariant(w.table) ==> TableInvariant(r.value.world.table))
  {
    var r := AfterStand(w, env, seat, rng);
    if r.Ok? {
      RemovePlayerRules(w, env.sender, seat);
      var w1 := RemovePlayer(w, env.sender, seat).value;
      AdvanceTurnKeepsSeating(w1, seat, true, env.time, rng);
      var w2 := AdvanceTurn(w1, seat, true, env.time, rng).value;
      StateChangeRules(w2, env, PlayerTurn(seat, true, 0), rng);
      assert SameSeating(w1.table.players, r.value.world.table.players);
      if TableInvariant(w.table) {
        assert DistinctAddresses(w1.table.players);
        SameSeatingKeepsInvariant(w1.table, r.value.world.table);
      }
    }
  }

  /** An admitted kick: it was the target's turn in that seat and the turn
      had lasted at least 300 seconds; the seat is now free, nobody else
      moves, the counter drops by one, and the invariant is kept when the
      target is a real address. */
  lemma KickRules(w: World, env: Env, target: Addr, seat: uint8, rng: Rng)
    ensures var r := AfterKick(w, env, target, seat, rng);
      r.Ok? ==>
        && w.table.state.PlayerTurn? && w.table.state.playerSeat == seat
        && env.time >= w.table.state.turnStartTime + KICK_IDLE_SECONDS
        && seat < SEATS && w.table.players[seat].address == target
        && !Occupied(r.value.world.table.players[seat])
        && (forall s :: 0 <= s < SEATS && s != seat ==> r.value.world.table.players[s].address == w.table.players[s].address)
        && r.value.world.table.playersCount == w.table.playersCount - 1
        && (TableInvariant(w.table) && target != EMPTY_ADDR ==> TableInvariant(r.value.world.table))
  {
    var r := AfterKick(w, env, target, seat, rng);
    if r.Ok? {
      RemovePlayerRules(w, target, seat);
      var w1 := RemovePlayer(w, target, seat).value;
      AdvanceTurnKeepsSeating(w1, seat, true, env.time, rng);
      var w2 := AdvanceTurn(w1, seat, true, env.time, rng).value;
      StateChangeRules(w2, env, w.table.state, rng);
      assert SameSeating(w1.table.players, r.value.world.table.players);
      if TableInvariant(w.table) && target != EMPTY_ADDR {
        assert DistinctAddresses(w1.table.players);
        SameSeatingKeepsInvariant(w1.table, r.value.world.table);
      }
    }
  }

  /** The world with seat `seat` moved to Hold, and nothing else changed. */
  function Holding(w: World, seat: uint8): World
    requires seat < SEATS
  {
    w.(table := SetSeat(w.table, seat, w.table.players[seat].(state := PlayerState.Hold)))
  }

  /** An admitted hold: on the holder's own later turn, from Bid or Hit,
      with every later seated player not yet playing. The seat becomes Hold;
      the turn passes to the last occupied seat after it, or, with nobody
      after it, the dealer plays and the round is settled, leaving the
      holder NotPlaying with a result, a zero stake and no hand. Nobody
      moves and the counter stays. */
  lemma HoldRules(w: World, env: Env, seat: uint8, rng: Rng)
    ensures var r := AfterHold(w, env, seat, rng);
      r.Ok? ==>
        && w.table.state.PlayerTurn? && w.table.state.playerSeat == seat && !w.table.state.isFirst
        && seat < SEATS && w.table.players[seat].address == env.sender
        && (w.table.players[seat].state == PlayerState.Bid || w.table.players[seat].state == PlayerState.Hit)
        && (forall j :: seat < j < SEATS && Occupied(w.table.players[j]) ==> w.table.players[j].state == NotPlaying)
        && SameSeating(w.table.players, r.value.world.table.players)
        && r.value.world.table.playersCount == w.table.playersCount
        && ((exists j :: seat < j < SEATS && Occupied(w.table.players[j])) ==>
              exists n :: seat < n < SEATS && Occupied(w.table.players[n]) && w.table.players[n].state == NotPlaying
                && (forall k :: n < k < SEATS ==> !Occupied(w.table.players[k]))
                && r.value == Effect(Holding(w, seat).(table := Holding(w, seat).table.(state := PlayerTurn(n as uint8, true, env.time))), []))
        && ((forall j :: seat < j < SEATS ==> !Occupied(w.table.players[j])) && env.sender != EMPTY_ADDR ==>
              && !r.value.world.table.state.DealerTurn?
              && r.value.world.table.players[seat] == Player(env.sender, None, NotPlaying)
              && r.value.world.scores.players[seat].Some?
              && r.value.world.scores.players[seat].value.address == env.sender
              && ReadUserBalance(r.value.world.balances, env.sender) == 0)
  {
    var r := AfterHold(w, env, seat, rng);
    if r.Ok? {
      HoldAdmits(w, env, seat, rng);
      HoldKeepsSeating(w, env, seat, rng);
      if exists j :: seat < j < SEATS && Occupied(w.table.players[j]) {
        HoldPassesTurn(w, env, seat, rng);
      }
      if (forall j :: seat < j < SEATS ==> !Occupied(w.table.players[j])) && env.sender != EMPTY_ADDR {
        HoldEndsRound(w, env, seat, rng);
      }
    }
  }

  /** What an admitted hold was: the holder's own later turn, from Bid or
      Hit; and what it does: the seat moves to Hold and the turn advances
      from it, followed by the game flow. */
  lemma HoldAdmits(w: World, env: Env, seat: uint8, rng: Rng)
    requires AfterHold(w, env, seat, rng).Ok?
    ensures && w.table.state.PlayerTurn? && w.table.state.playerSeat == seat && !w.table.state.isFirst
            && seat < SEATS && w.table.players[seat].address == env.sender
            && (w.table.players[seat].state == PlayerState.Bid || w.table.players[seat].state == PlayerState.Hit)
            && AdvanceTurn(Holding(w, seat), seat, false, env.time, rng).Ok?
            && AfterHold(w, env, seat, rng)
               == StateChange(AdvanceTurn(Holding(w, seat), seat, false, env.time, rng).value, env, w.table.state, rng)
  {
    var p := w.table.players[seat];
    PlayerLattice(Moved(p, PlayerState.Hold), p.state, PlayerState.Hold, w.deck);
    assert Holding(w, seat) == w.(table := SetSeat(w.table, seat, Moved(p, PlayerState.Hold)));
  }

  /** Neither the turn's advance nor the game flow after a hold moves
      anybody or changes the counter. */
  lemma HoldKeepsSeating(w: World, env: Env, seat: uint8, rng: Rng)
    requires seat < SEATS
    requires AdvanceTurn(Holding(w, seat), seat, false, env.time, rng).Ok?
    ensures var r := StateChange(AdvanceTurn(Holding(w, seat), seat, false, env.time, rng).value, env, w.table.state, rng);
      r.Ok? ==> SameSeating(w.table.players, r.value.world.table.players)
                && r.value.world.table.playersCount == w.table.playersCount
  {
    var w1 := Holding(w, seat);
    AdvanceTurnKeepsSeating(w1, seat, false, env.time, rng);
    var w2 := AdvanceTurn(w1, seat, false, env.time, rng).value;
    StateChangeRules(w2, env, w.table.state, rng);
  }

  /** A hold with someone seated after the holder passes the turn to the
      last occupied seat after it, which must not have played yet, and
      changes nothing else. */
  lemma HoldPassesTurn(w: World, env: Env, seat: uint8, rng: Rng)
    requires seat < SEATS && w.table.state.PlayerTurn?
    requires exists j :: seat < j < SEATS && Occupied(w.table.players[j])
    requires AdvanceTurn(Holding(w, seat), seat, false, env.time, rng).Ok?
    ensures forall j :: seat < j < SEATS && Occupied(w.table.players[j]) ==> w.table.players[j].state == NotPlaying
    ensures var r := StateChange(AdvanceTurn(Holding(w, seat), seat, false, env.time, rng).value, env, w.table.state, rng);
      exists n :: seat < n < SEATS && Occupied(w.table.players[n]) && w.table.players[n].state == NotPlaying
        && (forall k :: n < k < SEATS ==> !Occupied(w.table.players[k]))
        && r == Ok(Effect(Holding(w, seat).(table := Holding(w, seat).table.(state := PlayerTurn(n as uint8, true, env.time))), []))
  {
    var w1 := Holding(w, seat);
    AdvanceTurnRules(w1, seat, false, env.time, rng);
    assert forall j :: seat < j < SEATS ==> w1.table.players[j] == w.table.players[j];
    var w2 := AdvanceTurn(w1, seat, false, env.time, rng).value;
    StateChangeRules(w2, env, w.table.state, rng);
  }

  /** A hold with nobody seated after the holder always hands the table to
      the dealer; when the round is then settled and a new one begun, the
      holder is left NotPlaying, with a result under their address, no
      stake and no hand. */
  lemma HoldEndsRound(w: World, env: Env, seat: uint8, rng: Rng)
    requires seat < SEATS && w.table.players[seat].address == env.sender && env.sender != EMPTY_ADDR
    requires forall j :: seat < j < SEATS ==> !Occupied(w.table.players[j])
    requires w.table.state.PlayerTurn?
    ensures AdvanceTurn(Holding(w, seat), seat, false, env.time, rng)
            == Ok(Holding(w, seat).(table := Holding(w, seat).table.(state := DealerTurn)))
    ensures var r := StateChange(AdvanceTurn(Holding(w, seat), seat, false, env.time, rng).value, env, w.table.state, rng);
      r.Ok? ==>
      && !r.value.world.table.state.DealerTurn?
      && r.value.world.table.players[seat] == Player(env.sender, None, NotPlaying)
      && r.value.world.scores.players[seat].Some?
      && r.value.world.scores.players[seat].value.address == env.sender
      && ReadUserBalance(r.value.world.balances, env.sender) == 0
  {
    var w1 := Holding(w, seat);
    assert AnyHolding(w1.table.players) by {
      assert Occupied(w1.table.players[seat]) && w1.table.players[seat].state == PlayerState.Hold;
    }
    AdvanceTurnRules(w1, seat, false, env.time, rng);
    var w2 := AdvanceTurn(w1, seat, false, env.time, rng).value;
    if StateChange(w2, env, w.table.state, rng).Ok? {
      var played := DealerPlays(w2).value;
      assert played.table.players == w1.table.players;
      SettledRound(played, env.contract);
      var settled := Settled(played, env.contract).value;
      assert Settles(played.table.players[seat]);
      NewRoundKeeps(settled.world, env.time, rng);
      NewRoundNeverDealer(settled.world, env.time, rng);
    }
  }

  /** Every admitted call keeps the table invariant (for a kick, when its
      target is a real address). */
  lemma HandleKeepsInvariant(w: World, env: Env, msg: HandleMsg, bankBalance: uint128, rng: Rng)
    requires TableInvariant(w.table)
    requires msg.Kick? ==> msg.target != EMPTY_ADDR
    ensures var r := HandleOutcome(w, env, msg, bankBalance, rng);
      r.Ok? ==> TableInvariant(r.value.world.table)
  {
    match msg {
      case Hold(seat) =>
        HoldRules(w, env, seat, rng);
        var r := AfterHold(w, env, seat, rng);
        if r.Ok? {
          SameSeatingKeepsInvariant(w.table, r.value.world.table);
        }
      case Bid(amount, seat) =>
        BidRules(w, env, amount, seat, bankBalance);
        var r := AfterBid(w, env, amount, seat, bankBalance);
        if r.Ok? {
          SameSeatingKeepsInvariant(w.table, r.value.world.table);
        }
      case Sit(secret, seat) =>
        SitRules(w, env, seat, secret, rng);
      case Stand(seat) =>
        StandRules(w, env, seat, rng);
      case Kick(target, seat) =>
        KickRules(w, env, target, seat, rng);
      case Hit(seat) =>
        HitRules(w, env, seat);
        var r := AfterHit(w, env, seat);
        if r.Ok? {
          SameSeatingKeepsInvariant(w.table, r.value.world.table);
        }
    }
  }
}

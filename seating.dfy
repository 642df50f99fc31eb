/** Seat lookup and seat management (`get_player`, `get_player_seat`,
    `add_player`, `remove_player`). */
module Seating {
  import opened Base
  import opened Msg
  import opened State
  import opened GameStore

  /** `get_player`: the seat, when it exists and, if an address is given,
      that address sits there. */
  function GetPlayer(t: Table, address: Option<Addr>, seat: uint8): (r: Result<Player>)
    ensures r.Ok? <==> seat < SEATS && (address.Some? ==> t.players[seat].address == address.value)
    ensures r.Ok? ==> r.value == t.players[seat]
    ensures seat >= SEATS ==> r == Err(NoSuchSeat)
    ensures seat < SEATS && r.Err? ==> r == Err(WrongAddress)
  {
    if seat >= SEATS then Err(NoSuchSeat)
    else if address.Some? && t.players[seat].address != address.value then Err(WrongAddress)
    else Ok(t.players[seat])
  }

  /** Some seat holds address `a` (for the empty address: some seat is free). */
  predicate IsSeated(players: Seats, a: Addr) {
    exists s :: 0 <= s < SEATS && players[s].address == a
  }

  /** `get_player_seat`: the first seat holding `a`, or not_found. */
  method GetPlayerSeat(t: Table, a: Addr) returns (r: Result<uint8>)
    ensures r.Ok? <==> IsSeated(t.players, a)
    ensures r.Ok? ==> r.value < SEATS && t.players[r.value].address == a
    ensures r.Ok? ==> forall j :: 0 <= j < r.value ==> t.players[j].address != a
    ensures r.Err? ==> r.error == NotFound("Player")
  {
    var seat := 0;
    while seat < SEATS
      invariant 0 <= seat <= SEATS
      invariant forall j :: 0 <= j < seat ==> t.players[j].address != a
    {
      if t.players[seat].address == a {
        return Ok(seat);
      }
      seat := seat + 1;
    }
    return Err(NotFound("Player"));
  }

  /** The number of occupied seats from `from` on. */
  function OccupiedFrom(players: Seats, from: nat): (n: nat)
    ensures n <= SEATS - from || from > SEATS
    decreases SEATS - from
  {
    if from >= SEATS then 0
    else (if Occupied(players[from]) then 1 else 0) + OccupiedFrom(players, from + 1)
  }

  /** The table's seat counter agrees with its seats. */
  predicate CountMatches(t: Table) {
    t.playersCount == OccupiedFrom(t.players, 0)
  }

  /** Replacing one seat changes the occupied count by the change at that seat. */
  lemma {:induction false} OccupiedAfterUpdate(players: Seats, from: nat, seat: nat, p: Player)
    requires seat < SEATS
    ensures var updated: Seats := players[seat := p];
      OccupiedFrom(updated, from) + (if from <= seat && Occupied(players[seat]) then 1 else 0)
      == OccupiedFrom(players, from) + (if from <= seat && Occupied(p) then 1 else 0)
    decreases SEATS - from
  {
    if from < SEATS {
      OccupiedAfterUpdate(players, from + 1, seat, p);
    }
  }

  /** `add_player`: seat a new address with its secret. */
  function AddPlayer(w: World, address: Addr, seat: uint8, secret: uint64): Result<World> {
    if seat >= SEATS then Err(NoSuchSeat)
    else if IsSeated(w.table.players, address) then Err(PlayerAlreadySeated)
    else if Occupied(w.table.players[seat]) then Err(SeatAlreadyTaken)
    else
      var count :- AddU8(w.table.playersCount, 1);
      var t := SetSeat(w.table, seat, w.table.players[seat].(address := address)).(playersCount := count);
      Ok(w.(table := t, seatSecrets := StorePlayerSecret(w.seatSecrets, seat, secret)))
  }

  /** `remove_player`: clear a seat held by `address`. The source clears the
      seat's address before zeroing the balance, so the key it zeroes is the
      empty address's, not the leaving player's. */
  function RemovePlayer(w: World, address: Addr, seat: uint8): Result<World> {
    if seat >= SEATS then Err(NoSuchSeat)
    else if w.table.players[seat].address != address then Err(WrongAddress)
    else if w.table.playersCount == 0 then Err(Overflow)
    else
      var t := SetSeat(w.table, seat, EMPTY_SEAT).(playersCount := w.table.playersCount - 1);
      Ok(w.(table := t,
            balances := ZeroUserBalance(w.balances, t.players[seat].address),
            seatSecrets := StorePlayerSecret(w.seatSecrets, seat, 0)))
  }

  /** Seating fails on a seat past the sixth, on an address already seated
      and on a taken seat; otherwise it writes the address into the seat,
      stores the seat's secret, adds one to the counter and keeps the counter
      in step with the seats. */
  lemma AddPlayerRules(w: World, address: Addr, seat: uint8, secret: uint64)
    ensures var r := AddPlayer(w, address, seat, secret);
      && (seat >= SEATS ==> r == Err(NoSuchSeat))
      && (seat < SEATS && IsSeated(w.table.players, address) ==> r == Err(PlayerAlreadySeated))
      && (seat < SEATS && !IsSeated(w.table.players, address) && Occupied(w.table.players[seat]) ==> r == Err(SeatAlreadyTaken))
      && (r.Ok? <==> (seat < SEATS && !IsSeated(w.table.players, address) && !Occupied(w.table.players[seat])
                      && w.table.playersCount < 0xFF))
      && (r.Ok? ==>
            && r.value.table.players[seat] == w.table.players[seat].(address := address)
            && (forall s :: 0 <= s < SEATS && s != seat ==> r.value.table.players[s] == w.table.players[s])
            && r.value.table.playersCount == w.table.playersCount + 1
            && r.value.table.state == w.table.state && r.value.table.dealerHand == w.table.dealerHand
            && ReadPlayerSecret(r.value.seatSecrets, seat) == Ok(secret)
            && r.value.balances == w.balances && r.value.deck == w.deck && r.value.secret == w.secret
            && (CountMatches(w.table) ==> CountMatches(r.value.table)))
  {
    var r := AddPlayer(w, address, seat, secret);
    if r.Ok? {
      // a free seat exists, so the address seated is not the empty one
      assert address != EMPTY_ADDR by {
        assert w.table.players[seat].address == EMPTY_ADDR;
      }
      OccupiedAfterUpdate(w.table.players, 0, seat, w.table.players[seat].(address := address));
    }
  }

  /** Leaving needs the seat's own address; it empties the seat, takes one
      off the counter, resets the seat's secret to 0 and zeroes the balance
      stored under the EMPTY address: the leaving address's balance is left
      as it was. */
  lemma RemovePlayerRules(w: World, address: Addr, seat: uint8)
    ensures var r := RemovePlayer(w, address, seat);
      && (seat >= SEATS ==> r == Err(NoSuchSeat))
      && (seat < SEATS && w.table.players[seat].address != address ==> r == Err(WrongAddress))
      && (r.Ok? <==> seat < SEATS && w.table.players[seat].address == address && w.table.playersCount > 0)
      && (r.Ok? ==>
            && r.value.table.players[seat] == EMPTY_SEAT
            && (forall s :: 0 <= s < SEATS && s != seat ==> r.value.table.players[s] == w.table.players[s])
            && r.value.table.playersCount == w.table.playersCount - 1
            && r.value.table.state == w.table.state
            && ReadUserBalance(r.value.balances, EMPTY_ADDR) == 0
            && (address != EMPTY_ADDR ==> ReadUserBalance(r.value.balances, address) == ReadUserBalance(w.balances, address))
            && ReadPlayerSecret(r.value.seatSecrets, seat) == Ok(0)
            && (CountMatches(w.table) && address != EMPTY_ADDR ==> CountMatches(r.value.table)))
  {
    var r := RemovePlayer(w, address, seat);
    if r.Ok? {
      OccupiedAfterUpdate(w.table.players, 0, seat, EMPTY_SEAT);
    }
  }
}

/** What one call of the game contract works on: the stored keys, the call's
    environment, and the foreign digest and shuffle. */
module GameStore {
  import opened Base
  import opened Cards
  import opened Msg

  /** The game contract's storage. Within a call the handler holds the table
      as a local copy and stores it at the end; the other keys are read and
      written as the call goes. A failed call keeps none of it. */
  datatype World = World(
    table: Table,
    deck: GameDeck,
    secret: Option<uint64>,
    seatSecrets: map<uint8, uint64>,
    balances: map<Addr, uint128>,
    scores: Scores,
    bank: Addr)

  /** The environment of a call: the sender, the block time, the coins sent
      along, and the game contract's own address. */
  datatype Env = Env(sender: Addr, time: uint64, funds: seq<Coin>, contract: Addr)

  /** The foreign pieces of round start: SHA-256 of the seed material, and
      the ChaCha shuffle of the library's 52-card deck seeded by that digest. */
  datatype Rng = Rng(digest: seq<uint8> -> seq<uint8>, shuffle: seq<uint8> -> seq<Card>)

  /** A new world together with the messages the call emits. */
  datatype Effect = Effect(world: World, msgs: seq<CosmosMsg>)

  function WithTable(w: World, t: Table): World {
    w.(table := t)
  }

  function SetSeat(t: Table, seat: nat, p: Player): (r: Table)
    requires seat < SEATS
    ensures r.players[seat] == p
    ensures forall s :: 0 <= s < SEATS && s != seat ==> r.players[s] == t.players[s]
    ensures r.playersCount == t.playersCount && r.dealerHand == t.dealerHand && r.state == t.state
  {
    t.(players := t.players[seat := p])
  }
}

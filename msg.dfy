/** The game contract's data: the table, its six seats, the deck, the round
    results and the messages the contract accepts. Nothing here has behaviour;
    the fixed sizes are part of the types. */
module Msg {
  import opened Base
  import opened Cards

  const SEATS: nat := 6

  /** Whose move it is. Only `PlayerTurn` carries a seat, whether the seated
      player still has to bid (`isFirst`), and when the turn began. */
  datatype GameState =
    | NoPlayers
    | PlayerTurn(playerSeat: uint8, isFirst: bool, turnStartTime: uint64)
    | DealerTurn

  /** Cards in the order they were dealt and their raw total (aces count 1). */
  datatype PlayerHand = PlayerHand(cards: seq<Card>, totalValue: uint8)

  const EMPTY_HAND: PlayerHand := PlayerHand([], 0)

  /** A seat's progress through one round. */
  datatype PlayerState = NotPlaying | Bid | Hit | Hold

  /** A seat; the empty address marks it free. */
  datatype Player = Player(address: Addr, hand: Option<PlayerHand>, state: PlayerState)

  const EMPTY_SEAT: Player := Player(EMPTY_ADDR, None, NotPlaying)

  predicate Occupied(p: Player) {
    p.address != EMPTY_ADDR
  }

  /** Exactly six seats. */
  type Seats = s: seq<Player> | |s| == SEATS
    witness [EMPTY_SEAT, EMPTY_SEAT, EMPTY_SEAT, EMPTY_SEAT, EMPTY_SEAT, EMPTY_SEAT]

  datatype Table = Table(playersCount: uint8, players: Seats, dealerHand: Option<PlayerHand>, state: GameState)

  /** The table a fresh contract starts with. */
  const EMPTY_TABLE: Table :=
    Table(0, [EMPTY_SEAT, EMPTY_SEAT, EMPTY_SEAT, EMPTY_SEAT, EMPTY_SEAT, EMPTY_SEAT], None, NoPlayers)

  /** The shuffled cards of the current round and the position of the next
      card to deal. */
  datatype GameDeck = GameDeck(deck: seq<Card>, nextFreeCard: uint8)

  datatype PlayerResult = PlayerResult(address: Addr, won: bool, score: uint8, reward: uint128)

  /** Exactly six optional results, one per seat. */
  type SeatResults = s: seq<Option<PlayerResult>> | |s| == SEATS
    witness [None, None, None, None, None, None]

  const NO_RESULTS: SeatResults := [None, None, None, None, None, None]

  /** The outcome of the last settled round: one slot per seat and the dealer. */
  datatype Scores = Scores(players: SeatResults, dealer: PlayerResult)

  const INITIAL_SCORES: Scores := Scores(NO_RESULTS, PlayerResult(EMPTY_ADDR, false, 0, 0))

  /** The six actions the table accepts. */
  datatype HandleMsg =
    | Bid(amount: uint128, seat: uint8)
    | Hold(seat: uint8)
    | Sit(secret: uint64, seat: uint8)
    | Stand(seat: uint8)
    | Kick(target: Addr, seat: uint8)
    | Hit(seat: uint8)

  datatype QueryMsg = GetUserBalance(address: Addr) | GetTable | GetLastScore

  datatype QueryAnswer =
    | UserBalance(balance: uint128)
    | TableData(table: Table)
    | LastScore(lastScore: Scores)

  /** The game contract's instantiation message. */
  datatype InitMsg = InitMsg(bankAddress: Addr, bankCodeHash: string, secret: uint64)
}

/** Machine integers, addresses, errors and the outbound messages shared by the
    game contract and the bank contract. */
module Base {

  /** Rust's fixed-width unsigned integers. Arithmetic on them is written out
      with explicit checks: an overflowing `+`, `-` or `*` panics, which aborts
      the whole call. */
  type uint8 = x: int | 0 <= x < 0x100
  type uint64 = x: int | 0 <= x < 0x1_0000_0000_0000_0000
  type uint128 = x: int | 0 <= x < 0x1_0000_0000_0000_0000_0000_0000_0000_0000

  const UINT128_LIMIT: int := 0x1_0000_0000_0000_0000_0000_0000_0000_0000

  /** A chain address (`HumanAddr`); the empty string marks an empty seat. */
  type Addr = string

  const EMPTY_ADDR: Addr := ""

  /** The only denomination the contracts move. */
  const USCRT: string := "uscrt"

  datatype Option<T> = None | Some(value: T)

  /** The failures a call can end with. Each names the source's error message,
      or the panic that aborts the call. */
  datatype Error =
    // game contract
    | NoSuchSeat
    | WrongAddress
    | PlayerAlreadySeated
    | SeatAlreadyTaken             // add_player: "Seat already taken"
    | SeatWasTaken(seat: int)      // sit: "Seat {} was already taken"
    | SeatEmpty(seat: int)
    | NotSeatedThere(seat: int)
    | CannotStandWhilePlaying
    | NotOnTurn(action: Action)
    | BidOnlyOnFirstTurn
    | HitBeforeBid
    | HoldBeforeBid
    | KickOnlyPlayingPlayer
    | KickTooEarly
    | AmountNotSet
    | WrongAmountSent(amount: int)
    | MaxBidExceeded(maxBid: int)
    | CannotHitWithScore(total: int)
    | UnexpectedPlayerTransition
    | UnexpectedGameTransition
    | UnexpectedPlayerTurn
    | NotFound(what: string)
    // panics
    | DeckExhausted                // `deck.deck[next_free_card]` out of bounds
    | MissingHand                  // `unwrap()` on a hand that is `None`
    | Overflow                     // checked integer arithmetic
    // bank contract
    | Unauthorized
    | NotInitialized
    | OnlyGameContract
    | InsufficientBankBalance(asked: int, balance: int)
    | NotAdministrative

  /** The player action an out-of-turn error refers to. */
  datatype Action = BidAction | HitAction | HoldAction

  datatype Result<T> = Ok(value: T) | Err(error: Error) {
    predicate IsFailure() {
      Err?
    }

    function PropagateFailure<U>(): Result<U>
      requires Err?
    {
      Err(error)
    }

    function Extract(): T
      requires Ok?
    {
      value
    }
  }

  /** A coin attached to a call or moved by a bank send. */
  datatype Coin = Coin(denom: string, amount: uint128)

  /** The outbox: messages a successful call asks the chain to execute after it.
      `PayToWinner` and `UpdateGameAddress` are executions of the bank contract
      at address `bank`; `Send` is a native transfer of `amount` uscrt;
      `InstantiateGame` is the bank's request to create the game contract. */
  datatype CosmosMsg =
    | PayToWinner(bank: Addr, amount: uint128, to: Addr)
    | Send(from: Addr, to: Addr, amount: uint128)
    | UpdateGameAddress(bank: Addr, address: Addr)
    | InstantiateGame(bankAddress: Addr, secret: uint64)

  /** Checked `u8` addition. */
  function AddU8(a: uint8, b: uint8): (r: Result<uint8>)
    ensures r.Ok? <==> a + b < 0x100
    ensures r.Ok? ==> r.value == a + b
  {
    if a + b < 0x100 then Ok(a + b) else Err(Overflow)
  }

  /** Checked `u128` addition. */
  function AddU128(a: uint128, b: uint128): (r: Result<uint128>)
    ensures r.Ok? <==> a + b < UINT128_LIMIT
    ensures r.Ok? ==> r.value == a + b
  {
    if a + b < UINT128_LIMIT then Ok(a + b) else Err(Overflow)
  }
}

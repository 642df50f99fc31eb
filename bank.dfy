/** The bank (escrow) contract: it holds the house's uscrt, pays winners on
    the game contract's request and lets its owner take everything out. Its
    storage is the owner, the game contract's address, the pending flag
    (stored as "True"/"False") and its own address. */
module Bank {
  import opened Base
  import opened GameStore
  import Handlers

  /** The bank's handle messages, as its dispatcher names them. */
  datatype BankMsg =
    | UpdateGameAddress(address: Addr)
    | PayToWinner(amount: uint128, to: Addr)
    | ChangeOwner(newOwner: Addr)
    | EmergencyWithdrawAll

  datatype BankInitMsg = BankInitMsg(gameCodeId: uint64, gameCodeHash: string, secret: uint64)

  /** The bank's storage; `gameAddress` is None until the game registers. */
  datatype BankStore = BankStore(owner: Addr, gameAddress: Option<Addr>, pending: bool, bankAddress: Addr)

  datatype BankEffect = BankEffect(store: BankStore, msgs: seq<CosmosMsg>)

  /** `get_bank_balance`: the balance with a tenth kept back for the owner
      (`u128` subtraction, which cannot underflow here). */
  function ReportedBalance(balance: uint128): (r: uint128)
    ensures r == balance - balance / 10
    ensures r <= balance
  {
    balance - balance / 10
  }

  /** The reported balance is the balance less its tenth rounded down: never
      below nine tenths of it and never above it; 250,000,000 reads as
      225,000,000. */
  lemma ReportedBalanceRules(balance: uint128)
    ensures balance - ReportedBalance(balance) == balance / 10
    ensures 9 * balance <= 10 * ReportedBalance(balance) <= 10 * balance
    ensures ReportedBalance(250_000_000) == 225_000_000
  {
  }

  /** `init`: the sender owns the bank, the bank records its own address,
      and the pending flag stays set until the game registers. */
  function InitialStore(env: Env, msg: BankInitMsg): (s: BankStore)
    ensures s.owner == env.sender && s.pending && s.bankAddress == env.contract && s.gameAddress.None?
  {
    BankStore(env.sender, None, true, env.contract)
  }

  /** The one message `init` emits: instantiate the game with this bank's
      address and the caller's secret. */
  function InitMessages(env: Env, msg: BankInitMsg): (msgs: seq<CosmosMsg>)
    ensures msgs == [InstantiateGame(env.contract, msg.secret)]
  {
    [InstantiateGame(env.contract, msg.secret)]
  }

  /** `check_owner`: the owner, when the sender is the owner. */
  function CheckOwner(s: BankStore, env: Env): (r: Result<Addr>)
    ensures r.Ok? <==> env.sender == s.owner
    ensures r.Ok? ==> r.value == s.owner
    ensures r.Err? ==> r.error == Unauthorized
  {
    if s.owner != env.sender then Err(Unauthorized) else Ok(s.owner)
  }

  /** The recipient of a withdrawal: the owner for `all` (owner only),
      `sendTo` otherwise (the stored game address only). */
  function Recipient(s: BankStore, env: Env, sendTo: Addr, all: bool): Result<Addr> {
    if all then CheckOwner(s, env)
    else if s.gameAddress.None? then Err(NotFound("HumanAddr"))
    else if s.gameAddress.value != env.sender then Err(OnlyGameContract)
    else Ok(sendTo)
  }

  /** `withdraw`: one send of `amount` out of the bank, if the balance
      covers it. `balance` is the querier's answer for the bank's address. */
  function Withdraw(s: BankStore, env: Env, amount: uint128, sendTo: Addr, all: bool, balance: uint128): Result<seq<CosmosMsg>> {
    var to :- Recipient(s, env, sendTo, all);
    if amount > balance then Err(InsufficientBankBalance(amount, balance))
    else Ok([Send(env.contract, to, amount)])
  }

  /** A withdrawal sends exactly one transfer of the amount asked, from the
      bank, to the owner (`all`) or to `sendTo`, and only when the caller is
      entitled and the balance covers it; it fails in that order otherwise. */
  lemma WithdrawRules(s: BankStore, env: Env, amount: uint128, sendTo: Addr, all: bool, balance: uint128)
    ensures var r := Withdraw(s, env, amount, sendTo, all, balance);
      && (all ==> (r.Ok? <==> env.sender == s.owner && amount <= balance))
      && (!all ==> (r.Ok? <==> s.gameAddress == Some(env.sender) && amount <= balance))
      && (r.Ok? ==> r.value == [Send(env.contract, if all then s.owner else sendTo, amount)])
      && (all && env.sender != s.owner ==> r == Err(Unauthorized))
      && (!all && s.gameAddress.None? ==> r == Err(NotFound("HumanAddr")))
      && (!all && s.gameAddress.Some? && s.gameAddress.value != env.sender ==> r == Err(OnlyGameContract))
      && ((if all then env.sender == s.owner else s.gameAddress == Some(env.sender)) && amount > balance ==>
            r == Err(InsufficientBankBalance(amount, balance)))
  {
  }

  /** `administrative_transaction`: owner only; a change of owner, or the
      whole queried balance to the owner. Any other message is the source's
      panic. */
  function Administrative(s: BankStore, env: Env, msg: BankMsg, balance: uint128): Result<BankEffect> {
    var _ :- CheckOwner(s, env);
    match msg
    case ChangeOwner(newOwner) => Ok(BankEffect(s.(owner := newOwner), []))
    case EmergencyWithdrawAll =>
      var msgs :- Withdraw(s, env, balance, s.owner, true, balance);
      Ok(BankEffect(s, msgs))
    case _ => Err(NotAdministrative)
  }

  /** `after_initialization_transaction`: nothing but registration passes
      while the game is pending; then PayToWinner withdraws for the game
      and the rest is administrative. */
  function AfterInitialization(s: BankStore, env: Env, msg: BankMsg, balance: uint128): Result<BankEffect> {
    if s.pending then Err(NotInitialized)
    else
      match msg
      case PayToWinner(amount, to) =>
        var msgs :- Withdraw(s, env, amount, to, false, balance);
        Ok(BankEffect(s, msgs))
      case _ => Administrative(s, env, msg, balance)
  }

  /** `update_game_address` as written: anyone, at any time, may store a
      game address and clear the pending flag. */
  function HandleAsWritten(s: BankStore, env: Env, msg: BankMsg, balance: uint128): Result<BankEffect> {
    match msg
    case UpdateGameAddress(address) => Ok(BankEffect(s.(gameAddress := Some(address), pending := false), []))
    case _ => AfterInitialization(s, env, msg, balance)
  }

  /** The bank's `handle`, with registration accepted only while the game is
      pending (the game's own `init` sends it in the same transaction as the
      bank's `init`). Everything else is as written. */
  function Handle(s: BankStore, env: Env, msg: BankMsg, balance: uint128): Result<BankEffect> {
    match msg
    case UpdateGameAddress(address) =>
      if !s.pending then Err(Unauthorized)
      else Ok(BankEffect(s.(gameAddress := Some(address), pending := false), []))
    case _ => AfterInitialization(s, env, msg, balance)
  }

  /** While the game is pending every message but registration fails, under
      both definitions. */
  lemma PendingGate(s: BankStore, env: Env, msg: BankMsg, balance: uint128)
    requires s.pending && !msg.UpdateGameAddress?
    ensures Handle(s, env, msg, balance) == Err(NotInitialized)
    ensures HandleAsWritten(s, env, msg, balance) == Err(NotInitialized)
  {
  }

  /** Registration stores the address and clears the flag, sending nothing;
      as written it always succeeds, corrected only while pending. */
  lemma RegistrationRules(s: BankStore, env: Env, address: Addr, balance: uint128)
    ensures HandleAsWritten(s, env, BankMsg.UpdateGameAddress(address), balance)
      == Ok(BankEffect(s.(gameAddress := Some(address), pending := false), []))
    ensures var r := Handle(s, env, BankMsg.UpdateGameAddress(address), balance);
      && (r.Ok? <==> s.pending)
      && (r.Ok? ==> r.value == BankEffect(s.(gameAddress := Some(address), pending := false), []))
      && (r.Err? ==> r.error == Unauthorized)
  {
  }

  /** Once registered, a pay-to-winner succeeds exactly when the stored game
      asks and the balance covers the amount; it sends that amount to the
      winner and leaves the storage as it was. */
  lemma PayToWinnerRules(s: BankStore, env: Env, amount: uint128, to: Addr, balance: uint128)
    requires !s.pending
    ensures var r := Handle(s, env, BankMsg.PayToWinner(amount, to), balance);
      && r == HandleAsWritten(s, env, BankMsg.PayToWinner(amount, to), balance)
      && (r.Ok? <==> s.gameAddress == Some(env.sender) && amount <= balance)
      && (r.Ok? ==> r.value == BankEffect(s, [Send(env.contract, to, amount)]))
      && (s.gameAddress.Some? && s.gameAddress.value != env.sender ==> r == Err(OnlyGameContract))
      && (s.gameAddress == Some(env.sender) && amount > balance ==> r == Err(InsufficientBankBalance(amount, balance)))
  {
    WithdrawRules(s, env, amount, to, false, balance);
  }

  /** Once registered, changing the owner and the emergency withdrawal need
      the owner; the withdrawal sends the whole balance to the owner, and a
      change of owner touches nothing else. */
  lemma AdministrativeRules(s: BankStore, env: Env, msg: BankMsg, balance: uint128)
    requires !s.pending && (msg.ChangeOwner? || msg.EmergencyWithdrawAll?)
    ensures var r := Handle(s, env, msg, balance);
      && r == HandleAsWritten(s, env, msg, balance)
      && (r.Ok? <==> env.sender == s.owner)
      && (r.Err? ==> r.error == Unauthorized)
      && (r.Ok? && msg.ChangeOwner? ==> r.value == BankEffect(s.(owner := msg.newOwner), []))
      && (r.Ok? && msg.EmergencyWithdrawAll? ==> r.value == BankEffect(s, [Send(env.contract, s.owner, balance)]))
  {
    WithdrawRules(s, env, balance, s.owner, true, balance);
  }

  /** Any successful call sends at most one transfer, and it is out of the
      bank's own address for no more than the balance. */
  lemma HandleSendsWithinBalance(s: BankStore, env: Env, msg: BankMsg, balance: uint128)
    ensures var r := Handle(s, env, msg, balance);
      r.Ok? ==> (|r.value.msgs| <= 1
        && forall m :: m in r.value.msgs ==> m.Send? && m.from == env.contract && m.amount <= balance)
  {
    match msg
    case PayToWinner(amount, to) =>
      if !s.pending {
        PayToWinnerRules(s, env, amount, to, balance);
      }
    case EmergencyWithdrawAll =>
      if !s.pending {
        AdministrativeRules(s, env, msg, balance);
      }
    case _ =>
  }

  /** The bank just after `init` followed by the game's registration: owner
      the creator, game registered, nothing pending. */
  lemma InitThenRegister(env: Env, msg: BankInitMsg, game: Env, balance: uint128)
    ensures var r := Handle(InitialStore(env, msg), game, BankMsg.UpdateGameAddress(game.sender), balance);
      r == Ok(BankEffect(BankStore(env.sender, Some(game.sender), false, env.contract), []))
  {
  }

  /** As written, any address can make itself the game and then withdraw the
      whole balance to itself as a "winner", whoever owns the bank. */
  lemma AnyoneRedirectsPayouts(s: BankStore, attacker: Env, balance: uint128)
    ensures var first := HandleAsWritten(s, attacker, BankMsg.UpdateGameAddress(attacker.sender), balance);
      && first.Ok?
      && first.value.store.gameAddress == Some(attacker.sender)
      && HandleAsWritten(first.value.store, attacker, BankMsg.PayToWinner(balance, attacker.sender), balance)
         == Ok(BankEffect(first.value.store, [Send(attacker.contract, attacker.sender, balance)]))
  {
  }

  /** One call against the bank, with the balance the querier reports. */
  datatype Call = Call(env: Env, msg: BankMsg, balance: uint128)

  /** The storage after a call: the call's new storage, or the old one when
      the call fails. */
  function Apply(s: BankStore, c: Call): BankStore {
    match Handle(s, c.env, c.msg, c.balance)
    case Ok(e) => e.store
    case Err(_) => s
  }

  /** The storage after a sequence of calls. */
  function Run(s: BankStore, calls: seq<Call>): BankStore
    decreases |calls|
  {
    if calls == [] then s else Run(Apply(s, calls[0]), calls[1..])
  }

  /** Once the game is registered, no sequence of calls changes the game
      address or sets the pending flag again. */
  lemma {:induction false} RegisteredGameStays(s: BankStore, calls: seq<Call>)
    requires !s.pending
    ensures !Run(s, calls).pending && Run(s, calls).gameAddress == s.gameAddress
    decreases |calls|
  {
    if calls != [] {
      var c := calls[0];
      assert Apply(s, c).gameAddress == s.gameAddress && !Apply(s, c).pending by {
        match c.msg
        case PayToWinner(amount, to) => PayToWinnerRules(s, c.env, amount, to, c.balance);
        case ChangeOwner(_) => AdministrativeRules(s, c.env, c.msg, c.balance);
        case EmergencyWithdrawAll => AdministrativeRules(s, c.env, c.msg, c.balance);
        case UpdateGameAddress(_) =>
      }
      RegisteredGameStays(Apply(s, c), calls[1..]);
    }
  }

  /** Every pay-to-winner that succeeds after registration, however many
      calls later, was sent by the game registered at that time. */
  lemma OnlyRegisteredGamePays(s: BankStore, calls: seq<Call>, i: nat)
    requires !s.pending && i < |calls| && calls[i].msg.PayToWinner?
    requires Handle(Run(s, calls[..i]), calls[i].env, calls[i].msg, calls[i].balance).Ok?
    ensures s.gameAddress == Some(calls[i].env.sender)
  {
    RegisteredGameStays(s, calls[..i]);
    PayToWinnerRules(Run(s, calls[..i]), calls[i].env, calls[i].msg.amount, calls[i].msg.to, calls[i].balance);
  }

  /** The game sizes its maximum bid from the reported balance, so six
      winning stakes with 21 are covered by what the bank reports, and that
      leaves the owner's tenth untouched. */
  lemma ReserveCoversMaxBids(balance: uint128, amounts: seq<uint128>)
    requires Handlers.MaxBid(ReportedBalance(balance)).Ok?
    requires |amounts| <= 6
    requires forall i :: 0 <= i < |amounts| ==> amounts[i] <= Handlers.MaxBid(ReportedBalance(balance)).value
    ensures Handlers.TotalAward(amounts) <= balance - balance / 10
  {
    Handlers.MaxBidCoversPayouts(ReportedBalance(balance), amounts);
  }

  /** The bank contract's storage and its entry points. */
  class BankContract {
    var owner: Addr
    var gameAddress: Option<Addr>
    var pending: bool
    var bankAddress: Addr

    function Stored(): BankStore
      reads this
    {
      BankStore(owner, gameAddress, pending, bankAddress)
    }

    /** `init`'s storage writes. */
    constructor (env: Env, msg: BankInitMsg)
      ensures Stored() == InitialStore(env, msg)
    {
      owner := env.sender;
      bankAddress := env.contract;
      gameAddress := None;
      pending := true;
    }

    /** `init`: the new bank and the instantiation of its game. */
    static method Instantiate(env: Env, msg: BankInitMsg) returns (c: BankContract, msgs: seq<CosmosMsg>)
      ensures fresh(c) && c.Stored() == InitialStore(env, msg)
      ensures msgs == InitMessages(env, msg)
    {
      c := new BankContract(env, msg);
      msgs := [InstantiateGame(env.contract, msg.secret)];
    }

    /** `handle`: a successful call commits its storage writes and returns
      its messages; a failed one leaves the storage as it was. */
    method HandleCall(env: Env, msg: BankMsg, balance: uint128) returns (r: Result<seq<CosmosMsg>>)
      modifies this
      ensures var spec := Handle(old(Stored()), env, msg, balance);
        && (spec.Ok? ==> r == Ok(spec.value.msgs) && Stored() == spec.value.store)
        && (spec.Err? ==> r == Err(spec.error) && Stored() == old(Stored()))
    {
      if msg.UpdateGameAddress? {
        if !pending {
          return Err(Unauthorized);
        }
        gameAddress := Some(msg.address);
        pending := false;
        return Ok([]);
      }
      if pending {
        return Err(NotInitialized);
      }
      if msg.PayToWinner? {
        r := WithdrawCall(env, msg.amount, msg.to, false, balance);
        return;
      }
      // administrative: owner only
      if owner != env.sender {
        return Err(Unauthorized);
      }
      if msg.ChangeOwner? {
        owner := msg.newOwner;
        return Ok([]);
      }
      r := WithdrawCall(env, balance, owner, true, balance);
    }

    /** `withdraw`, reading the stored owner and game address. */
    method WithdrawCall(env: Env, amount: uint128, sendTo: Addr, all: bool, balance: uint128) returns (r: Result<seq<CosmosMsg>>)
      ensures r == Withdraw(Stored(), env, amount, sendTo, all, balance)
    {
      var to: Addr;
      if all {
        if owner != env.sender {
          return Err(Unauthorized);
        }
        to := owner;
      } else {
        if gameAddress.None? {
          return Err(NotFound("HumanAddr"));
        }
        if gameAddress.value != env.sender {
          return Err(OnlyGameContract);
        }
        to := sendTo;
      }
      if amount > balance {
        return Err(InsufficientBankBalance(amount, balance));
      }
      return Ok([Send(env.contract, to, amount)]);
    }

    /** `query`: the reported balance. */
    method GetBankBalance(balance: uint128) returns (reported: uint128)
      ensures reported == ReportedBalance(balance)
    {
      reported := balance - balance / 10;
    }
  }
}

/** The game contract's storage keys (`state.rs`): plain key-value cells
    read with `load` (a missing key fails) or `may_load` (a missing key reads
    as nothing). The balance of address `a` lives under "balance" + a, the
    secret of seat `s` under "secret" + s, and the round secret under the
    singleton "secret"; the model gives each family its own map. */
module State {
  import opened Base

  /** `load`: the stored value, or not_found for a missing key. */
  function Load<K, V>(m: map<K, V>, k: K, what: string): (r: Result<V>)
    ensures r.Ok? <==> k in m
    ensures r.Ok? ==> r.value == m[k]
    ensures r.Err? ==> r.error == NotFound(what)
  {
    if k in m then Ok(m[k]) else Err(NotFound(what))
  }

  /** `may_load`: the stored value if there is one; never fails. */
  function MayLoad<K, V>(m: map<K, V>, k: K): (r: Option<V>)
    ensures r.Some? <==> k in m
    ensures r.Some? ==> r.value == m[k]
  {
    if k in m then Some(m[k]) else None
  }

  /** `load` fails exactly where `may_load` answers None, and agrees with it
      elsewhere. */
  lemma LoadAgreesWithMayLoad<K, V>(m: map<K, V>, k: K, what: string)
    ensures Load(m, k, what).Err? <==> MayLoad(m, k).None?
    ensures Load(m, k, what).Ok? ==> MayLoad(m, k) == Some(Load(m, k, what).value)
  {
  }

  /** `read_user_balance`: a failed load reads as zero. */
  function ReadUserBalance(balances: map<Addr, uint128>, a: Addr): (r: uint128)
    ensures a !in balances ==> r == 0
    ensures a in balances ==> r == balances[a]
  {
    match Load(balances, a, "Uint128")
    case Ok(v) => v
    case Err(_) => 0
  }

  /** `add_user_balance`: read-modify-write of one balance key. The sum is a
      checked `Uint128` addition. */
  function AddUserBalance(balances: map<Addr, uint128>, a: Addr, amount: uint128): (r: Result<map<Addr, uint128>>)
    ensures r.Ok? <==> ReadUserBalance(balances, a) + amount < UINT128_LIMIT
    ensures r.Ok? ==> a in r.value && r.value.Keys == balances.Keys + {a}
    ensures r.Ok? && a !in balances ==> r.value[a] == amount
    ensures r.Ok? && a in balances ==> r.value[a] == balances[a] + amount
    ensures r.Ok? ==> forall b :: b in balances && b != a ==> r.value[b] == balances[b]
  {
    var stored := match Load(balances, a, "Uint128")
      case Ok(v) => AddU128(v, amount)
      case Err(_) => Ok(amount);
    match stored
    case Ok(v) => Ok(balances[a := v])
    case Err(e) => Err(e)
  }

  /** `zero_user_balance`, which the state file imports but does not show:
      it stores 0 under the key of `a`. */
  function ZeroUserBalance(balances: map<Addr, uint128>, a: Addr): (r: map<Addr, uint128>)
    ensures ReadUserBalance(r, a) == 0
    ensures forall b :: b != a ==> ReadUserBalance(r, b) == ReadUserBalance(balances, b)
  {
    balances[a := 0]
  }

  /** A credit is seen by the next read of that address and by no other. */
  lemma ReadAfterAdd(balances: map<Addr, uint128>, a: Addr, b: Addr, amount: uint128)
    requires AddUserBalance(balances, a, amount).Ok?
    ensures ReadUserBalance(AddUserBalance(balances, a, amount).value, a) == ReadUserBalance(balances, a) + amount
    ensures b != a ==> ReadUserBalance(AddUserBalance(balances, a, amount).value, b) == ReadUserBalance(balances, b)
  {
  }

  /** The round-secret singleton. */
  function ReadSecret(secret: Option<uint64>): (r: Result<uint64>)
    ensures r.Ok? <==> secret.Some?
    ensures r.Ok? ==> r.value == secret.value
  {
    if secret.Some? then Ok(secret.value) else Err(NotFound("u64"))
  }

  function StoreSecret(v: uint64): (secret: Option<uint64>)
    ensures ReadSecret(secret) == Ok(v)
  {
    Some(v)
  }

  /** `read_player_secret`: a `load` of the seat's own key. */
  function ReadPlayerSecret(secrets: map<uint8, uint64>, seat: uint8): (r: Result<uint64>)
    ensures r.Ok? <==> seat in secrets
    ensures r.Ok? ==> r.value == secrets[seat]
  {
    Load(secrets, seat, "u64")
  }

  /** `store_player_secret`: overwrite the seat's key, and only that key. */
  function StorePlayerSecret(secrets: map<uint8, uint64>, seat: uint8, v: uint64): (r: map<uint8, uint64>)
    ensures ReadPlayerSecret(r, seat) == Ok(v)
    ensures forall s :: s != seat ==> ReadPlayerSecret(r, s) == ReadPlayerSecret(secrets, s)
  {
    secrets[seat := v]
  }
}

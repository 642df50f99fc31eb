/** Turn order and round start (`get_first_player_to_play`,
    `is_any_player_holding`, `get_random_seed`, `start_new_round`,
    `advance_to_next_player`). Each scan over the six seats is a method in
    the source's loop form, proved equal to a function that states it. */
module Turns {
  import opened Base
  import opened Cards
  import opened Msg
  import opened State
  import opened GameStore
  import opened Seating

  /** Seat `s` is the lowest occupied seat. */
  predicate FirstOccupied(players: Seats, s: nat) {
    s < SEATS && Occupied(players[s]) && forall j :: 0 <= j < s ==> !Occupied(players[j])
  }

  /** `get_first_player_to_play`, scanning from seat `from`: the first
      occupied seat must not have played yet. */
  function FirstToPlay(players: Seats, from: nat): Result<uint8>
    decreases SEATS - from
  {
    if from >= SEATS then Err(NotFound("player"))
    else if Occupied(players[from]) then
      if players[from].state == NotPlaying then Ok(from as uint8) else Err(UnexpectedPlayerTurn)
    else FirstToPlay(players, from + 1)
  }

  lemma {:induction false} FirstToPlayFrom(players: Seats, from: nat)
    requires from <= SEATS
    ensures var r := FirstToPlay(players, from);
      && (r.Ok? ==> from <= r.value < SEATS && Occupied(players[r.value]) && players[r.value].state == NotPlaying
                    && forall j :: from <= j < r.value ==> !Occupied(players[j]))
      && (r == Err(NotFound("player")) <==> forall j :: from <= j < SEATS ==> !Occupied(players[j]))
      && (r.Err? ==> r.error == NotFound("player") || r.error == UnexpectedPlayerTurn)
    decreases SEATS - from
  {
    if from < SEATS && !Occupied(players[from]) {
      FirstToPlayFrom(players, from + 1);
    }
  }

  /** The first seat to play is the lowest occupied seat, which must still be
      NotPlaying; with no one seated the answer is not_found, and with the
      lowest occupied seat already playing it is an unexpected turn. */
  lemma FirstToPlayMeans(players: Seats)
    ensures var r := FirstToPlay(players, 0);
      && (r.Ok? <==> exists s: nat :: FirstOccupied(players, s) && players[s].state == NotPlaying)
      && (r.Ok? ==> FirstOccupied(players, r.value) && players[r.value].state == NotPlaying)
      && (r == Err(NotFound("player")) <==> forall j :: 0 <= j < SEATS ==> !Occupied(players[j]))
      && (r == Err(UnexpectedPlayerTurn) <==> exists s: nat :: FirstOccupied(players, s) && players[s].state != NotPlaying)
  {
    FirstToPlayFrom(players, 0);
    var r := FirstToPlay(players, 0);
    forall s: nat | FirstOccupied(players, s)
      ensures r.Ok? ==> r.value as nat == s
      ensures r.Err? ==> r == Err(UnexpectedPlayerTurn)
    {
      if r.Ok? {
        assert !(r.value < s) && !(s < r.value);
      } else {
        assert r != Err(NotFound("player"));
      }
    }
    if r.Err? && r.error == UnexpectedPlayerTurn {
      var s :| 0 <= s < SEATS && Occupied(players[s]) && forall j :: 0 <= j < s ==> !Occupied(players[j]) by {
        FirstOccupiedExists(players, 0);
      }
      assert FirstOccupied(players, s);
    }
  }

  /** Some seat is occupied, so a lowest occupied one exists. */
  lemma {:induction false} FirstOccupiedExists(players: Seats, from: nat)
    requires from <= SEATS
    requires forall j :: 0 <= j < from ==> !Occupied(players[j])
    requires exists j :: from <= j < SEATS && Occupied(players[j])
    ensures exists s: nat :: FirstOccupied(players, s)
    decreases SEATS - from
  {
    if Occupied(players[from]) {
      assert FirstOccupied(players, from);
    } else {
      FirstOccupiedExists(players, from + 1);
    }
  }

  /** `get_first_player_to_play`, as the source's loop. */
  method GetFirstPlayerToPlay(t: Table) returns (r: Result<uint8>)
    ensures r == FirstToPlay(t.players, 0)
  {
    var seat := 0;
    while seat < SEATS
      invariant 0 <= seat <= SEATS
      invariant FirstToPlay(t.players, 0) == FirstToPlay(t.players, seat)
    {
      var player := t.players[seat];
      if Occupied(player) {
        if player.state == NotPlaying {
          return Ok(seat as uint8);
        }
        return Err(UnexpectedPlayerTurn);
      }
      seat := seat + 1;
    }
    return Err(NotFound("player"));
  }

  /** Some occupied seat holds. */
  predicate AnyHolding(players: Seats) {
    exists s :: 0 <= s < SEATS && Occupied(players[s]) && players[s].state == PlayerState.Hold
  }

  /** `is_any_player_holding`, as the source's loop with its early exit. */
  method IsAnyPlayerHolding(t: Table) returns (found: bool)
    ensures found <==> AnyHolding(t.players)
  {
    found := false;
    var seat := 0;
    while seat < SEATS
      invariant 0 <= seat <= SEATS
      invariant !found
      invariant forall j :: 0 <= j < seat ==> !(Occupied(t.players[j]) && t.players[j].state == PlayerState.Hold)
    {
      if Occupied(t.players[seat]) && t.players[seat].state == PlayerState.Hold {
        found := true;
        break;
      }
      seat := seat + 1;
    }
  }

  /** 256 to the power `n`. */
  function Pow256(n: nat): (p: nat)
    ensures p >= 1
  {
    if n == 0 then 1 else 256 * Pow256(n - 1)
  }

  /** `to_be_bytes`: the `n` low bytes of `x`, most significant first. */
  function BeBytes(x: nat, n: nat): (r: seq<uint8>)
    ensures |r| == n
  {
    if n == 0 then [] else BeBytes(x / 256, n - 1) + [(x % 256) as uint8]
  }

  /** The number a big-endian byte string denotes. */
  function FromBeBytes(bs: seq<uint8>): nat {
    if bs == [] then 0 else FromBeBytes(bs[..|bs| - 1]) * 256 + bs[|bs| - 1] as nat
  }

  /** Big-endian encoding loses nothing for numbers that fit in `n` bytes. */
  lemma {:induction false} BeBytesRoundTrip(x: nat, n: nat)
    requires x < Pow256(n)
    ensures FromBeBytes(BeBytes(x, n)) == x
  {
    if n > 0 {
      var bs := BeBytes(x, n);
      assert bs[..|bs| - 1] == BeBytes(x / 256, n - 1);
      assert x / 256 < Pow256(n - 1);
      BeBytesRoundTrip(x / 256, n - 1);
    }
  }

  /** The secrets of the occupied seats from `seat` on, each as eight
      big-endian bytes, appended to `acc`. A seated player without a stored
      secret makes the load fail. */
  function SeedFrom(players: Seats, secrets: map<uint8, uint64>, seat: nat, acc: seq<uint8>): Result<seq<uint8>>
    decreases SEATS - seat
  {
    if seat >= SEATS then Ok(acc)
    else if Occupied(players[seat]) then
      var v :- ReadPlayerSecret(secrets, seat as uint8);
      SeedFrom(players, secrets, seat + 1, acc + BeBytes(v, 8))
    else SeedFrom(players, secrets, seat + 1, acc)
  }

  /** What `get_random_seed` hashes: the round secret, then each seated
      player's secret in seat order. */
  function SeedMaterial(secret: uint64, players: Seats, secrets: map<uint8, uint64>): Result<seq<uint8>> {
    SeedFrom(players, secrets, 0, BeBytes(secret, 8))
  }

  /** `get_random_seed`: the digest of the seed material. */
  function Seed(secret: uint64, players: Seats, secrets: map<uint8, uint64>, digest: seq<uint8> -> seq<uint8>): Result<seq<uint8>> {
    var material :- SeedMaterial(secret, players, secrets);
    Ok(digest(material))
  }

  lemma {:induction false} SeedFromLayout(players: Seats, secrets: map<uint8, uint64>, seat: nat, acc: seq<uint8>)
    requires seat <= SEATS
    ensures var r := SeedFrom(players, secrets, seat, acc);
      && (r.Ok? <==> forall s :: seat <= s < SEATS && Occupied(players[s]) ==> s as uint8 in secrets)
      && (r.Ok? ==> |r.value| == |acc| + 8 * OccupiedFrom(players, seat) && r.value[..|acc|] == acc)
      && (r.Err? ==> r.error == NotFound("u64"))
    decreases SEATS - seat
  {
    if seat < SEATS {
      if Occupied(players[seat]) {
        if seat as uint8 in secrets {
          var acc' := acc + BeBytes(secrets[seat as uint8], 8);
          SeedFromLayout(players, secrets, seat + 1, acc');
          var r := SeedFrom(players, secrets, seat, acc);
          if r.Ok? {
            assert r.value[..|acc|] == r.value[..|acc'|][..|acc|];
          }
        }
      } else {
        SeedFromLayout(players, secrets, seat + 1, acc);
      }
    }
  }

  /** The seed material exists exactly when every seated player has a stored
      secret; it is eight bytes per seated player after the eight bytes of
      the round secret, and those first eight bytes decode to the round
      secret. */
  lemma SeedMaterialLayout(secret: uint64, players: Seats, secrets: map<uint8, uint64>)
    ensures var r := SeedMaterial(secret, players, secrets);
      && (r.Ok? <==> forall s :: 0 <= s < SEATS && Occupied(players[s]) ==> s as uint8 in secrets)
      && (r.Ok? ==> |r.value| == 8 * (1 + OccupiedFrom(players, 0)))
      && (r.Ok? ==> FromBeBytes(r.value[..8]) == secret)
      && (r.Err? ==> r.error == NotFound("u64"))
  {
    SeedFromLayout(players, secrets, 0, BeBytes(secret, 8));
    SecretRoundTrip(secret);
  }

  /** Eight big-endian bytes hold a `u64` exactly. */
  lemma SecretRoundTrip(secret: uint64)
    ensures FromBeBytes(BeBytes(secret, 8)) == secret
  {
    assert Pow256(8) == 0x1_0000_0000_0000_0000;
    BeBytesRoundTrip(secret, 8);
  }

  /** `get_random_seed`, as the source's loop. */
  method GetRandomSeed(t: Table, secrets: map<uint8, uint64>, secret: uint64, digest: seq<uint8> -> seq<uint8>)
    returns (r: Result<seq<uint8>>)
    ensures r == Seed(secret, t.players, secrets, digest)
  {
    var combined := BeBytes(secret, 8);
    var seat := 0;
    while seat < SEATS
      invariant 0 <= seat <= SEATS
      invariant SeedMaterial(secret, t.players, secrets) == SeedFrom(t.players, secrets, seat, combined)
    {
      if Occupied(t.players[seat]) {
        var v :- ReadPlayerSecret(secrets, seat as uint8);
        combined := combined + BeBytes(v, 8);
      }
      seat := seat + 1;
    }
    return Ok(digest(combined));
  }

  /** Every seat with its hand cleared. */
  function ClearHands(players: Seats): (r: Seats)
    ensures forall s :: 0 <= s < SEATS ==> r[s] == players[s].(hand := None)
  {
    seq(SEATS, s requires 0 <= s < SEATS => players[s].(hand := None))
  }

  /** `start_new_round`: clear every hand; then either the first seat to play
      gets a fresh turn, the round secret moves on by one and a new deck is
      shuffled from the seed, or (nobody can play) the dealer's hand is
      cleared and the table waits for players. */
  function NewRound(w: World, now: uint64, rng: Rng): Result<World> {
    var t := w.table.(players := ClearHands(w.table.players));
    match FirstToPlay(t.players, 0)
    case Ok(seat) =>
      var t1 := t.(state := PlayerTurn(seat, true, now));
      var secret :- ReadSecret(w.secret);
      var seed :- Seed(secret, t1.players, w.seatSecrets, rng.digest);
      if secret as int + 1 >= 0x1_0000_0000_0000_0000 then Err(Overflow)
      else Ok(w.(table := t1, secret := StoreSecret(secret + 1), deck := GameDeck(rng.shuffle(seed), 0)))
    case Err(_) =>
      Ok(w.(table := t.(dealerHand := None, state := NoPlayers)))
  }

  /** A new round keeps the seats' addresses and states and drops their
      hands; it never touches the balances, the seat secrets, the scores or
      the seat counter. */
  lemma NewRoundKeeps(w: World, now: uint64, rng: Rng)
    ensures var r := NewRound(w, now, rng);
      r.Ok? ==>
        && (forall s :: 0 <= s < SEATS ==> r.value.table.players[s] == w.table.players[s].(hand := None))
        && r.value.balances == w.balances && r.value.seatSecrets == w.seatSecrets && r.value.scores == w.scores
        && r.value.table.playersCount == w.table.playersCount
  {
  }

  /** When nobody can take the first turn (every seat is empty, or the
      lowest occupied seat has already bid, hit or held), a new round clears
      the dealer's hand and every seat's hand and waits in NoPlayers, with
      the players left seated, the deck kept and the round secret unused. */
  lemma NewRoundWithoutTurn(w: World, now: uint64, rng: Rng)
    requires || (forall s :: 0 <= s < SEATS ==> !Occupied(w.table.players[s]))
             || (exists s: nat :: FirstOccupied(w.table.players, s) && w.table.players[s].state != NotPlaying)
    ensures var r := NewRound(w, now, rng);
      && r.Ok?
      && r.value.table.state == NoPlayers && r.value.table.dealerHand == None
      && r.value.table.players == ClearHands(w.table.players)
      && r.value.deck == w.deck && r.value.secret == w.secret
  {
    var cleared := ClearHands(w.table.players);
    FirstToPlayMeans(cleared);
    if exists s: nat :: FirstOccupied(w.table.players, s) && w.table.players[s].state != NotPlaying {
      var s: nat :| FirstOccupied(w.table.players, s) && w.table.players[s].state != NotPlaying;
      assert FirstOccupied(cleared, s);
    }
  }

  /** When the lowest occupied seat `s` has not played, a new round gives it
      the turn with a first-turn flag and the current time, shuffles the deck
      from the seed with the cursor at 0, and moves the stored secret on by
      one. This fails exactly when the round secret is missing, a seated
      player's secret is missing, or the round secret is at the `u64` limit.
      The dealer's previous hand is left in place. */
  lemma NewRoundStarts(w: World, now: uint64, rng: Rng, s: nat)
    requires FirstOccupied(w.table.players, s) && w.table.players[s].state == NotPlaying
    ensures var r := NewRound(w, now, rng);
      && (r.Ok? <==> (w.secret.Some? && w.secret.value as int + 1 < 0x1_0000_0000_0000_0000
                      && forall j :: 0 <= j < SEATS && Occupied(w.table.players[j]) ==> j as uint8 in w.seatSecrets))
      && (r.Ok? ==>
            && r.value.table.state == PlayerTurn(s as uint8, true, now)
            && r.value.table.dealerHand == w.table.dealerHand
            && r.value.secret == Some(w.secret.value + 1)
            && r.value.deck.nextFreeCard == 0
            && r.value.deck.deck == rng.shuffle(Seed(w.secret.value, ClearHands(w.table.players), w.seatSecrets, rng.digest).value))
  {
    var cleared := ClearHands(w.table.players);
    assert FirstOccupied(cleared, s);
    FirstToPlayMeans(cleared);
    assert FirstToPlay(cleared, 0) == Ok(s as uint8);
    if w.secret.Some? {
      SeedMaterialLayout(w.secret.value, cleared, w.seatSecrets);
    }
  }

  /** The first loop of `start_new_round`: every seat's hand is dropped. */
  method ClearTableHands(t0: Table) returns (t: Table)
    ensures t == t0.(players := ClearHands(t0.players))
  {
    t := t0;
    var seat := 0;
    while seat < SEATS
      invariant 0 <= seat <= SEATS
      invariant t == t0.(players := t.players)
      invariant forall s :: 0 <= s < seat ==> t.players[s] == t0.players[s].(hand := None)
      invariant forall s :: seat <= s < SEATS ==> t.players[s] == t0.players[s]
    {
      t := SetSeat(t, seat, t.players[seat].(hand := None));
      seat := seat + 1;
    }
    assert t.players == ClearHands(t0.players);
  }

  /** `start_new_round`, as the source's steps: the hand-clearing loop, then
      the first-player scan, the secret, the seed and the deck. */
  method StartNewRound(w: World, now: uint64, rng: Rng) returns (r: Result<World>)
    ensures r == NewRound(w, now, rng)
  {
    var t := ClearTableHands(w.table);
    var first := GetFirstPlayerToPlay(t);
    match first {
      case Ok(s) =>
        t := t.(state := PlayerTurn(s, true, now));
        var secret :- ReadSecret(w.secret);
        var seed :- GetRandomSeed(t, w.seatSecrets, secret, rng.digest);
        if secret as int + 1 >= 0x1_0000_0000_0000_0000 {
          return Err(Overflow);
        }
        var deck := GameDeck(rng.shuffle(seed), 0);
        return Ok(w.(table := t, secret := StoreSecret(secret + 1), deck := deck));
      case Err(_) =>
        t := t.(dealerHand := None, state := NoPlayers);
        return Ok(w.(table := t));
    }
  }

  /** Where the turn scan stands: the seat it last picked and the table state. */
  datatype Scan = Scan(next: nat, state: GameState)

  /** The scan of `advance_to_next_player` from seat `seat` on: every
      occupied NotPlaying seat takes over the turn, and the scan goes on to
      the end; any other occupied seat fails it. */
  function ScanFrom(players: Seats, seat: nat, acc: Scan, now: uint64): Result<Scan>
    decreases SEATS - seat
  {
    if seat >= SEATS then Ok(acc)
    else if Occupied(players[seat]) then
      if players[seat].state == NotPlaying then ScanFrom(players, seat + 1, Scan(seat, PlayerTurn(seat as uint8, true, now)), now)
      else Err(UnexpectedPlayerTurn)
    else ScanFrom(players, seat + 1, acc, now)
  }

  /** The scan has no early exit: it succeeds exactly when every occupied
      seat from `seat` on is NotPlaying, and then the turn goes to the LAST
      of them, or stays as it was when there is none. */
  lemma {:induction false} ScanFromMeans(players: Seats, seat: nat, acc: Scan, now: uint64)
    requires seat <= SEATS
    ensures var r := ScanFrom(players, seat, acc, now);
      && (r.Ok? <==> forall j :: seat <= j < SEATS && Occupied(players[j]) ==> players[j].state == NotPlaying)
      && (r.Err? ==> r.error == UnexpectedPlayerTurn)
      && (r.Ok? && (forall j :: seat <= j < SEATS ==> !Occupied(players[j])) ==> r.value == acc)
      && (r.Ok? && (exists j :: seat <= j < SEATS && Occupied(players[j])) ==>
            && seat <= r.value.next < SEATS
            && Occupied(players[r.value.next])
            && (forall k :: r.value.next < k < SEATS ==> !Occupied(players[k]))
            && r.value.state == PlayerTurn(r.value.next as uint8, true, now))
    decreases SEATS - seat
  {
    if seat < SEATS {
      if Occupied(players[seat]) {
        ScanFromMeans(players, seat + 1, Scan(seat, PlayerTurn(seat as uint8, true, now)), now);
      } else {
        ScanFromMeans(players, seat + 1, acc, now);
      }
    }
  }

  /** `advance_to_next_player`: scan the seats after the current one; when
      the turn did not move, the dealer plays if someone holds, or else a new
      round may start. */
  function AdvanceTurn(w: World, current: uint8, shouldStart: bool, now: uint64, rng: Rng): Result<World> {
    if current as int + 1 >= 0x100 then Err(Overflow)
    else
      var scan :- ScanFrom(w.table.players, current as nat + 1, Scan(current as nat, w.table.state), now);
      var w1 := w.(table := w.table.(state := scan.state));
      if scan.next == current as nat then
        if AnyHolding(w1.table.players) then Ok(w1.(table := w1.table.(state := DealerTurn)))
        else if shouldStart then NewRound(w1, now, rng)
        else Ok(w1)
      else Ok(w1)
  }

  /** After seat `current`'s turn: if a later occupied seat is not NotPlaying
      the call fails; otherwise the turn goes to the last occupied seat after
      `current`, with a first-turn flag and the current time. With no
      occupied seat after `current`, the dealer plays when some seat holds;
      otherwise the table is left as it was, or a new round starts when
      asked for. The seats themselves change only through a new round. */
  lemma AdvanceTurnRules(w: World, current: uint8, shouldStart: bool, now: uint64, rng: Rng)
    requires current < SEATS
    ensures var r := AdvanceTurn(w, current, shouldStart, now, rng);
      && ((exists j :: current < j < SEATS && Occupied(w.table.players[j]) && w.table.players[j].state != NotPlaying) ==>
            r == Err(UnexpectedPlayerTurn))
      && ((forall j :: current < j < SEATS && Occupied(w.table.players[j]) ==> w.table.players[j].state == NotPlaying) ==>
          && ((exists j :: current < j < SEATS && Occupied(w.table.players[j])) ==>
                exists n :: current < n < SEATS && Occupied(w.table.players[n]) && w.table.players[n].state == NotPlaying
                  && (forall k :: n < k < SEATS ==> !Occupied(w.table.players[k]))
                  && r == Ok(w.(table := w.table.(state := PlayerTurn(n as uint8, true, now)))))
          && ((forall j :: current < j < SEATS ==> !Occupied(w.table.players[j])) ==>
                && (AnyHolding(w.table.players) ==> r == Ok(w.(table := w.table.(state := DealerTurn))))
                && (!AnyHolding(w.table.players) && !shouldStart ==> r == Ok(w))
                && (!AnyHolding(w.table.players) && shouldStart ==> r == NewRound(w, now, rng))))
  {
    ScanFromMeans(w.table.players, current as nat + 1, Scan(current as nat, w.table.state), now);
    var r := ScanFrom(w.table.players, current as nat + 1, Scan(current as nat, w.table.state), now);
    if r.Ok? && (forall j :: current < j < SEATS ==> !Occupied(w.table.players[j])) {
      assert w.(table := w.table.(state := r.value.state)) == w;
    }
  }

  /** `advance_to_next_player`, as the source's loop and calls. */
  method AdvanceToNextPlayer(w: World, current: uint8, shouldStart: bool, now: uint64, rng: Rng)
    returns (r: Result<World>)
    ensures r == AdvanceTurn(w, current, shouldStart, now, rng)
  {
    if current as int + 1 >= 0x100 {
      return Err(Overflow);
    }
    var t := w.table;
    var next: nat := current as nat;
    var seat: nat := current as nat + 1;
    while seat < SEATS
      invariant current as nat + 1 <= seat || seat >= SEATS
      invariant t == w.table.(state := t.state)
      invariant ScanFrom(w.table.players, current as nat + 1, Scan(current as nat, w.table.state), now)
             == ScanFrom(w.table.players, seat, Scan(next, t.state), now)
      decreases SEATS - seat
    {
      var player := t.players[seat];
      if Occupied(player) {
        if player.state == NotPlaying {
          next := seat;
          t := t.(state := PlayerTurn(seat as uint8, true, now));
        } else {
          return Err(UnexpectedPlayerTurn);
        }
      }
      seat := seat + 1;
    }
    var w1 := w.(table := t);
    if next == current as nat {
      var holding := IsAnyPlayerHolding(t);
      if holding {
        return Ok(w1.(table := t.(state := DealerTurn)));
      } else if shouldStart {
        r := StartNewRound(w1, now, rng);
        return;
      }
    }
    return Ok(w1);
  }
}

/**
 Time-weighted harvest epochs: each harvest closes an epoch, and its net yield is shared by
 share-seconds held during the epoch. Share-seconds are kept lazily, per account, and brought up to
 date by a loop over the epochs an account slept through. Shares are priced on
 `total_deposited - outstanding`; yield not yet claimed is paid beside the share value.
 */
module EpochModel {
  import opened Core
  import opened ShareMath
  import VaultModel

  /** When an account was last brought up to date, and in which epoch. */
  datatype Cursor = Cursor(time: nat, epoch: nat)

  /** A time cell that reads as zero until it is written. */
  function GetTime(m: map<nat, nat>, e: nat): nat { if e in m then m[e] else 0 }

  datatype EpochState = EpochState(
    balances: map<Address, int>,
    totalShares: int,
    totalDeposited: int,
    outstanding: int,                       // OutstandingHarvestYield
    epoch: nat,                             // HarvestEpoch: the open epoch
    startAt: map<nat, nat>,
    endAt: map<nat, nat>,
    epochTotal: map<nat, int>,              // EpochTotalShareSeconds of closed epochs
    epochYield: map<nat, int>,
    lastUpdate: nat,
    shareSeconds: int,                      // of the open epoch, up to lastUpdate
    cursors: map<Address, Cursor>,
    weights: map<(Address, nat), int>,      // UserEpochShareSeconds
    perfFeeBps: nat,
    now: nat)
  {
    function Balance(u: Address): int { Get(balances, u) }

    function Weight(u: Address, e: nat): int { Get(weights, (u, e)) }

    function StartAt(e: nat): nat { GetTime(startAt, e) }

    /** The end of an epoch as the checkpoint loop reads it: the open one ends now. */
    function EndOf(e: nat): nat {
      if e == epoch then now else if e in endAt then endAt[e] else now
    }

    function CursorOf(u: Address): Cursor {
      if u in cursors then cursors[u] else Cursor(now, epoch)
    }

    /** What shares are priced against. */
    function Pool(): int { totalDeposited - outstanding }
  }

  function Initial(perfFeeBps: nat, now: nat): EpochState {
    EpochState(map[], 0, 0, 0, 0, map[0 := now], map[], map[], map[], now, 0, map[], map[], perfFeeBps, now)
  }

  // ----- checkpoints -----

  function CheckpointTotal(s: EpochState): Result<EpochState> {
    var elapsed := Elapsed(s.now, s.lastUpdate);
    if elapsed > 0 then
      var accrued :- CheckedMul(s.totalShares, elapsed);
      var total :- CheckedAdd(s.shareSeconds, accrued);
      Ok(s.(shareSeconds := total, lastUpdate := s.now))
    else Ok(s.(lastUpdate := s.now))
  }

  function MaxNat(x: nat, y: nat): nat { if x >= y then x else y }

  /** The share-seconds `shares` earn in epoch `e` after `cursor`; a closed epoch of no length counts the shares. */
  function EpochWeight(s: EpochState, cursor: Cursor, shares: int, e: nat): int {
    var start := s.StartAt(e);
    if e < s.epoch && start == s.EndOf(e) && cursor.time <= start && shares > 0 then shares
    else shares * Elapsed(s.EndOf(e), MaxNat(cursor.time, start))
  }

  /** Add one epoch's weight to what is recorded. */
  function RecordOne(s: EpochState, recorded: map<(Address, nat), int>, u: Address, cursor: Cursor, shares: int, e: nat)
    : Result<map<(Address, nat), int>>
  {
    var _ :- CheckedMul(shares, Elapsed(s.EndOf(e), MaxNat(cursor.time, s.StartAt(e))));
    var weight := EpochWeight(s, cursor, shares, e);
    if weight > 0 then
      var total :- CheckedAdd(Get(recorded, (u, e)), weight);
      Ok(recorded[(u, e) := total])
    else Ok(recorded)
  }

  /** Record the epochs from the cursor's up to, not including, `n`. */
  function RecordWeights(s: EpochState, u: Address, cursor: Cursor, shares: int, n: nat)
    : Result<map<(Address, nat), int>>
  {
    if n <= cursor.epoch then Ok(s.weights)
    else
      var recorded :- RecordWeights(s, u, cursor, shares, n - 1);
      RecordOne(s, recorded, u, cursor, shares, n - 1)
  }

  function CheckpointUser(s: EpochState, u: Address, shares: int): Result<EpochState> {
    var weights :- RecordWeights(s, u, s.CursorOf(u), shares, s.epoch + 1);
    Ok(s.(weights := weights, cursors := s.cursors[u := Cursor(s.now, s.epoch)]))
  }

  // ----- claims on closed epochs -----

  /** `user_harvest_yield` over the first `n` epochs. */
  function HarvestYield(s: EpochState, u: Address, n: nat): Result<int> {
    if n == 0 then Ok(0)
    else
      var claimable :- HarvestYield(s, u, n - 1);
      var total := Get(s.epochTotal, n - 1);
      if total == 0 then Ok(claimable)
      else
        var scaled :- CheckedMul(s.Weight(u, n - 1), Get(s.epochYield, n - 1));
        var reward :- CheckedDiv(scaled, total);
        CheckedAdd(claimable, reward)
  }

  /** Scale the account's first `n` closed weights by remaining / prior. */
  function ReduceWeights(weights: map<(Address, nat), int>, u: Address, remaining: int, prior: int, n: nat)
    : Result<map<(Address, nat), int>>
  {
    if n == 0 then Ok(weights)
    else
      var reduced :- ReduceWeights(weights, u, remaining, prior, n - 1);
      var scaled :- CheckedMul(Get(reduced, (u, n - 1)), remaining);
      var kept :- CheckedDiv(scaled, prior);
      Ok(reduced[(u, n - 1) := kept])
  }

  // ----- entry points -----

  function Deposit(s: EpochState, caller: Address, amount: int): Result<(EpochState, int)> {
    if amount <= 0 then Err(ZeroAmount) else
    var pool :- CheckedSub(s.totalDeposited, s.outstanding);
    var shares :- DepositShares(amount, s.totalShares, pool);
    var counted :- CheckpointTotal(s);
    var settled :- CheckpointUser(counted, caller, s.Balance(caller));
    var balance :- CheckedAdd(s.Balance(caller), shares);
    var totalShares :- CheckedAdd(s.totalShares, shares);
    var totalDeposited :- CheckedAdd(s.totalDeposited, amount);
    Ok((settled.(balances := s.balances[caller := balance], totalShares := totalShares,
                 totalDeposited := totalDeposited),
        shares))
  }

  /** What redeeming `shares` pays a checkpointed account, and how much of it is harvested yield. */
  function Quote(s: EpochState, caller: Address, shares: int): Result<(int, int)> {
    var pool :- CheckedSub(s.totalDeposited, s.outstanding);
    var base :- AssetsForShares(shares, pool, s.totalShares);
    var earned :- HarvestYield(s, caller, s.epoch);
    var scaled :- CheckedMul(earned, shares);
    var harvested :- CheckedDiv(scaled, s.Balance(caller));
    var redeem :- CheckedAdd(base, harvested);
    :- Need(redeem > 0, ZeroAmount);
    Ok((redeem, harvested))
  }

  /** Burn the shares, scale the account's closed weights, and take the payment off the books. */
  function Pay(s: EpochState, caller: Address, shares: int, redeem: int, harvested: int): Result<EpochState> {
    var b := s.Balance(caller);
    var weights :- ReduceWeights(s.weights, caller, b - shares, b, s.epoch);
    var outstanding :- CheckedSub(s.outstanding, harvested);
    var totalShares :- CheckedSub(s.totalShares, shares);
    var totalDeposited :- CheckedSub(s.totalDeposited, redeem);
    Ok(s.(weights := weights, outstanding := outstanding, balances := s.balances[caller := b - shares],
          totalShares := totalShares, totalDeposited := totalDeposited))
  }

  function Withdraw(s: EpochState, caller: Address, shares: int): Result<(EpochState, int)> {
    if shares <= 0 then Err(ZeroAmount) else
    :- Need(shares <= s.Balance(caller), InsufficientShares);
    var counted :- CheckpointTotal(s);
    var settled :- CheckpointUser(counted, caller, s.Balance(caller));
    var quote :- Quote(settled, caller, shares);
    var paid :- Pay(settled, caller, shares, quote.0, quote.1);
    Ok((paid, quote.0))
  }

  function RecordEpoch(s: EpochState, net: int): Result<EpochState> {
    var counted :- CheckpointTotal(s);
    var total := if counted.shareSeconds == 0 then s.totalShares else counted.shareSeconds;
    :- Need(total > 0, ZeroShares);
    var outstanding :- CheckedAdd(s.outstanding, net);
    var e := s.epoch;
    Ok(counted.(endAt := s.endAt[e := s.now], epochTotal := s.epochTotal[e := total],
                epochYield := s.epochYield[e := net], outstanding := outstanding,
                epoch := e + 1, startAt := s.startAt[e + 1 := s.now], shareSeconds := 0, lastUpdate := s.now))
  }

  function Harvest(s: EpochState, amount: int): Result<(EpochState, int)> {
    if amount <= 0 then Err(ZeroAmount) else
    :- Need(s.totalShares != 0, ZeroShares);
    var fee :- VaultModel.PerfFee(amount, s.perfFeeBps);
    var net :- CheckedSub(amount, fee);
    var totalDeposited :- CheckedAdd(s.totalDeposited, net);
    var closed :- RecordEpoch(s, net);
    Ok((closed.(totalDeposited := totalDeposited), net))
  }

  function Advance(s: EpochState, seconds: nat): EpochState {
    s.(now := s.now + seconds)
  }
}

/** Runs of the epoch machine, beside an eager bookkeeper that records every share-second as it passes. */
module EpochRuns {
  import opened Core
  import opened EpochModel

  datatype Action =
    | Deposit(caller: Address, amount: int)
    | Withdraw(caller: Address, shares: int)
    | Harvest(amount: int)
    | Advance(seconds: nat)
  {
    function Users(): set<Address> {
      if Deposit? || Withdraw? then {caller} else {}
    }
  }

  function Step(s: EpochState, a: Action): EpochState {
    match a
    case Deposit(caller, amount) => var r := EpochModel.Deposit(s, caller, amount); if r.Ok? then r.value.0 else s
    case Withdraw(caller, shares) => var r := EpochModel.Withdraw(s, caller, shares); if r.Ok? then r.value.0 else s
    case Harvest(amount) => var r := EpochModel.Harvest(s, amount); if r.Ok? then r.value.0 else s
    case Advance(seconds) => EpochModel.Advance(s, seconds)
  }

  function Run(s: EpochState, actions: seq<Action>): EpochState {
    if actions == [] then s else Step(Run(s, actions[..|actions| - 1]), actions[|actions| - 1])
  }

  lemma RunOne(s: EpochState, actions: seq<Action>, a: Action)
    ensures Run(s, actions + [a]) == Step(Run(s, actions), a)
  {
    assert (actions + [a])[..|actions + [a]| - 1] == actions;
  }

  /** Every account's share-seconds per epoch, kept without any laziness. */
  type Eager = (Address, nat) -> int

  /**
   The eager bookkeeper knows nothing of cursors: as time passes every account earns its balance per
   second in the open epoch; a harvest that closes an epoch of no length credits the balances
   themselves; a withdrawal scales the account's closed epochs by the fraction of shares kept.
   */
  ghost function EagerStep(h: Eager, s: EpochState, a: Action): Eager {
    match a
    case Advance(seconds) =>
      (u: Address, e: nat) => if e == s.epoch then h(u, e) + s.Balance(u) * seconds else h(u, e)
    case Harvest(amount) =>
      if EpochModel.Harvest(s, amount).Ok? && s.StartAt(s.epoch) == s.now then
        (u: Address, e: nat) => if e == s.epoch then s.Balance(u) else h(u, e)
      else h
    case Withdraw(caller, shares) =>
      if EpochModel.Withdraw(s, caller, shares).Ok? && s.Balance(caller) > 0 then
        (u: Address, e: nat) =>
          if u == caller && e < s.epoch then h(u, e) * (s.Balance(caller) - shares) / s.Balance(caller) else h(u, e)
      else h
    case Deposit(_, _) => h
  }

  ghost function EagerRun(s: EpochState, actions: seq<Action>): Eager {
    if actions == [] then (u: Address, e: nat) => 0
    else
      EagerStep(EagerRun(s, actions[..|actions| - 1]), Run(s, actions[..|actions| - 1]), actions[|actions| - 1])
  }
}

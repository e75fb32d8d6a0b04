/**
 The epoch bookkeeping over the contract's storage, with its loops over epochs, proved to commit
 exactly what `EpochModel` specifies.
 */
module EpochContract {
  import opened Core
  import opened ShareMath
  import M = EpochModel
  import VaultModel

  ghost predicate Reaches<T>(after: M.EpochState, r: Result<T>, spec: Result<(M.EpochState, T)>) {
    match spec
    case Ok(p) => r == Ok(p.1) && after == p.0
    case Err(e) => r == Err(e)
  }

  ghost predicate Commits<T>(before: M.EpochState, after: M.EpochState, r: Result<T>, spec: Result<(M.EpochState, T)>) {
    Reaches(after, r, spec) && (spec.Err? ==> after == before)
  }

  /** A helper that only writes: it reaches the specified storage or fails with the specified error. */
  ghost predicate Writes(after: M.EpochState, r: Result<()>, spec: Result<M.EpochState>) {
    match spec
    case Ok(s) => r == Ok(()) && after == s
    case Err(e) => r == Err(e)
  }

  class EpochVault {
    /** The contract's storage. */
    var cells: M.EpochState

    constructor (perfFeeBps: nat, now: nat)
      ensures cells == M.Initial(perfFeeBps, now)
    {
      cells := M.Initial(perfFeeBps, now);
    }

    method CheckpointTotal() returns (r: Result<()>)
      modifies this
      ensures Writes(cells, r, M.CheckpointTotal(old(cells)))
    {
      var elapsed := Elapsed(cells.now, cells.lastUpdate);
      if elapsed > 0 {
        var accrued :- CheckedMul(cells.totalShares, elapsed);
        var total :- CheckedAdd(cells.shareSeconds, accrued);
        cells := cells.(shareSeconds := total);
      }
      cells := cells.(lastUpdate := cells.now);
      return Ok(());
    }

    method CheckpointUser(u: Address, shares: int) returns (r: Result<()>)
      modifies this
      ensures Writes(cells, r, M.CheckpointUser(old(cells), u, shares))
    {
      var currentEpoch := cells.epoch;
      var cursor := if u in cells.cursors then cells.cursors[u] else M.Cursor(cells.now, currentEpoch);
      if cursor.epoch <= currentEpoch {
        var recorded := RecordEpochs(u, cursor, shares, currentEpoch);
        var _ :- recorded;
      }
      cells := cells.(cursors := cells.cursors[u := M.Cursor(cells.now, currentEpoch)]);
      return Ok(());
    }

    /** The checkpoint loop, from the cursor's epoch to the open one. */
    method RecordEpochs(u: Address, cursor: M.Cursor, shares: int, currentEpoch: nat) returns (r: Result<()>)
      requires cursor.epoch <= currentEpoch
      modifies this
      ensures match M.RecordWeights(old(cells), u, cursor, shares, currentEpoch + 1)
              case Ok(w) => r == Ok(()) && cells == old(cells).(weights := w)
              case Err(e) => r == Err(e)
    {
      ghost var start := cells;
      for epoch := cursor.epoch to currentEpoch + 1
        invariant M.RecordWeights(start, u, cursor, shares, epoch) == Ok(cells.weights)
        invariant cells == start.(weights := cells.weights)
      {
        if M.RecordWeights(start, u, cursor, shares, epoch + 1).Err? {
          RecordStops(start, u, cursor, shares, epoch + 1, currentEpoch + 1);
        }
        RecordReadsNoWeights(start, cells.weights, u, cursor, shares, epoch);
        var recorded := RecordEpochWeight(u, cursor, shares, epoch);
        var _ :- recorded;
      }
      return Ok(());
    }

    /** One pass of the checkpoint loop. */
    method RecordEpochWeight(u: Address, cursor: M.Cursor, shares: int, epoch: nat) returns (r: Result<()>)
      modifies this
      ensures match M.RecordOne(old(cells), old(cells).weights, u, cursor, shares, epoch)
              case Ok(w) => r == Ok(()) && cells == old(cells).(weights := w)
              case Err(e) => r == Err(e)
    {
      var epochStart := cells.StartAt(epoch);
      var start := M.MaxNat(cursor.time, epochStart);
      var end := if epoch == cells.epoch then cells.now
                 else if epoch in cells.endAt then cells.endAt[epoch] else cells.now;
      var duration := Elapsed(end, start);
      var weight :- CheckedMul(shares, duration);
      if epoch < cells.epoch && epochStart == end && cursor.time <= epochStart && shares > 0 {
        weight := shares;
      }
      if weight > 0 {
        var total :- CheckedAdd(cells.Weight(u, epoch), weight);
        cells := cells.(weights := cells.weights[(u, epoch) := total]);
      }
      return Ok(());
    }

    method UserHarvestYield(u: Address, currentEpoch: nat) returns (r: Result<int>)
      ensures r == M.HarvestYield(cells, u, currentEpoch)
    {
      var claimable := 0;
      for epoch := 0 to currentEpoch
        invariant M.HarvestYield(cells, u, epoch) == Ok(claimable)
      {
        if M.HarvestYield(cells, u, epoch + 1).Err? {
          YieldStops(cells, u, epoch + 1, currentEpoch);
        }
        var totalWeight := Get(cells.epochTotal, epoch);
        if totalWeight != 0 {
          var scaled :- CheckedMul(cells.Weight(u, epoch), Get(cells.epochYield, epoch));
          var reward :- CheckedDiv(scaled, totalWeight);
          claimable :- CheckedAdd(claimable, reward);
        }
      }
      return Ok(claimable);
    }

    method ReduceClosedWeights(u: Address, remaining: int, prior: int, currentEpoch: nat) returns (r: Result<()>)
      modifies this
      ensures match M.ReduceWeights(old(cells).weights, u, remaining, prior, currentEpoch)
              case Ok(w) => r == Ok(()) && cells == old(cells).(weights := w)
              case Err(e) => r == Err(e)
    {
      ghost var start := cells;
      for epoch := 0 to currentEpoch
        invariant M.ReduceWeights(start.weights, u, remaining, prior, epoch) == Ok(cells.weights)
        invariant cells == start.(weights := cells.weights)
      {
        if M.ReduceWeights(start.weights, u, remaining, prior, epoch + 1).Err? {
          ReduceStops(start.weights, u, remaining, prior, epoch + 1, currentEpoch);
        }
        var scaled :- CheckedMul(cells.Weight(u, epoch), remaining);
        var kept :- CheckedDiv(scaled, prior);
        cells := cells.(weights := cells.weights[(u, epoch) := kept]);
      }
      return Ok(());
    }

    method RecordHarvestEpoch(netYield: int) returns (r: Result<()>)
      modifies this
      ensures Writes(cells, r, M.RecordEpoch(old(cells), netYield))
    {
      var counted := CheckpointTotal();
      var _ :- counted;
      var epoch := cells.epoch;
      var totalWeight := if cells.shareSeconds == 0 then cells.totalShares else cells.shareSeconds;
      if totalWeight <= 0 { return Err(ZeroShares); }
      var outstanding :- CheckedAdd(cells.outstanding, netYield);
      cells := cells.(endAt := cells.endAt[epoch := cells.now]);
      cells := cells.(epochTotal := cells.epochTotal[epoch := totalWeight]);
      cells := cells.(epochYield := cells.epochYield[epoch := netYield]);
      cells := cells.(outstanding := outstanding);
      cells := cells.(epoch := epoch + 1);
      cells := cells.(startAt := cells.startAt[epoch + 1 := cells.now]);
      cells := cells.(shareSeconds := 0);
      cells := cells.(lastUpdate := cells.now);
      return Ok(());
    }

    // ----- entry points -----

    method Deposit(caller: Address, amount: int) returns (r: Result<int>)
      modifies this
      ensures Commits(old(cells), cells, r, M.Deposit(old(cells), caller, amount))
    {
      var before := cells;
      r := DepositBody(caller, amount);
      if r.Err? { cells := before; }
    }

    method DepositBody(caller: Address, amount: int) returns (r: Result<int>)
      modifies this
      ensures Reaches(cells, r, M.Deposit(old(cells), caller, amount))
    {
      if amount <= 0 { return Err(ZeroAmount); }
      var pricingAssets :- CheckedSub(cells.totalDeposited, cells.outstanding);
      var newShares := amount;
      if cells.totalShares != 0 && pricingAssets != 0 {
        var numerator :- CheckedMul(amount, cells.totalShares);
        newShares :- CheckedDiv(numerator, pricingAssets);
      }
      if newShares <= 0 { return Err(ZeroAmount); }
      var oldBalance := cells.Balance(caller);
      var done := CheckpointTotal();
      var _ :- done;
      done := CheckpointUser(caller, oldBalance);
      var _ :- done;
      var newBalance :- CheckedAdd(oldBalance, newShares);
      cells := cells.(balances := cells.balances[caller := newBalance]);
      var newTotalShares :- CheckedAdd(cells.totalShares, newShares);
      var newTotalDeposited :- CheckedAdd(cells.totalDeposited, amount);
      cells := cells.(totalShares := newTotalShares, totalDeposited := newTotalDeposited);
      return Ok(newShares);
    }

    method Withdraw(caller: Address, shares: int) returns (r: Result<int>)
      modifies this
      ensures Commits(old(cells), cells, r, M.Withdraw(old(cells), caller, shares))
    {
      var before := cells;
      r := WithdrawBody(caller, shares);
      if r.Err? { cells := before; }
    }

    method WithdrawBody(caller: Address, shares: int) returns (r: Result<int>)
      modifies this
      ensures Reaches(cells, r, M.Withdraw(old(cells), caller, shares))
    {
      if shares <= 0 { return Err(ZeroAmount); }
      var userBalance := cells.Balance(caller);
      if shares > userBalance { return Err(InsufficientShares); }
      var done := CheckpointTotal();
      var _ :- done;
      done := CheckpointUser(caller, userBalance);
      var _ :- done;
      var quoted := RedeemQuote(caller, shares, userBalance);
      var quote :- quoted;
      var (redeem, harvested) := quote;
      done := BurnAndPay(caller, shares, userBalance, redeem, harvested);
      var _ :- done;
      return Ok(redeem);
    }

    method RedeemQuote(caller: Address, shares: int, userBalance: int) returns (r: Result<(int, int)>)
      requires userBalance == cells.Balance(caller)
      ensures r == M.Quote(cells, caller, shares)
    {
      var pool :- CheckedSub(cells.totalDeposited, cells.outstanding);
      var baseRedeem :- AssetsForShares(shares, pool, cells.totalShares);
      var earned := UserHarvestYield(caller, cells.epoch);
      var userYield :- earned;
      var scaled :- CheckedMul(userYield, shares);
      var harvestedRedeem :- CheckedDiv(scaled, userBalance);
      var redeem :- CheckedAdd(baseRedeem, harvestedRedeem);
      if redeem <= 0 { return Err(ZeroAmount); }
      return Ok((redeem, harvestedRedeem));
    }

    method BurnAndPay(caller: Address, shares: int, userBalance: int, redeem: int, harvested: int)
      returns (r: Result<()>)
      requires userBalance == cells.Balance(caller)
      modifies this
      ensures Writes(cells, r, M.Pay(old(cells), caller, shares, redeem, harvested))
    {
      var done := ReduceClosedWeights(caller, userBalance - shares, userBalance, cells.epoch);
      var _ :- done;
      var outstanding :- CheckedSub(cells.outstanding, harvested);
      cells := cells.(outstanding := outstanding);
      cells := cells.(balances := cells.balances[caller := userBalance - shares]);
      var newTotalShares :- CheckedSub(cells.totalShares, shares);
      var newTotalDeposited :- CheckedSub(cells.totalDeposited, redeem);
      cells := cells.(totalShares := newTotalShares, totalDeposited := newTotalDeposited);
      return Ok(());
    }

    method Harvest(amount: int) returns (r: Result<int>)
      modifies this
      ensures Commits(old(cells), cells, r, M.Harvest(old(cells), amount))
    {
      var before := cells;
      r := HarvestBody(amount);
      if r.Err? { cells := before; }
    }

    method HarvestBody(amount: int) returns (r: Result<int>)
      modifies this
      ensures Reaches(cells, r, M.Harvest(old(cells), amount))
    {
      if amount <= 0 { return Err(ZeroAmount); }
      if cells.totalShares == 0 { return Err(ZeroShares); }
      var feeAmount :- VaultModel.PerfFee(amount, cells.perfFeeBps);
      var yieldAfterFee :- CheckedSub(amount, feeAmount);
      var newTotal :- CheckedAdd(cells.totalDeposited, yieldAfterFee);
      cells := cells.(totalDeposited := newTotal);
      var done := RecordHarvestEpoch(yieldAfterFee);
      var _ :- done;
      return Ok(yieldAfterFee);
    }

    method Advance(seconds: nat)
      modifies this
      ensures cells == M.Advance(old(cells), seconds)
    {
      cells := cells.(now := cells.now + seconds);
    }
  }

  // ----- a failing epoch stops the loops -----

  lemma RecordReadsNoWeights(s: M.EpochState, weights: map<(Address, nat), int>, u: Address, cursor: M.Cursor,
                             shares: int, e: nat)
    ensures M.RecordOne(s.(weights := weights), weights, u, cursor, shares, e)
              == M.RecordOne(s, weights, u, cursor, shares, e)
  {
  }

  lemma {:induction false} RecordStops(s: M.EpochState, u: Address, cursor: M.Cursor, shares: int, n: nat, m: nat)
    requires n <= m && M.RecordWeights(s, u, cursor, shares, n).Err?
    ensures M.RecordWeights(s, u, cursor, shares, m) == M.RecordWeights(s, u, cursor, shares, n)
  {
    if n < m {
      RecordStops(s, u, cursor, shares, n, m - 1);
      RecordAfterCursor(s, u, cursor, shares, n);
    }
  }

  lemma RecordAfterCursor(s: M.EpochState, u: Address, cursor: M.Cursor, shares: int, n: nat)
    requires M.RecordWeights(s, u, cursor, shares, n).Err?
    ensures n > cursor.epoch
  {
  }

  lemma {:induction false} YieldStops(s: M.EpochState, u: Address, n: nat, m: nat)
    requires n <= m && M.HarvestYield(s, u, n).Err?
    ensures M.HarvestYield(s, u, m) == M.HarvestYield(s, u, n)
  {
    if n < m {
      YieldStops(s, u, n, m - 1);
    }
  }

  lemma {:induction false} ReduceStops(weights: map<(Address, nat), int>, u: Address, remaining: int, prior: int,
                                       n: nat, m: nat)
    requires n <= m && M.ReduceWeights(weights, u, remaining, prior, n).Err?
    ensures M.ReduceWeights(weights, u, remaining, prior, m) == M.ReduceWeights(weights, u, remaining, prior, n)
  {
    if n < m {
      ReduceStops(weights, u, remaining, prior, n, m - 1);
    }
  }
}

/** Why a call is refused: the error it returns is true of the state and arguments it was called with. */
module Refusals {
  import opened Core
  import opened ShareMath
  import opened VaultModel
  import opened VaultRuns
  import opened Accounts
  import Batch
  import E = EntryPoints

  /** Some amount of a batch. */
  predicate SomeBelow(amounts: seq<int>, minimum: int) { exists i | 0 <= i < |amounts| :: amounts[i] < minimum }

  /** What must be so for an error to be the reason a call was refused. */
  predicate Reason(s: VaultState, a: Action, e: VaultError) {
    match e
    case VaultPaused => s.paused && !a.EmergencyWithdraw?
    case VaultNotPaused => !s.paused && a.EmergencyWithdraw?
    case NotApproved => a.Deposit? && !E.Admits(s.config.allowlist, a.caller)
    case NotWhitelisted => (a.Deposit? || a.BatchDeposit?) && !E.Admits(s.config.whitelist, a.caller)
    case BelowMinDeposit =>
      || (a.Deposit? && a.amount < s.config.minDeposit)
      || (a.BatchDeposit? && SomeBelow(a.amounts, s.config.minDeposit))
    case TvlCapExceeded => IsMinting(a) && s.config.tvlCap > 0
    case BalanceMismatch =>
      if a.BatchDeposit? || a.BatchWithdraw? || a.Distribute? then s.tokenBalance != s.totalDeposited + s.fees
      else s.tokenBalance != s.totalDeposited
    case InsufficientShares =>
      || ((a.Withdraw? || a.EmergencyWithdraw?) && a.shares > s.Balance(a.caller))
      || (a.Transfer? && a.amount > s.Balance(a.caller))
      || (a.Claim? && a.id in s.queue && s.queue[a.id].owner != a.caller)
      || a.BatchWithdraw?
    case InsufficientUnderlying => a.EmergencyWithdraw? || a.BatchWithdraw?
    case WithdrawalLimitExceeded => (a.Withdraw? || a.EmergencyWithdraw?) && s.config.maxWithdrawalBps > 0
    case WithdrawalQueued => a.BatchWithdraw? && s.config.queueThreshold > 0
    case TransferFailed =>
      a.Withdraw? || a.EmergencyWithdraw? || a.Claim? || a.Collect? || (a.WithdrawFees? && s.fees > s.tokenBalance)
    case QueueEntryNotFound => a.Claim? && a.id !in s.queue
    case QueueUnbondingPending => a.Claim? && a.id in s.queue && s.now < s.queue[a.id].claimableAfter
    case ZeroShares => (a.Harvest? || a.Distribute?) && s.totalShares == 0
    case HarvestCooldown => a.Harvest? && s.lastHarvest > 0 && s.now < s.lastHarvest + s.config.cooldownSecs
    case CircuitBreakerTripped => a.Harvest? && s.config.priceLimitBps > 0 && s.PricedAssets() > 0
    case YieldTooSmall => a.Distribute?
    case DistributionAccuracyError => a.Distribute?
    case BatchEmpty => a.DepositForMany? && a.recipients == []
    case BatchTooLarge => a.DepositForMany? && |a.recipients| > 50
    case NotInitialized => a.WithdrawFees? && s.fees > 0 && !s.config.treasurySet
    case InvalidAddress =>
      || ((a.BatchDeposit? || a.BatchWithdraw?) && !(0 < |a.amounts| <= 20))
      || (a.Configure? && !a.config.Valid())
      || ((a.Harvest? || a.Distribute?) && s.config.perfFeeBps > 2_000)
    case ZeroAmount => !(a.SetPaused? || a.Advance? || a.Configure? || a.WithdrawFees? || a.Collect?)
    case MathOverflow => !(a.SetPaused? || a.Advance? || a.Configure? || a.WithdrawFees? || a.SetVestingPeriod?)
    case _ => false
  }

  lemma {:induction false} DepositFoldErrors(start: Batch.DepositRun, amounts: seq<int>, minimum: int)
    ensures var r := Batch.DepositFold(start, amounts, minimum);
            r.Err? ==> || r.error == ZeroAmount || r.error == MathOverflow
                       || (r.error == BelowMinDeposit && SomeBelow(amounts, minimum))
  {
    if amounts != [] {
      var n := |amounts| - 1;
      DepositFoldErrors(start, amounts[..n], minimum);
      if SomeBelow(amounts[..n], minimum) {
        var i :| 0 <= i < n && amounts[..n][i] < minimum;
        assert amounts[i] < minimum;
      }
    }
  }

  lemma {:induction false} WithdrawFoldErrors(start: Batch.WithdrawRun, amounts: seq<int>, balance: int)
    ensures var r := Batch.WithdrawFold(start, amounts, balance);
            r.Err? ==> r.error == ZeroAmount || r.error == MathOverflow || r.error == InsufficientShares
  {
    if amounts != [] {
      WithdrawFoldErrors(start, amounts[..|amounts| - 1], balance);
    }
  }

  lemma {:induction false} TotalAmountErrors(recipients: seq<(Address, int)>)
    ensures var r := TotalAmount(recipients); r.Err? ==> r.error == ZeroAmount || r.error == MathOverflow
  {
    if recipients != [] {
      TotalAmountErrors(recipients[..|recipients| - 1]);
    }
  }

  lemma {:induction false} MintManyErrors(s: VaultState, recipients: seq<(Address, int)>)
    ensures var r := MintMany(s, recipients); r.Err? ==> r.error == ZeroAmount || r.error == MathOverflow
  {
    if recipients != [] {
      MintManyErrors(s, recipients[..|recipients| - 1]);
    }
  }

  lemma DepositSharesErrors(amount: int, shares: int, assets: int)
    ensures var r := DepositShares(amount, shares, assets);
            r.Err? ==> r.error == ZeroAmount || r.error == MathOverflow
  {
  }

  lemma AssetsForSharesErrors(shares: int, assets: int, totalShares: int)
    ensures var r := AssetsForShares(shares, assets, totalShares); r.Err? ==> r.error == MathOverflow
  {
  }

  lemma RateLimitErrors(s: VaultState, redeem: int)
    ensures var r := RateLimit(s, redeem);
            r.Err? ==> r.error == MathOverflow
                       || (r.error == WithdrawalLimitExceeded && s.config.maxWithdrawalBps > 0)
  {
  }

  lemma BreakerErrors(s: VaultState, newTotal: int)
    ensures var r := CircuitBreaker(s, newTotal);
            r.Err? ==> r.error == MathOverflow
                       || (r.error == CircuitBreakerTripped && s.config.priceLimitBps > 0 && s.PricedAssets() > 0)
  {
  }

  lemma DeltaYpsErrors(net: int, shares: int)
    ensures var r := DeltaYps(net, shares);
            r.Err? ==> r.error == MathOverflow || r.error == YieldTooSmall || r.error == DistributionAccuracyError
  {
  }

  lemma AccruedErrors(s: VaultState, u: Address)
    ensures Accrued(s, u).Err? ==> Accrued(s, u).error == MathOverflow
  {
  }

  /** The refused call's error, if it is refused, has its reason. */
  predicate Justified(s: VaultState, a: Action) {
    var o := Step(s, a).1;
    o.Failed? ==> Reason(s, a, o.error)
  }

  lemma DepositRefusal(s: VaultState, a: Action)
    requires a.Deposit?
    ensures Justified(s, a)
  {
    hide DepositShares;
    DepositSharesErrors(a.amount, s.totalShares, s.PricedAssets());
  }

  lemma DepositForManyRefusal(s: VaultState, a: Action)
    requires a.DepositForMany?
    ensures Justified(s, a)
  {
    hide MintMany, TotalAmount;
    TotalAmountErrors(a.recipients);
    if TotalAmount(a.recipients).Ok? {
      MintManyErrors(ReceiveIn(s, TotalAmount(a.recipients).value), a.recipients);
    }
  }

  lemma BatchDepositRefusal(s: VaultState, a: Action)
    requires a.BatchDeposit?
    ensures Justified(s, a)
  {
    hide Batch.DepositFold;
    DepositFoldErrors(Batch.DepositRun(s.totalDeposited, s.totalShares, 0, []), a.amounts, s.config.minDeposit);
  }

  lemma WithdrawRefusal(s: VaultState, a: Action)
    requires a.Withdraw?
    ensures Justified(s, a)
  {
    hide AssetsForShares, RateLimit;
    var redeem := AssetsForShares(a.shares, s.PricedAssets(), s.totalShares);
    AssetsForSharesErrors(a.shares, s.PricedAssets(), s.totalShares);
    if redeem.Ok? {
      RateLimitErrors(s, redeem.value);
    }
  }

  lemma EmergencyRefusal(s: VaultState, a: Action)
    requires a.EmergencyWithdraw?
    ensures Justified(s, a)
  {
    hide AssetsForShares, RateLimit;
    var redeem := AssetsForShares(a.shares, s.totalDeposited, s.totalShares);
    AssetsForSharesErrors(a.shares, s.totalDeposited, s.totalShares);
    if redeem.Ok? {
      RateLimitErrors(s, redeem.value);
    }
  }

  lemma BatchWithdrawRefusal(s: VaultState, a: Action)
    requires a.BatchWithdraw?
    ensures Justified(s, a)
  {
    hide Batch.WithdrawFold;
    WithdrawFoldErrors(Batch.WithdrawRun(s.totalDeposited, s.totalShares, 0, 0, []), a.amounts, s.Balance(a.caller));
  }

  lemma ClaimRefusal(s: VaultState, a: Action)
    requires a.Claim?
    ensures Justified(s, a)
  {
  }

  lemma HarvestRefusal(s: VaultState, a: Action)
    requires a.Harvest?
    ensures Justified(s, a)
  {
    hide CircuitBreaker;
    var fee := PerfFee(a.amount, s.config.perfFeeBps);
    if fee.Ok? {
      BreakerErrors(s, s.totalDeposited + (a.amount - fee.value));
    }
  }

  lemma DistributeRefusal(s: VaultState, a: Action)
    requires a.Distribute?
    ensures Justified(s, a)
  {
    hide DeltaYps;
    var fee := PerfFee(a.amount, s.config.perfFeeBps);
    if fee.Ok? {
      DeltaYpsErrors(a.amount - fee.value, s.totalShares);
    }
  }

  lemma CollectRefusal(s: VaultState, a: Action)
    requires a.Collect?
    ensures Justified(s, a)
  {
    hide Accrued;
    AccruedErrors(s, a.caller);
  }

  lemma TransferRefusal(s: VaultState, a: Action)
    requires a.Transfer?
    ensures Justified(s, a)
  {
    hide Accrued;
    AccruedErrors(s, a.caller);
    if Settle(s, a.caller).Ok? {
      AccruedErrors(Settle(s, a.caller).value, a.to);
    }
  }

  lemma AdminRefusal(s: VaultState, a: Action)
    requires a.WithdrawFees? || a.SetVestingPeriod? || a.Configure? || a.SetPaused? || a.Advance?
    ensures Justified(s, a)
  {
  }

  /** A refused call names a reason that is true. */
  lemma RefusalsHaveTheirReason(s: VaultState, a: Action)
    ensures var o := Step(s, a).1; o.Failed? ==> Reason(s, a, o.error)
  {
    hide Step, Reason;
    match a
    case Deposit(_, _) => DepositRefusal(s, a);
    case DepositForMany(_, _) => DepositForManyRefusal(s, a);
    case BatchDeposit(_, _) => BatchDepositRefusal(s, a);
    case Withdraw(_, _) => WithdrawRefusal(s, a);
    case EmergencyWithdraw(_, _) => EmergencyRefusal(s, a);
    case BatchWithdraw(_, _) => BatchWithdrawRefusal(s, a);
    case Claim(_, _) => ClaimRefusal(s, a);
    case Harvest(_, _) => HarvestRefusal(s, a);
    case Distribute(_, _) => DistributeRefusal(s, a);
    case Collect(_) => CollectRefusal(s, a);
    case Transfer(_, _, _) => TransferRefusal(s, a);
    case _ => AdminRefusal(s, a);
  }
}

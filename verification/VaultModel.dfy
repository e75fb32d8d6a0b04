/**
 The vault's storage as a value, and each entry point as a function from storage and arguments to
 the storage and result it commits, or to the error that makes the host discard every write.
 Deposits and withdrawals price the pool `total_deposited - unvested`.
 */
module VaultModel {
  import opened Core
  import opened ShareMath
  import Batch

  const YIELD_PRECISION: int := 1_000_000_000_000
  const BASIS_POINTS: int := 10_000
  const MAX_PERF_FEE_BPS: nat := 2_000
  const MAX_WITHDRAWAL_FEE_BPS: nat := 500
  const MAX_RECIPIENTS: nat := 50
  const DEFAULT_YIELD_VESTING_PERIOD: nat := 120_960

  /** What the admin may set. A zero limit, cap, minimum or threshold, or no list, switches the check off. */
  datatype Config = Config(
    perfFeeBps: nat,
    minHarvest: int,
    cooldownSecs: nat,
    priceLimitBps: nat,
    minDeposit: int,
    tvlCap: int,
    queueThreshold: int,
    unbondingSecs: nat,
    withdrawalFeeBps: nat,
    maxWithdrawalBps: nat,
    allowlist: Option<set<Address>>,   // approved depositors while allowlist mode is on
    whitelist: Option<set<Address>>,   // whitelisted depositors while whitelist mode is on
    treasurySet: bool)
  {
    predicate Valid() {
      perfFeeBps <= MAX_PERF_FEE_BPS && withdrawalFeeBps <= MAX_WITHDRAWAL_FEE_BPS && maxWithdrawalBps <= 10_000
    }
  }

  datatype QueueEntry = QueueEntry(owner: Address, shares: int, redeemAmount: int, claimableAfter: nat)

  datatype Payout = Paid(amount: int) | Queued(id: nat, amount: int)

  datatype VaultState = VaultState(
    balances: map<Address, int>,
    totalShares: int,
    totalDeposited: int,
    tokenBalance: int,                 // the underlying token held at the vault's address
    fees: int,                         // TotalFeeCollected
    yps: int,                          // cumulative yield per share, scaled by YIELD_PRECISION
    checkpoints: map<Address, int>,
    pending: map<Address, int>,
    vestPending: int,
    vestStart: nat,
    vestPeriod: nat,
    queue: map<nat, QueueEntry>,
    nextId: nat,
    lastWithdrawalLedger: nat,
    ledgerWithdrawals: int,
    lastHarvest: nat,
    paused: bool,
    config: Config,
    ledger: nat,                       // ledger sequence number
    now: nat)                          // ledger timestamp
  {
    function Balance(a: Address): int { Get(balances, a) }

    function Checkpoint(a: Address): int { Get(checkpoints, a) }

    function Pending(a: Address): int { Get(pending, a) }

    /** The harvested yield that has not vested at this ledger. */
    function Unvested(): int {
      if vestPending <= 0 || vestPeriod == 0 then 0
      else
        var elapsed := Elapsed(ledger, vestStart);
        if elapsed >= vestPeriod then 0
        else
          var remaining := vestPeriod - elapsed;
          (vestPending / vestPeriod) * remaining + ((vestPending % vestPeriod) * remaining) / vestPeriod
    }

    /** `total_assets`: what shares are priced against. */
    function PricedAssets(): int { SaturatingSub(totalDeposited, Unvested()) }

    /** The read-only `pending_yield` view. */
    function PendingYield(a: Address): int {
      var accrued := CheckedMul(Balance(a), SaturatingSub(yps, Checkpoint(a)));
      var claim := if accrued.Ok? then TruncDiv(accrued.value, YIELD_PRECISION) else 0;
      if IsI128(Pending(a) + claim) then Pending(a) + claim else 0
    }
  }

  const NO_LIMITS := Config(0, 0, 0, 0, 0, 0, 0, 0, 0, 0, None, None, true)

  function Initial(config: Config, ledger: nat, now: nat): VaultState {
    VaultState(map[], 0, 0, 0, 0, 0, map[], map[], 0, ledger, DEFAULT_YIELD_VESTING_PERIOD,
               map[], 1, 0, 0, 0, false, config, ledger, now)
  }

  // ----- shared pieces -----

  function PerfFee(yieldAmount: int, bps: nat): Result<int> {
    if yieldAmount < 0 || bps > MAX_PERF_FEE_BPS then Err(InvalidAddress) else
    var scaled :- CheckedMul(bps, yieldAmount);
    Ok(TruncDiv(scaled, BASIS_POINTS))
  }

  predicate Listed(list: Option<set<Address>>, who: Address) { list.None? || who in list.value }

  function CapAllows(s: VaultState, total: int): Guard {
    Need(s.config.tvlCap <= 0 || total <= s.config.tvlCap, TvlCapExceeded)
  }

  function CapAllowsAdding(s: VaultState, amount: int): Result<()> {
    if s.config.tvlCap <= 0 then Ok(())
    else
      var total :- CheckedAdd(s.totalDeposited, amount);
      :- CapAllows(s, total);
      Ok(())
  }

  /** The stricter balance guard: every token held is a tracked deposit. */
  function ExactBalanceGuard(s: VaultState): Guard {
    Need(s.tokenBalance == s.totalDeposited, BalanceMismatch)
  }

  /** The managed-balance guard: every token held is a tracked deposit or an uncollected fee. */
  function ManagedBalanceGuard(s: VaultState): Result<()> {
    var expected :- CheckedAdd(s.totalDeposited, s.fees);
    :- Need(s.tokenBalance == expected, BalanceMismatch);
    Ok(())
  }

  /** Deposit and withdraw paths move the yield checkpoint to now without accruing. */
  function ResetCheckpoint(s: VaultState, who: Address): VaultState {
    s.(checkpoints := s.checkpoints[who := s.yps], pending := s.pending[who := s.Pending(who)])
  }

  function Mint(s: VaultState, who: Address, shares: int, amount: int): Result<VaultState> {
    var balance :- CheckedAdd(s.Balance(who), shares);
    var totalShares :- CheckedAdd(s.totalShares, shares);
    var totalDeposited :- CheckedAdd(s.totalDeposited, amount);
    Ok(ResetCheckpoint(s, who).(
         balances := s.balances[who := balance], totalShares := totalShares, totalDeposited := totalDeposited))
  }

  function Burn(s: VaultState, who: Address, shares: int, amount: int): Result<VaultState> {
    var totalShares :- CheckedSub(s.totalShares, shares);
    var totalDeposited :- CheckedSub(s.totalDeposited, amount);
    Ok(ResetCheckpoint(s, who).(
         balances := s.balances[who := s.Balance(who) - shares],
         totalShares := totalShares, totalDeposited := totalDeposited))
  }

  /** The underlying token's transfer fails when the vault does not hold the amount. */
  function SendOut(s: VaultState, amount: int): Result<VaultState> {
    if amount > s.tokenBalance then Err(TransferFailed) else
    Ok(s.(tokenBalance := s.tokenBalance - amount))
  }

  function ReceiveIn(s: VaultState, amount: int): VaultState {
    s.(tokenBalance := s.tokenBalance + amount)
  }

  function MaxWithdrawal(s: VaultState): int {
    TruncDiv(s.totalDeposited * s.config.maxWithdrawalBps, BASIS_POINTS)
  }

  function RateLimit(s: VaultState, redeem: int): Result<VaultState> {
    if s.config.maxWithdrawalBps == 0 then Ok(s)
    else
      var current := if s.ledger > s.lastWithdrawalLedger then 0 else s.ledgerWithdrawals;
      var _ :- CheckedMul(s.totalDeposited, s.config.maxWithdrawalBps);
      var total :- CheckedAdd(current, redeem);
      :- Need(total <= MaxWithdrawal(s), WithdrawalLimitExceeded);
      Ok(s.(lastWithdrawalLedger := s.ledger, ledgerWithdrawals := total))
  }

  /** Yield `who` has earned since their checkpoint, on top of what is stored. */
  function Accrued(s: VaultState, who: Address): Result<int> {
    var delta :- CheckedSub(s.yps, s.Checkpoint(who));
    var scaled :- CheckedMul(s.Balance(who), delta);
    CheckedAdd(s.Pending(who), TruncDiv(scaled, YIELD_PRECISION))
  }

  function Settle(s: VaultState, who: Address): Result<VaultState> {
    var total :- Accrued(s, who);
    Ok(s.(pending := s.pending[who := total], checkpoints := s.checkpoints[who := s.yps]))
  }

  // ----- deposits -----

  function Deposit(s: VaultState, caller: Address, amount: int): Result<(VaultState, int)> {
    if amount <= 0 then Err(ZeroAmount) else
    :- Need(!s.paused, VaultPaused);
    :- Need(Listed(s.config.allowlist, caller), NotApproved);
    :- Need(Listed(s.config.whitelist, caller), NotWhitelisted);
    :- Need(s.config.minDeposit <= 0 || amount >= s.config.minDeposit, BelowMinDeposit);
    var _ :- CapAllowsAdding(s, amount);
    :- ExactBalanceGuard(s);
    var shares :- DepositShares(amount, s.totalShares, s.PricedAssets());
    var minted :- Mint(ReceiveIn(s, amount), caller, shares, amount);
    Ok((minted, shares))
  }

  function TotalAmount(recipients: seq<(Address, int)>): Result<int> {
    if recipients == [] then Ok(0)
    else
      var total :- TotalAmount(recipients[..|recipients| - 1]);
      var amount := recipients[|recipients| - 1].1;
      :- Need(amount > 0, ZeroAmount);
      CheckedAdd(total, amount)
  }

  /** Mint for each recipient in turn at the running totals. */
  function MintMany(s: VaultState, recipients: seq<(Address, int)>): Result<(VaultState, seq<int>)> {
    if recipients == [] then Ok((s, []))
    else
      var before :- MintMany(s, recipients[..|recipients| - 1]);
      var last := recipients[|recipients| - 1];
      var shares :- DepositShares(last.1, before.0.totalShares, before.0.totalDeposited);
      var minted :- Mint(before.0, last.0, shares, last.1);
      Ok((minted, before.1 + [shares]))
  }

  /** lib.rs `batch_deposit`: one payer, many recipients. */
  function DepositForMany(s: VaultState, recipients: seq<(Address, int)>): Result<(VaultState, seq<int>)> {
    if recipients == [] then Err(BatchEmpty) else
    :- Need(|recipients| <= MAX_RECIPIENTS, BatchTooLarge);
    :- Need(!s.paused, VaultPaused);
    var total :- TotalAmount(recipients);
    var _ :- CapAllowsAdding(s, total);
    :- ExactBalanceGuard(s);
    MintMany(ReceiveIn(s, total), recipients)
  }

  /** batch.rs `deposit`: one caller, many amounts. */
  function BatchDeposit(s: VaultState, caller: Address, amounts: seq<int>): Result<(VaultState, seq<int>)> {
    if |amounts| == 0 || |amounts| > Batch.MAX_BATCH_SIZE then Err(InvalidAddress) else
    :- Need(!s.paused, VaultPaused);
    :- Need(Listed(s.config.whitelist, caller), NotWhitelisted);
    var _ :- ManagedBalanceGuard(s);
    var run :- Batch.Deposit(s.totalDeposited, s.totalShares, amounts, s.config.minDeposit);
    :- CapAllows(s, run.assets);
    var mintedTotal :- CheckedSub(run.shares, s.totalShares);
    var balance :- CheckedAdd(s.Balance(caller), mintedTotal);
    Ok((ResetCheckpoint(ReceiveIn(s, run.paidIn), caller).(
          balances := s.balances[caller := balance], totalShares := run.shares, totalDeposited := run.assets),
        run.minted))
  }

  // ----- withdrawals -----

  function Withdraw(s: VaultState, caller: Address, shares: int): Result<(VaultState, Payout)> {
    if shares <= 0 then Err(ZeroAmount) else
    :- Need(!s.paused, VaultPaused);
    :- ExactBalanceGuard(s);
    :- Need(shares <= s.Balance(caller), InsufficientShares);
    var redeem :- AssetsForShares(shares, s.PricedAssets(), s.totalShares);
    :- Need(redeem > 0, ZeroAmount);
    var limited :- RateLimit(s, redeem);
    var burned :- Burn(limited, caller, shares, redeem);
    if s.config.queueThreshold > 0 && redeem >= s.config.queueThreshold then
      var entry := QueueEntry(caller, shares, redeem, SaturatingAddU64(s.now, s.config.unbondingSecs));
      Ok((burned.(queue := s.queue[s.nextId := entry], nextId := s.nextId + 1), Queued(s.nextId, redeem)))
    else
      var sent :- SendOut(burned, redeem);
      Ok((sent, Paid(redeem)))
  }

  function EmergencyWithdraw(s: VaultState, caller: Address, shares: int): Result<(VaultState, int)> {
    if shares <= 0 then Err(ZeroAmount) else
    :- Need(s.paused, VaultNotPaused);
    :- Need(shares <= s.Balance(caller), InsufficientShares);
    var redeem :- AssetsForShares(shares, s.totalDeposited, s.totalShares);
    :- Need(redeem > 0, ZeroAmount);
    var limited :- RateLimit(s, redeem);
    :- Need(s.totalDeposited >= redeem, InsufficientUnderlying);
    var burned :- Burn(limited, caller, shares, redeem);
    var sent :- SendOut(burned, redeem);
    Ok((sent, redeem))
  }

  /** batch.rs `withdraw`. A batch that would have to queue is refused outright. */
  function BatchWithdraw(s: VaultState, caller: Address, amounts: seq<int>): Result<(VaultState, seq<int>)> {
    if |amounts| == 0 || |amounts| > Batch.MAX_BATCH_SIZE then Err(InvalidAddress) else
    :- Need(!s.paused, VaultPaused);
    var run :- Batch.Withdraw(s.totalDeposited, s.totalShares, amounts, s.Balance(caller));
    var _ :- ManagedBalanceGuard(s);
    :- Need(s.config.queueThreshold <= 0 || run.redeemed < s.config.queueThreshold, WithdrawalQueued);
    :- Need(run.redeemed <= s.tokenBalance, InsufficientUnderlying);
    var balance :- CheckedSub(s.Balance(caller), run.burned);
    Ok((ResetCheckpoint(s, caller).(
          balances := s.balances[caller := balance], totalShares := run.shares, totalDeposited := run.assets,
          tokenBalance := s.tokenBalance - run.redeemed),
        run.paid))
  }

  function WithdrawalFee(s: VaultState, amount: int): Result<int> {
    if s.config.withdrawalFeeBps == 0 then Ok(0)
    else
      var scaled :- CheckedMul(amount, s.config.withdrawalFeeBps);
      Ok(TruncDiv(scaled, BASIS_POINTS))
  }

  function Claim(s: VaultState, caller: Address, id: nat): Result<(VaultState, int)> {
    if s.paused then Err(VaultPaused) else
    :- Need(id in s.queue, QueueEntryNotFound);
    var entry := s.queue[id];
    :- Need(entry.owner == caller, InsufficientShares);
    :- Need(s.now >= entry.claimableAfter, QueueUnbondingPending);
    var fee :- WithdrawalFee(s, entry.redeemAmount);
    var net :- CheckedSub(entry.redeemAmount, fee);
    :- Need(net > 0, ZeroAmount);
    var fees :- if fee > 0 then CheckedAdd(s.fees, fee) else Ok(s.fees);
    var sent :- SendOut(s.(queue := s.queue - {id}, fees := fees), net);
    Ok((sent, net))
  }

  // ----- yield -----

  function CircuitBreaker(s: VaultState, newTotal: int): Result<()> {
    if s.config.priceLimitBps == 0 || s.PricedAssets() <= 0 then Ok(())
    else
      var delta :- CheckedSub(newTotal, s.totalDeposited);
      var lhs :- CheckedMul(if delta < 0 then -delta else delta, BASIS_POINTS);
      var rhs :- CheckedMul(s.PricedAssets(), s.config.priceLimitBps);
      :- Need(lhs <= rhs, CircuitBreakerTripped);
      Ok(())
  }

  /** Returns the net yield credited. */
  function Harvest(s: VaultState, amount: int): Result<(VaultState, int)> {
    if amount <= 0 || amount < s.config.minHarvest then Err(ZeroAmount) else
    :- Need(!s.paused, VaultPaused);
    :- Need(s.totalShares != 0, ZeroShares);
    :- Need(!(s.config.cooldownSecs > 0 && s.lastHarvest > 0
              && Elapsed(s.now, s.lastHarvest) < s.config.cooldownSecs), HarvestCooldown);
    :- ExactBalanceGuard(s);
    var fee :- PerfFee(amount, s.config.perfFeeBps);
    var net :- CheckedSub(amount, fee);
    var fees :- CheckedAdd(s.fees, fee);
    var newTotal :- CheckedAdd(s.totalDeposited, net);
    var _ :- CircuitBreaker(s, newTotal);
    var unvested :- CheckedAdd(s.Unvested(), net);
    Ok((ReceiveIn(s, amount).(totalDeposited := newTotal, fees := fees,
                              vestPending := unvested, vestStart := s.ledger, lastHarvest := s.now),
        net))
  }

  /** The increase of the per-share accumulator for a net yield, once the accuracy guards pass. */
  function DeltaYps(net: int, totalShares: int): Result<int> {
    var scaled :- CheckedMul(net, YIELD_PRECISION);
    var delta :- CheckedDiv(scaled, totalShares);
    :- Need(delta != 0, YieldTooSmall);
    var credited :- CheckedMul(delta, totalShares);
    var distributed := TruncDiv(credited, YIELD_PRECISION);
    var padded :- CheckedAdd(net, 9_999);
    var tolerance := TruncDiv(padded, 10_000);
    var diff := if distributed < net then net - distributed else distributed - net;
    :- Need(diff <= tolerance, DistributionAccuracyError);
    Ok(delta)
  }

  /** Returns the net yield distributed. */
  function Distribute(s: VaultState, amount: int): Result<(VaultState, int)> {
    if amount <= 0 || amount < s.config.minHarvest then Err(ZeroAmount) else
    :- Need(!s.paused, VaultPaused);
    :- Need(s.totalShares != 0, ZeroShares);
    var _ :- ManagedBalanceGuard(s);
    var fee :- PerfFee(amount, s.config.perfFeeBps);
    var net :- CheckedSub(amount, fee);
    var delta :- DeltaYps(net, s.totalShares);
    var yps :- CheckedAdd(s.yps, delta);
    var totalDeposited :- CheckedAdd(s.totalDeposited, net);
    var fees :- CheckedAdd(s.fees, fee);
    Ok((ReceiveIn(s, amount).(yps := yps, totalDeposited := totalDeposited, fees := fees), net))
  }

  /**
   The read-only `preview_distribution`: net yield, accumulator increase, credited amount, and whether it is
   accurate.
   */
  function PreviewDistribution(s: VaultState, amount: int): Result<(int, int, int, bool)> {
    if amount <= 0 then Err(ZeroAmount) else
    :- Need(s.totalShares != 0, ZeroShares);
    var fee :- PerfFee(amount, s.config.perfFeeBps);
    var net :- CheckedSub(amount, fee);
    var scaled :- CheckedMul(net, YIELD_PRECISION);
    var delta :- CheckedDiv(scaled, s.totalShares);
    if delta == 0 then Ok((net, 0, 0, false))
    else
      var credited :- CheckedMul(delta, s.totalShares);
      var distributed := TruncDiv(credited, YIELD_PRECISION);
      var padded :- CheckedAdd(net, 9_999);
      var diff := if distributed < net then net - distributed else distributed - net;
      Ok((net, delta, distributed, diff <= TruncDiv(padded, 10_000)))
  }

  function Collect(s: VaultState, caller: Address): Result<(VaultState, int)> {
    if s.paused then Err(VaultPaused) else
    var total :- Accrued(s, caller);
    var cleared := s.(checkpoints := s.checkpoints[caller := s.yps], pending := s.pending[caller := 0]);
    if total <= 0 then Ok((cleared, 0))
    else
      var sent :- SendOut(cleared, total);
      var totalDeposited :- CheckedSub(s.totalDeposited, total);
      Ok((sent.(totalDeposited := totalDeposited), total))
  }

  function Transfer(s: VaultState, from: Address, to: Address, amount: int): Result<(VaultState, ())> {
    if amount <= 0 || from == to then Err(ZeroAmount) else
    :- Need(amount <= s.Balance(from), InsufficientShares);
    var one :- Settle(s, from);
    var both :- Settle(one, to);
    var newFrom :- CheckedSub(s.Balance(from), amount);
    var newTo :- CheckedAdd(s.Balance(to), amount);
    Ok((both.(balances := s.balances[from := newFrom][to := newTo]), ()))
  }

  // ----- fees, administration, time -----

  function WithdrawFees(s: VaultState): Result<(VaultState, int)> {
    if s.fees <= 0 then Ok((s, 0))
    else
      :- Need(s.config.treasurySet, NotInitialized);
      var sent :- SendOut(s, s.fees);
      Ok((sent.(fees := 0), s.fees))
  }

  function SetVestingPeriod(s: VaultState, ledgers: nat): Result<(VaultState, ())> {
    if ledgers == 0 then Err(ZeroAmount) else
    Ok((s.(vestPending := s.Unvested(), vestStart := s.ledger, vestPeriod := ledgers), ()))
  }

  function Configure(s: VaultState, config: Config): Result<(VaultState, ())> {
    if !config.Valid() then Err(InvalidAddress) else
    Ok((s.(config := config), ()))
  }

  function SetPaused(s: VaultState, paused: bool): VaultState {
    s.(paused := paused)
  }

  /** Ledgers close and the clock moves. */
  function Advance(s: VaultState, ledgers: nat, seconds: nat): VaultState {
    s.(ledger := s.ledger + ledgers, now := s.now + seconds)
  }
}

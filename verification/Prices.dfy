/**
 The share price over whole runs, by both measures the code uses: the plain price
 total_deposited / total_shares, and the vested price (total_deposited - unvested) / total_shares.
 */
module Prices {
  import opened Core
  import opened Arith
  import opened ShareMath
  import opened VaultModel
  import opened VaultRuns
  import opened Accounts
  import opened Vesting
  import opened YieldAccuracy
  import AccountEffects
  import Batch

  /** Nothing about the vesting schedule moved. */
  predicate SameVesting(s: VaultState, t: VaultState) {
    t.vestPending == s.vestPending && t.vestStart == s.vestStart && t.vestPeriod == s.vestPeriod && t.ledger == s.ledger
  }

  /** Nothing either price depends on moved. */
  predicate SamePools(s: VaultState, t: VaultState) {
    SameVesting(s, t) && t.totalDeposited == s.totalDeposited && t.totalShares == s.totalShares
  }

  predicate Scheduled(s: VaultState) {
    s.vestPending >= 0 && s.vestPeriod > 0 && s.totalShares >= 0 && s.totalDeposited >= 0 && IsI128(s.totalDeposited)
  }

  /** Shares exist exactly when assets do. */
  predicate PlainBacked(s: VaultState) {
    Scheduled(s) && (s.totalShares == 0 <==> s.totalDeposited == 0)
  }

  predicate PlainPriceKept(s: VaultState, t: VaultState) {
    s.totalShares > 0 ==> PriceNotLower(s.totalDeposited, s.totalShares, t.totalDeposited, t.totalShares)
  }

  /** The unvested yield is part of the deposits. */
  predicate VestedBacked(s: VaultState) {
    Scheduled(s) && s.Unvested() <= s.totalDeposited
  }

  predicate VestedPriceKept(s: VaultState, t: VaultState) {
    s.totalShares > 0 ==> PriceNotLower(s.PricedAssets(), s.totalShares, t.PricedAssets(), t.totalShares)
  }

  lemma PricedIsDifference(s: VaultState)
    requires VestedBacked(s)
    ensures s.PricedAssets() == s.totalDeposited - s.Unvested() >= 0
  {
    UnvestedIsLinear(s);
  }

  // ----- mints, priced at T or at T - u -----

  /** Minting at the plain price keeps the plain price, and hence the lower vested price too. */
  lemma LowerPoolKept(T: int, S: int, d: int, n: int, u: int)
    requires n >= 0 && 0 <= u
    requires PriceNotLower(T, S, T + d, S + n)
    ensures PriceNotLower(T - u, S, T - u + d, S + n)
  {
    Batch.PriceAfterMint(T, S, d, n);
    MulMono(T - u, T, n);
    Batch.PriceAfterMint(T - u, S, d, n);
  }

  /** A mint of `n` shares for `d` at no less than the plain price. */
  predicate PlainMint(s: VaultState, t: VaultState) {
    && SameVesting(s, t)
    && t.totalDeposited > s.totalDeposited && t.totalShares > s.totalShares && IsI128(t.totalDeposited)
    && PlainPriceKept(s, t)
  }

  lemma SameUnvested(s: VaultState, t: VaultState)
    requires SameVesting(s, t)
    ensures t.Unvested() == s.Unvested()
  {
  }

  /** The vested pool moves with the deposits while the schedule stands still. */
  lemma PoolMovesWithDeposits(s: VaultState, t: VaultState)
    requires VestedBacked(s) && SameVesting(s, t)
    requires s.Unvested() <= t.totalDeposited && IsI128(t.totalDeposited) && t.totalShares >= 0
    ensures VestedBacked(t)
    ensures s.PricedAssets() == s.totalDeposited - s.Unvested()
    ensures t.PricedAssets() == t.totalDeposited - s.Unvested() && t.Unvested() == s.Unvested() >= 0
  {
    SameUnvested(s, t);
    UnvestedIsLinear(s);
    PricedIsDifference(s);
    PricedIsDifference(t);
  }

  lemma PlainMintKeeps(s: VaultState, t: VaultState)
    requires Scheduled(s) && PlainMint(s, t)
    ensures PlainBacked(t) && PlainPriceKept(s, t)
    ensures VestedBacked(s) ==> VestedBacked(t) && VestedPriceKept(s, t)
  {
    if VestedBacked(s) {
      PoolMovesWithDeposits(s, t);
      if s.totalShares > 0 {
        LowerPoolKept(s.totalDeposited, s.totalShares, t.totalDeposited - s.totalDeposited,
                      t.totalShares - s.totalShares, s.Unvested());
      }
    }
  }

  lemma {:induction false} MintManyIsPlain(s: VaultState, recipients: seq<(Address, int)>)
    requires Scheduled(s) && recipients != []
    requires MintMany(s, recipients).Ok?
    ensures PlainMint(s, MintMany(s, recipients).value.0)
  {
    var shorter, last := recipients[..|recipients| - 1], recipients[|recipients| - 1];
    var before := MintMany(s, shorter).value.0;
    var shares := DepositShares(last.1, before.totalShares, before.totalDeposited).value;
    var t := Mint(before, last.0, shares, last.1).value;
    if shorter == [] {
      MintFavoursVault(last.1, s.totalShares, s.totalDeposited);
    } else {
      MintManyIsPlain(s, shorter);
      MintFavoursVault(last.1, before.totalShares, before.totalDeposited);
      if s.totalShares > 0 {
        Batch.PriceChain(s.totalDeposited, s.totalShares, before.totalDeposited, before.totalShares,
                         t.totalDeposited, t.totalShares);
      }
    }
  }

  lemma DepositForManyIsPlain(s: VaultState, recipients: seq<(Address, int)>)
    requires Scheduled(s) && VaultModel.DepositForMany(s, recipients).Ok?
    ensures PlainMint(s, VaultModel.DepositForMany(s, recipients).value.0)
  {
    MintManyIsPlain(ReceiveIn(s, TotalAmount(recipients).value), recipients);
  }

  lemma BatchDepositIsPlain(s: VaultState, caller: Address, amounts: seq<int>)
    requires Scheduled(s) && VaultModel.BatchDeposit(s, caller, amounts).Ok?
    ensures PlainMint(s, VaultModel.BatchDeposit(s, caller, amounts).value.0)
  {
    Batch.DepositTotals(s.totalDeposited, s.totalShares, amounts, s.config.minDeposit);
    Batch.DepositsKeepPrice(s.totalDeposited, s.totalShares, amounts, s.config.minDeposit);
    BatchAssetsFit(s.totalDeposited, s.totalShares, amounts, s.config.minDeposit);
  }

  lemma BatchAssetsFit(assets: int, shares: int, amounts: seq<int>, minimum: int)
    requires amounts != []
    requires Batch.DepositFold(Batch.DepositRun(assets, shares, 0, []), amounts, minimum).Ok?
    ensures IsI128(Batch.DepositFold(Batch.DepositRun(assets, shares, 0, []), amounts, minimum).value.assets)
  {
  }

  /** `deposit` mints at the vested price. */
  lemma DepositShape(s: VaultState, caller: Address, amount: int)
    requires VaultModel.Deposit(s, caller, amount).Ok?
    ensures var (t, shares) := VaultModel.Deposit(s, caller, amount).value;
            && SameVesting(s, t) && amount > 0 && shares > 0
            && DepositShares(amount, s.totalShares, s.PricedAssets()) == Ok(shares)
            && t.totalDeposited == s.totalDeposited + amount && t.totalShares == s.totalShares + shares
            && IsI128(t.totalDeposited)
  {
  }

  lemma DepositKeepsVestedPrice(s: VaultState, caller: Address, amount: int)
    requires VestedBacked(s) && VaultModel.Deposit(s, caller, amount).Ok?
    ensures var t := VaultModel.Deposit(s, caller, amount).value.0;
            && VestedBacked(t) && VestedPriceKept(s, t)
            && (s.Unvested() == 0 ==> PlainMint(s, t))
  {
    DepositShape(s, caller, amount);
    PricedIsDifference(s);
    PricedIsDifference(VaultModel.Deposit(s, caller, amount).value.0);
    MintFavoursVault(amount, s.totalShares, s.PricedAssets());
  }

  // ----- burns -----

  /** What a redemption priced on `pool` does: pays the floored share of the pool and no more. */
  predicate Redeems(s: VaultState, t: VaultState, pool: int) {
    && SameVesting(s, t)
    && t.totalShares < s.totalShares && t.totalShares >= 0
    && var paid := s.totalDeposited - t.totalDeposited;
    && 0 < paid <= pool
    && PriceNotLower(pool, s.totalShares, pool - paid, t.totalShares)
    && (t.totalShares == 0 ==> paid == pool)
    && (t.totalShares > 0 ==> paid < pool)
  }

  lemma WithdrawRedeems(s: VaultState, caller: Address, shares: int, us: set<Address>)
    requires Accounted(s, us) && VestedBacked(s)
    requires VaultModel.Withdraw(s, caller, shares).Ok?
    ensures Redeems(s, VaultModel.Withdraw(s, caller, shares).value.0, s.PricedAssets())
  {
    SupplyNonNegative(s, us);
    PricedIsDifference(s);
    WithdrawTotals(s, caller, shares);
    RedeemFavoursVault(shares, s.PricedAssets(), s.totalShares);
  }

  lemma WithdrawTotals(s: VaultState, caller: Address, shares: int)
    requires VaultModel.Withdraw(s, caller, shares).Ok?
    ensures var (t, payout) := VaultModel.Withdraw(s, caller, shares).value;
            && SameVesting(s, t) && 0 < shares <= s.Balance(caller)
            && AssetsForShares(shares, s.PricedAssets(), s.totalShares) == Ok(payout.amount) && payout.amount > 0
            && t.totalDeposited == s.totalDeposited - payout.amount && t.totalShares == s.totalShares - shares
  {
  }

  lemma EmergencyRedeems(s: VaultState, caller: Address, shares: int, us: set<Address>)
    requires Accounted(s, us) && Scheduled(s)
    requires VaultModel.EmergencyWithdraw(s, caller, shares).Ok?
    ensures Redeems(s, VaultModel.EmergencyWithdraw(s, caller, shares).value.0, s.totalDeposited)
  {
    SupplyNonNegative(s, us);
    EmergencyTotals(s, caller, shares);
    RedeemFavoursVault(shares, s.totalDeposited, s.totalShares);
  }

  lemma EmergencyTotals(s: VaultState, caller: Address, shares: int)
    requires VaultModel.EmergencyWithdraw(s, caller, shares).Ok?
    ensures var (t, paid) := VaultModel.EmergencyWithdraw(s, caller, shares).value;
            && SameVesting(s, t) && 0 < shares <= s.Balance(caller)
            && AssetsForShares(shares, s.totalDeposited, s.totalShares) == Ok(paid) && paid > 0
            && t.totalDeposited == s.totalDeposited - paid && t.totalShares == s.totalShares - shares
  {
  }

  /** A batch empties the assets exactly when it burns the whole supply. */
  lemma {:induction false} BatchKeepsBacking(assets: int, shares: int, amounts: seq<int>, balance: int)
    requires assets >= 0 && shares >= 0 && (shares == 0 <==> assets == 0)
    requires Batch.WithdrawFold(Batch.WithdrawRun(assets, shares, 0, 0, []), amounts, balance).Ok?
    ensures var run := Batch.WithdrawFold(Batch.WithdrawRun(assets, shares, 0, 0, []), amounts, balance).value;
            run.assets >= 0 && run.shares >= 0 && (run.shares == 0 <==> run.assets == 0)
  {
    if amounts != [] {
      BatchKeepsBacking(assets, shares, amounts[..|amounts| - 1], balance);
      var before :=
        Batch.WithdrawFold(Batch.WithdrawRun(assets, shares, 0, 0, []), amounts[..|amounts| - 1], balance).value;
      RedeemFavoursVault(amounts[|amounts| - 1], before.assets, before.shares);
    }
  }

  lemma BatchWithdrawRedeems(s: VaultState, caller: Address, amounts: seq<int>)
    requires PlainBacked(s) && VaultModel.BatchWithdraw(s, caller, amounts).Ok?
    ensures Redeems(s, VaultModel.BatchWithdraw(s, caller, amounts).value.0, s.totalDeposited)
  {
    var T, S, b := s.totalDeposited, s.totalShares, s.Balance(caller);
    Batch.WithdrawTotals(T, S, amounts, b);
    BatchKeepsBacking(T, S, amounts, b);
    Batch.WithdrawalsBracketShare(T, S, amounts, b);
    var run := Batch.WithdrawFold(Batch.WithdrawRun(T, S, 0, 0, []), amounts, b).value;
    Batch.RunningPriceNotLower(T, S, run.redeemed, run.burned);
  }

  /** A redemption from the vested pool. */
  lemma VestedRedemptionKeeps(s: VaultState, t: VaultState)
    requires VestedBacked(s) && Redeems(s, t, s.PricedAssets())
    ensures VestedBacked(t) && VestedPriceKept(s, t)
    ensures t.totalShares == 0 ==> t.totalDeposited == s.Unvested()
    ensures s.Unvested() == 0 ==> Redeems(s, t, s.totalDeposited)
  {
    PricedIsDifference(s);
    PoolMovesWithDeposits(s, t);
  }

  // ----- calls that move only assets, or nothing -----

  lemma DistributeShape(s: VaultState, amount: int)
    requires VaultModel.Distribute(s, amount).Ok?
    ensures var (t, net) := VaultModel.Distribute(s, amount).value;
            && SameVesting(s, t) && net >= 0 && t.totalShares == s.totalShares
            && t.totalDeposited == s.totalDeposited + net && IsI128(t.totalDeposited)
  {
    PerfFeeBounds(amount, s.config.perfFeeBps);
  }

  predicate MovesNothing(a: Action) {
    a.Claim? || a.Transfer? || a.WithdrawFees? || a.Configure? || a.SetPaused?
  }

  lemma QuietCallsKeepPools(s: VaultState, a: Action)
    requires MovesNothing(a)
    ensures SamePools(s, Step(s, a).0)
  {
    match a
    case Claim(caller, id) => ClaimKeepsPools(s, caller, id);
    case Transfer(from, to, amount) => TransferKeepsPools(s, from, to, amount);
    case _ =>
  }

  lemma ClaimKeepsPools(s: VaultState, caller: Address, id: nat)
    ensures VaultModel.Claim(s, caller, id).Ok? ==> SamePools(s, VaultModel.Claim(s, caller, id).value.0)
  {
  }

  lemma TransferKeepsPools(s: VaultState, from: Address, to: Address, amount: int)
    ensures VaultModel.Transfer(s, from, to, amount).Ok? ==>
              SamePools(s, VaultModel.Transfer(s, from, to, amount).value.0)
  {
  }

  predicate MovesAssets(a: Action) { a.Harvest? || a.Distribute? || a.SetVestingPeriod? || a.Advance? }

  /** Yield and time raise assets over a fixed supply. */
  lemma YieldAndTimeKeep(s: VaultState, a: Action)
    requires MovesAssets(a) && Scheduled(s)
    ensures var t := Step(s, a).0;
            && Scheduled(t) && t.totalShares == s.totalShares && t.totalDeposited >= s.totalDeposited
            && (t.totalDeposited > s.totalDeposited ==> s.totalShares != 0)
            && (VestedBacked(s) ==> VestedBacked(t) && t.PricedAssets() >= s.PricedAssets())
  {
    match a
    case Harvest(_, amount) =>
      if VaultModel.Harvest(s, amount).Ok? {
        HarvestKeepsPricedAssets(s, amount);
        HarvestShape(s, amount);
        UnvestedIsLinear(s);
        HarvestNeedsShares(s, amount);
      }
    case Distribute(_, amount) =>
      if VaultModel.Distribute(s, amount).Ok? {
        DistributeShape(s, amount);
        if VestedBacked(s) {
          PricedIsDifference(s);
          PricedIsDifference(VaultModel.Distribute(s, amount).value.0);
        }
        DistributeNeedsShares(s, amount);
      }
    case SetVestingPeriod(ledgers) =>
      if ledgers > 0 {
        PeriodChangeKeepsPricedAssets(s, ledgers);
        UnvestedIsLinear(s);
      }
    case Advance(ledgers, seconds) =>
      VestsAsLedgersClose(s, ledgers, seconds);
  }

  lemma HarvestNeedsShares(s: VaultState, amount: int)
    requires VaultModel.Harvest(s, amount).Ok?
    ensures s.totalShares != 0
  {
  }

  lemma DistributeNeedsShares(s: VaultState, amount: int)
    requires VaultModel.Distribute(s, amount).Ok?
    ensures s.totalShares != 0
  {
  }

  lemma RaisedAssetsKeepPrice(a: int, a': int, s: int)
    requires a <= a' && s >= 0
    ensures PriceNotLower(a, s, a', s)
  {
    MulMono(a, a', s);
  }

  // ----- collections -----

  lemma CollectMoves(s: VaultState, caller: Address)
    requires SoundAccount(s, caller) && VaultModel.Collect(s, caller).Ok?
    ensures var t := VaultModel.Collect(s, caller).value.0;
            && SameVesting(s, t) && t.totalShares == s.totalShares
            && Due(s, caller) >= 0 && t.totalDeposited == s.totalDeposited - Due(s, caller)
            && (IsI128(s.totalDeposited) ==> IsI128(t.totalDeposited))
  {
    AccountEffects.CollectPaysDue(s, caller);
    CollectKeepsVesting(s, caller);
    DueNonNegative(s, caller);
  }

  lemma CollectKeepsVesting(s: VaultState, caller: Address)
    requires VaultModel.Collect(s, caller).Ok?
    ensures var t := VaultModel.Collect(s, caller).value.0;
            && SameVesting(s, t) && t.totalShares == s.totalShares
            && (IsI128(s.totalDeposited) ==> IsI128(t.totalDeposited))
  {
  }

  lemma DueNonNegative(s: VaultState, u: Address)
    requires SoundAccount(s, u)
    ensures Due(s, u) >= 0
  {
    MulMono(0, s.yps - s.Checkpoint(u), s.Balance(u));
    FloorNonNegative(s.Balance(u) * (s.yps - s.Checkpoint(u)), YIELD_PRECISION);
  }

  /** A collection keeps the plain price, and the vested price, if and only if it has nothing to pay. */
  lemma CollectKeepsPriceExactlyWhen(s: VaultState, caller: Address)
    requires SoundAccount(s, caller) && VaultModel.Collect(s, caller).Ok?
    requires VestedBacked(s) && s.totalShares > 0
    ensures var t := VaultModel.Collect(s, caller).value.0;
            && (PlainPriceKept(s, t) <==> Due(s, caller) == 0)
            && (VestedPriceKept(s, t) <==> Due(s, caller) == 0)
  {
    var t := VaultModel.Collect(s, caller).value.0;
    CollectMoves(s, caller);
    SameUnvested(s, t);
    PricedIsDifference(s);
    if Due(s, caller) > 0 {
      FewerAssetsLowerPrice(s.totalDeposited, t.totalDeposited, s.totalShares);
      FewerAssetsLowerPrice(s.PricedAssets(), t.PricedAssets(), s.totalShares);
    }
  }

  lemma FewerAssetsLowerPrice(assets: int, assets': int, shares: int)
    requires assets' < assets && shares > 0
    ensures !PriceNotLower(assets, shares, assets', shares)
  {
    MulMono(assets' + 1, assets, shares);
  }

  // ----- non-negative deposits -----

  /** A successful withdrawal finds a positive pool, so the unvested yield is inside the deposits. */
  lemma WithdrawFindsPool(s: VaultState, caller: Address, shares: int, us: set<Address>)
    requires Accounted(s, us) && Scheduled(s) && VaultModel.Withdraw(s, caller, shares).Ok?
    ensures VestedBacked(s)
  {
    SupplyNonNegative(s, us);
    WithdrawTotals(s, caller, shares);
    UnvestedIsLinear(s);
    if s.PricedAssets() <= 0 {
      NothingToRedeem(shares, s.PricedAssets(), s.totalShares);
    }
  }

  /** Redeeming from a pool that holds nothing pays nothing. */
  lemma NothingToRedeem(shares: int, pool: int, totalShares: int)
    requires shares > 0 && totalShares > 0 && pool <= 0
    ensures AssetsForShares(shares, pool, totalShares).Ok? ==> AssetsForShares(shares, pool, totalShares).value <= 0
  {
    MulMono(0, -pool, shares);
    FloorNonNegative(-(shares * pool), totalShares);
    if pool == 0 {
      FloorUnique(0, totalShares, 0);
    }
  }

  /** A successful batch of withdrawals finds shares and assets. */
  lemma BatchWithdrawFindsPool(s: VaultState, caller: Address, amounts: seq<int>)
    requires Scheduled(s) && VaultModel.BatchWithdraw(s, caller, amounts).Ok?
    ensures PlainBacked(s) && s.totalShares > 0 && amounts != []
  {
    var T, S, b := s.totalDeposited, s.totalShares, s.Balance(caller);
    Batch.WithdrawTotals(T, S, amounts, b);
    Batch.WithdrawalsBracketShare(T, S, amounts, b);
    var run := Batch.WithdrawFold(Batch.WithdrawRun(T, S, 0, 0, []), amounts, b).value;
    MulMono(1, run.redeemed, S);
  }

  /** Tracked deposits cover the collection, if it is one that goes through. */
  predicate CollectionCovered(s: VaultState, a: Action) {
    a.Collect? && !Step(s, a).1.Failed? ==> Due(s, a.caller) <= s.totalDeposited
  }

  lemma StepKeepsScheduled(s: VaultState, a: Action, us: set<Address>)
    requires Accounted(s, us) && a.Users() <= us && Scheduled(s) && CollectionCovered(s, a)
    ensures Scheduled(Step(s, a).0)
  {
    if MovesAssets(a) {
      YieldAndTimeKeep(s, a);
    } else if MovesNothing(a) {
      QuietCallsKeepPools(s, a);
    } else if IsMinting(a) {
      MintStepKeepsScheduled(s, a);
    } else if a.Collect? {
      if VaultModel.Collect(s, a.caller).Ok? {
        assert SoundAccount(s, a.caller);
        CollectMoves(s, a.caller);
      }
    } else {
      BurnStepKeepsScheduled(s, a, us);
    }
  }

  lemma MintStepKeepsScheduled(s: VaultState, a: Action)
    requires IsMinting(a) && Scheduled(s)
    ensures Scheduled(Step(s, a).0)
    ensures !Step(s, a).1.Failed? ==> PlainBacked(Step(s, a).0)
    ensures !a.Deposit? && !Step(s, a).1.Failed? ==> PlainMint(s, Step(s, a).0)
  {
    match a
    case Deposit(caller, amount) =>
      if VaultModel.Deposit(s, caller, amount).Ok? { DepositShape(s, caller, amount); }
    case DepositForMany(_, recipients) =>
      if VaultModel.DepositForMany(s, recipients).Ok? { DepositForManyIsPlain(s, recipients); }
    case BatchDeposit(caller, amounts) =>
      if VaultModel.BatchDeposit(s, caller, amounts).Ok? { BatchDepositIsPlain(s, caller, amounts); }
  }

  /** Which pool a burn is priced on, and that it pays no more than its share of it. */
  lemma BurnStepKeepsScheduled(s: VaultState, a: Action, us: set<Address>)
    requires IsBurning(a) && Accounted(s, us) && Scheduled(s)
    ensures Scheduled(Step(s, a).0)
    ensures !Step(s, a).1.Failed? ==>
              && (a.Withdraw? ==> VestedBacked(s) && Redeems(s, Step(s, a).0, s.PricedAssets()))
              && (!a.Withdraw? ==> Redeems(s, Step(s, a).0, s.totalDeposited))
  {
    match a
    case Withdraw(caller, shares) =>
      if VaultModel.Withdraw(s, caller, shares).Ok? {
        WithdrawFindsPool(s, caller, shares, us);
        WithdrawRedeems(s, caller, shares, us);
        PricedIsDifference(s);
        UnvestedIsLinear(s);
      }
    case EmergencyWithdraw(caller, shares) =>
      if VaultModel.EmergencyWithdraw(s, caller, shares).Ok? { EmergencyRedeems(s, caller, shares, us); }
    case BatchWithdraw(caller, amounts) =>
      if VaultModel.BatchWithdraw(s, caller, amounts).Ok? {
        BatchWithdrawFindsPool(s, caller, amounts);
        BatchWithdrawRedeems(s, caller, amounts);
      }
  }

  // ----- the plain price over runs -----

  /**
   A deposit of `amount` mints at no better than the plain price: the unvested yield's slice of the minted
   shares is within the mint's rounding remainder; into a pool with nothing vested, which is reseeded 1:1,
   the deposits are no more than the shares.
   */
  predicate NoBetterThanPlain(s: VaultState, amount: int) {
    var pool, product := s.PricedAssets(), amount * s.totalShares;
    s.totalShares > 0 ==>
      if pool > 0 then (product / pool) * s.Unvested() <= product % pool else s.totalDeposited <= s.totalShares
  }

  /**
   `deposit` mints on the smaller vested pool. It keeps the plain price if and only if, on the totals before
   the call, it mints at no better than that price; with nothing unvested that always holds.
   */
  lemma DepositKeepsPlainPriceExactlyWhen(s: VaultState, caller: Address, amount: int)
    requires Scheduled(s) && VaultModel.Deposit(s, caller, amount).Ok?
    ensures PlainPriceKept(s, VaultModel.Deposit(s, caller, amount).value.0) <==> NoBetterThanPlain(s, amount)
    ensures s.Unvested() == 0 ==> NoBetterThanPlain(s, amount)
  {
    var (t, shares) := VaultModel.Deposit(s, caller, amount).value;
    DepositShape(s, caller, amount);
    UnvestedIsLinear(s);
    Batch.PriceAfterMint(s.totalDeposited, s.totalShares, amount, shares);
    if s.totalShares > 0 {
      MintFindsPool(amount, s.totalShares, s.PricedAssets());
      PricedIsDifference(s);
      MintedOnSmallerPool(s.totalDeposited, s.totalShares, s.Unvested(), amount, shares);
    }
  }

  /** Into a negative pool nothing is minted. */
  lemma MintFindsPool(amount: int, totalShares: int, pool: int)
    requires totalShares > 0 && amount > 0 && DepositShares(amount, totalShares, pool).Ok?
    ensures pool >= 0
  {
    if pool < 0 {
      MulMono(0, totalShares, amount);
      assert amount * totalShares >= 0;
      QuotientByNegative(amount * totalShares, pool);
    }
  }

  lemma QuotientByNegative(x: int, d: int)
    requires x >= 0 && d < 0
    ensures TruncDiv(x, d) <= 0
  {
    var q := x / d;
    assert x == q * d + x % d && x % d >= 0;
    if q > 0 { MulMono(1, q, -d); }
  }

  /**
   n shares for d on the pool T - u: they cost no less than the plain price exactly when n·u is within the
   remainder.
   */
  lemma MintedOnSmallerPool(T: int, S: int, u: int, d: int, n: int)
    requires S > 0 && d > 0 && 0 <= u <= T && DepositShares(d, S, T - u) == Ok(n)
    ensures n * T <= d * S <==> if T - u > 0 then (d * S / (T - u)) * u <= (d * S) % (T - u) else T <= S
    ensures u == 0 ==> n * T <= d * S
  {
    MulMono(0, S, d);
    if T - u > 0 {
      assert d * S == (d * S / (T - u)) * (T - u) + (d * S) % (T - u);
      assert n == d * S / (T - u);
      assert n * T == n * (T - u) + n * u;
    } else {
      MulOrder(T, S, d);
    }
  }

  lemma MulOrder(x: int, y: int, k: int)
    requires k > 0
    ensures k * x <= k * y <==> x <= y
  {
    if x <= y { MulMono(x, y, k); } else { MulMono(y + 1, x, k); }
  }

  lemma MintedWithinFloor(x: int, d: int, q: int)
    requires d > 0
    ensures q * d <= x <==> q <= x / d
  {
    Floor(x, d);
    if q * d <= x { FloorIsGreatest(x, d, q); }
    if q <= x / d { MulMono(q, x / d, d); }
  }

  /**
   Calls that keep the plain price: a collection with nothing to pay, a deposit at no better than it, and all
   others.
   */
  predicate PlainPriced(s: VaultState, a: Action) {
    (a.Collect? ==> Due(s, a.caller) == 0) && (a.Deposit? ==> NoBetterThanPlain(s, a.amount))
  }

  lemma PlainStep(s: VaultState, a: Action, us: set<Address>)
    requires Accounted(s, us) && a.Users() <= us && Scheduled(s) && PlainPriced(s, a)
    ensures Scheduled(Step(s, a).0) && PlainPriceKept(s, Step(s, a).0)
  {
    if a.Collect? {
      PlainCollectStep(s, a, us);
    } else {
      StepKeepsScheduled(s, a, us);
      if MovesAssets(a) {
        YieldAndTimeKeep(s, a);
        RaisedAssetsKeepPrice(s.totalDeposited, Step(s, a).0.totalDeposited, s.totalShares);
      } else if MovesNothing(a) {
        QuietCallsKeepPools(s, a);
      } else if IsMinting(a) {
        PlainMintStep(s, a);
      } else {
        PlainBurnStep(s, a, us);
      }
    }
  }

  lemma PlainBurnStep(s: VaultState, a: Action, us: set<Address>)
    requires IsBurning(a) && Accounted(s, us) && Scheduled(s)
    ensures PlainPriceKept(s, Step(s, a).0)
  {
    BurnStepKeepsScheduled(s, a, us);
    if Step(s, a).1.Failed? {
      FailedCallsChangeNothing(s, a);
    } else if a.Withdraw? {
      PricedIsDifference(s);
      UnvestedIsLinear(s);
      BurnKeepsPlainPrice(s, Step(s, a).0, s.PricedAssets());
    } else {
      BurnKeepsPlainPrice(s, Step(s, a).0, s.totalDeposited);
    }
  }

  lemma FailedCallsChangeNothing(s: VaultState, a: Action)
    requires IsBurning(a)
    ensures Step(s, a).1.Failed? ==> Step(s, a).0 == s
  {
  }

  lemma PlainCollectStep(s: VaultState, a: Action, us: set<Address>)
    requires a.Collect? && Accounted(s, us) && a.Users() <= us && Scheduled(s) && Due(s, a.caller) == 0
    ensures SamePools(s, Step(s, a).0) && Scheduled(Step(s, a).0)
  {
    if VaultModel.Collect(s, a.caller).Ok? {
      assert SoundAccount(s, a.caller);
      CollectMoves(s, a.caller);
    }
  }

  lemma PlainMintStep(s: VaultState, a: Action)
    requires IsMinting(a) && Scheduled(s) && PlainPriced(s, a)
    ensures PlainPriceKept(s, Step(s, a).0)
  {
    MintStepKeepsScheduled(s, a);
    if a.Deposit? {
      if VaultModel.Deposit(s, a.caller, a.amount).Ok? {
        DepositKeepsPlainPriceExactlyWhen(s, a.caller, a.amount);
      }
    } else if Step(s, a).1.Failed? {
      FailedMintsChangeNothing(s, a);
    }
  }

  lemma FailedMintsChangeNothing(s: VaultState, a: Action)
    requires IsMinting(a)
    ensures Step(s, a).1.Failed? ==> Step(s, a).0 == s
  {
  }

  /** A redemption from the plain pool, or from a smaller one, keeps the plain price. */
  lemma BurnKeepsPlainPrice(s: VaultState, t: VaultState, pool: int)
    requires 0 <= pool <= s.totalDeposited && Redeems(s, t, pool)
    ensures PlainPriceKept(s, t)
  {
    var paid, burned := s.totalDeposited - t.totalDeposited, s.totalShares - t.totalShares;
    Batch.RunningPriceNotLower(pool, s.totalShares, paid, burned);
    MulMono(pool, s.totalDeposited, burned);
    Batch.RunningPriceNotLower(s.totalDeposited, s.totalShares, paid, burned);
  }

  /** Every call of the run is plain-priced where it is made. */
  predicate PlainRun(w: World, actions: seq<Action>) {
    actions == [] || (PlainRun(w, actions[..|actions| - 1])
                      && PlainPriced(Run(w, actions[..|actions| - 1]).state, actions[|actions| - 1]))
  }

  /** Shares remain at every point before the end of the run. */
  predicate SharesRemain(w: World, actions: seq<Action>) {
    actions == [] || (SharesRemain(w, actions[..|actions| - 1])
                      && Run(w, actions[..|actions| - 1]).state.totalShares > 0)
  }

  /** Over plain-priced runs, while shares remain, total_deposited / total_shares never falls. */
  lemma {:induction false} PlainPriceNeverFalls(w: World, actions: seq<Action>, us: set<Address>)
    requires Accounted(w.state, us) && YieldCovered(w, us) && Within(actions, us)
    requires Scheduled(w.state) && PlainRun(w, actions)
    ensures Scheduled(Run(w, actions).state)
    ensures SharesRemain(w, actions) ==>
              PriceNotLower(w.state.totalDeposited, w.state.totalShares,
                            Run(w, actions).state.totalDeposited, Run(w, actions).state.totalShares)
  {
    if actions != [] {
      var shorter, a := actions[..|actions| - 1], actions[|actions| - 1];
      PlainPriceNeverFalls(w, shorter, us);
      RunKeepsAccounts(w, shorter, us);
      var mid := Run(w, shorter).state;
      PlainStep(mid, a, us);
      if SharesRemain(w, actions) {
        Batch.PriceChain(w.state.totalDeposited, w.state.totalShares, mid.totalDeposited, mid.totalShares,
                         Step(mid, a).0.totalDeposited, Step(mid, a).0.totalShares);
      }
    }
  }

  // ----- no shares, no tracked deposits -----

  /** A collection of less than everything, and a withdrawal that leaves shares or leaves nothing unvested. */
  predicate LeavesBacking(s: VaultState, a: Action) {
    && (a.Collect? ==> Due(s, a.caller) == 0 || Due(s, a.caller) < s.totalDeposited)
    && (a.Withdraw? ==> a.shares < s.totalShares || s.Unvested() == 0)
  }

  /**
   "No shares exactly when no tracked deposits" through one call: a call that succeeds keeps it if and only if it is
   not a collection of everything tracked or more, nor a withdrawal of the last share while yield is unvested.
   */
  lemma BackingKeptExactlyWhen(s: VaultState, a: Action, us: set<Address>)
    requires Accounted(s, us) && a.Users() <= us && PlainBacked(s) && !Step(s, a).1.Failed?
    ensures PlainBacked(Step(s, a).0) <==> LeavesBacking(s, a)
  {
    if MovesAssets(a) {
      YieldAndTimeKeep(s, a);
    } else if MovesNothing(a) {
      QuietCallsKeepPools(s, a);
    } else if IsMinting(a) {
      MintStepKeepsScheduled(s, a);
    } else if a.Collect? {
      assert SoundAccount(s, a.caller);
      CollectMoves(s, a.caller);
    } else {
      BurnStepKeepsScheduled(s, a, us);
      if a.Withdraw? {
        WithdrawKeepsBackingExactlyWhen(s, a, us);
      }
    }
  }

  lemma WithdrawKeepsBackingExactlyWhen(s: VaultState, a: Action, us: set<Address>)
    requires a.Withdraw? && Accounted(s, us) && VestedBacked(s) && !Step(s, a).1.Failed?
    ensures PlainBacked(Step(s, a).0) <==> LeavesBacking(s, a)
  {
    SupplyNonNegative(s, us);
    WithdrawTotals(s, a.caller, a.shares);
    WithdrawRedeems(s, a.caller, a.shares, us);
    VestedRedemptionKeeps(s, VaultModel.Withdraw(s, a.caller, a.shares).value.0);
    PricedIsDifference(s);
    UnvestedIsLinear(s);
  }

  lemma FailedCallKeepsBacking(s: VaultState, a: Action)
    requires Step(s, a).1.Failed?
    ensures Step(s, a).0 == s
  {
  }

  predicate BackedRun(w: World, actions: seq<Action>) {
    actions == [] || (BackedRun(w, actions[..|actions| - 1])
                      && LeavesBacking(Run(w, actions[..|actions| - 1]).state, actions[|actions| - 1]))
  }

  /** Over runs of calls that leave backing, the supply is zero exactly when the tracked deposits are. */
  lemma {:induction false} NoSharesExactlyWhenNoAssets(w: World, actions: seq<Action>, us: set<Address>)
    requires Accounted(w.state, us) && YieldCovered(w, us) && Within(actions, us)
    requires PlainBacked(w.state) && BackedRun(w, actions)
    ensures PlainBacked(Run(w, actions).state)
  {
    if actions != [] {
      var shorter, a := actions[..|actions| - 1], actions[|actions| - 1];
      NoSharesExactlyWhenNoAssets(w, shorter, us);
      RunKeepsAccounts(w, shorter, us);
      var mid := Run(w, shorter).state;
      if Step(mid, a).1.Failed? {
        FailedCallKeepsBacking(mid, a);
      } else {
        BackingKeptExactlyWhen(mid, a, us);
      }
    }
  }

  /**
   When the last share is redeemed by `withdraw`, exactly the unvested yield stays tracked: total assets are
   zero at that instant, tracked deposits if and only if nothing was unvested.
   */
  lemma LastWithdrawalLeavesUnvested(s: VaultState, caller: Address, shares: int, us: set<Address>)
    requires Accounted(s, us) && VestedBacked(s) && shares == s.totalShares
    requires VaultModel.Withdraw(s, caller, shares).Ok?
    ensures var t := VaultModel.Withdraw(s, caller, shares).value.0;
            && t.totalShares == 0 && t.totalDeposited == s.Unvested()
            && t.PricedAssets() == 0 && t.Unvested() == s.Unvested()
            && (PlainBacked(t) <==> s.Unvested() == 0)
  {
    WithdrawRedeems(s, caller, shares, us);
    WithdrawTotals(s, caller, shares);
    VestedRedemptionKeeps(s, VaultModel.Withdraw(s, caller, shares).value.0);
    SameUnvested(s, VaultModel.Withdraw(s, caller, shares).value.0);
  }

  // ----- exits at the plain price while yield is unvested -----

  /** The exit's slice of the unvested yield is no more than its own rounding remainder. */
  predicate ExitWithinRounding(s: VaultState, shares: int) {
    s.totalShares > 0 ==> shares * s.Unvested() <= (shares * s.totalDeposited) % s.totalShares
  }

  /** An exit of `burned` shares for `paid`, whatever was paid: when the vested price survives it. */
  lemma PlainExitFromVestedPool(s: VaultState, t: VaultState, burned: int, paid: int)
    requires VestedBacked(s) && SameVesting(s, t) && s.totalShares > 0
    requires 0 < burned <= s.totalShares && 0 <= paid <= s.totalDeposited
    requires t.totalDeposited == s.totalDeposited - paid && t.totalShares == s.totalShares - burned
    ensures VestedPriceKept(s, t) <==> paid * s.totalShares <= burned * (s.totalDeposited - s.Unvested())
    ensures VestedPriceKept(s, t) ==> VestedBacked(t)
  {
    UnvestedIsLinear(s);
    PricedIsDifference(s);
    SameUnvested(s, t);
    Batch.RunningPriceNotLower(s.totalDeposited - s.Unvested(), s.totalShares, paid, burned);
    if paid * s.totalShares <= burned * (s.totalDeposited - s.Unvested()) {
      MulMono(burned, s.totalShares, s.totalDeposited - s.Unvested());
      MulCancel(paid, s.totalDeposited - s.Unvested(), s.totalShares);
    }
  }

  /** Burning b shares for n floored payments of P in all: P·S <= b·T < (P + n)·S. */
  lemma ExitNumbers(T: int, S: int, u: int, b: int, P: int, n: nat)
    requires S > 0 && b > 0 && T >= 0
    requires P * S <= b * T < (P + n) * S
    ensures b * u <= (b * T) % S ==> P * S <= b * (T - u)
    ensures b * u >= n * S ==> P * S > b * (T - u)
    ensures n == 1 ==> (P * S <= b * (T - u) <==> b * u <= (b * T) % S)
  {
    MulMono(0, T, b);
    Floor(b * T, S);
    FloorIsGreatest(b * T, S, P);
    MulMono(P, b * T / S, S);
    assert b * T == (b * T / S) * S + (b * T) % S;
    assert b * (T - u) == b * T - b * u;
    assert (P + n) * S == P * S + n * S;
    if n == 1 {
      FloorUnique(b * T, S, P);
    }
  }

  /**
   What leaving with `burned` shares in n payments does to the vested price: it is kept when the slice
   burned·u of the unvested yield is within the rounding remainder (burned·T) mod S, lowered when the
   slice is at least n·S, and for one payment the first condition is exact.
   */
  predicate ExitJudged(s: VaultState, t: VaultState, burned: int, n: nat)
    requires s.totalShares > 0
  {
    var slice, rounding := burned * s.Unvested(), (burned * s.totalDeposited) % s.totalShares;
    && (slice <= rounding ==> VestedPriceKept(s, t) && VestedBacked(t))
    && (slice >= n * s.totalShares ==> !VestedPriceKept(s, t))
    && (n == 1 ==> (VestedPriceKept(s, t) <==> slice <= rounding))
  }

  /** For n floored payments of P in all. */
  lemma ExitVerdict(s: VaultState, t: VaultState, burned: int, P: int, n: nat)
    requires VestedBacked(s) && SameVesting(s, t) && s.totalShares > 0
    requires 0 < burned <= s.totalShares && 0 <= P <= s.totalDeposited
    requires t.totalDeposited == s.totalDeposited - P && t.totalShares == s.totalShares - burned
    requires P * s.totalShares <= burned * s.totalDeposited < (P + n) * s.totalShares
    ensures ExitJudged(s, t, burned, n)
  {
    ExitNumbers(s.totalDeposited, s.totalShares, s.Unvested(), burned, P, n);
    PlainExitFromVestedPool(s, t, burned, P);
  }

  /**
   `emergency_withdraw` pays from all deposits, unvested yield included. It keeps the vested price for
   those who stay exactly when the exit's slice of the unvested yield is no more than its own rounding
   remainder; with nothing unvested that always holds.
   */
  lemma EmergencyKeepsVestedPriceExactlyWhen(s: VaultState, caller: Address, shares: int, us: set<Address>)
    requires Accounted(s, us) && VestedBacked(s)
    requires VaultModel.EmergencyWithdraw(s, caller, shares).Ok?
    ensures s.totalShares > 0
    ensures var t := VaultModel.EmergencyWithdraw(s, caller, shares).value.0;
            && (VestedPriceKept(s, t) <==> shares * s.Unvested() <= (shares * s.totalDeposited) % s.totalShares)
            && (VestedPriceKept(s, t) ==> VestedBacked(t))
  {
    var (t, paid) := VaultModel.EmergencyWithdraw(s, caller, shares).value;
    SupplyNonNegative(s, us);
    EmergencyTotals(s, caller, shares);
    RedeemFavoursVault(shares, s.totalDeposited, s.totalShares);
    ExitVerdict(s, t, shares, paid, 1);
  }

  lemma BatchExitTotals(s: VaultState, caller: Address, amounts: seq<int>)
    requires Scheduled(s) && VaultModel.BatchWithdraw(s, caller, amounts).Ok?
    ensures var t := VaultModel.BatchWithdraw(s, caller, amounts).value.0;
            var b, P := Batch.SeqSum(amounts), s.totalDeposited - t.totalDeposited;
            && SameVesting(s, t) && t.totalShares == s.totalShares - b && s.totalShares > 0
            && 0 < b <= s.totalShares && 0 < P <= s.totalDeposited
            && P * s.totalShares <= b * s.totalDeposited < (P + |amounts|) * s.totalShares
  {
    BatchWithdrawFindsPool(s, caller, amounts);
    BatchWithdrawShape(s, caller, amounts);
    BatchNumbers(s.totalDeposited, s.totalShares, amounts, s.Balance(caller));
  }

  lemma BatchWithdrawShape(s: VaultState, caller: Address, amounts: seq<int>)
    requires VaultModel.BatchWithdraw(s, caller, amounts).Ok?
    ensures Batch.WithdrawFold(Batch.WithdrawRun(s.totalDeposited, s.totalShares, 0, 0, []), amounts,
                               s.Balance(caller)).Ok?
    ensures var t := VaultModel.BatchWithdraw(s, caller, amounts).value.0;
            var run := Batch.WithdrawFold(Batch.WithdrawRun(s.totalDeposited, s.totalShares, 0, 0, []),
                                          amounts, s.Balance(caller)).value;
            SameVesting(s, t) && t.totalShares == run.shares && t.totalDeposited == run.assets
  {
  }

  lemma BatchNumbers(T: int, S: int, amounts: seq<int>, balance: int)
    requires T >= 0 && S > 0 && amounts != []
    requires Batch.WithdrawFold(Batch.WithdrawRun(T, S, 0, 0, []), amounts, balance).Ok?
    ensures var run := Batch.WithdrawFold(Batch.WithdrawRun(T, S, 0, 0, []), amounts, balance).value;
            var b, P := Batch.SeqSum(amounts), T - run.assets;
            && run.shares == S - b && 0 < b <= S && 0 < P <= T
            && P * S <= b * T < (P + |amounts|) * S
  {
    Batch.WithdrawTotals(T, S, amounts, balance);
    Batch.WithdrawalsBracketShare(T, S, amounts, balance);
  }

  /** What the vested price gives for `shares` shares. */
  function VestedWorth(s: VaultState, shares: int): int
    requires s.totalShares > 0
  {
    shares * (s.totalDeposited - s.Unvested()) / s.totalShares
  }

  lemma VestedWorthDecides(s: VaultState, t: VaultState, burned: int, paid: int)
    requires VestedBacked(s) && SameVesting(s, t) && s.totalShares > 0
    requires 0 < burned <= s.totalShares && 0 <= paid <= s.totalDeposited
    requires t.totalDeposited == s.totalDeposited - paid && t.totalShares == s.totalShares - burned
    ensures VestedPriceKept(s, t) <==> paid <= VestedWorth(s, burned)
    ensures VestedPriceKept(s, t) ==> VestedBacked(t)
  {
    PlainExitFromVestedPool(s, t, burned, paid);
    MintedWithinFloor(burned * (s.totalDeposited - s.Unvested()), s.totalShares, paid);
  }

  /** The items together pay no more than one redemption of all the shares at the vested price would. */
  predicate PaysAtMostVested(s: VaultState, caller: Address, amounts: seq<int>) {
    var run := Batch.Withdraw(s.totalDeposited, s.totalShares, amounts, s.Balance(caller));
    run.Ok? && s.totalShares > 0 ==> run.value.redeemed <= VestedWorth(s, Batch.SeqSum(amounts))
  }

  /**
   `batch_withdraw` pays the plain price too. It keeps the vested price if and only if its items together
   pay at most what the vested price gives for all the shares; on amounts alone, the slice of the unvested
   yield decides it up to one share's worth per item.
   */
  lemma BatchExitKeepsVestedPriceExactlyWhen(s: VaultState, caller: Address, amounts: seq<int>)
    requires VestedBacked(s) && VaultModel.BatchWithdraw(s, caller, amounts).Ok?
    ensures s.totalShares > 0
    ensures var t := VaultModel.BatchWithdraw(s, caller, amounts).value.0;
            && (VestedPriceKept(s, t) <==> PaysAtMostVested(s, caller, amounts))
            && (VestedPriceKept(s, t) ==> VestedBacked(t))
            && ExitJudged(s, t, Batch.SeqSum(amounts), |amounts|)
  {
    BatchExitTotals(s, caller, amounts);
    BatchPaid(s, caller, amounts);
    BatchExitVerdict(s, VaultModel.BatchWithdraw(s, caller, amounts).value.0, caller, amounts);
  }

  /** The verdict on any state the items may have led to. */
  lemma BatchExitVerdict(s: VaultState, t: VaultState, caller: Address, amounts: seq<int>)
    requires VestedBacked(s) && SameVesting(s, t) && s.totalShares > 0
    requires var run := Batch.Withdraw(s.totalDeposited, s.totalShares, amounts, s.Balance(caller));
             run.Ok? && run.value.redeemed == s.totalDeposited - t.totalDeposited
    requires var b, P := Batch.SeqSum(amounts), s.totalDeposited - t.totalDeposited;
             && t.totalShares == s.totalShares - b && 0 < b <= s.totalShares && 0 < P <= s.totalDeposited
             && P * s.totalShares <= b * s.totalDeposited < (P + |amounts|) * s.totalShares
    ensures VestedPriceKept(s, t) <==> PaysAtMostVested(s, caller, amounts)
    ensures VestedPriceKept(s, t) ==> VestedBacked(t)
    ensures ExitJudged(s, t, Batch.SeqSum(amounts), |amounts|)
  {
    ExitVerdict(s, t, Batch.SeqSum(amounts), s.totalDeposited - t.totalDeposited, |amounts|);
    VestedWorthDecides(s, t, Batch.SeqSum(amounts), s.totalDeposited - t.totalDeposited);
  }

  lemma BatchPaid(s: VaultState, caller: Address, amounts: seq<int>)
    requires VaultModel.BatchWithdraw(s, caller, amounts).Ok?
    ensures var run := Batch.Withdraw(s.totalDeposited, s.totalShares, amounts, s.Balance(caller));
            && run.Ok?
            && run.value.redeemed
               == s.totalDeposited - VaultModel.BatchWithdraw(s, caller, amounts).value.0.totalDeposited
  {
    Batch.WithdrawTotals(s.totalDeposited, s.totalShares, amounts, s.Balance(caller));
  }

  // ----- the vested price over runs -----

  /**
   Calls that keep the vested price: a collection with nothing to pay, an emergency exit within its rounding, a
   batch exit that pays at most the vested price, and all others.
   */
  predicate VestingPriced(s: VaultState, a: Action) {
    && (a.Collect? ==> Due(s, a.caller) == 0)
    && (a.EmergencyWithdraw? ==> ExitWithinRounding(s, a.shares))
    && (a.BatchWithdraw? ==> PaysAtMostVested(s, a.caller, a.amounts))
  }

  lemma VestedStep(s: VaultState, a: Action, us: set<Address>)
    requires Accounted(s, us) && a.Users() <= us && VestedBacked(s) && VestingPriced(s, a)
    ensures VestedBacked(Step(s, a).0) && VestedPriceKept(s, Step(s, a).0)
  {
    if MovesAssets(a) {
      YieldAndTimeKeep(s, a);
      RaisedAssetsKeepPrice(s.PricedAssets(), Step(s, a).0.PricedAssets(), s.totalShares);
    } else if MovesNothing(a) {
      QuietCallsKeepPools(s, a);
    } else if IsMinting(a) {
      VestedMintStep(s, a);
    } else if a.Collect? {
      PlainCollectStep(s, a, us);
    } else {
      VestedBurnStep(s, a, us);
    }
  }

  lemma VestedMintStep(s: VaultState, a: Action)
    requires IsMinting(a) && VestedBacked(s)
    ensures VestedBacked(Step(s, a).0) && VestedPriceKept(s, Step(s, a).0)
  {
    if a.Deposit? {
      if VaultModel.Deposit(s, a.caller, a.amount).Ok? { DepositKeepsVestedPrice(s, a.caller, a.amount); }
    } else {
      MintStepKeepsScheduled(s, a);
      if Step(s, a).1.Failed? {
        FailedMintsChangeNothing(s, a);
      } else {
        PlainMintKeeps(s, Step(s, a).0);
      }
    }
  }

  lemma VestedBurnStep(s: VaultState, a: Action, us: set<Address>)
    requires IsBurning(a) && Accounted(s, us) && VestedBacked(s) && VestingPriced(s, a)
    ensures VestedBacked(Step(s, a).0) && VestedPriceKept(s, Step(s, a).0)
  {
    match a
    case Withdraw(caller, shares) =>
      if VaultModel.Withdraw(s, caller, shares).Ok? {
        WithdrawRedeems(s, caller, shares, us);
        VestedRedemptionKeeps(s, VaultModel.Withdraw(s, caller, shares).value.0);
      }
    case EmergencyWithdraw(caller, shares) =>
      if VaultModel.EmergencyWithdraw(s, caller, shares).Ok? {
        EmergencyKeepsVestedPriceExactlyWhen(s, caller, shares, us);
      }
    case BatchWithdraw(caller, amounts) =>
      if VaultModel.BatchWithdraw(s, caller, amounts).Ok? {
        BatchExitKeepsVestedPriceExactlyWhen(s, caller, amounts);
      }
  }

  predicate VestingRun(w: World, actions: seq<Action>) {
    actions == [] || (VestingRun(w, actions[..|actions| - 1])
                      && VestingPriced(Run(w, actions[..|actions| - 1]).state, actions[|actions| - 1]))
  }

  /**
   Through any run of deposits, withdrawals, batches, harvests, distributions, transfers, claims, period
   changes and time, `total_assets` per share never falls while shares remain, and the unvested yield
   always stays inside the tracked deposits, as long as collections have nothing to pay and exits at the
   plain price take no more than the vested price gives.
   */
  lemma {:induction false} VestedPriceNeverFalls(w: World, actions: seq<Action>, us: set<Address>)
    requires Accounted(w.state, us) && YieldCovered(w, us) && Within(actions, us)
    requires VestedBacked(w.state) && VestingRun(w, actions)
    ensures VestedBacked(Run(w, actions).state)
    ensures SharesRemain(w, actions) ==>
              PriceNotLower(w.state.PricedAssets(), w.state.totalShares,
                            Run(w, actions).state.PricedAssets(), Run(w, actions).state.totalShares)
  {
    if actions != [] {
      var shorter, a := actions[..|actions| - 1], actions[|actions| - 1];
      VestedPriceNeverFalls(w, shorter, us);
      RunKeepsAccounts(w, shorter, us);
      var mid := Run(w, shorter).state;
      VestedStep(mid, a, us);
      if SharesRemain(w, actions) {
        Batch.PriceChain(w.state.PricedAssets(), w.state.totalShares, mid.PricedAssets(), mid.totalShares,
                         Step(mid, a).0.PricedAssets(), Step(mid, a).0.totalShares);
      }
    }
  }

  lemma InitialPrices(config: Config, ledger: nat, now: nat)
    ensures PlainBacked(Initial(config, ledger, now)) && VestedBacked(Initial(config, ledger, now))
  {
  }
}

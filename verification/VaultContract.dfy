/**
 The vault contract over its storage cells. The contract itself is stateless: every cell lives in the
 host's storage, which an entry point reads and rewrites cell by cell in the contract's order. When an
 entry point returns an error the host discards its writes; the entry points below that write before
 their last check put the saved cells back. Each entry point is proved to commit exactly what
 `VaultModel` specifies, so the run theorems about the model are theorems about these methods.
 */
module VaultContract {
  import opened Core
  import opened ShareMath
  import M = VaultModel
  import Batch

  /** The call did what the specification says: committed its result, or failed with its error. */
  ghost predicate Reaches<T>(after: M.VaultState, r: Result<T>, spec: Result<(M.VaultState, T)>) {
    match spec
    case Ok(p) => r == Ok(p.1) && after == p.0
    case Err(e) => r == Err(e)
  }

  /** As `Reaches`, and a failed call changed nothing. */
  ghost predicate Commits<T>(before: M.VaultState, after: M.VaultState, r: Result<T>, spec: Result<(M.VaultState, T)>) {
    Reaches(after, r, spec) && (spec.Err? ==> after == before)
  }

  class Vault {
    /** The contract's storage. */
    var cells: M.VaultState

    constructor (config: M.Config, ledger: nat, now: nat)
      ensures cells == M.Initial(config, ledger, now)
    {
      cells := M.Initial(config, ledger, now);
    }

    method ResetCheckpoint(who: Address)
      modifies this
      ensures cells == M.ResetCheckpoint(old(cells), who)
    {
      cells := cells.(checkpoints := cells.checkpoints[who := cells.yps]);
      cells := cells.(pending := cells.pending[who := Get(cells.pending, who)]);
    }

    method SendOut(amount: int) returns (r: Result<()>)
      modifies this
      ensures amount <= old(cells).tokenBalance ==>
                r == Ok(()) && cells == old(cells).(tokenBalance := old(cells).tokenBalance - amount)
      ensures amount > old(cells).tokenBalance ==> r == Err(TransferFailed) && cells == old(cells)
    {
      if amount > cells.tokenBalance { return Err(TransferFailed); }
      cells := cells.(tokenBalance := cells.tokenBalance - amount);
      return Ok(());
    }

    // ----- deposits -----

    method Deposit(caller: Address, amount: int) returns (r: Result<int>)
      modifies this
      ensures Commits(old(cells), cells, r, M.Deposit(old(cells), caller, amount))
    {
      if amount <= 0 { return Err(ZeroAmount); }
      if cells.paused { return Err(VaultPaused); }
      if !M.Listed(cells.config.allowlist, caller) { return Err(NotApproved); }
      if !M.Listed(cells.config.whitelist, caller) { return Err(NotWhitelisted); }
      if cells.config.minDeposit > 0 && amount < cells.config.minDeposit { return Err(BelowMinDeposit); }
      if cells.config.tvlCap > 0 {
        var afterDeposit :- CheckedAdd(cells.totalDeposited, amount);
        if afterDeposit > cells.config.tvlCap { return Err(TvlCapExceeded); }
      }
      if cells.tokenBalance != cells.totalDeposited { return Err(BalanceMismatch); }
      var pricedAssets := SaturatingSub(cells.totalDeposited, cells.Unvested());
      var newShares := amount;
      if cells.totalShares != 0 && pricedAssets != 0 {
        var numerator :- CheckedMul(amount, cells.totalShares);
        newShares :- CheckedDiv(numerator, pricedAssets);
      }
      if newShares <= 0 { return Err(ZeroAmount); }
      var newBalance :- CheckedAdd(Get(cells.balances, caller), newShares);
      var newTotalShares :- CheckedAdd(cells.totalShares, newShares);
      var newTotalDeposited :- CheckedAdd(cells.totalDeposited, amount);
      cells := cells.(tokenBalance := cells.tokenBalance + amount);
      cells := cells.(balances := cells.balances[caller := newBalance]);
      ResetCheckpoint(caller);
      cells := cells.(totalShares := newTotalShares, totalDeposited := newTotalDeposited);
      return Ok(newShares);
    }

    method DepositForMany(recipients: seq<(Address, int)>) returns (r: Result<seq<int>>)
      modifies this
      ensures Commits(old(cells), cells, r, M.DepositForMany(old(cells), recipients))
    {
      var before := cells;
      r := DepositForManyBody(recipients);
      if r.Err? { cells := before; }
    }

    method DepositForManyBody(recipients: seq<(Address, int)>) returns (r: Result<seq<int>>)
      modifies this
      ensures Reaches(cells, r, M.DepositForMany(old(cells), recipients))
    {
      if |recipients| == 0 { return Err(BatchEmpty); }
      if |recipients| > M.MAX_RECIPIENTS { return Err(BatchTooLarge); }
      if cells.paused { return Err(VaultPaused); }
      var added := AddUp(recipients);
      var totalAmount :- added;
      if cells.config.tvlCap > 0 {
        var afterDeposit :- CheckedAdd(cells.totalDeposited, totalAmount);
        if afterDeposit > cells.config.tvlCap { return Err(TvlCapExceeded); }
      }
      if cells.tokenBalance != cells.totalDeposited { return Err(BalanceMismatch); }
      cells := cells.(tokenBalance := cells.tokenBalance + totalAmount);
      r := MintEach(recipients);
    }

    /** The validation pass: every amount positive, and their sum. */
    method AddUp(recipients: seq<(Address, int)>) returns (r: Result<int>)
      ensures r == M.TotalAmount(recipients)
    {
      var totalAmount := 0;
      for i := 0 to |recipients|
        invariant M.TotalAmount(recipients[..i]) == Ok(totalAmount)
      {
        var amount := recipients[i].1;
        assert recipients[..i + 1][..i] == recipients[..i];
        if M.TotalAmount(recipients[..i + 1]).Err? { TotalAmountStops(recipients, i + 1); }
        if amount <= 0 { return Err(ZeroAmount); }
        totalAmount :- CheckedAdd(totalAmount, amount);
      }
      assert recipients[..|recipients|] == recipients;
      return Ok(totalAmount);
    }

    /** The minting pass: recipients are credited one by one, the totals are persisted at the end. */
    method MintEach(recipients: seq<(Address, int)>) returns (r: Result<seq<int>>)
      requires M.TotalAmount(recipients).Ok?
      modifies this
      ensures Reaches(cells, r, M.MintMany(old(cells), recipients))
    {
      var runningShares, runningDeposited := cells.totalShares, cells.totalDeposited;
      var minted: seq<int> := [];
      for i := 0 to |recipients|
        invariant M.MintMany(old(cells), recipients[..i])
               == Ok((cells.(totalShares := runningShares, totalDeposited := runningDeposited), minted))
      {
        var (recipient, amount) := recipients[i];
        assert recipients[..i + 1][..i] == recipients[..i];
        if M.MintMany(old(cells), recipients[..i + 1]).Err? { MintManyStops(old(cells), recipients, i + 1); }
        PositiveAmounts(recipients, i);
        var newShares := amount;
        if runningShares != 0 && runningDeposited != 0 {
          var numerator :- CheckedMul(amount, runningShares);
          newShares :- CheckedDiv(numerator, runningDeposited);
        }
        if newShares <= 0 { return Err(ZeroAmount); }
        var newBalance :- CheckedAdd(Get(cells.balances, recipient), newShares);
        cells := cells.(balances := cells.balances[recipient := newBalance]);
        ResetCheckpoint(recipient);
        runningShares :- CheckedAdd(runningShares, newShares);
        runningDeposited :- CheckedAdd(runningDeposited, amount);
        minted := minted + [newShares];
      }
      assert recipients[..|recipients|] == recipients;
      cells := cells.(totalShares := runningShares, totalDeposited := runningDeposited);
      return Ok(minted);
    }

    method BatchDeposit(caller: Address, amounts: seq<int>) returns (r: Result<seq<int>>)
      modifies this
      ensures Commits(old(cells), cells, r, M.BatchDeposit(old(cells), caller, amounts))
    {
      if |amounts| == 0 || |amounts| > Batch.MAX_BATCH_SIZE { return Err(InvalidAddress); }
      if cells.paused { return Err(VaultPaused); }
      if !M.Listed(cells.config.whitelist, caller) { return Err(NotWhitelisted); }
      var expected :- CheckedAdd(cells.totalDeposited, cells.fees);
      if cells.tokenBalance != expected { return Err(BalanceMismatch); }
      var looped := Batch.DepositLoop(cells.totalDeposited, cells.totalShares, amounts, cells.config.minDeposit);
      var run :- looped;
      if cells.config.tvlCap > 0 && run.assets > cells.config.tvlCap { return Err(TvlCapExceeded); }
      var totalMinted :- CheckedSub(run.shares, cells.totalShares);
      var newBalance :- CheckedAdd(Get(cells.balances, caller), totalMinted);
      cells := cells.(tokenBalance := cells.tokenBalance + run.paidIn);
      cells := cells.(balances := cells.balances[caller := newBalance]);
      ResetCheckpoint(caller);
      cells := cells.(totalShares := run.shares, totalDeposited := run.assets);
      return Ok(run.minted);
    }

    // ----- withdrawals -----

    /** The rate-limit cells, written before anything is burned. */
    method ApplyRateLimit(redeem: int) returns (r: Result<()>)
      modifies this
      ensures match M.RateLimit(old(cells), redeem)
              case Ok(s) => r == Ok(()) && cells == s
              case Err(e) => r == Err(e) && cells == old(cells)
    {
      if cells.config.maxWithdrawalBps > 0 {
        var current := if cells.ledger > cells.lastWithdrawalLedger then 0 else cells.ledgerWithdrawals;
        var scaled :- CheckedMul(cells.totalDeposited, cells.config.maxWithdrawalBps);
        var maxAllowed := TruncDiv(scaled, M.BASIS_POINTS);
        var total :- CheckedAdd(current, redeem);
        if total > maxAllowed { return Err(WithdrawalLimitExceeded); }
        cells := cells.(lastWithdrawalLedger := cells.ledger);
        cells := cells.(ledgerWithdrawals := total);
      }
      return Ok(());
    }

    method Withdraw(caller: Address, shares: int) returns (r: Result<M.Payout>)
      modifies this
      ensures Commits(old(cells), cells, r, M.Withdraw(old(cells), caller, shares))
    {
      var before := cells;
      r := WithdrawBody(caller, shares);
      if r.Err? { cells := before; }
    }

    method WithdrawBody(caller: Address, shares: int) returns (r: Result<M.Payout>)
      modifies this
      ensures Reaches(cells, r, M.Withdraw(old(cells), caller, shares))
    {
      if shares <= 0 { return Err(ZeroAmount); }
      if cells.paused { return Err(VaultPaused); }
      if cells.tokenBalance != cells.totalDeposited { return Err(BalanceMismatch); }
      var userBalance := Get(cells.balances, caller);
      if shares > userBalance { return Err(InsufficientShares); }
      var pricedAssets := SaturatingSub(cells.totalDeposited, cells.Unvested());
      var redeem :- AssetsForShares(shares, pricedAssets, cells.totalShares);
      if redeem <= 0 { return Err(ZeroAmount); }
      var limited := ApplyRateLimit(redeem);
      var _ :- limited;
      cells := cells.(balances := cells.balances[caller := userBalance - shares]);
      var newTotalShares :- CheckedSub(cells.totalShares, shares);
      ResetCheckpoint(caller);
      var newTotalDeposited :- CheckedSub(cells.totalDeposited, redeem);
      cells := cells.(totalShares := newTotalShares, totalDeposited := newTotalDeposited);
      if cells.config.queueThreshold > 0 && redeem >= cells.config.queueThreshold {
        var claimableAfter := SaturatingAddU64(cells.now, cells.config.unbondingSecs);
        var entryId := cells.nextId;
        cells := cells.(nextId := entryId + 1);
        cells := cells.(queue := cells.queue[entryId := M.QueueEntry(caller, shares, redeem, claimableAfter)]);
        return Ok(M.Queued(entryId, redeem));
      }
      var sent := SendOut(redeem);
      var _ :- sent;
      return Ok(M.Paid(redeem));
    }

    method EmergencyWithdraw(caller: Address, shares: int) returns (r: Result<int>)
      modifies this
      ensures Commits(old(cells), cells, r, M.EmergencyWithdraw(old(cells), caller, shares))
    {
      var before := cells;
      r := EmergencyWithdrawBody(caller, shares);
      if r.Err? { cells := before; }
    }

    method EmergencyWithdrawBody(caller: Address, shares: int) returns (r: Result<int>)
      modifies this
      ensures Reaches(cells, r, M.EmergencyWithdraw(old(cells), caller, shares))
    {
      if shares <= 0 { return Err(ZeroAmount); }
      if !cells.paused { return Err(VaultNotPaused); }
      var userBalance := Get(cells.balances, caller);
      if shares > userBalance { return Err(InsufficientShares); }
      var redeem :- AssetsForShares(shares, cells.totalDeposited, cells.totalShares);
      if redeem <= 0 { return Err(ZeroAmount); }
      var limited := ApplyRateLimit(redeem);
      var _ :- limited;
      if cells.totalDeposited < redeem { return Err(InsufficientUnderlying); }
      cells := cells.(balances := cells.balances[caller := userBalance - shares]);
      var newTotalShares :- CheckedSub(cells.totalShares, shares);
      cells := cells.(totalShares := newTotalShares);
      ResetCheckpoint(caller);
      var newTotalDeposited :- CheckedSub(cells.totalDeposited, redeem);
      cells := cells.(totalDeposited := newTotalDeposited);
      var sent := SendOut(redeem);
      var _ :- sent;
      return Ok(redeem);
    }

    method BatchWithdraw(caller: Address, amounts: seq<int>) returns (r: Result<seq<int>>)
      modifies this
      ensures Commits(old(cells), cells, r, M.BatchWithdraw(old(cells), caller, amounts))
    {
      if |amounts| == 0 || |amounts| > Batch.MAX_BATCH_SIZE { return Err(InvalidAddress); }
      if cells.paused { return Err(VaultPaused); }
      var userBalance := Get(cells.balances, caller);
      var looped := Batch.WithdrawLoop(cells.totalDeposited, cells.totalShares, amounts, userBalance);
      var run :- looped;
      var expected :- CheckedAdd(cells.totalDeposited, cells.fees);
      if cells.tokenBalance != expected { return Err(BalanceMismatch); }
      if cells.config.queueThreshold > 0 && run.redeemed >= cells.config.queueThreshold {
        return Err(WithdrawalQueued);
      }
      if cells.tokenBalance < run.redeemed { return Err(InsufficientUnderlying); }
      var newBalance :- CheckedSub(userBalance, run.burned);
      cells := cells.(balances := cells.balances[caller := newBalance]);
      cells := cells.(totalShares := run.shares, totalDeposited := run.assets);
      ResetCheckpoint(caller);
      cells := cells.(tokenBalance := cells.tokenBalance - run.redeemed);
      return Ok(run.paid);
    }

    method Claim(caller: Address, id: nat) returns (r: Result<int>)
      modifies this
      ensures Commits(old(cells), cells, r, M.Claim(old(cells), caller, id))
    {
      var before := cells;
      r := ClaimBody(caller, id);
      if r.Err? { cells := before; }
    }

    method ClaimBody(caller: Address, id: nat) returns (r: Result<int>)
      modifies this
      ensures Reaches(cells, r, M.Claim(old(cells), caller, id))
    {
      if cells.paused { return Err(VaultPaused); }
      if id !in cells.queue { return Err(QueueEntryNotFound); }
      var entry := cells.queue[id];
      if entry.owner != caller { return Err(InsufficientShares); }
      if cells.now < entry.claimableAfter { return Err(QueueUnbondingPending); }
      var feeAmount := 0;
      if cells.config.withdrawalFeeBps > 0 {
        var scaled :- CheckedMul(entry.redeemAmount, cells.config.withdrawalFeeBps);
        feeAmount := TruncDiv(scaled, 10_000);
      }
      var netAmount :- CheckedSub(entry.redeemAmount, feeAmount);
      if netAmount <= 0 { return Err(ZeroAmount); }
      cells := cells.(queue := cells.queue - {id});
      if feeAmount > 0 {
        var newFees :- CheckedAdd(cells.fees, feeAmount);
        cells := cells.(fees := newFees);
      }
      var sent := SendOut(netAmount);
      var _ :- sent;
      return Ok(netAmount);
    }

    // ----- yield -----

    method Harvest(amount: int) returns (r: Result<int>)
      modifies this
      ensures Commits(old(cells), cells, r, M.Harvest(old(cells), amount))
    {
      if amount <= 0 { return Err(ZeroAmount); }
      if amount < cells.config.minHarvest { return Err(ZeroAmount); }
      if cells.paused { return Err(VaultPaused); }
      if cells.totalShares == 0 { return Err(ZeroShares); }
      if cells.config.cooldownSecs > 0 && cells.lastHarvest > 0 {
        if Elapsed(cells.now, cells.lastHarvest) < cells.config.cooldownSecs { return Err(HarvestCooldown); }
      }
      if cells.tokenBalance != cells.totalDeposited { return Err(BalanceMismatch); }
      var feeAmount :- M.PerfFee(amount, cells.config.perfFeeBps);
      var yieldAfterFee :- CheckedSub(amount, feeAmount);
      var newFees :- CheckedAdd(cells.fees, feeAmount);
      var newTotal :- CheckedAdd(cells.totalDeposited, yieldAfterFee);
      var _ :- M.CircuitBreaker(cells, newTotal);
      var scheduled :- CheckedAdd(cells.Unvested(), yieldAfterFee);
      cells := cells.(tokenBalance := cells.tokenBalance + amount);
      cells := cells.(totalDeposited := newTotal);
      cells := cells.(vestPending := scheduled, vestStart := cells.ledger);
      cells := cells.(fees := newFees);
      cells := cells.(lastHarvest := cells.now);
      return Ok(yieldAfterFee);
    }

    method Distribute(amount: int) returns (r: Result<int>)
      modifies this
      ensures Commits(old(cells), cells, r, M.Distribute(old(cells), amount))
    {
      if amount <= 0 { return Err(ZeroAmount); }
      if amount < cells.config.minHarvest { return Err(ZeroAmount); }
      if cells.paused { return Err(VaultPaused); }
      if cells.totalShares == 0 { return Err(ZeroShares); }
      var expected :- CheckedAdd(cells.totalDeposited, cells.fees);
      if cells.tokenBalance != expected { return Err(BalanceMismatch); }
      var feeAmount :- M.PerfFee(amount, cells.config.perfFeeBps);
      var netYield :- CheckedSub(amount, feeAmount);
      var deltaYps :- M.DeltaYps(netYield, cells.totalShares);
      var newYps :- CheckedAdd(cells.yps, deltaYps);
      var newTotal :- CheckedAdd(cells.totalDeposited, netYield);
      var newFees :- CheckedAdd(cells.fees, feeAmount);
      cells := cells.(tokenBalance := cells.tokenBalance + amount);
      cells := cells.(yps := newYps);
      cells := cells.(totalDeposited := newTotal);
      cells := cells.(fees := newFees);
      return Ok(netYield);
    }

    method Collect(caller: Address) returns (r: Result<int>)
      modifies this
      ensures Commits(old(cells), cells, r, M.Collect(old(cells), caller))
    {
      var before := cells;
      r := CollectBody(caller);
      if r.Err? { cells := before; }
    }

    method CollectBody(caller: Address) returns (r: Result<int>)
      modifies this
      ensures Reaches(cells, r, M.Collect(old(cells), caller))
    {
      if cells.paused { return Err(VaultPaused); }
      var delta :- CheckedSub(cells.yps, Get(cells.checkpoints, caller));
      var scaled :- CheckedMul(Get(cells.balances, caller), delta);
      var accrued := TruncDiv(scaled, M.YIELD_PRECISION);
      var totalClaimable :- CheckedAdd(Get(cells.pending, caller), accrued);
      cells := cells.(checkpoints := cells.checkpoints[caller := cells.yps]);
      cells := cells.(pending := cells.pending[caller := 0]);
      if totalClaimable <= 0 { return Ok(0); }
      var sent := SendOut(totalClaimable);
      var _ :- sent;
      var newDeposited :- CheckedSub(cells.totalDeposited, totalClaimable);
      cells := cells.(totalDeposited := newDeposited);
      return Ok(totalClaimable);
    }

    method Transfer(from: Address, to: Address, amount: int) returns (r: Result<()>)
      modifies this
      ensures Commits(old(cells), cells, r, M.Transfer(old(cells), from, to, amount))
    {
      var before := cells;
      r := TransferBody(from, to, amount);
      if r.Err? { cells := before; }
    }

    /** Bring one holder's stored yield up to date. */
    method SettleHolder(holder: Address) returns (r: Result<()>)
      modifies this
      ensures match M.Settle(old(cells), holder)
              case Ok(s) => r == Ok(()) && cells == s
              case Err(e) => r == Err(e)
    {
      var delta :- CheckedSub(cells.yps, Get(cells.checkpoints, holder));
      var scaled :- CheckedMul(Get(cells.balances, holder), delta);
      var accrued := TruncDiv(scaled, M.YIELD_PRECISION);
      var total :- CheckedAdd(Get(cells.pending, holder), accrued);
      cells := cells.(pending := cells.pending[holder := total]);
      cells := cells.(checkpoints := cells.checkpoints[holder := cells.yps]);
      return Ok(());
    }

    method TransferBody(from: Address, to: Address, amount: int) returns (r: Result<()>)
      modifies this
      ensures Reaches(cells, r, M.Transfer(old(cells), from, to, amount))
    {
      if amount <= 0 || from == to { return Err(ZeroAmount); }
      var fromBalance := Get(cells.balances, from);
      if amount > fromBalance { return Err(InsufficientShares); }
      var settled := SettleHolder(from);
      var _ :- settled;
      settled := SettleHolder(to);
      var _ :- settled;
      var toBalance := Get(cells.balances, to);
      var newFrom :- CheckedSub(fromBalance, amount);
      var newTo :- CheckedAdd(toBalance, amount);
      cells := cells.(balances := cells.balances[from := newFrom]);
      cells := cells.(balances := cells.balances[to := newTo]);
      return Ok(());
    }

    // ----- fees, administration, time -----

    method WithdrawFees() returns (r: Result<int>)
      modifies this
      ensures Commits(old(cells), cells, r, M.WithdrawFees(old(cells)))
    {
      var due := cells.fees;
      if due <= 0 { return Ok(0); }
      if !cells.config.treasurySet { return Err(NotInitialized); }
      var sent := SendOut(due);
      var _ :- sent;
      cells := cells.(fees := 0);
      return Ok(due);
    }

    method SetVestingPeriod(ledgers: nat) returns (r: Result<()>)
      modifies this
      ensures Commits(old(cells), cells, r, M.SetVestingPeriod(old(cells), ledgers))
    {
      if ledgers == 0 { return Err(ZeroAmount); }
      cells := cells.(vestPending := cells.Unvested());
      cells := cells.(vestStart := cells.ledger);
      cells := cells.(vestPeriod := ledgers);
      return Ok(());
    }

    method Configure(config: M.Config) returns (r: Result<()>)
      modifies this
      ensures Commits(old(cells), cells, r, M.Configure(old(cells), config))
    {
      if !config.Valid() { return Err(InvalidAddress); }
      cells := cells.(config := config);
      return Ok(());
    }

    method SetPaused(paused: bool)
      modifies this
      ensures cells == M.SetPaused(old(cells), paused)
    {
      cells := cells.(paused := paused);
    }

    method Advance(ledgers: nat, seconds: nat)
      modifies this
      ensures cells == M.Advance(old(cells), ledgers, seconds)
    {
      cells := cells.(ledger := cells.ledger + ledgers, now := cells.now + seconds);
    }
  }

  // ----- a failing item stops the loops -----

  lemma {:induction false} TotalAmountStops(recipients: seq<(Address, int)>, k: nat)
    requires k <= |recipients| && M.TotalAmount(recipients[..k]).Err?
    ensures M.TotalAmount(recipients) == M.TotalAmount(recipients[..k])
  {
    if k == |recipients| {
      assert recipients[..k] == recipients;
    } else {
      var shorter := recipients[..|recipients| - 1];
      assert shorter[..k] == recipients[..k];
      TotalAmountStops(shorter, k);
    }
  }

  lemma {:induction false} MintManyStops(s: M.VaultState, recipients: seq<(Address, int)>, k: nat)
    requires k <= |recipients| && M.MintMany(s, recipients[..k]).Err?
    ensures M.MintMany(s, recipients) == M.MintMany(s, recipients[..k])
  {
    if k == |recipients| {
      assert recipients[..k] == recipients;
    } else {
      var shorter := recipients[..|recipients| - 1];
      assert shorter[..k] == recipients[..k];
      MintManyStops(s, shorter, k);
    }
  }

  lemma {:induction false} PositiveAmounts(recipients: seq<(Address, int)>, i: nat)
    requires i < |recipients| && M.TotalAmount(recipients).Ok?
    ensures recipients[i].1 > 0
  {
    if i < |recipients| - 1 {
      PositiveAmounts(recipients[..|recipients| - 1], i);
    }
  }
}

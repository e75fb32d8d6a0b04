/**
 The vault over plain integers. For every entry point: when the call is allowed, which numbers must fit in an
 i128, and what the call then leaves, with nothing checked and no order of checks. The checked entry points go
 through exactly when the call is allowed and its numbers fit, and leave exactly that.
 */
module EntryPoints {
  import opened Core
  import opened Arith
  import opened ShareMath
  import opened VaultModel
  import opened VaultRuns
  import opened Credits
  import Batch

  // ----- what several calls share -----

  predicate Admits(list: Option<set<Address>>, who: Address) { list.Some? ==> who in list.value }

  predicate UnderCap(s: VaultState, total: int) { s.config.tvlCap > 0 ==> total <= s.config.tvlCap }

  /** Every token held is tracked, or is a collected fee. */
  predicate TokensManaged(s: VaultState) {
    IsI128(s.totalDeposited + s.fees) && s.tokenBalance == s.totalDeposited + s.fees
  }

  /** The part of an amount given in basis points, floored. */
  function Part(amount: int, bps: nat): int { TruncDiv(amount * bps, 10_000) }

  /** `shares` and `assets` move, in or out, for one account, whose checkpoint is reset. */
  function Moved(s: VaultState, who: Address, shares: int, assets: int, tokens: int): VaultState {
    s.(balances := s.balances[who := s.Balance(who) + shares],
       checkpoints := s.checkpoints[who := s.yps], pending := s.pending[who := s.Pending(who)],
       totalShares := s.totalShares + shares, totalDeposited := s.totalDeposited + assets,
       tokenBalance := s.tokenBalance + tokens)
  }

  /** The numbers of such a move fit. */
  predicate MoveFits(s: VaultState, who: Address, shares: int, assets: int) {
    IsI128(s.Balance(who) + shares) && IsI128(s.totalShares + shares) && IsI128(s.totalDeposited + assets)
  }

  // ----- deposits -----

  predicate DepositAllowed(s: VaultState, caller: Address, amount: int) {
    && amount > 0 && amount >= s.config.minDeposit && !s.paused
    && Admits(s.config.allowlist, caller) && Admits(s.config.whitelist, caller)
    && UnderCap(s, s.totalDeposited + amount) && s.tokenBalance == s.totalDeposited
    && MintFits(amount, s.totalShares, s.PricedAssets())
    && MoveFits(s, caller, ExactMint(amount, s.totalShares, s.PricedAssets()), amount)
  }

  lemma DepositExactly(s: VaultState, caller: Address, amount: int)
    ensures var r := VaultModel.Deposit(s, caller, amount);
            var minted := ExactMint(amount, s.totalShares, s.PricedAssets());
            && (r.Ok? <==> DepositAllowed(s, caller, amount))
            && (r.Ok? ==> r.value == (Moved(s, caller, minted, amount, amount), minted))
  {
    MintExactly(amount, s.totalShares, s.PricedAssets());
  }

  predicate DepositForManyAllowed(s: VaultState, recipients: seq<(Address, int)>) {
    var total := Batch.SeqSum(Amounts(recipients));
    && 0 < |recipients| <= 50 && !s.paused
    && UnderCap(s, s.totalDeposited + total) && s.tokenBalance == s.totalDeposited
    && AmountsFit(recipients) && PaymentsFit(s.balances, s.totalShares, s.totalDeposited, recipients)
  }

  /** The running totals end at the sum, so it fits. */
  lemma {:induction false} PaymentsFitInTotal(balances: map<Address, int>, shares: int, assets: int,
                                               recipients: seq<(Address, int)>)
    requires PaymentsFit(balances, shares, assets, recipients) && recipients != []
    ensures IsI128(assets + Batch.SeqSum(Amounts(recipients)))
  {
    var n := |recipients| - 1;
    SumLast(Amounts(recipients[..n]), recipients[n].1);
  }

  lemma DepositForManyCommits(s: VaultState, recipients: seq<(Address, int)>, total: int)
    requires AmountsFit(recipients) && total == Batch.SeqSum(Amounts(recipients))
    ensures var r := VaultModel.DepositForMany(s, recipients);
            var minted := MintMany(ReceiveIn(s, total), recipients);
            && (r.Ok? <==> && 0 < |recipients| <= 50 && !s.paused && UnderCap(s, s.totalDeposited + total)
                           && (s.config.tvlCap > 0 ==> IsI128(s.totalDeposited + total))
                           && s.tokenBalance == s.totalDeposited && minted.Ok?)
            && (r.Ok? ==> r == minted)
  {
    TotalAmountExactly(recipients);
  }

  /** A deposit for many recipients goes through exactly when it is allowed. */
  lemma DepositForManyExactly(s: VaultState, recipients: seq<(Address, int)>)
    ensures VaultModel.DepositForMany(s, recipients).Ok? <==> DepositForManyAllowed(s, recipients)
  {
    TotalAmountExactly(recipients);
    if AmountsFit(recipients) && recipients != [] {
      var total := Batch.SeqSum(Amounts(recipients));
      DepositForManyCommits(s, recipients, total);
      MintManyExactly(ReceiveIn(s, total), recipients, Address(0));
      if PaymentsFit(s.balances, s.totalShares, s.totalDeposited, recipients) {
        PaymentsFitInTotal(s.balances, s.totalShares, s.totalDeposited, recipients);
      }
    }
  }

  /** Amount i mints its exact share at the totals the ones before it leave. */
  predicate PricedInTurn(amounts: seq<int>, minted: seq<int>, shares: int, assets: int, i: nat)
    requires i < |amounts| == |minted|
  {
    minted[i] == ExactMint(amounts[i], shares + Batch.SeqSum(minted[..i]), assets + Batch.SeqSum(amounts[..i]))
  }

  /** Every account gains exactly the mints of the payments made to it. */
  ghost predicate EachCredited(before: map<Address, int>, after: map<Address, int>,
                               recipients: seq<(Address, int)>, minted: seq<int>)
    requires |minted| == |recipients|
  {
    forall u: Address :: Get(after, u) == Get(before, u) + Credited(recipients, minted, u)
  }

  lemma ManyCredited(s: VaultState, recipients: seq<(Address, int)>)
    requires VaultModel.DepositForMany(s, recipients).Ok?
    ensures var (t, minted) := VaultModel.DepositForMany(s, recipients).value;
            var paidIn := Batch.SeqSum(Amounts(recipients));
            && minted == ExactMints(Amounts(recipients), s.totalShares, s.totalDeposited)
            && EachCredited(s.balances, t.balances, recipients, minted)
            && MintedInOrder(ReceiveIn(s, paidIn), t, recipients, minted)
  {
    TotalAmountExactly(recipients);
    var received := ReceiveIn(s, Batch.SeqSum(Amounts(recipients)));
    MintManyExactly(received, recipients, Address(0));
    var (t, minted) := MintMany(received, recipients).value;
    assert VaultModel.DepositForMany(s, recipients) == Ok((t, minted));
    forall u: Address ensures Get(t.balances, u) == Get(s.balances, u) + Credited(recipients, minted, u) {
      MintManyExactly(received, recipients, u);
    }
  }

  lemma MintsArePriced(amounts: seq<int>, shares: int, assets: int)
    ensures var minted := ExactMints(amounts, shares, assets);
            forall i | 0 <= i < |amounts| :: PricedInTurn(amounts, minted, shares, assets, i)
  {
    forall i | 0 <= i < |amounts|
      ensures PricedInTurn(amounts, ExactMints(amounts, shares, assets), shares, assets, i)
    {
      ExactMintAt(amounts, shares, assets, i);
    }
  }

  /**
   One payer, many recipients: payment i mints floor(amount·S/T), or the amount where S or T is zero, at the
   totals the payments before it leave; the mints are returned in the order of the payments; and every account
   gains exactly the mints of the payments made to it.
   */
  lemma DepositForManyCredits(s: VaultState, recipients: seq<(Address, int)>)
    requires VaultModel.DepositForMany(s, recipients).Ok?
    ensures var (t, minted) := VaultModel.DepositForMany(s, recipients).value;
            var amounts := Amounts(recipients);
            && |minted| == |recipients|
            && (forall i | 0 <= i < |recipients| :: PricedInTurn(amounts, minted, s.totalShares, s.totalDeposited, i))
            && EachCredited(s.balances, t.balances, recipients, minted)
            && t == s.(balances := t.balances, checkpoints := t.checkpoints, pending := t.pending,
                       totalShares := s.totalShares + Batch.SeqSum(minted),
                       totalDeposited := s.totalDeposited + Batch.SeqSum(amounts),
                       tokenBalance := s.tokenBalance + Batch.SeqSum(amounts))
  {
    hide VaultModel.DepositForMany, ExactMints, EachCredited, PricedInTurn, Amounts, Batch.SeqSum;
    ManyCredited(s, recipients);
    MintsArePriced(Amounts(recipients), s.totalShares, s.totalDeposited);
  }

  predicate BatchDepositAllowed(s: VaultState, caller: Address, amounts: seq<int>) {
    var minted := Batch.SeqSum(ExactMints(amounts, s.totalShares, s.totalDeposited));
    && 0 < |amounts| <= 20 && !s.paused && Admits(s.config.whitelist, caller) && TokensManaged(s)
    && UnderCap(s, s.totalDeposited + Batch.SeqSum(amounts))
    && DepositsFit(amounts, s.totalShares, s.totalDeposited, s.config.minDeposit)
    && IsI128(minted) && IsI128(s.Balance(caller) + minted)
  }

  lemma BatchDepositCommits(s: VaultState, caller: Address, amounts: seq<int>, run: Batch.DepositRun)
    requires Batch.Deposit(s.totalDeposited, s.totalShares, amounts, s.config.minDeposit) == Ok(run)
    ensures var r := VaultModel.BatchDeposit(s, caller, amounts);
            var minted := run.shares - s.totalShares;
            && (r.Ok? <==> && !s.paused && Admits(s.config.whitelist, caller) && TokensManaged(s)
                           && UnderCap(s, run.assets) && IsI128(minted) && IsI128(s.Balance(caller) + minted))
            && (r.Ok? ==> r.value == (Moved(s, caller, minted, run.assets - s.totalDeposited, run.paidIn), run.minted))
  {
    assert 0 < |amounts| <= 20;
  }

  lemma BatchDepositExactly(s: VaultState, caller: Address, amounts: seq<int>)
    ensures var r := VaultModel.BatchDeposit(s, caller, amounts);
            var minted := ExactMints(amounts, s.totalShares, s.totalDeposited);
            var paidIn := Batch.SeqSum(amounts);
            && (r.Ok? <==> BatchDepositAllowed(s, caller, amounts))
            && (r.Ok? ==> r.value == (Moved(s, caller, Batch.SeqSum(minted), paidIn, paidIn), minted))
  {
    hide DepositsFit, ExactMints, Batch.DepositFold;
    DepositFoldExactly(s.totalDeposited, s.totalShares, amounts, s.config.minDeposit);
    var run := Batch.Deposit(s.totalDeposited, s.totalShares, amounts, s.config.minDeposit);
    if run.Ok? {
      BatchDepositCommits(s, caller, amounts, run.value);
    }
  }

  // ----- withdrawals -----

  /** What has been counted against this ledger's limit. */
  function Counted(s: VaultState): int {
    if s.ledger > s.lastWithdrawalLedger then 0 else s.ledgerWithdrawals
  }

  predicate WithinLimit(s: VaultState, redeem: int) {
    s.config.maxWithdrawalBps > 0 ==>
      && IsI128(s.totalDeposited * s.config.maxWithdrawalBps) && IsI128(Counted(s) + redeem)
      && Counted(s) + redeem <= Part(s.totalDeposited, s.config.maxWithdrawalBps)
  }

  function CountIn(s: VaultState, redeem: int): VaultState {
    if s.config.maxWithdrawalBps == 0 then s
    else s.(lastWithdrawalLedger := s.ledger, ledgerWithdrawals := Counted(s) + redeem)
  }

  lemma RateLimitExactly(s: VaultState, redeem: int)
    ensures RateLimit(s, redeem).Ok? <==> WithinLimit(s, redeem)
    ensures RateLimit(s, redeem).Ok? ==> RateLimit(s, redeem).value == CountIn(s, redeem)
  {
  }

  predicate Queues(s: VaultState, redeem: int) { s.config.queueThreshold > 0 && redeem >= s.config.queueThreshold }

  predicate WithdrawAllowed(s: VaultState, caller: Address, shares: int) {
    var redeem := ExactPayment(shares, s.PricedAssets(), s.totalShares);
    && 0 < shares <= s.Balance(caller) && !s.paused && s.tokenBalance == s.totalDeposited
    && PaymentFits(shares, s.PricedAssets(), s.totalShares) && WithinLimit(s, redeem)
    && (Queues(s, redeem) || redeem <= s.tokenBalance)
    && IsI128(s.totalShares - shares) && IsI128(s.totalDeposited - redeem)
  }

  function DueAt(s: VaultState): nat {
    if s.now + s.config.unbondingSecs > U64_MAX then U64_MAX else s.now + s.config.unbondingSecs
  }

  lemma WithdrawExactly(s: VaultState, caller: Address, shares: int)
    ensures var r := VaultModel.Withdraw(s, caller, shares);
            var redeem := ExactPayment(shares, s.PricedAssets(), s.totalShares);
            && (r.Ok? <==> WithdrawAllowed(s, caller, shares))
            && (r.Ok? && !Queues(s, redeem) ==>
                  r.value == (Moved(CountIn(s, redeem), caller, -shares, -redeem, -redeem), Paid(redeem)))
            && (r.Ok? && Queues(s, redeem) ==>
                  r.value == (Moved(CountIn(s, redeem), caller, -shares, -redeem, 0).(
                                queue := s.queue[s.nextId := QueueEntry(caller, shares, redeem, DueAt(s))],
                                nextId := s.nextId + 1),
                              Queued(s.nextId, redeem)))
  {
    var redeem := ExactPayment(shares, s.PricedAssets(), s.totalShares);
    PaymentExactly(shares, s.PricedAssets(), s.totalShares);
    RateLimitExactly(s, redeem);
  }

  predicate EmergencyAllowed(s: VaultState, caller: Address, shares: int) {
    var redeem := ExactPayment(shares, s.totalDeposited, s.totalShares);
    && 0 < shares <= s.Balance(caller) && s.paused
    && PaymentFits(shares, s.totalDeposited, s.totalShares) && WithinLimit(s, redeem)
    && redeem <= s.totalDeposited && redeem <= s.tokenBalance
    && IsI128(s.totalShares - shares) && IsI128(s.totalDeposited - redeem)
  }

  lemma EmergencyWithdrawExactly(s: VaultState, caller: Address, shares: int)
    ensures var r := VaultModel.EmergencyWithdraw(s, caller, shares);
            var redeem := ExactPayment(shares, s.totalDeposited, s.totalShares);
            && (r.Ok? <==> EmergencyAllowed(s, caller, shares))
            && (r.Ok? ==> r.value == (Moved(CountIn(s, redeem), caller, -shares, -redeem, -redeem), redeem))
  {
    var redeem := ExactPayment(shares, s.totalDeposited, s.totalShares);
    PaymentExactly(shares, s.totalDeposited, s.totalShares);
    RateLimitExactly(s, redeem);
  }

  /** All of a batch's redemptions but the queue: items, guards and the caller's balance. */
  predicate BatchWithdrawPasses(s: VaultState, caller: Address, amounts: seq<int>) {
    var redeemed := Batch.SeqSum(ExactPayments(amounts, s.totalDeposited, s.totalShares));
    && 0 < |amounts| <= 20 && !s.paused && TokensManaged(s)
    && WithdrawalsFit(amounts, s.totalDeposited, s.totalShares, s.Balance(caller))
    && redeemed <= s.tokenBalance && IsI128(s.Balance(caller) - Batch.SeqSum(amounts))
  }

  lemma BatchWithdrawCommits(s: VaultState, caller: Address, amounts: seq<int>, run: Batch.WithdrawRun)
    requires Batch.Withdraw(s.totalDeposited, s.totalShares, amounts, s.Balance(caller)) == Ok(run)
    ensures var r := VaultModel.BatchWithdraw(s, caller, amounts);
            var passes := && !s.paused && TokensManaged(s) && run.redeemed <= s.tokenBalance
                          && IsI128(s.Balance(caller) - run.burned);
            && (r.Ok? <==> passes && !Queues(s, run.redeemed))
            && (passes && Queues(s, run.redeemed) ==> r == Err(WithdrawalQueued))
            && (r.Ok? ==> r.value == (Moved(s, caller, -run.burned, -run.redeemed, -run.redeemed).(
                                        totalShares := run.shares, totalDeposited := run.assets),
                                      run.paid))
  {
    assert 0 < |amounts| <= 20;
  }

  /** With everything else in order a batch is paid, at once, exactly when its total stays below the queue. */
  lemma BatchWithdrawExactly(s: VaultState, caller: Address, amounts: seq<int>)
    ensures var r := VaultModel.BatchWithdraw(s, caller, amounts);
            var paid := ExactPayments(amounts, s.totalDeposited, s.totalShares);
            var redeemed, burned := Batch.SeqSum(paid), Batch.SeqSum(amounts);
            && (r.Ok? <==> BatchWithdrawPasses(s, caller, amounts) && !Queues(s, redeemed))
            && (r.Ok? ==> r.value == (Moved(s, caller, -burned, -redeemed, -redeemed), paid))
            && (BatchWithdrawPasses(s, caller, amounts) && Queues(s, redeemed) ==> r == Err(WithdrawalQueued))
  {
    hide WithdrawalsFit, ExactPayments, Batch.WithdrawFold;
    WithdrawFoldExactly(s.totalDeposited, s.totalShares, amounts, s.Balance(caller));
    var run := Batch.Withdraw(s.totalDeposited, s.totalShares, amounts, s.Balance(caller));
    if run.Ok? {
      BatchWithdrawCommits(s, caller, amounts, run.value);
    }
  }

  predicate ClaimAllowed(s: VaultState, caller: Address, id: nat) {
    && !s.paused && id in s.queue && s.queue[id].owner == caller && s.queue[id].claimableAfter <= s.now
    && var amount := s.queue[id].redeemAmount;
    && var fee := Part(amount, s.config.withdrawalFeeBps);
    && 0 < amount - fee <= s.tokenBalance
    && IsI128(amount * s.config.withdrawalFeeBps) && IsI128(amount - fee) && (fee > 0 ==> IsI128(s.fees + fee))
  }

  function Positive(x: int): int { if x > 0 then x else 0 }

  /** A due claim by its owner goes through, for the queued amount less the fee, and the entry is gone. */
  lemma ClaimExactly(s: VaultState, caller: Address, id: nat)
    ensures var r := VaultModel.Claim(s, caller, id);
            && (r.Ok? <==> ClaimAllowed(s, caller, id))
            && (r.Ok? ==>
                  var amount := s.queue[id].redeemAmount;
                  var fee := Part(amount, s.config.withdrawalFeeBps);
                  r.value == (s.(queue := s.queue - {id}, fees := s.fees + Positive(fee),
                                 tokenBalance := s.tokenBalance - (amount - fee)),
                              amount - fee))
  {
  }

  // ----- yield -----

  predicate FeeFits(amount: int, bps: nat) { bps <= 2_000 && IsI128(amount * bps) }

  lemma PerfFeeExactly(amount: int, bps: nat)
    requires amount > 0
    ensures PerfFee(amount, bps).Ok? <==> FeeFits(amount, bps)
    ensures PerfFee(amount, bps).Ok? ==> PerfFee(amount, bps).value == Part(amount, bps)
  {
    assert bps * amount == amount * bps;
  }

  /** The circuit breaker, on while there is a limit and anything is priced. */
  predicate BreakerHolds(s: VaultState, net: int) {
    s.config.priceLimitBps > 0 && s.PricedAssets() > 0 ==>
      && net * 10_000 <= s.PricedAssets() * s.config.priceLimitBps
      && IsI128(net * 10_000) && IsI128(s.PricedAssets() * s.config.priceLimitBps)
  }

  predicate HarvestAllowed(s: VaultState, amount: int) {
    var fee := Part(amount, s.config.perfFeeBps);
    var net := amount - fee;
    && amount > 0 && amount >= s.config.minHarvest && !s.paused && s.totalShares != 0
    && (s.config.cooldownSecs > 0 && s.lastHarvest > 0 ==> s.lastHarvest + s.config.cooldownSecs <= s.now)
    && s.tokenBalance == s.totalDeposited && BreakerHolds(s, net)
    && FeeFits(amount, s.config.perfFeeBps) && IsI128(net)
    && IsI128(s.fees + fee) && IsI128(s.totalDeposited + net) && IsI128(s.Unvested() + net)
  }

  lemma BreakerExactly(s: VaultState, net: int)
    requires net >= 0 && IsI128(net)
    ensures CircuitBreaker(s, s.totalDeposited + net).Ok? <==> BreakerHolds(s, net)
  {
  }

  /** The fee is a part of the yield, so something or nothing is left. */
  lemma NetNonNegative(amount: int, bps: nat)
    requires amount > 0 && bps <= 2_000
    ensures 0 <= Part(amount, bps) <= amount
  {
    MulMono(0, bps, amount);
    MulMono(bps, 10_000, amount);
  }

  lemma HarvestExactly(s: VaultState, amount: int)
    ensures var r := VaultModel.Harvest(s, amount);
            var fee := Part(amount, s.config.perfFeeBps);
            var net := amount - fee;
            && (r.Ok? <==> HarvestAllowed(s, amount))
            && (r.Ok? ==>
                  r.value == (s.(tokenBalance := s.tokenBalance + amount, totalDeposited := s.totalDeposited + net,
                                 fees := s.fees + fee, vestPending := s.Unvested() + net, vestStart := s.ledger,
                                 lastHarvest := s.now),
                              net))
  {
    if amount > 0 && s.config.perfFeeBps <= 2_000 {
      PerfFeeExactly(amount, s.config.perfFeeBps);
      NetNonNegative(amount, s.config.perfFeeBps);
      var net := amount - Part(amount, s.config.perfFeeBps);
      if IsI128(net) {
        BreakerExactly(s, net);
      }
    }
  }

  /** The accumulator's step for a net yield: floor(net·10^12/shares). */
  function YpsStep(net: int, shares: int): int {
    if shares == 0 then 0 else TruncDiv(net * 1_000_000_000_000, shares)
  }

  /** What a step credits in all, against the net yield. */
  predicate Accurate(net: int, shares: int) {
    var credited := TruncDiv(YpsStep(net, shares) * shares, 1_000_000_000_000);
    -TruncDiv(net + 9_999, 10_000) <= credited - net <= TruncDiv(net + 9_999, 10_000)
  }

  predicate YpsStepFits(net: int, shares: int) {
    && shares != 0 && IsI128(net * 1_000_000_000_000) && IsI128(YpsStep(net, shares))
    && IsI128(YpsStep(net, shares) * shares) && IsI128(net + 9_999)
  }

  lemma DeltaYpsExactly(net: int, shares: int)
    requires shares != 0
    ensures DeltaYps(net, shares).Ok? <==>
              YpsStepFits(net, shares) && YpsStep(net, shares) != 0 && Accurate(net, shares)
    ensures DeltaYps(net, shares).Ok? ==> DeltaYps(net, shares).value == YpsStep(net, shares)
  {
  }

  predicate DistributeAllowed(s: VaultState, amount: int) {
    var fee := Part(amount, s.config.perfFeeBps);
    var net := amount - fee;
    && amount > 0 && amount >= s.config.minHarvest && !s.paused && s.totalShares != 0 && TokensManaged(s)
    && YpsStep(net, s.totalShares) != 0 && Accurate(net, s.totalShares) && YpsStepFits(net, s.totalShares)
    && FeeFits(amount, s.config.perfFeeBps) && IsI128(net)
    && IsI128(s.yps + YpsStep(net, s.totalShares)) && IsI128(s.totalDeposited + net) && IsI128(s.fees + fee)
  }

  lemma DistributeExactly(s: VaultState, amount: int)
    ensures var r := VaultModel.Distribute(s, amount);
            var fee := Part(amount, s.config.perfFeeBps);
            var net := amount - fee;
            && (r.Ok? <==> DistributeAllowed(s, amount))
            && (r.Ok? ==>
                  r.value == (s.(tokenBalance := s.tokenBalance + amount, totalDeposited := s.totalDeposited + net,
                                 fees := s.fees + fee, yps := s.yps + YpsStep(net, s.totalShares)),
                              net))
  {
    hide PerfFee, DeltaYps, FeeFits, YpsStepFits, Accurate;
    if amount > 0 && s.totalShares != 0 {
      PerfFeeExactly(amount, s.config.perfFeeBps);
      DeltaYpsExactly(amount - Part(amount, s.config.perfFeeBps), s.totalShares);
    }
  }

  /** The preview reports the same step and split, and whether the step is accurate; a step of zero is not. */
  lemma PreviewExactly(s: VaultState, amount: int)
    ensures var r := PreviewDistribution(s, amount);
            var net := amount - Part(amount, s.config.perfFeeBps);
            var step := YpsStep(net, s.totalShares);
            && (r.Ok? <==> && amount > 0 && s.totalShares != 0 && FeeFits(amount, s.config.perfFeeBps) && IsI128(net)
                           && IsI128(net * 1_000_000_000_000) && IsI128(step)
                           && (step != 0 ==> YpsStepFits(net, s.totalShares)))
            && (r.Ok? && step == 0 ==> r.value == (net, 0, 0, false))
            && (r.Ok? && step != 0 ==>
                  r.value == (net, step, TruncDiv(step * s.totalShares, 1_000_000_000_000),
                              Accurate(net, s.totalShares)))
  {
    hide PerfFee, FeeFits, Part;
    if amount > 0 {
      PerfFeeExactly(amount, s.config.perfFeeBps);
    }
  }

  /** Stored yield and what has accrued since the checkpoint. */
  function Earned(s: VaultState, u: Address): int {
    s.Pending(u) + TruncDiv(s.Balance(u) * (s.yps - s.Checkpoint(u)), 1_000_000_000_000)
  }

  predicate EarnedFits(s: VaultState, u: Address) {
    && IsI128(s.yps - s.Checkpoint(u)) && IsI128(s.Balance(u) * (s.yps - s.Checkpoint(u))) && IsI128(Earned(s, u))
  }

  lemma AccruedExactly(s: VaultState, u: Address)
    ensures Accrued(s, u).Ok? <==> EarnedFits(s, u)
    ensures Accrued(s, u).Ok? ==> Accrued(s, u).value == Earned(s, u)
  {
  }

  /** The view shows what is earned, the stored yield alone when the accrual overflows, zero when the sum does. */
  lemma PendingYieldExactly(s: VaultState, u: Address)
    requires IsI128(s.yps - s.Checkpoint(u)) && IsI128(s.Pending(u))
    ensures s.PendingYield(u) == if EarnedFits(s, u) then Earned(s, u)
                                 else if IsI128(s.Balance(u) * (s.yps - s.Checkpoint(u))) then 0
                                 else s.Pending(u)
  {
  }

  predicate CollectAllowed(s: VaultState, caller: Address) {
    var due := Positive(Earned(s, caller));
    !s.paused && EarnedFits(s, caller) && (due > 0 ==> due <= s.tokenBalance && IsI128(s.totalDeposited - due))
  }

  /** A collection pays out what is earned, if anything, and moves the checkpoint. */
  lemma CollectExactly(s: VaultState, caller: Address)
    ensures var r := VaultModel.Collect(s, caller);
            var due := Positive(Earned(s, caller));
            && (r.Ok? <==> CollectAllowed(s, caller))
            && (r.Ok? ==>
                  r.value == (s.(checkpoints := s.checkpoints[caller := s.yps], pending := s.pending[caller := 0],
                                 tokenBalance := s.tokenBalance - due, totalDeposited := s.totalDeposited - due),
                              due))
  {
    AccruedExactly(s, caller);
  }

  predicate TransferAllowed(s: VaultState, from: Address, to: Address, amount: int) {
    && 0 < amount <= s.Balance(from) && from != to && EarnedFits(s, from) && EarnedFits(s, to)
    && IsI128(s.Balance(from) - amount) && IsI128(s.Balance(to) + amount)
  }

  /** A transfer settles both parties and moves the shares. */
  lemma TransferExactly(s: VaultState, from: Address, to: Address, amount: int)
    ensures var r := VaultModel.Transfer(s, from, to, amount);
            && (r.Ok? <==> TransferAllowed(s, from, to, amount))
            && (r.Ok? ==>
                  var balances := s.balances[from := s.Balance(from) - amount][to := s.Balance(to) + amount];
                  r.value.0 == s.(pending := s.pending[from := Earned(s, from)][to := Earned(s, to)],
                                  checkpoints := s.checkpoints[from := s.yps][to := s.yps], balances := balances))
  {
    AccruedExactly(s, from);
    AccruedExactly(s, to);
    if from != to && Settle(s, from).Ok? {
      AccruedExactly(Settle(s, from).value, to);
    }
  }

  // ----- fees and administration -----

  /** All collected fees are paid out and the cell is cleared, or there are none and nothing changes. */
  lemma WithdrawFeesExactly(s: VaultState)
    ensures var r := VaultModel.WithdrawFees(s);
            && (r.Ok? <==> s.fees <= 0 || (s.config.treasurySet && s.fees <= s.tokenBalance))
            && (r.Ok? && s.fees > 0 ==> r.value == (s.(fees := 0, tokenBalance := s.tokenBalance - s.fees), s.fees))
            && (r.Ok? && s.fees <= 0 ==> r.value == (s, 0))
  {
  }

  lemma ConfigureExactly(s: VaultState, config: Config)
    ensures var r := VaultModel.Configure(s, config);
            && (r.Ok? <==> && config.perfFeeBps <= 2_000 && config.withdrawalFeeBps <= 500
                           && config.maxWithdrawalBps <= 10_000)
            && (r.Ok? ==> r.value.0 == s.(config := config))
  {
  }

  lemma SetVestingPeriodExactly(s: VaultState, ledgers: nat)
    ensures var r := VaultModel.SetVestingPeriod(s, ledgers);
            && (r.Ok? <==> ledgers > 0)
            && (r.Ok? ==> r.value.0 == s.(vestPending := s.Unvested(), vestStart := s.ledger, vestPeriod := ledgers))
  {
  }

  // ----- all calls -----

  /** When a call goes through. */
  ghost predicate Allowed(s: VaultState, a: Action) {
    match a
    case Deposit(caller, amount) => DepositAllowed(s, caller, amount)
    case DepositForMany(_, recipients) => DepositForManyAllowed(s, recipients)
    case BatchDeposit(caller, amounts) => BatchDepositAllowed(s, caller, amounts)
    case Withdraw(caller, shares) => WithdrawAllowed(s, caller, shares)
    case EmergencyWithdraw(caller, shares) => EmergencyAllowed(s, caller, shares)
    case BatchWithdraw(caller, amounts) =>
      && BatchWithdrawPasses(s, caller, amounts)
      && !Queues(s, Batch.SeqSum(ExactPayments(amounts, s.totalDeposited, s.totalShares)))
    case Claim(caller, id) => ClaimAllowed(s, caller, id)
    case Harvest(_, amount) => HarvestAllowed(s, amount)
    case Distribute(_, amount) => DistributeAllowed(s, amount)
    case Collect(caller) => CollectAllowed(s, caller)
    case Transfer(from, to, amount) => TransferAllowed(s, from, to, amount)
    case WithdrawFees => s.fees <= 0 || (s.config.treasurySet && s.fees <= s.tokenBalance)
    case SetVestingPeriod(ledgers) => ledgers > 0
    case Configure(config) =>
      config.perfFeeBps <= 2_000 && config.withdrawalFeeBps <= 500 && config.maxWithdrawalBps <= 10_000
    case SetPaused(_) => true
    case Advance(_, _) => true
  }

  /** Every call goes through exactly when it is allowed, and one that does not changes nothing. */
  lemma CallsGoThroughExactlyWhen(s: VaultState, a: Action)
    ensures !Step(s, a).1.Failed? <==> Allowed(s, a)
    ensures !Allowed(s, a) ==> Step(s, a).0 == s
    ensures a.SetPaused? ==> Step(s, a).0 == s.(paused := a.paused)
  {
    hide DepositAllowed, DepositForManyAllowed, BatchDepositAllowed, WithdrawAllowed, EmergencyAllowed, ClaimAllowed,
      BatchWithdrawPasses, Queues, HarvestAllowed, DistributeAllowed, CollectAllowed, TransferAllowed, ExactPayments,
      VaultModel.Deposit, VaultModel.DepositForMany, VaultModel.BatchDeposit, VaultModel.Withdraw,
      VaultModel.EmergencyWithdraw, VaultModel.BatchWithdraw, VaultModel.Claim, VaultModel.Harvest,
      VaultModel.Distribute, VaultModel.Collect, VaultModel.Transfer;
    match a
    case Deposit(caller, amount) => DepositExactly(s, caller, amount);
    case DepositForMany(_, recipients) => DepositForManyExactly(s, recipients);
    case BatchDeposit(caller, amounts) => BatchDepositExactly(s, caller, amounts);
    case Withdraw(caller, shares) => WithdrawExactly(s, caller, shares);
    case EmergencyWithdraw(caller, shares) => EmergencyWithdrawExactly(s, caller, shares);
    case BatchWithdraw(caller, amounts) => BatchWithdrawExactly(s, caller, amounts);
    case Claim(caller, id) => ClaimExactly(s, caller, id);
    case Harvest(_, amount) => HarvestExactly(s, amount);
    case Distribute(_, amount) => DistributeExactly(s, amount);
    case Collect(caller) => CollectExactly(s, caller);
    case Transfer(from, to, amount) => TransferExactly(s, from, to, amount);
    case WithdrawFees => WithdrawFeesExactly(s);
    case SetVestingPeriod(ledgers) => SetVestingPeriodExactly(s, ledgers);
    case Configure(config) => ConfigureExactly(s, config);
    case SetPaused(_) =>
    case Advance(_, _) =>
  }
}

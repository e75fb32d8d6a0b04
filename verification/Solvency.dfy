/** Which calls keep the tracked deposits non-negative, exactly, and that no payout lacks tokens in a run that does. */
module Solvency {
  import opened Core
  import opened Arith
  import opened Sums
  import opened ShareMath
  import opened VaultModel
  import opened VaultRuns
  import opened Accounts
  import opened YieldAccuracy
  import opened Prices
  import opened Reserves
  import AccountEffects
  import E = EntryPoints
  import Batch
  import Vesting

  /** A collection leaves the tracked deposits non-negative if and only if they cover what is due. */
  lemma CollectStaysSolventExactlyWhen(s: VaultState, caller: Address)
    requires SoundAccount(s, caller) && VaultModel.Collect(s, caller).Ok?
    ensures VaultModel.Collect(s, caller).value.0.totalDeposited >= 0 <==> Due(s, caller) <= s.totalDeposited
  {
    AccountEffects.CollectPaysDue(s, caller);
  }

  /** Through any one call, deposits stay non-negative unless it is a collection that goes through uncovered. */
  lemma StaysSolventExactlyWhen(s: VaultState, a: Action, us: set<Address>)
    requires Accounted(s, us) && a.Users() <= us && Scheduled(s)
    ensures Step(s, a).0.totalDeposited >= 0 <==> CollectionCovered(s, a)
  {
    if CollectionCovered(s, a) {
      StepKeepsScheduled(s, a, us);
    } else {
      assert SoundAccount(s, a.caller);
      CollectStaysSolventExactlyWhen(s, a.caller);
    }
  }

  predicate CollectionsCovered(w: World, actions: seq<Action>) {
    actions == [] || (CollectionsCovered(w, actions[..|actions| - 1])
                      && CollectionCovered(Run(w, actions[..|actions| - 1]).state, actions[|actions| - 1]))
  }

  lemma {:induction false} RunKeepsScheduled(w: World, actions: seq<Action>, us: set<Address>)
    requires Accounted(w.state, us) && YieldCovered(w, us) && Within(actions, us)
    requires Scheduled(w.state) && CollectionsCovered(w, actions)
    ensures Scheduled(Run(w, actions).state)
  {
    if actions != [] {
      var shorter := actions[..|actions| - 1];
      RunKeepsScheduled(w, shorter, us);
      RunKeepsAccounts(w, shorter, us);
      StepKeepsScheduled(Run(w, shorter).state, actions[|actions| - 1], us);
    }
  }

  /** Over every run whose collections are covered, the tracked deposits are never negative. */
  lemma DepositsStayNonNegative(config: Config, ledger: nat, now: nat, actions: seq<Action>, us: set<Address>)
    requires Within(actions, us)
    requires CollectionsCovered(World(Initial(config, ledger, now), NOTHING), actions)
    ensures var s := Run(World(Initial(config, ledger, now), NOTHING), actions).state;
            0 <= s.totalDeposited && Scheduled(s)
  {
    InitialAccounts(config, ledger, now, us);
    RunKeepsScheduled(World(Initial(config, ledger, now), NOTHING), actions, us);
  }

  // ----- every payout is funded -----

  predicate PaysOut(a: Action) {
    a.Withdraw? || a.EmergencyWithdraw? || a.BatchWithdraw? || a.Claim? || a.Collect? || a.WithdrawFees?
  }

  predicate LacksTokens<T(!new)>(r: Result<T>) { r == Err(TransferFailed) || r == Err(InsufficientUnderlying) }

  /** The vault holds at least its tracked deposits, its fees and every single queued redemption. */
  lemma HoldsEnough(w: World)
    requires Reserved(w.state) && QueueTracked(w) && w.state.totalDeposited >= 0
    ensures w.state.tokenBalance >= w.state.totalDeposited && w.state.tokenBalance >= w.state.fees
    ensures forall id | id in w.state.queue :: w.state.tokenBalance >= w.state.queue[id].redeemAmount
  {
    var s := w.state;
    NothingOwed(s.queue);
    forall id | id in s.queue ensures s.tokenBalance >= s.queue[id].redeemAmount {
      SumMember(s.queue.Keys, i => Owed(s.queue, i), id);
    }
  }

  /** Redeeming existing shares pays at most the pool, or nothing at all. */
  lemma RedeemWithinPool(shares: int, pool: int, totalShares: int)
    requires 0 < shares <= totalShares
    ensures AssetsForShares(shares, pool, totalShares).Ok? ==>
              AssetsForShares(shares, pool, totalShares).value <= if pool > 0 then pool else 0
  {
    if AssetsForShares(shares, pool, totalShares).Ok? {
      if pool > 0 {
        RedeemFavoursVault(shares, pool, totalShares);
      } else {
        NothingToRedeem(shares, pool, totalShares);
      }
    }
  }

  lemma WithdrawIsFunded(s: VaultState, caller: Address, shares: int)
    requires s.Balance(caller) <= s.totalShares && 0 <= s.totalDeposited <= s.tokenBalance && s.Unvested() >= 0
    ensures !LacksTokens(VaultModel.Withdraw(s, caller, shares))
  {
    if 0 < shares <= s.Balance(caller) {
      RedeemWithinPool(shares, s.PricedAssets(), s.totalShares);
      if AssetsForShares(shares, s.PricedAssets(), s.totalShares).Ok? {
        assert AssetsForShares(shares, s.PricedAssets(), s.totalShares).value <= s.tokenBalance;
      }
    }
  }

  lemma EmergencyIsFunded(s: VaultState, caller: Address, shares: int)
    requires s.Balance(caller) <= s.totalShares && 0 <= s.totalDeposited <= s.tokenBalance
    ensures !LacksTokens(VaultModel.EmergencyWithdraw(s, caller, shares))
  {
    if 0 < shares <= s.Balance(caller) {
      RedeemWithinPool(shares, s.totalDeposited, s.totalShares);
      if AssetsForShares(shares, s.totalDeposited, s.totalShares).Ok? {
        assert AssetsForShares(shares, s.totalDeposited, s.totalShares).value <= s.totalDeposited;
      }
    }
  }

  lemma {:induction false} FoldLacksNoTokens(start: Batch.WithdrawRun, amounts: seq<int>, balance: int)
    ensures !LacksTokens(Batch.WithdrawFold(start, amounts, balance))
  {
    if amounts != [] {
      FoldLacksNoTokens(start, amounts[..|amounts| - 1], balance);
    }
  }

  lemma BatchPaysWithinDeposits(T: int, S: int, amounts: seq<int>, balance: int)
    requires T >= 0 && S >= 0 && amounts != []
    requires Batch.WithdrawFold(Batch.WithdrawRun(T, S, 0, 0, []), amounts, balance).Ok?
    ensures Batch.WithdrawFold(Batch.WithdrawRun(T, S, 0, 0, []), amounts, balance).value.redeemed <= T
  {
    Batch.WithdrawTotals(T, S, amounts, balance);
    Batch.WithdrawalsBracketShare(T, S, amounts, balance);
  }

  lemma BatchWithdrawIsFunded(s: VaultState, caller: Address, amounts: seq<int>)
    requires s.totalShares >= 0 && 0 <= s.totalDeposited <= s.tokenBalance
    ensures !LacksTokens(VaultModel.BatchWithdraw(s, caller, amounts))
  {
    var T, S, b := s.totalDeposited, s.totalShares, s.Balance(caller);
    FoldLacksNoTokens(Batch.WithdrawRun(T, S, 0, 0, []), amounts, b);
    if amounts != [] && Batch.WithdrawFold(Batch.WithdrawRun(T, S, 0, 0, []), amounts, b).Ok? {
      BatchPaysWithinDeposits(T, S, amounts, b);
    }
  }

  lemma ClaimIsFunded(s: VaultState, caller: Address, id: nat)
    requires id in s.queue ==> 0 < s.queue[id].redeemAmount <= s.tokenBalance
    ensures !LacksTokens(VaultModel.Claim(s, caller, id))
  {
    if id in s.queue {
      var amount := s.queue[id].redeemAmount;
      MulMono(0, s.config.withdrawalFeeBps, amount);
      FloorNonNegative(amount * s.config.withdrawalFeeBps, BASIS_POINTS);
      assert WithdrawalFee(s, amount).Ok? ==> WithdrawalFee(s, amount).value >= 0;
    }
  }

  lemma CollectIsFunded(s: VaultState, caller: Address)
    requires SoundAccount(s, caller) && Due(s, caller) <= s.tokenBalance
    ensures !LacksTokens(VaultModel.Collect(s, caller))
  {
    MulMono(0, s.yps - s.Checkpoint(caller), s.Balance(caller));
    if Accrued(s, caller).Ok? {
      assert Accrued(s, caller).value == Due(s, caller);
    }
  }

  lemma WithdrawFeesIsFunded(s: VaultState)
    requires s.fees <= s.tokenBalance
    ensures !LacksTokens(VaultModel.WithdrawFees(s))
  {
  }

  /** The call, made now, does not fail for want of tokens. */
  predicate Funded(s: VaultState, a: Action)
    requires PaysOut(a)
  {
    match a
    case Withdraw(caller, shares) => !LacksTokens(VaultModel.Withdraw(s, caller, shares))
    case EmergencyWithdraw(caller, shares) => !LacksTokens(VaultModel.EmergencyWithdraw(s, caller, shares))
    case BatchWithdraw(caller, amounts) => !LacksTokens(VaultModel.BatchWithdraw(s, caller, amounts))
    case Claim(caller, id) => !LacksTokens(VaultModel.Claim(s, caller, id))
    case Collect(caller) => !LacksTokens(VaultModel.Collect(s, caller))
    case WithdrawFees => !LacksTokens(VaultModel.WithdrawFees(s))
  }

  lemma PayoutIsFunded(w: World, a: Action, us: set<Address>)
    requires Accounted(w.state, us) && Reserved(w.state) && QueueTracked(w) && Scheduled(w.state)
    requires PaysOut(a) && a.Users() <= us
    requires a.Collect? ==> Due(w.state, a.caller) <= w.state.totalDeposited
    ensures Funded(w.state, a)
  {
    var s := w.state;
    HoldsEnough(w);
    SupplyNonNegative(s, us);
    match a
    case Withdraw(caller, shares) => Vesting.UnvestedIsLinear(s); WithdrawIsFunded(s, caller, shares);
    case EmergencyWithdraw(caller, shares) => EmergencyIsFunded(s, caller, shares);
    case BatchWithdraw(caller, amounts) => BatchWithdrawIsFunded(s, caller, amounts);
    case Claim(caller, id) => ClaimIsFunded(s, caller, id);
    case Collect(caller) =>
      assert SoundAccount(s, caller);
      CollectIsFunded(s, caller);
    case WithdrawFees => WithdrawFeesIsFunded(s);
  }

  /**
   After every run whose collections are covered, no payout fails for want of tokens: neither a
   withdrawal, an emergency or batch exit, a claim or the fees, nor a collection that is itself covered.
   */
  lemma PayoutsAreFunded(config: Config, ledger: nat, now: nat, actions: seq<Action>, us: set<Address>, a: Action)
    requires Within(actions, us) && PaysOut(a) && a.Users() <= us
    requires CollectionsCovered(World(Initial(config, ledger, now), NOTHING), actions)
    requires var s := Run(World(Initial(config, ledger, now), NOTHING), actions).state;
             a.Collect? ==> Due(s, a.caller) <= s.totalDeposited
    ensures Funded(Run(World(Initial(config, ledger, now), NOTHING), actions).state, a)
  {
    var w := World(Initial(config, ledger, now), NOTHING);
    InitialAccounts(config, ledger, now, us);
    RunKeepsAccounts(w, actions, us);
    DepositsStayNonNegative(config, ledger, now, actions, us);
    ReserveIdentity(config, ledger, now, actions);
    PayoutIsFunded(Run(w, actions), a, us);
  }

  /** The queued amount's withdrawal fee, floored, leaves something, and its arithmetic fits. */
  predicate Payable(s: VaultState, amount: int) {
    var fee := amount * s.config.withdrawalFeeBps / 10_000;
    fee < amount && IsI128(amount * s.config.withdrawalFeeBps) && (fee > 0 ==> IsI128(s.fees + fee))
  }

  /**
   The queue is honoured: after every run whose collections are covered, a queued withdrawal that has not been
   claimed can be claimed by its owner exactly when it is due and the vault is open; it then pays the queued
   amount less the fee.
   */
  lemma DueClaimsArePaid(config: Config, ledger: nat, now: nat, actions: seq<Action>, us: set<Address>, id: nat)
    requires Within(actions, us) && CollectionsCovered(World(Initial(config, ledger, now), NOTHING), actions)
    ensures var w := Run(World(Initial(config, ledger, now), NOTHING), actions);
            id in w.history.enqueued && id !in w.history.claimed ==>
              var s, entry := w.state, w.history.enqueued[id];
              var o := Step(s, Claim(entry.owner, id)).1;
              && (!o.Failed? <==> !s.paused && entry.claimableAfter <= s.now && Payable(s, entry.redeemAmount))
              && (!o.Failed? ==> o == Claimed(id, entry.redeemAmount
                                                  - entry.redeemAmount * s.config.withdrawalFeeBps / 10_000))
  {
    var w := Run(World(Initial(config, ledger, now), NOTHING), actions);
    DepositsStayNonNegative(config, ledger, now, actions, us);
    ReserveIdentity(config, ledger, now, actions);
    HoldsEnough(w);
    if id in w.history.enqueued && id !in w.history.claimed {
      assert id in w.state.queue;
      HeldClaim(w.state, id);
    }
  }

  lemma HeldClaim(s: VaultState, id: nat)
    requires id in s.queue && 0 < s.queue[id].redeemAmount <= I128_MAX && s.queue[id].redeemAmount <= s.tokenBalance
    ensures var entry := s.queue[id];
            var r := VaultModel.Claim(s, entry.owner, id);
            && (r.Ok? <==> !s.paused && entry.claimableAfter <= s.now && Payable(s, entry.redeemAmount))
            && (r.Ok? ==> r.value.1 == entry.redeemAmount - entry.redeemAmount * s.config.withdrawalFeeBps / 10_000)
  {
    var amount := s.queue[id].redeemAmount;
    MulMono(0, s.config.withdrawalFeeBps, amount);
    FloorNonNegative(amount * s.config.withdrawalFeeBps, 10_000);
    E.ClaimExactly(s, s.queue[id].owner, id);
  }
}

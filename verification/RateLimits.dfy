/** The per-ledger withdrawal limit over whole runs. */
module RateLimits {
  import opened Core
  import opened Arith
  import opened VaultModel
  import opened VaultRuns
  import Batch

  /** Every configuration the run sets keeps the limit at `bps`. */
  predicate LimitFixed(actions: seq<Action>, bps: nat) {
    forall a | a in actions :: a.Configure? ==> a.config.maxWithdrawalBps == bps
  }

  /** The contract's cells agree with what the run redeemed in this ledger. */
  predicate Tracked(w: World, bps: nat) {
    var s := w.state;
    && s.config.maxWithdrawalBps == bps
    && s.lastWithdrawalLedger <= s.ledger
    && w.history.ledgerRedeemed >= 0
    && w.history.ledgerRedeemed == (if s.lastWithdrawalLedger == s.ledger then s.ledgerWithdrawals else 0)
  }

  predicate IsRedemption(o: Outcome) { o.Redeemed? || o.Enqueued? }

  predicate RateCellsKept(s: VaultState, t: VaultState) {
    && t.lastWithdrawalLedger == s.lastWithdrawalLedger && t.ledgerWithdrawals == s.ledgerWithdrawals
    && t.ledger == s.ledger && t.config == s.config
  }

  lemma RedemptionStep(s: VaultState, a: Action, bps: nat)
    requires a.Withdraw? || a.EmergencyWithdraw?
    requires s.config.maxWithdrawalBps == bps > 0
    ensures var (t, o) := Step(s, a);
            && (IsRedemption(o) <==> !o.Failed?)
            && (o.Failed? ==> t == s)
            && (IsRedemption(o) ==>
                  && o.amount > 0 && RateLimit(s, o.amount).Ok?
                  && RateCellsKept(RateLimit(s, o.amount).value, t))
  {
    if a.Withdraw? {
      if VaultModel.Withdraw(s, a.caller, a.shares).Ok? { WithdrawCells(s, a.caller, a.shares); }
    } else {
      if VaultModel.EmergencyWithdraw(s, a.caller, a.shares).Ok? { EmergencyCells(s, a.caller, a.shares); }
    }
  }

  lemma WithdrawCells(s: VaultState, caller: Address, shares: int)
    requires VaultModel.Withdraw(s, caller, shares).Ok?
    ensures var (t, payout) := VaultModel.Withdraw(s, caller, shares).value;
            payout.amount > 0 && RateLimit(s, payout.amount).Ok? && RateCellsKept(RateLimit(s, payout.amount).value, t)
  {
  }

  lemma EmergencyCells(s: VaultState, caller: Address, shares: int)
    requires VaultModel.EmergencyWithdraw(s, caller, shares).Ok?
    ensures var (t, paid) := VaultModel.EmergencyWithdraw(s, caller, shares).value;
            paid > 0 && RateLimit(s, paid).Ok? && RateCellsKept(RateLimit(s, paid).value, t)
  {
  }

  predicate LeavesRateAlone(a: Action) {
    !a.Withdraw? && !a.EmergencyWithdraw? && !a.Advance? && !a.Configure?
  }

  lemma {:induction false} MintManyCells(s: VaultState, recipients: seq<(Address, int)>)
    requires MintMany(s, recipients).Ok?
    ensures RateCellsKept(s, MintMany(s, recipients).value.0)
  {
    if recipients != [] {
      MintManyCells(s, recipients[..|recipients| - 1]);
    }
  }

  lemma DepositCells(s: VaultState, caller: Address, amount: int)
    ensures VaultModel.Deposit(s, caller, amount).Ok? ==>
              RateCellsKept(s, VaultModel.Deposit(s, caller, amount).value.0)
  {
  }

  lemma BatchDepositCells(s: VaultState, caller: Address, amounts: seq<int>)
    ensures VaultModel.BatchDeposit(s, caller, amounts).Ok? ==>
              RateCellsKept(s, VaultModel.BatchDeposit(s, caller, amounts).value.0)
  {
  }

  lemma BatchWithdrawCells(s: VaultState, caller: Address, amounts: seq<int>)
    ensures VaultModel.BatchWithdraw(s, caller, amounts).Ok? ==>
              RateCellsKept(s, VaultModel.BatchWithdraw(s, caller, amounts).value.0)
  {
  }

  lemma ClaimCells(s: VaultState, caller: Address, id: nat)
    ensures VaultModel.Claim(s, caller, id).Ok? ==> RateCellsKept(s, VaultModel.Claim(s, caller, id).value.0)
  {
  }

  lemma HarvestCells(s: VaultState, amount: int)
    ensures VaultModel.Harvest(s, amount).Ok? ==> RateCellsKept(s, VaultModel.Harvest(s, amount).value.0)
  {
  }

  lemma DistributeCells(s: VaultState, amount: int)
    ensures VaultModel.Distribute(s, amount).Ok? ==> RateCellsKept(s, VaultModel.Distribute(s, amount).value.0)
  {
  }

  lemma CollectCells(s: VaultState, caller: Address)
    ensures VaultModel.Collect(s, caller).Ok? ==> RateCellsKept(s, VaultModel.Collect(s, caller).value.0)
  {
  }

  lemma TransferCells(s: VaultState, from: Address, to: Address, amount: int)
    ensures VaultModel.Transfer(s, from, to, amount).Ok? ==>
              RateCellsKept(s, VaultModel.Transfer(s, from, to, amount).value.0)
  {
  }

  lemma OtherCells(s: VaultState, a: Action)
    requires LeavesRateAlone(a)
    ensures RateCellsKept(s, Step(s, a).0) && !IsRedemption(Step(s, a).1)
  {
    if a.Deposit? || a.DepositForMany? || a.BatchDeposit? {
      MintingCells(s, a);
    } else if a.WithdrawFees? || a.SetVestingPeriod? || a.SetPaused? {
      AdminCells(s, a);
    } else {
      UserCells(s, a);
    }
  }

  lemma MintingCells(s: VaultState, a: Action)
    requires a.Deposit? || a.DepositForMany? || a.BatchDeposit?
    ensures RateCellsKept(s, Step(s, a).0) && !IsRedemption(Step(s, a).1)
  {
    match a
    case Deposit(caller, amount) => DepositCells(s, caller, amount);
    case DepositForMany(_, recipients) =>
      if VaultModel.DepositForMany(s, recipients).Ok? {
        MintManyCells(ReceiveIn(s, TotalAmount(recipients).value), recipients);
      }
    case BatchDeposit(caller, amounts) => BatchDepositCells(s, caller, amounts);
  }

  lemma AdminCells(s: VaultState, a: Action)
    requires a.WithdrawFees? || a.SetVestingPeriod? || a.SetPaused?
    ensures RateCellsKept(s, Step(s, a).0) && !IsRedemption(Step(s, a).1)
  {
  }

  lemma UserCells(s: VaultState, a: Action)
    requires a.BatchWithdraw? || a.Claim? || a.Harvest? || a.Distribute? || a.Collect? || a.Transfer?
    ensures RateCellsKept(s, Step(s, a).0) && !IsRedemption(Step(s, a).1)
  {
    match a
    case BatchWithdraw(caller, amounts) => BatchWithdrawCells(s, caller, amounts);
    case Claim(caller, id) => ClaimCells(s, caller, id);
    case Harvest(_, amount) => HarvestCells(s, amount);
    case Distribute(_, amount) => DistributeCells(s, amount);
    case Collect(caller) => CollectCells(s, caller);
    case Transfer(from, to, amount) => TransferCells(s, from, to, amount);
  }

  lemma StepKeepsTracked(w: World, a: Action, bps: nat)
    requires Tracked(w, bps) && bps > 0
    requires a.Configure? ==> a.config.maxWithdrawalBps == bps
    ensures Tracked(Next(w, a), bps)
    ensures IsRedemption(Step(w.state, a).1) ==>
              && Next(w, a).history.ledgerRedeemed == Next(w, a).state.ledgerWithdrawals
              && Next(w, a).history.ledgerRedeemed <= MaxWithdrawal(w.state)
              && Next(w, a).history.ledgerRedeemed == w.history.ledgerRedeemed + Step(w.state, a).1.amount
              && Step(w.state, a).1.amount > 0
  {
    if a.Withdraw? || a.EmergencyWithdraw? {
      RedemptionStep(w.state, a, bps);
    } else if LeavesRateAlone(a) {
      OtherCells(w.state, a);
    }
  }

  lemma {:induction false} RunKeepsTracked(w: World, actions: seq<Action>, bps: nat)
    requires Tracked(w, bps) && bps > 0 && LimitFixed(actions, bps)
    ensures Tracked(Run(w, actions), bps)
  {
    if actions != [] {
      RunKeepsTracked(w, actions[..|actions| - 1], bps);
      StepKeepsTracked(Run(w, actions[..|actions| - 1]), actions[|actions| - 1], bps);
    }
  }

  /** What the next redemption may do, given everything redeemed so far in this ledger. */
  predicate LimitRespected(w: World, a: Action, bps: nat) {
    var after := Next(w, a);
    && (w.state.lastWithdrawalLedger == w.state.ledger ==> w.history.ledgerRedeemed == w.state.ledgerWithdrawals)
    && (IsRedemption(Step(w.state, a).1) ==>
          && after.history.ledgerRedeemed == w.history.ledgerRedeemed + Step(w.state, a).1.amount
          && after.history.ledgerRedeemed == after.state.ledgerWithdrawals
          && w.state.totalDeposited > 0 && after.history.ledgerRedeemed <= w.state.totalDeposited * bps / 10_000)
  }

  lemma TrackedRespectsLimit(w: World, a: Action, bps: nat)
    requires Tracked(w, bps) && bps > 0 && (a.Withdraw? || a.EmergencyWithdraw?)
    ensures LimitRespected(w, a, bps)
  {
    StepKeepsTracked(w, a, bps);
    if IsRedemption(Step(w.state, a).1) {
      PositiveWithinShare(w.state.totalDeposited, bps, Next(w, a).history.ledgerRedeemed);
    }
  }

  /** Something positive within the truncated share of the deposits is within the floor of a positive one. */
  lemma PositiveWithinShare(deposited: int, bps: nat, total: int)
    requires 0 < total <= TruncDiv(deposited * bps, BASIS_POINTS)
    ensures deposited > 0 && total <= deposited * bps / 10_000
  {
    if deposited <= 0 {
      MulMono(0, -deposited, bps);
      FloorNonNegative(-(deposited * bps), BASIS_POINTS);
      if deposited * bps == 0 { FloorUnique(0, BASIS_POINTS, 0); }
    } else {
      MulMono(0, deposited, bps);
    }
  }

  /**
   The rate limit over runs: with the limit fixed at b > 0, everything redeemed through `withdraw` and
   `emergency_withdraw` in a ledger sums exactly to CurrentLedgerWithdrawals, and each redemption
   leaves that sum at most floor(T·b/10000) for the total deposited T just before it.
   */
  lemma LedgerLimitHolds(config: Config, ledger: nat, now: nat, actions: seq<Action>, a: Action)
    requires config.maxWithdrawalBps > 0
    requires LimitFixed(actions, config.maxWithdrawalBps)
    requires a.Withdraw? || a.EmergencyWithdraw?
    ensures LimitRespected(Run(World(Initial(config, ledger, now), NOTHING), actions), a, config.maxWithdrawalBps)
  {
    var w0 := World(Initial(config, ledger, now), NOTHING);
    RunKeepsTracked(w0, actions, config.maxWithdrawalBps);
    TrackedRespectsLimit(Run(w0, actions), a, config.maxWithdrawalBps);
  }

  // ----- all three redemption paths -----

  /** The setter's promise: floor(T·b/10000) of the assets may leave in a ledger. */
  function LedgerShare(s: VaultState, bps: nat): int { s.totalDeposited * bps / 10_000 }

  /** What the contract's own cells say was withdrawn in this ledger. */
  function LedgerCount(s: VaultState): int { if s.lastWithdrawalLedger == s.ledger then s.ledgerWithdrawals else 0 }

  /** Everything redeemed for shares in this ledger: counted withdrawals, and batches, which the limit never sees. */
  function AllRedeemed(h: History): int { h.ledgerRedeemed + h.batchRedeemed }

  predicate RedeemsShares(o: Outcome) { IsRedemption(o) || o.BatchRedeemed? }

  /** A successful batch of withdrawals pays what it redeems, and leaves the contract's count as it was. */
  lemma BatchUncounted(s: VaultState, a: Action)
    requires a.BatchWithdraw? && !Step(s, a).1.Failed?
    ensures var (t, o) := Step(s, a);
            && o.BatchRedeemed? && o.total > 0 && o.total == s.tokenBalance - t.tokenBalance
            && o.total == s.totalDeposited - t.totalDeposited
            && LedgerCount(t) == LedgerCount(s)
  {
    BatchWithdrawCells(s, a.caller, a.amounts);
    Batch.WithdrawTotals(s.totalDeposited, s.totalShares, a.amounts, s.Balance(a.caller));
  }

  /** The next redemption against the setter's promise for the whole ledger. */
  predicate PromiseJudged(w: World, a: Action, bps: nat) {
    var after, share := Next(w, a), LedgerShare(w.state, bps);
    RedeemsShares(Step(w.state, a).1) ==>
      && LedgerCount(after.state) == after.history.ledgerRedeemed
      && (AllRedeemed(after.history) <= share <==> after.history.batchRedeemed <= share - LedgerCount(after.state))
      && (!a.BatchWithdraw? && w.history.batchRedeemed == 0 ==> AllRedeemed(after.history) <= share)
  }

  lemma TrackedJudgesPromise(w: World, a: Action, bps: nat)
    requires Tracked(w, bps) && bps > 0
    ensures PromiseJudged(w, a, bps)
  {
    if a.Withdraw? || a.EmergencyWithdraw? {
      StepKeepsTracked(w, a, bps);
      TrackedRespectsLimit(w, a, bps);
      CountedStep(w, a);
    } else if RedeemsShares(Step(w.state, a).1) {
      OnlyExitsRedeem(w.state, a);
      BatchUncounted(w.state, a);
    }
  }

  lemma CountedStep(w: World, a: Action)
    requires a.Withdraw? || a.EmergencyWithdraw?
    ensures Next(w, a).history.batchRedeemed == w.history.batchRedeemed
  {
  }

  lemma OnlyExitsRedeem(s: VaultState, a: Action)
    requires RedeemsShares(Step(s, a).1)
    ensures a.Withdraw? || a.EmergencyWithdraw? || a.BatchWithdraw?
  {
  }

  /**
   The setter's promise over runs: after any run with the limit fixed, the next redemption through any of
   the three paths leaves everything redeemed in its ledger within floor(T·b/10000) if and only if the
   batches of the ledger fit in what the contract's own count leaves of it. A counted redemption in a
   ledger without batches always does.
   */
  lemma WholeLedgerLimitExactlyWhen(config: Config, ledger: nat, now: nat, actions: seq<Action>, a: Action)
    requires config.maxWithdrawalBps > 0 && LimitFixed(actions, config.maxWithdrawalBps)
    ensures PromiseJudged(Run(World(Initial(config, ledger, now), NOTHING), actions), a, config.maxWithdrawalBps)
  {
    var w0 := World(Initial(config, ledger, now), NOTHING);
    RunKeepsTracked(w0, actions, config.maxWithdrawalBps);
    TrackedJudgesPromise(Run(w0, actions), a, config.maxWithdrawalBps);
  }

  lemma BatchHistoryStep(w: World, a: Action)
    requires !a.BatchWithdraw?
    ensures Next(w, a).history.batchRedeemed == w.history.batchRedeemed || Next(w, a).history.batchRedeemed == 0
  {
  }

  lemma {:induction false} NoBatchesNothingUncounted(w: World, actions: seq<Action>)
    requires w.history.batchRedeemed == 0 && forall a | a in actions :: !a.BatchWithdraw?
    ensures Run(w, actions).history.batchRedeemed == 0
  {
    if actions != [] {
      NoBatchesNothingUncounted(w, actions[..|actions| - 1]);
      BatchHistoryStep(Run(w, actions[..|actions| - 1]), actions[|actions| - 1]);
    }
  }

  /** In runs without batches the promise is kept by every redemption. */
  lemma LimitHoldsWithoutBatches(config: Config, ledger: nat, now: nat, actions: seq<Action>, a: Action)
    requires config.maxWithdrawalBps > 0 && LimitFixed(actions, config.maxWithdrawalBps)
    requires !a.BatchWithdraw? && forall b | b in actions :: !b.BatchWithdraw?
    ensures var w := Run(World(Initial(config, ledger, now), NOTHING), actions);
            RedeemsShares(Step(w.state, a).1) ==>
              AllRedeemed(Next(w, a).history) <= w.state.totalDeposited * config.maxWithdrawalBps / 10_000
  {
    WholeLedgerLimitExactlyWhen(config, ledger, now, actions, a);
    NoBatchesNothingUncounted(World(Initial(config, ledger, now), NOTHING), actions);
  }
}

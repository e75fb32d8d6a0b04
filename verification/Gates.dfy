/** When a call is let through at all: the pause switch, deposit limits and the harvest cooldown. */
module Gates {
  import opened Core
  import opened VaultModel
  import opened VaultRuns
  import opened Accounts
  import opened Reserves
  import Batch

  // ----- the pause switch -----

  /** Calls that take tokens in or let them out in normal operation. */
  predicate NormalOperation(a: Action) {
    IsMinting(a) || a.Withdraw? || a.BatchWithdraw? || a.Claim? || a.Harvest? || a.Distribute? || a.Collect?
  }

  /**
   The pause switch divides the calls: while paused no normal operation succeeds, while not paused no
   emergency withdrawal does. Either way the refused call changes nothing.
   */
  lemma PauseDividesCalls(s: VaultState, a: Action)
    ensures NormalOperation(a) && s.paused ==> Step(s, a).1.Failed? && Step(s, a).0 == s
    ensures a.EmergencyWithdraw? && !s.paused ==> Step(s, a).1.Failed? && Step(s, a).0 == s
  {
    if IsMinting(a) {
      PauseStopsDeposits(s, a);
    } else if s.paused && NormalOperation(a) {
      PauseStopsTheRest(s, a);
    }
  }

  lemma PauseStopsDeposits(s: VaultState, a: Action)
    requires IsMinting(a)
    ensures s.paused ==> Step(s, a).1.Failed? && Step(s, a).0 == s
  {
  }

  lemma PauseStopsTheRest(s: VaultState, a: Action)
    requires s.paused && !IsMinting(a) && NormalOperation(a)
    ensures Step(s, a).1.Failed? && Step(s, a).0 == s
  {
  }

  // ----- deposit limits -----

  /** No deposit path takes the tracked deposits past the cap. */
  lemma DepositsStayUnderCap(s: VaultState, a: Action)
    requires IsMinting(a) && s.config.tvlCap > 0 && !Step(s, a).1.Failed?
    ensures s.totalDeposited < Step(s, a).0.totalDeposited <= s.config.tvlCap
  {
    match a
    case Deposit(caller, amount) =>
    case DepositForMany(_, recipients) =>
      TotalAmountPositive(recipients);
      MintManyTotals(ReceiveIn(s, TotalAmount(recipients).value), recipients);
    case BatchDeposit(caller, amounts) =>
      Batch.DepositTotals(s.totalDeposited, s.totalShares, amounts, s.config.minDeposit);
  }

  /** Every amount of a batch that goes through is positive and meets the minimum. */
  lemma {:induction false} BatchItemsMeetMinimum(start: Batch.DepositRun, amounts: seq<int>, minimum: int, i: nat)
    requires i < |amounts| && Batch.DepositFold(start, amounts, minimum).Ok?
    ensures amounts[i] > 0 && amounts[i] >= minimum
  {
    if i < |amounts| - 1 {
      BatchItemsMeetMinimum(start, amounts[..|amounts| - 1], minimum, i);
    }
  }

  /** While a list is on, only its members deposit for themselves; a caller's batch asks for the whitelist alone. */
  lemma DepositorsAreListed(s: VaultState, a: Action)
    requires !Step(s, a).1.Failed?
    ensures a.Deposit? ==> Listed(s.config.allowlist, a.caller) && Listed(s.config.whitelist, a.caller)
    ensures a.BatchDeposit? ==> Listed(s.config.whitelist, a.caller)
  {
  }

  // ----- the harvest cooldown over runs -----

  /** Only a harvest moves the harvest clock. */
  lemma OthersKeepHarvestClock(s: VaultState, a: Action)
    requires !a.Harvest?
    ensures Step(s, a).0.lastHarvest == s.lastHarvest && !Step(s, a).1.Harvested?
  {
    if IsMinting(a) {
      DepositsKeepHarvestClock(s, a);
    } else if IsBurning(a) || a.Claim? {
      ExitsKeepHarvestClock(s, a);
    } else {
      TheRestKeepHarvestClock(s, a);
    }
  }

  lemma DepositsKeepHarvestClock(s: VaultState, a: Action)
    requires IsMinting(a)
    ensures Step(s, a).0.lastHarvest == s.lastHarvest && !Step(s, a).1.Harvested?
  {
    if a.DepositForMany? && VaultModel.DepositForMany(s, a.recipients).Ok? {
      MintManyTotals(ReceiveIn(s, TotalAmount(a.recipients).value), a.recipients);
    }
  }

  lemma ExitsKeepHarvestClock(s: VaultState, a: Action)
    requires IsBurning(a) || a.Claim?
    ensures Step(s, a).0.lastHarvest == s.lastHarvest && !Step(s, a).1.Harvested?
  {
  }

  lemma TheRestKeepHarvestClock(s: VaultState, a: Action)
    requires !a.Harvest? && !IsMinting(a) && !IsBurning(a) && !a.Claim?
    ensures Step(s, a).0.lastHarvest == s.lastHarvest && !Step(s, a).1.Harvested?
  {
  }

  /** When the run's last successful harvest was; zero before the first. */
  function LastHarvestAt(w: World, actions: seq<Action>): nat {
    if actions == [] then w.state.lastHarvest
    else
      var before := Run(w, actions[..|actions| - 1]).state;
      if Step(before, actions[|actions| - 1]).1.Harvested? then before.now
        else LastHarvestAt(w, actions[..|actions| - 1])
  }

  lemma {:induction false} HarvestClockIsLastHarvest(w: World, actions: seq<Action>)
    ensures Run(w, actions).state.lastHarvest == LastHarvestAt(w, actions)
  {
    if actions != [] {
      var before, a := Run(w, actions[..|actions| - 1]).state, actions[|actions| - 1];
      HarvestClockIsLastHarvest(w, actions[..|actions| - 1]);
      if a.Harvest? {
        HarvestMovesClock(before, a.amount);
      } else {
        OthersKeepHarvestClock(before, a);
      }
    }
  }

  lemma HarvestMovesClock(s: VaultState, amount: int)
    ensures VaultModel.Harvest(s, amount).Ok? ==>
              && VaultModel.Harvest(s, amount).value.0.lastHarvest == s.now
              && (s.config.cooldownSecs > 0 && s.lastHarvest > 0 ==> s.now >= s.lastHarvest + s.config.cooldownSecs)
  {
  }

  /**
   The cooldown over runs: whatever a run has done, a harvest that succeeds next comes at least the
   configured cooldown after the run's last successful one. (A harvest at timestamp zero starts no cooldown.)
   */
  lemma HarvestsKeepTheirDistance(config: Config, ledger: nat, now: nat, actions: seq<Action>, a: Action)
    ensures var w := World(Initial(config, ledger, now), NOTHING);
            var s := Run(w, actions).state;
            Step(s, a).1.Harvested? && LastHarvestAt(w, actions) > 0 ==>
              s.now >= LastHarvestAt(w, actions) + s.config.cooldownSecs || s.config.cooldownSecs == 0
  {
    var w := World(Initial(config, ledger, now), NOTHING);
    var s := Run(w, actions).state;
    HarvestClockIsLastHarvest(w, actions);
    if a.Harvest? {
      HarvestMovesClock(s, a.amount);
    } else {
      OthersKeepHarvestClock(s, a);
    }
  }
}

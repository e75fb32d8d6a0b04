/**
 The vault's structural invariants over whole runs, on the quantities their checks read: the test suite's
 on `total_assets()`, which is the deposits less the unvested yield, and the contract's own health check
 on the tracked deposits. Each is decided call by call, exactly, and so for every run.
 */
module TotalAssets {
  import opened Core
  import opened Arith
  import opened ShareMath
  import opened VaultModel
  import opened VaultRuns
  import opened Accounts
  import opened Vesting
  import opened YieldAccuracy
  import opened Prices
  import Batch

  // ----- what every point of a run has, decided by its calls -----

  /** At the start, after every call and at the end. */
  predicate Always(w: World, actions: seq<Action>, holds: VaultState -> bool) {
    holds(Run(w, actions).state) && (actions == [] || Always(w, actions[..|actions| - 1], holds))
  }

  predicate AllCalls(w: World, actions: seq<Action>, ok: (VaultState, Action) -> bool) {
    actions == [] || (AllCalls(w, actions[..|actions| - 1], ok)
                      && ok(Run(w, actions[..|actions| - 1]).state, actions[|actions| - 1]))
  }

  /** The calls `ok` picks out are exactly those that keep what `holds` says, from states with `sound`. */
  ghost predicate Decides(us: set<Address>, sound: VaultState -> bool, holds: VaultState -> bool,
                          ok: (VaultState, Action) -> bool)
  {
    && (forall s: VaultState :: sound(s) ==> holds(s))
    && (forall s: VaultState, a: Action | Accounted(s, us) && a.Users() <= us && sound(s) ::
          (holds(Step(s, a).0) <==> ok(s, a)) && (ok(s, a) ==> sound(Step(s, a).0)))
  }

  lemma {:induction false} RunDecided(w: World, actions: seq<Action>, us: set<Address>, sound: VaultState -> bool,
                                      holds: VaultState -> bool, ok: (VaultState, Action) -> bool)
    requires Accounted(w.state, us) && YieldCovered(w, us) && Within(actions, us)
    requires sound(w.state) && Decides(us, sound, holds, ok)
    ensures Always(w, actions, holds) <==> AllCalls(w, actions, ok)
    ensures AllCalls(w, actions, ok) ==> sound(Run(w, actions).state)
  {
    if actions != [] {
      var shorter, a := actions[..|actions| - 1], actions[|actions| - 1];
      RunDecided(w, shorter, us, sound, holds, ok);
      RunKeepsAccounts(w, shorter, us);
      var mid := Run(w, shorter).state;
      assert a.Users() <= us;
      if AllCalls(w, shorter, ok) {
        assert holds(Step(mid, a).0) <==> ok(mid, a);
        assert Run(w, actions).state == Step(mid, a).0;
      }
    }
  }

  // ----- total_assets() is never negative -----

  /** With the unvested yield non-negative, total assets are so exactly when the deposits cover it. */
  lemma PricedSign(s: VaultState)
    requires IsI128(s.totalDeposited) && s.Unvested() >= 0
    ensures s.PricedAssets() >= 0 <==> s.Unvested() <= s.totalDeposited
  {
  }

  /**
   What is paid at the plain price, or collected, is no more than total assets: the only calls that can pay
   out more than has vested are a collection, an emergency exit and a batch exit.
   */
  predicate PaysFromVested(s: VaultState, a: Action) {
    && (a.Collect? ==> Due(s, a.caller) <= s.PricedAssets())
    && (a.EmergencyWithdraw? && s.totalShares > 0 ==>
          a.shares * s.totalDeposited / s.totalShares <= s.PricedAssets())
    && (a.BatchWithdraw? ==>
          var run := Batch.Withdraw(s.totalDeposited, s.totalShares, a.amounts, s.Balance(a.caller));
          run.Ok? ==> run.value.redeemed <= s.PricedAssets())
  }

  predicate VestedCall(s: VaultState, a: Action) { Step(s, a).1.Failed? || PaysFromVested(s, a) }

  /** A state reached by paying `paid` out of the tracked deposits. */
  lemma PaidOut(s: VaultState, t: VaultState, paid: int)
    requires VestedBacked(s) && SameVesting(s, t) && t.totalShares >= 0
    requires t.totalDeposited == s.totalDeposited - paid && IsI128(t.totalDeposited)
    ensures t.PricedAssets() >= 0 <==> paid <= s.PricedAssets()
    ensures paid <= s.PricedAssets() ==> VestedBacked(t)
  {
    UnvestedIsLinear(s);
    SameUnvested(s, t);
    PricedIsDifference(s);
    PricedSign(t);
  }

  lemma EmergencyFloor(s: VaultState, caller: Address, shares: int, us: set<Address>)
    requires Accounted(s, us) && Scheduled(s) && VaultModel.EmergencyWithdraw(s, caller, shares).Ok?
    ensures s.totalShares > 0
    ensures var (t, paid) := VaultModel.EmergencyWithdraw(s, caller, shares).value;
            && paid == shares * s.totalDeposited / s.totalShares && 0 < paid <= s.totalDeposited
            && SameVesting(s, t) && t.totalDeposited == s.totalDeposited - paid
            && t.totalShares == s.totalShares - shares >= 0 && shares > 0
            && (shares == s.totalShares ==> paid == s.totalDeposited)
  {
    SupplyNonNegative(s, us);
    EmergencyTotals(s, caller, shares);
    RedeemFavoursVault(shares, s.totalDeposited, s.totalShares);
    MulMono(0, s.totalDeposited, shares);
  }

  lemma PlainExitDecided(s: VaultState, a: Action, us: set<Address>)
    requires a.EmergencyWithdraw? || a.BatchWithdraw?
    requires Accounted(s, us) && VestedBacked(s) && !Step(s, a).1.Failed?
    ensures Step(s, a).0.PricedAssets() >= 0 <==> PaysFromVested(s, a)
    ensures PaysFromVested(s, a) ==> VestedBacked(Step(s, a).0)
  {
    if a.EmergencyWithdraw? {
      EmergencyFloor(s, a.caller, a.shares, us);
      var (t, paid) := VaultModel.EmergencyWithdraw(s, a.caller, a.shares).value;
      PaidOut(s, t, paid);
    } else {
      var t := VaultModel.BatchWithdraw(s, a.caller, a.amounts).value.0;
      BatchExitTotals(s, a.caller, a.amounts);
      BatchPaid(s, a.caller, a.amounts);
      PaidOut(s, t, s.totalDeposited - t.totalDeposited);
    }
  }

  /** All calls but collections and plain-priced exits keep the unvested yield inside the deposits. */
  lemma OtherCallsStayVested(s: VaultState, a: Action, us: set<Address>)
    requires !a.Collect? && !a.EmergencyWithdraw? && !a.BatchWithdraw?
    requires Accounted(s, us) && a.Users() <= us && VestedBacked(s)
    ensures VestedBacked(Step(s, a).0)
  {
    VestedStep(s, a, us);
  }

  /**
   `total_assets()` through one call: it stays non-negative if and only if the call fails or does not pay
   more than has vested — by a collection, or by an emergency or batch exit at the plain price.
   */
  lemma TotalAssetsKeptExactlyWhen(s: VaultState, a: Action, us: set<Address>)
    requires Accounted(s, us) && a.Users() <= us && VestedBacked(s)
    ensures Step(s, a).0.PricedAssets() >= 0 <==> VestedCall(s, a)
    ensures VestedCall(s, a) ==> VestedBacked(Step(s, a).0)
  {
    PricedIsDifference(s);
    if Step(s, a).1.Failed? {
      FailedCallKeepsBacking(s, a);
    } else if a.Collect? {
      assert SoundAccount(s, a.caller);
      CollectMoves(s, a.caller);
      PaidOut(s, VaultModel.Collect(s, a.caller).value.0, Due(s, a.caller));
    } else if a.EmergencyWithdraw? || a.BatchWithdraw? {
      PlainExitDecided(s, a, us);
    } else {
      OtherCallsStayVested(s, a, us);
      PricedIsDifference(Step(s, a).0);
    }
  }

  predicate NonNegative(s: VaultState) { s.PricedAssets() >= 0 }

  /**
   Over every run: total assets are never negative, at any point, if and only if every call pays from what has
   vested.
   */
  lemma TotalAssetsNeverNegativeExactlyWhen(config: Config, ledger: nat, now: nat, actions: seq<Action>,
                                            us: set<Address>)
    requires Within(actions, us)
    ensures var w := World(Initial(config, ledger, now), NOTHING);
            Always(w, actions, NonNegative) <==> AllCalls(w, actions, VestedCall)
  {
    var w := World(Initial(config, ledger, now), NOTHING);
    InitialAccounts(config, ledger, now, us);
    InitialPrices(config, ledger, now);
    forall s: VaultState | VestedBacked(s) ensures NonNegative(s) { PricedIsDifference(s); }
    forall s: VaultState, a: Action | Accounted(s, us) && a.Users() <= us && VestedBacked(s)
      ensures (NonNegative(Step(s, a).0) <==> VestedCall(s, a)) && (VestedCall(s, a) ==> VestedBacked(Step(s, a).0))
    {
      TotalAssetsKeptExactlyWhen(s, a, us);
    }
    RunDecided(w, actions, us, VestedBacked, NonNegative, VestedCall);
  }

  // ----- no shares means no total_assets() -----

  predicate NothingStranded(s: VaultState) { s.totalShares == 0 ==> s.PricedAssets() == 0 }

  /**
   The calls that can strand total assets in an empty vault, or take them below zero: the last share leaving
   at the plain price while yield is unvested, a collection after the last share has gone, and ledgers
   closing while yield left behind still vests.
   */
  predicate StrandsNothing(s: VaultState, a: Action) {
    && (a.EmergencyWithdraw? ==> a.shares < s.totalShares || s.Unvested() == 0)
    && (a.BatchWithdraw? ==> Batch.SeqSum(a.amounts) < s.totalShares || s.Unvested() == 0)
    && (a.Collect? ==> s.totalShares > 0 || Due(s, a.caller) == 0)
    && (a.Advance? ==>
          s.totalShares > 0 || VaultModel.Advance(s, a.ledgers, a.seconds).Unvested() == s.Unvested())
  }

  predicate CleanCall(s: VaultState, a: Action) { Step(s, a).1.Failed? || StrandsNothing(s, a) }

  /** An empty, clean vault tracks exactly its unvested yield. */
  lemma EmptyTracksUnvested(s: VaultState)
    requires Scheduled(s) && NothingStranded(s) && s.totalShares == 0
    ensures s.totalDeposited == s.Unvested() && VestedBacked(s)
  {
    UnvestedIsLinear(s);
  }

  /** The last shares leave at the plain price: all deposits are paid, and total assets are minus the unvested yield. */
  lemma LastPlainExit(s: VaultState, t: VaultState)
    requires Scheduled(s) && SameVesting(s, t) && t.totalDeposited == 0
    ensures t.PricedAssets() == 0 <==> s.Unvested() == 0
  {
    UnvestedIsLinear(s);
    SameUnvested(s, t);
  }

  lemma PlainExitStrands(s: VaultState, a: Action, us: set<Address>)
    requires a.EmergencyWithdraw? || a.BatchWithdraw?
    requires Accounted(s, us) && Scheduled(s) && !Step(s, a).1.Failed?
    ensures NothingStranded(Step(s, a).0) <==> StrandsNothing(s, a)
  {
    if a.EmergencyWithdraw? {
      EmergencyFloor(s, a.caller, a.shares, us);
      var t := VaultModel.EmergencyWithdraw(s, a.caller, a.shares).value.0;
      if a.shares == s.totalShares { LastPlainExit(s, t); }
    } else {
      var t := VaultModel.BatchWithdraw(s, a.caller, a.amounts).value.0;
      BatchWithdrawFindsPool(s, a.caller, a.amounts);
      BatchWithdrawRedeems(s, a.caller, a.amounts);
      BatchExitTotals(s, a.caller, a.amounts);
      if t.totalShares == 0 { LastPlainExit(s, t); }
    }
  }

  lemma WithdrawStrandsNothing(s: VaultState, a: Action, us: set<Address>)
    requires a.Withdraw? && Accounted(s, us) && Scheduled(s) && !Step(s, a).1.Failed?
    ensures NothingStranded(Step(s, a).0)
  {
    WithdrawFindsPool(s, a.caller, a.shares, us);
    WithdrawRedeems(s, a.caller, a.shares, us);
    VestedRedemptionKeeps(s, VaultModel.Withdraw(s, a.caller, a.shares).value.0);
    SameUnvested(s, VaultModel.Withdraw(s, a.caller, a.shares).value.0);
  }

  lemma CollectStrands(s: VaultState, a: Action, us: set<Address>)
    requires a.Collect? && Accounted(s, us) && a.Users() <= us && Scheduled(s) && NothingStranded(s)
    requires !Step(s, a).1.Failed?
    ensures NothingStranded(Step(s, a).0) <==> StrandsNothing(s, a)
  {
    assert SoundAccount(s, a.caller);
    var t := VaultModel.Collect(s, a.caller).value.0;
    CollectMoves(s, a.caller);
    SameUnvested(s, t);
    if s.totalShares == 0 {
      EmptyTracksUnvested(s);
    } else {
      SupplyNonNegative(s, us);
    }
  }

  lemma TimeStrands(s: VaultState, ledgers: nat, seconds: nat)
    requires Scheduled(s) && NothingStranded(s)
    ensures NothingStranded(VaultModel.Advance(s, ledgers, seconds)) <==>
            StrandsNothing(s, Action.Advance(ledgers, seconds))
  {
    var t := VaultModel.Advance(s, ledgers, seconds);
    if s.totalShares == 0 {
      EmptyTracksUnvested(s);
      VestsAsLedgersClose(s, ledgers, seconds);
      UnvestedIsLinear(t);
    }
  }

  lemma AssetsMoveStrandNothing(s: VaultState, a: Action)
    requires MovesAssets(a) && !a.Advance? && Scheduled(s) && NothingStranded(s)
    ensures NothingStranded(Step(s, a).0)
  {
    YieldAndTimeKeep(s, a);
    if s.totalShares == 0 && a.SetVestingPeriod? && a.ledgers > 0 {
      PeriodChangeKeepsPricedAssets(s, a.ledgers);
    } else if s.totalShares == 0 {
      EmptyVaultEarnsNothing(s, a);
    }
  }

  lemma EmptyVaultEarnsNothing(s: VaultState, a: Action)
    requires s.totalShares == 0 && (a.Harvest? || a.Distribute? || (a.SetVestingPeriod? && a.ledgers == 0))
    ensures Step(s, a).0 == s
  {
  }

  /**
   "No shares means no total assets" through one call: kept if and only if the call fails or is none of the
   four that strand. A last `withdraw` always keeps it; what it leaves behind starts to count as it vests.
   */
  lemma NothingStrandedExactlyWhen(s: VaultState, a: Action, us: set<Address>)
    requires Accounted(s, us) && a.Users() <= us && Scheduled(s) && NothingStranded(s)
    ensures NothingStranded(Step(s, a).0) <==> CleanCall(s, a)
  {
    if Step(s, a).1.Failed? {
      FailedCallKeepsBacking(s, a);
    } else if a.EmergencyWithdraw? || a.BatchWithdraw? {
      PlainExitStrands(s, a, us);
    } else if a.Withdraw? {
      WithdrawStrandsNothing(s, a, us);
    } else if a.Collect? {
      CollectStrands(s, a, us);
    } else if a.Advance? {
      TimeStrands(s, a.ledgers, a.seconds);
    } else if MovesAssets(a) {
      AssetsMoveStrandNothing(s, a);
    } else if MovesNothing(a) {
      QuietCallsKeepPools(s, a);
    } else {
      MintStepKeepsScheduled(s, a);
      MintsLeaveShares(s, a);
    }
  }

  lemma MintsLeaveShares(s: VaultState, a: Action)
    requires IsMinting(a) && Scheduled(s) && !Step(s, a).1.Failed?
    ensures Step(s, a).0.totalShares > 0
  {
    match a
    case Deposit(caller, amount) => DepositShape(s, caller, amount);
    case DepositForMany(_, recipients) => DepositForManyIsPlain(s, recipients);
    case BatchDeposit(caller, amounts) => BatchDepositIsPlain(s, caller, amounts);
  }

  /** The first and third documented invariants together. */
  predicate Healthy(s: VaultState) { NonNegative(s) && NothingStranded(s) }

  predicate HealthyCall(s: VaultState, a: Action) { VestedCall(s, a) && CleanCall(s, a) }

  predicate SoundAndClean(s: VaultState) { VestedBacked(s) && NothingStranded(s) }

  /**
   Over every run: at every point total assets are non-negative, and zero when there are no shares, if and
   only if every call that goes through pays from what has vested and strands nothing.
   */
  lemma HealthyExactlyWhen(config: Config, ledger: nat, now: nat, actions: seq<Action>, us: set<Address>)
    requires Within(actions, us)
    ensures var w := World(Initial(config, ledger, now), NOTHING);
            Always(w, actions, Healthy) <==> AllCalls(w, actions, HealthyCall)
  {
    var w := World(Initial(config, ledger, now), NOTHING);
    InitialAccounts(config, ledger, now, us);
    InitialPrices(config, ledger, now);
    forall s: VaultState | SoundAndClean(s) ensures Healthy(s) { PricedIsDifference(s); }
    forall s: VaultState, a: Action | Accounted(s, us) && a.Users() <= us && SoundAndClean(s)
      ensures (Healthy(Step(s, a).0) <==> HealthyCall(s, a)) && (HealthyCall(s, a) ==> SoundAndClean(Step(s, a).0))
    {
      TotalAssetsKeptExactlyWhen(s, a, us);
      NothingStrandedExactlyWhen(s, a, us);
    }
    RunDecided(w, actions, us, SoundAndClean, Healthy, HealthyCall);
  }

  // ----- the contract's own health check: shares imply tracked deposits -----

  predicate SharesBacked(s: VaultState) { s.totalDeposited >= 0 && (s.totalShares > 0 ==> s.totalDeposited > 0) }

  /** A collection that leaves something tracked, or at least nothing negative once the shares are gone. */
  predicate LeavesDeposits(s: VaultState, a: Action) {
    a.Collect? ==>
      if s.totalShares > 0 then Due(s, a.caller) < s.totalDeposited else Due(s, a.caller) <= s.totalDeposited
  }

  predicate SoundAndBacked(s: VaultState) { Scheduled(s) && SharesBacked(s) }

  predicate BackingCall(s: VaultState, a: Action) { Step(s, a).1.Failed? || LeavesDeposits(s, a) }

  lemma BurnsLeaveBacking(s: VaultState, a: Action, us: set<Address>)
    requires IsBurning(a) && Accounted(s, us) && Scheduled(s) && !Step(s, a).1.Failed?
    ensures SharesBacked(Step(s, a).0) && Scheduled(Step(s, a).0)
  {
    BurnStepKeepsScheduled(s, a, us);
    if a.Withdraw? {
      PricedIsDifference(s);
      UnvestedIsLinear(s);
    }
  }

  /**
   Shares imply tracked deposits, which are never negative, through one call: kept if and only if the call is
   not a collection of everything tracked, or more, that goes through — exactly everything is allowed when
   no shares are left.
   */
  lemma SharesBackedExactlyWhen(s: VaultState, a: Action, us: set<Address>)
    requires Accounted(s, us) && a.Users() <= us && Scheduled(s) && SharesBacked(s)
    ensures SharesBacked(Step(s, a).0) <==> BackingCall(s, a)
    ensures BackingCall(s, a) ==> Scheduled(Step(s, a).0)
  {
    if Step(s, a).1.Failed? {
      FailedCallKeepsBacking(s, a);
    } else if a.Collect? {
      assert SoundAccount(s, a.caller);
      CollectMoves(s, a.caller);
    } else if MovesAssets(a) {
      YieldAndTimeKeep(s, a);
    } else if MovesNothing(a) {
      QuietCallsKeepPools(s, a);
    } else if IsMinting(a) {
      MintStepKeepsScheduled(s, a);
    } else {
      BurnsLeaveBacking(s, a, us);
    }
  }

  /**
   Over every run: at every point the tracked deposits are non-negative, and positive while there are
   shares, if and only if no collection goes through that takes everything tracked or more.
   */
  lemma SharesAlwaysBackedExactlyWhen(config: Config, ledger: nat, now: nat, actions: seq<Action>, us: set<Address>)
    requires Within(actions, us)
    ensures var w := World(Initial(config, ledger, now), NOTHING);
            Always(w, actions, SharesBacked) <==> AllCalls(w, actions, BackingCall)
  {
    var w := World(Initial(config, ledger, now), NOTHING);
    InitialAccounts(config, ledger, now, us);
    InitialPrices(config, ledger, now);
    forall s: VaultState, a: Action | Accounted(s, us) && a.Users() <= us && SoundAndBacked(s)
      ensures (SharesBacked(Step(s, a).0) <==> BackingCall(s, a))
                && (BackingCall(s, a) ==> SoundAndBacked(Step(s, a).0))
    {
      SharesBackedExactlyWhen(s, a, us);
    }
    RunDecided(w, actions, us, SoundAndBacked, SharesBacked, BackingCall);
  }
}

/**
 Shares and the yield accumulator over whole runs: balances always add up to the supply, and what
 all accounts can still collect plus what they have collected never exceeds what was distributed.
 */
module Accounts {
  import opened Core
  import opened Arith
  import opened Sums
  import opened ShareMath
  import opened VaultModel
  import opened VaultRuns
  import Batch

  /** An account's yield before flooring, scaled by YIELD_PRECISION. */
  function ScaledClaim(s: VaultState, u: Address): int {
    s.Pending(u) * YIELD_PRECISION + s.Balance(u) * (s.yps - s.Checkpoint(u))
  }

  ghost function BalanceTotal(s: VaultState, us: set<Address>): int { Sum(us, u => s.Balance(u)) }

  ghost function ClaimTotal(s: VaultState, us: set<Address>): int { Sum(us, u => ScaledClaim(s, u)) }

  predicate SoundAccount(s: VaultState, u: Address) {
    s.Balance(u) >= 0 && s.Pending(u) >= 0 && 0 <= s.Checkpoint(u) <= s.yps
  }

  ghost predicate Accounted(s: VaultState, us: set<Address>) {
    && s.balances.Keys <= us
    && s.yps >= 0
    && (forall u | u in us :: SoundAccount(s, u))
    && BalanceTotal(s, us) == s.totalShares
  }

  // ----- effect of the shared pieces on the totals -----

  /** Only `a`'s account changes. */
  lemma OneAccount(s: VaultState, t: VaultState, us: set<Address>, a: Address)
    requires a in us && s.yps == t.yps
    requires forall u | u in us && u != a ::
               s.Balance(u) == t.Balance(u) && s.Pending(u) == t.Pending(u) && s.Checkpoint(u) == t.Checkpoint(u)
    ensures BalanceTotal(t, us) == BalanceTotal(s, us) - s.Balance(a) + t.Balance(a)
    ensures ClaimTotal(t, us) == ClaimTotal(s, us) - ScaledClaim(s, a) + ScaledClaim(t, a)
  {
    SumUpdate(us, u => s.Balance(u), u => t.Balance(u), a);
    SumUpdate(us, u => ScaledClaim(s, u), u => ScaledClaim(t, u), a);
  }

  predicate SameAccounts(s: VaultState, t: VaultState) {
    && s.balances == t.balances && s.pending == t.pending && s.checkpoints == t.checkpoints
    && s.yps == t.yps && s.totalShares == t.totalShares
  }

  lemma SameAccountsKeep(s: VaultState, t: VaultState, us: set<Address>)
    requires SameAccounts(s, t)
    ensures BalanceTotal(s, us) == BalanceTotal(t, us) && ClaimTotal(s, us) == ClaimTotal(t, us)
    ensures Accounted(s, us) ==> Accounted(t, us)
  {
    SumCongruent(us, u => s.Balance(u), u => t.Balance(u));
    SumCongruent(us, u => ScaledClaim(s, u), u => ScaledClaim(t, u));
    if Accounted(s, us) {
      forall u | u in us ensures SoundAccount(t, u) { assert SoundAccount(s, u); }
    }
  }

  lemma ClaimAtLeastPending(s: VaultState, u: Address)
    requires SoundAccount(s, u)
    ensures s.Pending(u) * YIELD_PRECISION <= ScaledClaim(s, u)
  {
    MulMono(0, s.yps - s.Checkpoint(u), s.Balance(u));
  }

  /** Setting a balance and resetting the checkpoint, as every deposit and withdraw path does. */
  lemma Rebalance(s: VaultState, t: VaultState, us: set<Address>, who: Address, balance: int)
    requires Accounted(s, us) && who in us && balance >= 0
    requires t.balances == s.balances[who := balance] && t.checkpoints == s.checkpoints[who := s.yps]
    requires t.pending == s.pending[who := s.Pending(who)] && t.yps == s.yps
    requires t.totalShares == s.totalShares - s.Balance(who) + balance
    ensures Accounted(t, us)
    ensures ClaimTotal(t, us) <= ClaimTotal(s, us)
  {
    forall u | u in us ensures SoundAccount(t, u) { assert SoundAccount(s, u); }
    OneAccount(s, t, us, who);
    ClaimAtLeastPending(s, who);
    assert ScaledClaim(t, who) == s.Pending(who) * YIELD_PRECISION by {
      assert balance * (t.yps - t.Checkpoint(who)) == 0;
    }
  }

  lemma SettleKeeps(s: VaultState, us: set<Address>, who: Address)
    requires Accounted(s, us) && who in us
    requires Settle(s, who).Ok?
    ensures var t := Settle(s, who).value;
            && Accounted(t, us) && ClaimTotal(t, us) <= ClaimTotal(s, us)
            && t.balances == s.balances && t.yps == s.yps
  {
    var t := Settle(s, who).value;
    assert SoundAccount(s, who);
    AccruedValue(s, who);
    forall u | u in us ensures SoundAccount(t, u) { assert SoundAccount(s, u); }
    OneAccount(s, t, us, who);
    SettledClaim(t, who);
  }

  /** An account at the accumulator has exactly its stored yield. */
  lemma SettledClaim(s: VaultState, who: Address)
    requires s.Checkpoint(who) == s.yps
    ensures ScaledClaim(s, who) == s.Pending(who) * YIELD_PRECISION
  {
    assert s.Balance(who) * (s.yps - s.Checkpoint(who)) == 0;
  }

  /** Collecting floors what is due. */
  lemma AccruedValue(s: VaultState, who: Address)
    requires SoundAccount(s, who)
    requires Accrued(s, who).Ok?
    ensures 0 <= Accrued(s, who).value
    ensures Accrued(s, who).value * YIELD_PRECISION
              <= ScaledClaim(s, who) < (Accrued(s, who).value + 1) * YIELD_PRECISION
  {
    var scaled := s.Balance(who) * (s.yps - s.Checkpoint(who));
    MulMono(0, s.yps - s.Checkpoint(who), s.Balance(who));
    Floor(scaled, YIELD_PRECISION);
    FloorNonNegative(scaled, YIELD_PRECISION);
  }

  // ----- each call -----

  lemma MintKeeps(s: VaultState, us: set<Address>, who: Address, shares: int, amount: int)
    requires Accounted(s, us) && who in us && shares >= 0
    requires Mint(s, who, shares, amount).Ok?
    ensures Accounted(Mint(s, who, shares, amount).value, us)
    ensures ClaimTotal(Mint(s, who, shares, amount).value, us) <= ClaimTotal(s, us)
  {
    assert SoundAccount(s, who);
    Rebalance(s, Mint(s, who, shares, amount).value, us, who, s.Balance(who) + shares);
  }

  lemma {:induction false} MintManyKeeps(s: VaultState, us: set<Address>, recipients: seq<(Address, int)>)
    requires Accounted(s, us) && forall r | r in recipients :: r.0 in us
    requires MintMany(s, recipients).Ok?
    ensures Accounted(MintMany(s, recipients).value.0, us)
    ensures ClaimTotal(MintMany(s, recipients).value.0, us) <= ClaimTotal(s, us)
  {
    if recipients != [] {
      var before := MintMany(s, recipients[..|recipients| - 1]).value.0;
      var last := recipients[|recipients| - 1];
      assert last in recipients;
      MintManyKeeps(s, us, recipients[..|recipients| - 1]);
      MintKeeps(before, us, last.0, DepositShares(last.1, before.totalShares, before.totalDeposited).value, last.1);
    }
  }

  lemma DepositKeeps(s: VaultState, caller: Address, amount: int, us: set<Address>)
    requires Accounted(s, us) && caller in us
    requires VaultModel.Deposit(s, caller, amount).Ok?
    ensures var t := VaultModel.Deposit(s, caller, amount).value.0;
            Accounted(t, us) && ClaimTotal(t, us) <= ClaimTotal(s, us)
  {
    var received := ReceiveIn(s, amount);
    SameAccountsKeep(s, received, us);
    MintKeeps(received, us, caller, DepositShares(amount, s.totalShares, s.PricedAssets()).value, amount);
  }

  lemma DepositForManyKeeps(s: VaultState, recipients: seq<(Address, int)>, us: set<Address>)
    requires Accounted(s, us) && forall r | r in recipients :: r.0 in us
    requires VaultModel.DepositForMany(s, recipients).Ok?
    ensures var t := VaultModel.DepositForMany(s, recipients).value.0;
            Accounted(t, us) && ClaimTotal(t, us) <= ClaimTotal(s, us)
  {
    var received := ReceiveIn(s, TotalAmount(recipients).value);
    SameAccountsKeep(s, received, us);
    MintManyKeeps(received, us, recipients);
  }

  lemma BatchDepositKeeps(s: VaultState, caller: Address, amounts: seq<int>, us: set<Address>)
    requires Accounted(s, us) && caller in us
    requires VaultModel.BatchDeposit(s, caller, amounts).Ok?
    ensures var t := VaultModel.BatchDeposit(s, caller, amounts).value.0;
            Accounted(t, us) && ClaimTotal(t, us) <= ClaimTotal(s, us)
  {
    var t := VaultModel.BatchDeposit(s, caller, amounts).value.0;
    Batch.DepositTotals(s.totalDeposited, s.totalShares, amounts, s.config.minDeposit);
    assert SoundAccount(s, caller);
    Rebalance(s, t, us, caller, s.Balance(caller) + (t.totalShares - s.totalShares));
  }

  /** What a redemption does to the account cells: the shares go, the checkpoint is reset. */
  predicate BurnsFrom(s: VaultState, t: VaultState, caller: Address, shares: int) {
    && 0 < shares <= s.Balance(caller)
    && t.balances == s.balances[caller := s.Balance(caller) - shares]
    && t.checkpoints == s.checkpoints[caller := s.yps] && t.pending == s.pending[caller := s.Pending(caller)]
    && t.yps == s.yps && t.totalShares == s.totalShares - shares
  }

  lemma RateLimitKeepsAccounts(s: VaultState, redeem: int)
    requires RateLimit(s, redeem).Ok?
    ensures SameAccounts(s, RateLimit(s, redeem).value)
  {
  }

  lemma BurnBurns(s: VaultState, caller: Address, shares: int, amount: int)
    requires 0 < shares <= s.Balance(caller) && Burn(s, caller, shares, amount).Ok?
    ensures BurnsFrom(s, Burn(s, caller, shares, amount).value, caller, shares)
  {
  }

  lemma WithdrawBurns(s: VaultState, caller: Address, shares: int)
    requires VaultModel.Withdraw(s, caller, shares).Ok?
    ensures BurnsFrom(s, VaultModel.Withdraw(s, caller, shares).value.0, caller, shares)
  {
    var redeem := AssetsForShares(shares, s.PricedAssets(), s.totalShares).value;
    var limited := RateLimit(s, redeem).value;
    RateLimitKeepsAccounts(s, redeem);
    BurnBurns(limited, caller, shares, redeem);
    var t := VaultModel.Withdraw(s, caller, shares).value.0;
    assert SameAccounts(Burn(limited, caller, shares, redeem).value, t);
  }

  lemma EmergencyWithdrawBurns(s: VaultState, caller: Address, shares: int)
    requires VaultModel.EmergencyWithdraw(s, caller, shares).Ok?
    ensures BurnsFrom(s, VaultModel.EmergencyWithdraw(s, caller, shares).value.0, caller, shares)
  {
    var redeem := AssetsForShares(shares, s.totalDeposited, s.totalShares).value;
    var limited := RateLimit(s, redeem).value;
    RateLimitKeepsAccounts(s, redeem);
    BurnBurns(limited, caller, shares, redeem);
    var t := VaultModel.EmergencyWithdraw(s, caller, shares).value.0;
    assert SameAccounts(Burn(limited, caller, shares, redeem).value, t);
  }

  lemma BurningKeepsAccounts(s: VaultState, t: VaultState, caller: Address, shares: int, us: set<Address>)
    requires Accounted(s, us) && caller in us && BurnsFrom(s, t, caller, shares)
    ensures Accounted(t, us) && ClaimTotal(t, us) <= ClaimTotal(s, us)
  {
    Rebalance(s, t, us, caller, s.Balance(caller) - shares);
  }

  lemma BatchWithdrawKeeps(s: VaultState, caller: Address, amounts: seq<int>, us: set<Address>)
    requires Accounted(s, us) && caller in us
    requires VaultModel.BatchWithdraw(s, caller, amounts).Ok?
    ensures var t := VaultModel.BatchWithdraw(s, caller, amounts).value.0;
            Accounted(t, us) && ClaimTotal(t, us) <= ClaimTotal(s, us)
  {
    var t := VaultModel.BatchWithdraw(s, caller, amounts).value.0;
    Batch.WithdrawTotals(s.totalDeposited, s.totalShares, amounts, s.Balance(caller));
    Rebalance(s, t, us, caller, s.Balance(caller) - (s.totalShares - t.totalShares));
  }

  lemma TransferKeeps(s: VaultState, from: Address, to: Address, amount: int, us: set<Address>)
    requires Accounted(s, us) && from in us && to in us
    requires VaultModel.Transfer(s, from, to, amount).Ok?
    ensures var t := VaultModel.Transfer(s, from, to, amount).value.0;
            Accounted(t, us) && ClaimTotal(t, us) <= ClaimTotal(s, us)
  {
    var t := VaultModel.Transfer(s, from, to, amount).value.0;
    var one := Settle(s, from).value;
    var both := Settle(one, to).value;
    SettleKeeps(s, us, from);
    SettleKeeps(one, us, to);
    var mid := both.(balances := s.balances[from := s.Balance(from) - amount]);
    OneAccount(both, mid, us, from);
    OneAccount(mid, t, us, to);
    assert both.yps - both.Checkpoint(from) == 0 && both.yps - both.Checkpoint(to) == 0;
    SettledClaims(both, mid, from);
    SettledClaims(mid, t, to);
    forall u | u in us ensures SoundAccount(t, u) { assert SoundAccount(both, u); }
  }

  /** A settled account's claim does not depend on its balance. */
  lemma SettledClaims(s: VaultState, t: VaultState, u: Address)
    requires s.yps == t.yps && s.Pending(u) == t.Pending(u)
    requires s.Checkpoint(u) == t.Checkpoint(u) == s.yps
    ensures ScaledClaim(s, u) == ScaledClaim(t, u)
  {
    assert s.Balance(u) * (s.yps - s.Checkpoint(u)) == 0;
    assert t.Balance(u) * (t.yps - t.Checkpoint(u)) == 0;
  }

  /** Clearing an account's claim, as collecting does. */
  lemma Clearing(s: VaultState, t: VaultState, us: set<Address>, who: Address)
    requires Accounted(s, us) && who in us
    requires t.balances == s.balances && t.yps == s.yps && t.totalShares == s.totalShares
    requires t.checkpoints == s.checkpoints[who := s.yps] && t.pending == s.pending[who := 0]
    ensures Accounted(t, us)
    ensures ClaimTotal(t, us) == ClaimTotal(s, us) - ScaledClaim(s, who)
  {
    forall u | u in us ensures SoundAccount(t, u) { assert SoundAccount(s, u); }
    OneAccount(s, t, us, who);
    assert ScaledClaim(t, who) == 0 by {
      assert s.Balance(who) * (t.yps - t.Checkpoint(who)) == 0;
    }
  }

  lemma CollectShape(s: VaultState, caller: Address)
    requires VaultModel.Collect(s, caller).Ok?
    ensures Accrued(s, caller).Ok?
    ensures var (t, paid) := VaultModel.Collect(s, caller).value;
            && t.balances == s.balances && t.yps == s.yps && t.totalShares == s.totalShares
            && t.checkpoints == s.checkpoints[caller := s.yps] && t.pending == s.pending[caller := 0]
            && paid == (if Accrued(s, caller).value <= 0 then 0 else Accrued(s, caller).value)
  {
  }

  lemma CollectKeeps(s: VaultState, caller: Address, us: set<Address>)
    requires Accounted(s, us) && caller in us
    requires VaultModel.Collect(s, caller).Ok?
    ensures var (t, paid) := VaultModel.Collect(s, caller).value;
            && Accounted(t, us) && paid >= 0
            && ClaimTotal(t, us) + paid * YIELD_PRECISION <= ClaimTotal(s, us)
  {
    assert SoundAccount(s, caller);
    CollectShape(s, caller);
    AccruedValue(s, caller);
    Clearing(s, VaultModel.Collect(s, caller).value.0, us, caller);
  }

  /** A credited delta never distributes more than the net yield. */
  lemma DeltaAtMostNet(net: int, totalShares: int)
    requires net >= 0 && totalShares > 0
    requires DeltaYps(net, totalShares).Ok?
    ensures var delta := DeltaYps(net, totalShares).value;
            0 < delta && delta * totalShares <= net * YIELD_PRECISION < (delta + 1) * totalShares
  {
    Floor(net * YIELD_PRECISION, totalShares);
    FloorNonNegative(net * YIELD_PRECISION, totalShares);
  }

  lemma PerfFeeBounds(amount: int, bps: nat)
    requires amount >= 0 && PerfFee(amount, bps).Ok?
    ensures 0 <= PerfFee(amount, bps).value <= amount
  {
    MulMono(bps, BASIS_POINTS, amount);
    MulMono(0, bps, amount);
    FloorNonNegative(bps * amount, BASIS_POINTS);
    FloorAtMost(bps * amount, BASIS_POINTS, amount);
  }

  lemma DistributeKeeps(s: VaultState, amount: int, us: set<Address>)
    requires Accounted(s, us)
    requires VaultModel.Distribute(s, amount).Ok?
    ensures var (t, net) := VaultModel.Distribute(s, amount).value;
            && Accounted(t, us) && net >= 0
            && ClaimTotal(t, us) <= ClaimTotal(s, us) + net * YIELD_PRECISION
  {
    var (t, net) := VaultModel.Distribute(s, amount).value;
    SupplyNonNegative(s, us);
    PerfFeeBounds(amount, s.config.perfFeeBps);
    DeltaAtMostNet(net, s.totalShares);
    RaisingYps(s, t, us, DeltaYps(net, s.totalShares).value);
  }

  /** Raising the accumulator by delta raises all claims together by delta per share. */
  lemma RaisingYps(s: VaultState, t: VaultState, us: set<Address>, delta: int)
    requires Accounted(s, us) && delta >= 0
    requires t.balances == s.balances && t.pending == s.pending && t.checkpoints == s.checkpoints
    requires t.totalShares == s.totalShares && t.yps == s.yps + delta
    ensures Accounted(t, us) && ClaimTotal(t, us) == ClaimTotal(s, us) + delta * s.totalShares
  {
    forall u | u in us ensures SoundAccount(t, u) { assert SoundAccount(s, u); }
    SumCongruent(us, u => s.Balance(u), u => t.Balance(u));
    forall u | u in us ensures ScaledClaim(t, u) == ScaledClaim(s, u) + delta * s.Balance(u) {
      assert s.Balance(u) * (t.yps - s.Checkpoint(u))
        == s.Balance(u) * (s.yps - s.Checkpoint(u)) + delta * s.Balance(u);
    }
    SumLinear(us, u => ScaledClaim(s, u), u => s.Balance(u), delta, u => ScaledClaim(t, u));
  }

  lemma SupplyNonNegative(s: VaultState, us: set<Address>)
    requires Accounted(s, us)
    ensures s.totalShares >= 0
    ensures forall u: Address :: 0 <= s.Balance(u) <= s.totalShares
  {
    forall u: Address ensures 0 <= s.Balance(u) <= s.totalShares {
      if u in us {
        forall v | v in us ensures s.Balance(v) >= 0 { assert SoundAccount(s, v); }
        SumMember(us, v => s.Balance(v), u);
      } else {
        SumConstant(us, v => 0, 0);
        forall v | v in us ensures s.Balance(v) >= 0 { assert SoundAccount(s, v); }
        SumMonotone(us, v => 0, v => s.Balance(v));
      }
    }
    assert s.Balance(Address(0)) <= s.totalShares;
  }

  // ----- runs -----

  /** The accumulator's books balance: outstanding plus collected is at most distributed. */
  ghost predicate YieldCovered(w: World, us: set<Address>) {
    ClaimTotal(w.state, us) + w.history.collected * YIELD_PRECISION <= w.history.distributed * YIELD_PRECISION
  }

  predicate IsMinting(a: Action) { a.Deposit? || a.DepositForMany? || a.BatchDeposit? }

  predicate IsBurning(a: Action) { a.Withdraw? || a.EmergencyWithdraw? || a.BatchWithdraw? }

  predicate MovesYield(a: Action) { a.Distribute? || a.Collect? || a.Transfer? }

  lemma MintingKeeps(s: VaultState, a: Action, us: set<Address>)
    requires IsMinting(a) && Accounted(s, us) && a.Users() <= us
    ensures Accounted(Step(s, a).0, us) && ClaimTotal(Step(s, a).0, us) <= ClaimTotal(s, us)
  {
    match a
    case Deposit(caller, amount) =>
      if VaultModel.Deposit(s, caller, amount).Ok? { DepositKeeps(s, caller, amount, us); }
    case DepositForMany(_, recipients) =>
      forall r | r in recipients ensures r.0 in us { assert r.0 in a.Users(); }
      if VaultModel.DepositForMany(s, recipients).Ok? { DepositForManyKeeps(s, recipients, us); }
    case BatchDeposit(caller, amounts) =>
      if VaultModel.BatchDeposit(s, caller, amounts).Ok? { BatchDepositKeeps(s, caller, amounts, us); }
  }

  lemma BurningKeeps(s: VaultState, a: Action, us: set<Address>)
    requires IsBurning(a) && Accounted(s, us) && a.Users() <= us
    ensures Accounted(Step(s, a).0, us) && ClaimTotal(Step(s, a).0, us) <= ClaimTotal(s, us)
  {
    match a
    case Withdraw(caller, shares) =>
      if VaultModel.Withdraw(s, caller, shares).Ok? {
        WithdrawBurns(s, caller, shares);
        BurningKeepsAccounts(s, VaultModel.Withdraw(s, caller, shares).value.0, caller, shares, us);
      }
    case EmergencyWithdraw(caller, shares) =>
      if VaultModel.EmergencyWithdraw(s, caller, shares).Ok? {
        EmergencyWithdrawBurns(s, caller, shares);
        BurningKeepsAccounts(s, VaultModel.EmergencyWithdraw(s, caller, shares).value.0, caller, shares, us);
      }
    case BatchWithdraw(caller, amounts) =>
      if VaultModel.BatchWithdraw(s, caller, amounts).Ok? { BatchWithdrawKeeps(s, caller, amounts, us); }
  }

  lemma MovingYieldKeeps(w: World, a: Action, us: set<Address>)
    requires MovesYield(a) && Accounted(w.state, us) && YieldCovered(w, us) && a.Users() <= us
    ensures Accounted(Next(w, a).state, us) && YieldCovered(Next(w, a), us)
  {
    var s := w.state;
    match a
    case Distribute(_, amount) => if VaultModel.Distribute(s, amount).Ok? { DistributeKeeps(s, amount, us); }
    case Collect(caller) => if VaultModel.Collect(s, caller).Ok? { CollectKeeps(s, caller, us); }
    case Transfer(from, to, amount) =>
      if VaultModel.Transfer(s, from, to, amount).Ok? { TransferKeeps(s, from, to, amount, us); }
  }

  lemma OtherCallsKeepAccounts(s: VaultState, a: Action)
    requires !IsMinting(a) && !IsBurning(a) && !MovesYield(a)
    ensures SameAccounts(s, Step(s, a).0)
  {
    if a.Harvest? || a.Claim? {
      HarvestAndClaimKeepAccounts(s, a);
    } else {
      AdminCallsKeepAccounts(s, a);
    }
  }

  lemma HarvestAndClaimKeepAccounts(s: VaultState, a: Action)
    requires a.Harvest? || a.Claim?
    ensures SameAccounts(s, Step(s, a).0)
  {
    match a
    case Harvest(_, amount) => if VaultModel.Harvest(s, amount).Ok? { HarvestKeepsAccounts(s, amount); }
    case Claim(caller, id) => if VaultModel.Claim(s, caller, id).Ok? { ClaimKeepsAccounts(s, caller, id); }
  }

  lemma AdminCallsKeepAccounts(s: VaultState, a: Action)
    requires a.WithdrawFees? || a.SetVestingPeriod? || a.Configure? || a.SetPaused? || a.Advance?
    ensures SameAccounts(s, Step(s, a).0)
  {
    if a.WithdrawFees? {
      WithdrawFeesKeepsAccounts(s);
    } else {
      SettingsAndTimeKeepAccounts(s, a);
    }
  }

  lemma WithdrawFeesKeepsAccounts(s: VaultState)
    ensures SameAccounts(s, Step(s, WithdrawFees).0)
  {
  }

  lemma SettingsAndTimeKeepAccounts(s: VaultState, a: Action)
    requires a.SetVestingPeriod? || a.Configure? || a.SetPaused? || a.Advance?
    ensures SameAccounts(s, Step(s, a).0)
  {
  }

  lemma HarvestKeepsAccounts(s: VaultState, amount: int)
    requires VaultModel.Harvest(s, amount).Ok?
    ensures SameAccounts(s, VaultModel.Harvest(s, amount).value.0)
  {
  }

  lemma ClaimKeepsAccounts(s: VaultState, caller: Address, id: nat)
    requires VaultModel.Claim(s, caller, id).Ok?
    ensures SameAccounts(s, VaultModel.Claim(s, caller, id).value.0)
  {
  }

  /** Only `Distributed` and `Collected` outcomes move the yield history. */
  lemma QuietHistory(w: World, a: Action)
    requires !a.Distribute? && !a.Collect?
    ensures Next(w, a).history.distributed == w.history.distributed
    ensures Next(w, a).history.collected == w.history.collected
  {
  }

  lemma StepKeepsAccounts(w: World, a: Action, us: set<Address>)
    requires Accounted(w.state, us) && YieldCovered(w, us) && a.Users() <= us
    ensures Accounted(Next(w, a).state, us) && YieldCovered(Next(w, a), us)
  {
    if MovesYield(a) {
      MovingYieldKeeps(w, a, us);
    } else {
      QuietHistory(w, a);
      if IsMinting(a) {
        MintingKeeps(w.state, a, us);
      } else if IsBurning(a) {
        BurningKeeps(w.state, a, us);
      } else {
        OtherCallsKeepAccounts(w.state, a);
        SameAccountsKeep(w.state, Next(w, a).state, us);
      }
    }
  }

  predicate Within(actions: seq<Action>, us: set<Address>) {
    forall a | a in actions :: a.Users() <= us
  }

  lemma {:induction false} RunKeepsAccounts(w: World, actions: seq<Action>, us: set<Address>)
    requires Accounted(w.state, us) && YieldCovered(w, us) && Within(actions, us)
    ensures Accounted(Run(w, actions).state, us) && YieldCovered(Run(w, actions), us)
  {
    if actions != [] {
      RunKeepsAccounts(w, actions[..|actions| - 1], us);
      StepKeepsAccounts(Run(w, actions[..|actions| - 1]), actions[|actions| - 1], us);
    }
  }

  lemma InitialAccounts(config: Config, ledger: nat, now: nat, us: set<Address>)
    ensures Accounted(Initial(config, ledger, now), us)
    ensures YieldCovered(World(Initial(config, ledger, now), NOTHING), us)
  {
    var s := Initial(config, ledger, now);
    SumConstant(us, u => s.Balance(u), 0);
    SumConstant(us, u => ScaledClaim(s, u), 0);
  }

  /** In every run, balances add up to the supply, and no account is negative or ahead of the accumulator. */
  lemma SharesAddUp(config: Config, ledger: nat, now: nat, actions: seq<Action>, us: set<Address>)
    requires Within(actions, us)
    ensures var s := Run(World(Initial(config, ledger, now), NOTHING), actions).state;
            && Sum(us, u => s.Balance(u)) == s.totalShares
            && (forall u | u in us :: 0 <= s.Balance(u) && s.Checkpoint(u) <= s.yps)
            && s.balances.Keys <= us
  {
    InitialAccounts(config, ledger, now, us);
    RunKeepsAccounts(World(Initial(config, ledger, now), NOTHING), actions, us);
    var s := Run(World(Initial(config, ledger, now), NOTHING), actions).state;
    forall u | u in us ensures 0 <= s.Balance(u) && s.Checkpoint(u) <= s.yps { assert SoundAccount(s, u); }
  }

  lemma PendingYieldWithinClaim(s: VaultState, u: Address)
    requires SoundAccount(s, u)
    ensures 0 <= YIELD_PRECISION * s.PendingYield(u) <= ScaledClaim(s, u)
  {
    var delta := SaturatingSub(s.yps, s.Checkpoint(u));
    MulMono(delta, s.yps - s.Checkpoint(u), s.Balance(u));
    MulMono(0, delta, s.Balance(u));
    Floor(s.Balance(u) * delta, YIELD_PRECISION);
    FloorNonNegative(s.Balance(u) * delta, YIELD_PRECISION);
  }

  /**
   Accumulator conservation: in every run, what `pending_yield` shows for all accounts together plus
   everything `collect_pending_yield` has paid never exceeds the net yield distributed.
   */
  lemma AccumulatorConservation(config: Config, ledger: nat, now: nat, actions: seq<Action>, us: set<Address>)
    requires Within(actions, us)
    ensures var w := Run(World(Initial(config, ledger, now), NOTHING), actions);
            Sum(us, u => w.state.PendingYield(u)) + w.history.collected <= w.history.distributed
  {
    InitialAccounts(config, ledger, now, us);
    RunKeepsAccounts(World(Initial(config, ledger, now), NOTHING), actions, us);
    var w := Run(World(Initial(config, ledger, now), NOTHING), actions);
    var s := w.state;
    forall u | u in us ensures YIELD_PRECISION * s.PendingYield(u) <= ScaledClaim(s, u) {
      assert SoundAccount(s, u);
      PendingYieldWithinClaim(s, u);
    }
    SumConstant(us, u => 0, 0);
    SumLinear(us, u => 0, u => s.PendingYield(u), YIELD_PRECISION, u => YIELD_PRECISION * s.PendingYield(u));
    SumMonotone(us, u => YIELD_PRECISION * s.PendingYield(u), u => ScaledClaim(s, u));
  }
}

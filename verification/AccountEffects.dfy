/** What a call does to the accounts it names, and that it does nothing to the others. */
module AccountEffects {
  import opened Core
  import opened Arith
  import opened VaultModel
  import opened VaultRuns
  import opened Accounts
  import opened YieldAccuracy

  predicate SameAccount(s: VaultState, t: VaultState, u: Address) {
    t.Balance(u) == s.Balance(u) && t.Pending(u) == s.Pending(u) && t.Checkpoint(u) == s.Checkpoint(u)
  }

  lemma {:induction false} MintManyBystander(s: VaultState, recipients: seq<(Address, int)>, u: Address)
    requires MintMany(s, recipients).Ok? && forall r | r in recipients :: r.0 != u
    ensures SameAccount(s, MintMany(s, recipients).value.0, u)
  {
    if recipients != [] {
      MintManyBystander(s, recipients[..|recipients| - 1], u);
      assert recipients[|recipients| - 1] in recipients;
    }
  }

  /** No call moves the shares, stored yield or checkpoint of an account it does not name. */
  lemma BystandersUntouched(s: VaultState, a: Action, u: Address)
    requires u !in a.Users()
    ensures SameAccount(s, Step(s, a).0, u)
  {
    if IsMinting(a) {
      MintingBystander(s, a, u);
    } else if IsBurning(a) {
      BurningBystander(s, a, u);
    } else if MovesYield(a) {
      YieldBystander(s, a, u);
    } else {
      OtherCallsKeepAccounts(s, a);
    }
  }

  lemma MintingBystander(s: VaultState, a: Action, u: Address)
    requires IsMinting(a) && u !in a.Users()
    ensures SameAccount(s, Step(s, a).0, u)
  {
    match a
    case Deposit(caller, amount) => DepositBystander(s, caller, amount, u);
    case DepositForMany(_, recipients) =>
      if VaultModel.DepositForMany(s, recipients).Ok? {
        forall r | r in recipients ensures r.0 != u { assert r.0 in a.Users(); }
        MintManyBystander(ReceiveIn(s, TotalAmount(recipients).value), recipients, u);
      }
    case BatchDeposit(caller, amounts) => BatchDepositBystander(s, caller, amounts, u);
  }

  lemma DepositBystander(s: VaultState, caller: Address, amount: int, u: Address)
    requires u != caller
    ensures VaultModel.Deposit(s, caller, amount).Ok? ==>
              SameAccount(s, VaultModel.Deposit(s, caller, amount).value.0, u)
  {
  }

  lemma BatchDepositBystander(s: VaultState, caller: Address, amounts: seq<int>, u: Address)
    requires u != caller
    ensures VaultModel.BatchDeposit(s, caller, amounts).Ok? ==>
              SameAccount(s, VaultModel.BatchDeposit(s, caller, amounts).value.0, u)
  {
  }

  lemma BurningBystander(s: VaultState, a: Action, u: Address)
    requires IsBurning(a) && u !in a.Users()
    ensures SameAccount(s, Step(s, a).0, u)
  {
    match a
    case Withdraw(caller, shares) => if VaultModel.Withdraw(s, caller, shares).Ok? { WithdrawBurns(s, caller, shares); }
    case EmergencyWithdraw(caller, shares) =>
      if VaultModel.EmergencyWithdraw(s, caller, shares).Ok? { EmergencyWithdrawBurns(s, caller, shares); }
    case BatchWithdraw(_, _) =>
  }

  lemma YieldBystander(s: VaultState, a: Action, u: Address)
    requires MovesYield(a) && u !in a.Users()
    ensures SameAccount(s, Step(s, a).0, u)
  {
    match a
    case Distribute(_, amount) => DistributeBystander(s, amount, u);
    case Collect(caller) => if VaultModel.Collect(s, caller).Ok? { CollectShape(s, caller); }
    case Transfer(_, _, _) =>
  }

  lemma DistributeBystander(s: VaultState, amount: int, u: Address)
    ensures VaultModel.Distribute(s, amount).Ok? ==> SameAccount(s, VaultModel.Distribute(s, amount).value.0, u)
  {
  }

  // ----- yield through a transfer, a collection, a deposit -----

  lemma SettleKeepsDue(s: VaultState, u: Address)
    requires SoundAccount(s, u) && Settle(s, u).Ok?
    ensures var t := Settle(s, u).value;
            && Due(t, u) == Due(s, u) && t.Checkpoint(u) == t.yps == s.yps
            && t.balances == s.balances && t.totalShares == s.totalShares
            && (forall v | v != u :: SameAccount(s, t, v))
  {
    var t := Settle(s, u).value;
    MulMono(0, s.yps - s.Checkpoint(u), s.Balance(u));
    assert t.Balance(u) * (t.yps - t.Checkpoint(u)) == 0;
  }

  lemma TransferShape(s: VaultState, from: Address, to: Address, amount: int)
    requires VaultModel.Transfer(s, from, to, amount).Ok?
    ensures from != to && Settle(s, from).Ok? && Settle(Settle(s, from).value, to).Ok?
    ensures VaultModel.Transfer(s, from, to, amount).value.0
         == Settle(Settle(s, from).value, to).value.(
              balances := s.balances[from := s.Balance(from) - amount][to := s.Balance(to) + amount])
  {
  }

  /** A settled account's due yield does not depend on its balance. */
  lemma SettledDue(s: VaultState, t: VaultState, u: Address)
    requires s.Pending(u) == t.Pending(u) && s.Checkpoint(u) == t.Checkpoint(u) == s.yps == t.yps
    ensures Due(s, u) == Due(t, u)
  {
    assert s.Balance(u) * (s.yps - s.Checkpoint(u)) == 0 && t.Balance(u) * (t.yps - t.Checkpoint(u)) == 0;
  }

  lemma SameAccountSameDue(s: VaultState, t: VaultState, u: Address)
    requires SameAccount(s, t, u) && s.yps == t.yps
    ensures Due(s, u) == Due(t, u) && (SoundAccount(s, u) ==> SoundAccount(t, u))
  {
  }

  /**
   A transfer moves exactly the shares and keeps each party's yield: what sender and recipient could
   collect before, they can collect after.
   */
  lemma TransferKeepsYield(s: VaultState, from: Address, to: Address, amount: int)
    requires SoundAccount(s, from) && SoundAccount(s, to)
    requires VaultModel.Transfer(s, from, to, amount).Ok?
    ensures var t := VaultModel.Transfer(s, from, to, amount).value.0;
            && Due(t, from) == Due(s, from) && Due(t, to) == Due(s, to)
            && t.Balance(from) == s.Balance(from) - amount && t.Balance(to) == s.Balance(to) + amount
            && t.totalShares == s.totalShares
  {
    TransferShape(s, from, to, amount);
    TransferDue(s, VaultModel.Transfer(s, from, to, amount).value.0, from, to,
                s.balances[from := s.Balance(from) - amount][to := s.Balance(to) + amount]);
  }

  lemma TransferDue(s: VaultState, t: VaultState, from: Address, to: Address, balances: map<Address, int>)
    requires SoundAccount(s, from) && SoundAccount(s, to) && from != to
    requires Settle(s, from).Ok? && Settle(Settle(s, from).value, to).Ok?
    requires t == Settle(Settle(s, from).value, to).value.(balances := balances)
    ensures Due(t, from) == Due(s, from) && Due(t, to) == Due(s, to) && t.totalShares == s.totalShares
  {
    var one := Settle(s, from).value;
    var both := Settle(one, to).value;
    SettleKeepsDue(s, from);
    SameAccountSameDue(s, one, to);
    SettleKeepsDue(one, to);
    SameAccountSameDue(one, both, from);
    SettledDue(both, t, from);
    SettledDue(both, t, to);
  }

  /** Collecting pays exactly what is due, once, out of tracked deposits. */
  lemma CollectPaysDue(s: VaultState, caller: Address)
    requires SoundAccount(s, caller) && VaultModel.Collect(s, caller).Ok?
    ensures var (t, paid) := VaultModel.Collect(s, caller).value;
            && paid == Due(s, caller) && Due(t, caller) == 0
            && t.totalDeposited == s.totalDeposited - paid && t.tokenBalance == s.tokenBalance - paid
  {
    var (t, paid) := VaultModel.Collect(s, caller).value;
    CollectShape(s, caller);
    AccruedValue(s, caller);
    MulMono(0, s.yps - s.Checkpoint(caller), s.Balance(caller));
    assert t.Balance(caller) * (t.yps - t.Checkpoint(caller)) == 0;
    FloorNonNegative(s.Balance(caller) * (s.yps - s.Checkpoint(caller)), YIELD_PRECISION);
    CollectAmounts(s, caller);
  }

  lemma CollectAmounts(s: VaultState, caller: Address)
    requires VaultModel.Collect(s, caller).Ok?
    ensures var (t, paid) := VaultModel.Collect(s, caller).value;
            t.totalDeposited == s.totalDeposited - paid && t.tokenBalance == s.tokenBalance - paid
  {
  }

  /**
   What a checkpoint reset leaves an account: its stored yield alone. Nothing is lost if and only if less
   than one unit had accrued since the last checkpoint.
   */
  predicate LeavesStoredYield(s: VaultState, t: VaultState, u: Address) {
    && Due(t, u) == s.Pending(u)
    && (Due(t, u) == Due(s, u) <==> s.Balance(u) * (s.yps - s.Checkpoint(u)) < YIELD_PRECISION)
  }

  lemma ResetLeavesStored(s: VaultState, t: VaultState, u: Address)
    requires SoundAccount(s, u)
    requires t.Pending(u) == s.Pending(u) && t.Checkpoint(u) == t.yps == s.yps
    ensures LeavesStoredYield(s, t, u)
  {
    assert t.Balance(u) * (t.yps - t.Checkpoint(u)) == 0;
    MulMono(0, s.yps - s.Checkpoint(u), s.Balance(u));
    Floor(s.Balance(u) * (s.yps - s.Checkpoint(u)), YIELD_PRECISION);
  }

  /** A deposit resets the caller's checkpoint without accruing. */
  lemma DepositForfeitsAccrual(s: VaultState, caller: Address, amount: int)
    requires SoundAccount(s, caller) && VaultModel.Deposit(s, caller, amount).Ok?
    ensures var (t, shares) := VaultModel.Deposit(s, caller, amount).value;
            t.Balance(caller) == s.Balance(caller) + shares && LeavesStoredYield(s, t, caller)
  {
    ResetLeavesStored(s, VaultModel.Deposit(s, caller, amount).value.0, caller);
  }

  /** So does each payment in a many-recipient deposit, to the recipient: whoever pays, the recipient's accrual goes. */
  lemma DepositForManyForfeitsAccrual(s: VaultState, recipients: seq<(Address, int)>, u: Address)
    requires SoundAccount(s, u) && VaultModel.DepositForMany(s, recipients).Ok? && Names(recipients, u)
    ensures LeavesStoredYield(s, VaultModel.DepositForMany(s, recipients).value.0, u)
  {
    var received := ReceiveIn(s, TotalAmount(recipients).value);
    MintManyResets(received, recipients, u);
    ResetLeavesStored(s, VaultModel.DepositForMany(s, recipients).value.0, u);
  }

  predicate Names(recipients: seq<(Address, int)>, u: Address) {
    exists i | 0 <= i < |recipients| :: recipients[i].0 == u
  }

  lemma {:induction false} MintManyResets(s: VaultState, recipients: seq<(Address, int)>, u: Address)
    requires MintMany(s, recipients).Ok?
    ensures var t := MintMany(s, recipients).value.0;
            t.yps == s.yps && t.Pending(u) == s.Pending(u) && (Names(recipients, u) ==> t.Checkpoint(u) == s.yps)
  {
    if recipients != [] {
      var shorter, last := recipients[..|recipients| - 1], recipients[|recipients| - 1];
      MintManyResets(s, shorter, u);
      if Names(recipients, u) && last.0 != u {
        var i :| 0 <= i < |recipients| && recipients[i].0 == u;
        assert shorter[i].0 == u;
      }
    }
  }

  /** A batch of one caller's deposits resets it too. */
  lemma BatchDepositForfeitsAccrual(s: VaultState, caller: Address, amounts: seq<int>)
    requires SoundAccount(s, caller) && VaultModel.BatchDeposit(s, caller, amounts).Ok?
    ensures LeavesStoredYield(s, VaultModel.BatchDeposit(s, caller, amounts).value.0, caller)
  {
    ResetLeavesStored(s, VaultModel.BatchDeposit(s, caller, amounts).value.0, caller);
  }

  lemma WithdrawForfeitsAccrual(s: VaultState, caller: Address, shares: int)
    requires SoundAccount(s, caller) && VaultModel.Withdraw(s, caller, shares).Ok?
    ensures var t := VaultModel.Withdraw(s, caller, shares).value.0;
            t.Balance(caller) == s.Balance(caller) - shares && LeavesStoredYield(s, t, caller)
  {
    WithdrawBurns(s, caller, shares);
    ResetLeavesStored(s, VaultModel.Withdraw(s, caller, shares).value.0, caller);
  }

  lemma EmergencyWithdrawForfeitsAccrual(s: VaultState, caller: Address, shares: int)
    requires SoundAccount(s, caller) && VaultModel.EmergencyWithdraw(s, caller, shares).Ok?
    ensures var t := VaultModel.EmergencyWithdraw(s, caller, shares).value.0;
            t.Balance(caller) == s.Balance(caller) - shares && LeavesStoredYield(s, t, caller)
  {
    EmergencyWithdrawBurns(s, caller, shares);
    ResetLeavesStored(s, VaultModel.EmergencyWithdraw(s, caller, shares).value.0, caller);
  }

  lemma BatchWithdrawForfeitsAccrual(s: VaultState, caller: Address, amounts: seq<int>)
    requires SoundAccount(s, caller) && VaultModel.BatchWithdraw(s, caller, amounts).Ok?
    ensures LeavesStoredYield(s, VaultModel.BatchWithdraw(s, caller, amounts).value.0, caller)
  {
    ResetLeavesStored(s, VaultModel.BatchWithdraw(s, caller, amounts).value.0, caller);
  }

  // ----- how gross yield is split -----

  /** Of a gross yield, the fee is exactly floor(amount·bps/10000) and the rest is credited; all of it arrives. */
  predicate SplitsYield(s: VaultState, t: VaultState, amount: int, net: int) {
    && t.fees - s.fees == amount * s.config.perfFeeBps / BASIS_POINTS
    && net + (t.fees - s.fees) == amount
    && t.totalDeposited == s.totalDeposited + net
    && t.tokenBalance == s.tokenBalance + amount
  }

  lemma HarvestSplitsYield(s: VaultState, amount: int)
    requires VaultModel.Harvest(s, amount).Ok?
    ensures var (t, net) := VaultModel.Harvest(s, amount).value; SplitsYield(s, t, amount, net)
  {
    MulMono(0, s.config.perfFeeBps, amount);
  }

  lemma DistributeSplitsYield(s: VaultState, amount: int)
    requires VaultModel.Distribute(s, amount).Ok?
    ensures var (t, net) := VaultModel.Distribute(s, amount).value; SplitsYield(s, t, amount, net)
  {
    MulMono(0, s.config.perfFeeBps, amount);
  }
}

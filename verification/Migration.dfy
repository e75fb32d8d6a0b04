/**
 The migrator: one call that redeems old-vault shares and deposits the proceeds into the new vault, with
 a slippage check after each leg. If either leg or check fails, both vaults keep the state they had.
 */
module Migration {
  import opened Core
  import opened Arith
  import opened ShareMath
  import opened VaultModel
  import opened Accounts
  import opened Prices
  import E = EntryPoints
  import Credits
  import R = Reserves

  /** What `migrate` checks, and the two vault legs in order; the result is both vaults and both outputs. */
  function Migrate(from: VaultState, into: VaultState, expiry: Option<nat>, now: nat, user: Address,
                   shares: int, minUnderlying: int, minShares: int): Result<((VaultState, VaultState), (int, int))>
  {
    if expiry.None? then Err(NotInitialized) else
    :- Need(now <= expiry.value, MigrationExpired);
    :- Need(shares > 0, ZeroShares);
    var redeemed :- VaultModel.Withdraw(from, user, shares);
    // A queued withdrawal comes back to the migrator as an error.
    :- Need(redeemed.1.Paid?, WithdrawalQueued);
    var underlying := redeemed.1.amount;
    :- Need(minUnderlying <= 0 || underlying >= minUnderlying, SlippageExceeded);
    var deposited :- VaultModel.Deposit(into, user, underlying);
    :- Need(minShares <= 0 || deposited.1 >= minShares, SlippageExceeded);
    Ok(((redeemed.0, deposited.0), (underlying, deposited.1)))
  }

  /**
   A migration goes through if and only if the window is open, the old vault can pay the withdrawal at once, the
   new vault takes the proceeds, and both outputs meet their minimums. It pays and mints exactly what the two
   vaults' totals give, and moves nothing else in either vault.
   */
  lemma MigratesExactlyWhen(from: VaultState, into: VaultState, expiry: Option<nat>, now: nat, user: Address,
                            shares: int, minUnderlying: int, minShares: int)
    ensures var r := Migrate(from, into, expiry, now, user, shares, minUnderlying, minShares);
            var paid := Credits.ExactPayment(shares, from.PricedAssets(), from.totalShares);
            var minted := Credits.ExactMint(paid, into.totalShares, into.PricedAssets());
            && (r.Ok? <==> && expiry.Some? && now <= expiry.value
                           && E.WithdrawAllowed(from, user, shares) && !E.Queues(from, paid) && paid >= minUnderlying
                           && E.DepositAllowed(into, user, paid) && minted >= minShares)
            && (r.Ok? ==>
                  r.value == ((E.Moved(E.CountIn(from, paid), user, -shares, -paid, -paid),
                               E.Moved(into, user, minted, paid, paid)),
                              (paid, minted)))
  {
    hide E.Moved, E.CountIn, E.WithdrawAllowed, E.DepositAllowed, VaultModel.Withdraw, VaultModel.Deposit,
      Credits.ExactMint, Credits.ExactPayment;
    var paid := Credits.ExactPayment(shares, from.PricedAssets(), from.totalShares);
    E.WithdrawExactly(from, user, shares);
    E.DepositExactly(into, user, paid);
    PositiveOutputs(from, into, user, shares);
  }

  lemma PositiveOutputs(from: VaultState, into: VaultState, user: Address, shares: int)
    ensures var paid := Credits.ExactPayment(shares, from.PricedAssets(), from.totalShares);
            && (E.WithdrawAllowed(from, user, shares) ==> shares > 0 && paid > 0)
            && (E.DepositAllowed(into, user, paid) ==>
                  Credits.ExactMint(paid, into.totalShares, into.PricedAssets()) > 0)
  {
  }

  /** The two legs of a successful migration. */
  lemma MigrateLegs(from: VaultState, into: VaultState, expiry: Option<nat>, now: nat, user: Address,
                    shares: int, minUnderlying: int, minShares: int)
    requires Migrate(from, into, expiry, now, user, shares, minUnderlying, minShares).Ok?
    ensures var ((from', into'), (underlying, minted)) :=
              Migrate(from, into, expiry, now, user, shares, minUnderlying, minShares).value;
            && VaultModel.Withdraw(from, user, shares) == Ok((from', Paid(underlying)))
            && VaultModel.Deposit(into, user, underlying) == Ok((into', minted))
            && (minUnderlying > 0 ==> underlying >= minUnderlying)
            && (minShares > 0 ==> minted >= minShares)
  {
  }

  /**
   Migration conserves: the two vaults' tracked deposits and token balances keep their sums, each vault
   keeps its reserve identity, and neither vault's share price falls.
   */
  lemma MigrationConserves(from: VaultState, into: VaultState, expiry: Option<nat>, now: nat, user: Address,
                           shares: int, minUnderlying: int, minShares: int, us: set<Address>)
    requires Migrate(from, into, expiry, now, user, shares, minUnderlying, minShares).Ok?
    requires Accounted(from, us) && VestedBacked(from) && VestedBacked(into)
    ensures var ((from', into'), _) := Migrate(from, into, expiry, now, user, shares, minUnderlying, minShares).value;
            && from'.totalDeposited + into'.totalDeposited == from.totalDeposited + into.totalDeposited
            && from'.tokenBalance + into'.tokenBalance == from.tokenBalance + into.tokenBalance
            && (R.Reserved(from) ==> R.Reserved(from')) && (R.Reserved(into) ==> R.Reserved(into'))
            && VestedBacked(from') && VestedPriceKept(from, from')
            && VestedBacked(into') && VestedPriceKept(into, into')
  {
    MigrateLegs(from, into, expiry, now, user, shares, minUnderlying, minShares);
    var ((from', into'), (underlying, minted)) :=
      Migrate(from, into, expiry, now, user, shares, minUnderlying, minShares).value;
    R.WithdrawShape(from, user, shares);
    R.DepositBalances(into, user, underlying);
    WithdrawRedeems(from, user, shares, us);
    VestedRedemptionKeeps(from, from');
    DepositKeepsVestedPrice(into, user, underlying);
    DepositShape(into, user, underlying);
    DepositTokens(into, user, underlying);
  }

  lemma DepositTokens(s: VaultState, caller: Address, amount: int)
    requires VaultModel.Deposit(s, caller, amount).Ok?
    ensures VaultModel.Deposit(s, caller, amount).value.0.tokenBalance == s.tokenBalance + amount
  {
  }

  // ----- out and straight back -----

  /** Depositing `d` into a pool and redeeming it at once returns at most `d`. */
  lemma NoGainInside(d: int, pool: int, totalShares: int)
    requires pool >= 0 && totalShares >= 0
    requires totalShares == 0 ==> pool == 0
    requires DepositShares(d, totalShares, pool).Ok?
    requires var n := DepositShares(d, totalShares, pool).value;
             AssetsForShares(n, pool + d, totalShares + n).Ok?
    ensures var n := DepositShares(d, totalShares, pool).value;
            AssetsForShares(n, pool + d, totalShares + n).value <= d
  {
    var n := DepositShares(d, totalShares, pool).value;
    RedeemFavoursVault(n, pool + d, totalShares + n);
    if pool > 0 {
      RoundTrip(d, pool, totalShares);
    } else {
      assert n == d;
      MulMono(d, totalShares + d, d);
      FloorAtMost(d * d, totalShares + d, d);
    }
  }

  /** Buying back with at most the proceeds mints at most the shares sold, while others hold shares. */
  lemma BuysBackAtMost(pool: int, totalShares: int, sold: int, proceeds: int, back: int, minted: int)
    requires 0 < sold < totalShares && pool > 0
    requires AssetsForShares(sold, pool, totalShares) == Ok(proceeds) && proceeds > 0
    requires 0 < back <= proceeds
    requires DepositShares(back, totalShares - sold, pool - proceeds) == Ok(minted)
    ensures minted <= sold
  {
    RedeemFavoursVault(sold, pool, totalShares);
    MintFavoursVault(back, totalShares - sold, pool - proceeds);
    // minted·(A - r) <= back·(S - s) <= r·(S - s) <= s·(A - r)
    MulMono(back, proceeds, totalShares - sold);
    assert proceeds * (totalShares - sold) == proceeds * totalShares - proceeds * sold;
    assert sold * (pool - proceeds) == sold * pool - sold * proceeds;
    MulCancel(minted, sold, pool - proceeds);
  }

  /** Both legs of a migration, as pools and shares. */
  predicate Legs(from: VaultState, into: VaultState, from': VaultState, into': VaultState, shares: int, paid: int,
                 minted: int) {
    && shares > 0 && paid > 0 && minted > 0
    && AssetsForShares(shares, from.PricedAssets(), from.totalShares) == Ok(paid)
    && from'.totalShares == from.totalShares - shares && from'.PricedAssets() == from.PricedAssets() - paid
    && DepositShares(paid, into.totalShares, into.PricedAssets()) == Ok(minted)
    && into'.totalShares == into.totalShares + minted && into'.PricedAssets() == into.PricedAssets() + paid
  }

  lemma WithdrawLeg(s: VaultState, t: VaultState, user: Address, shares: int, paid: int)
    requires VestedBacked(s) && VaultModel.Withdraw(s, user, shares) == Ok((t, Paid(paid)))
    requires s.totalShares >= shares
    ensures AssetsForShares(shares, s.PricedAssets(), s.totalShares) == Ok(paid) && paid > 0 && shares > 0
    ensures t.totalShares == s.totalShares - shares && t.PricedAssets() == s.PricedAssets() - paid && VestedBacked(t)
  {
    WithdrawTotals(s, user, shares);
    PricedIsDifference(s);
    RedeemFavoursVault(shares, s.PricedAssets(), s.totalShares);
    PoolMovesWithDeposits(s, t);
  }

  lemma DepositLeg(s: VaultState, t: VaultState, user: Address, amount: int, minted: int)
    requires VestedBacked(s) && VaultModel.Deposit(s, user, amount) == Ok((t, minted))
    ensures DepositShares(amount, s.totalShares, s.PricedAssets()) == Ok(minted) && amount > 0 && minted > 0
    ensures t.totalShares == s.totalShares + minted && t.PricedAssets() == s.PricedAssets() + amount && VestedBacked(t)
  {
    DepositShape(s, user, amount);
    PricedIsDifference(s);
    PoolMovesWithDeposits(s, t);
  }

  lemma MigrationAsLegs(from: VaultState, into: VaultState, expiry: Option<nat>, now: nat, user: Address,
                        shares: int, minUnderlying: int, minShares: int)
    requires VestedBacked(from) && VestedBacked(into) && shares <= from.totalShares
    requires Migrate(from, into, expiry, now, user, shares, minUnderlying, minShares).Ok?
    ensures var ((from', into'), (paid, minted)) :=
              Migrate(from, into, expiry, now, user, shares, minUnderlying, minShares).value;
            Legs(from, into, from', into', shares, paid, minted) && VestedBacked(from') && VestedBacked(into')
  {
    var ((from', into'), (paid, minted)) :=
      Migrate(from, into, expiry, now, user, shares, minUnderlying, minShares).value;
    MigrateLegs(from, into, expiry, now, user, shares, minUnderlying, minShares);
    WithdrawLeg(from, from', user, shares, paid);
    DepositLeg(into, into', user, paid, minted);
  }

  /** Out of `source` into `target` and back. */
  lemma OutAndBack(source: VaultState, source1: VaultState, source2: VaultState,
                   target: VaultState, target1: VaultState, target2: VaultState,
                   shares: int, out: int, minted: int, back: int, regained: int)
    requires source.PricedAssets() >= 0 && target.PricedAssets() >= 0 && target.totalShares >= 0
    requires shares < source.totalShares && (target.totalShares == 0 ==> target.PricedAssets() == 0)
    requires Legs(source, target, source1, target1, shares, out, minted)
    requires Legs(target1, source1, target2, source2, minted, back, regained)
    ensures regained <= shares
  {
    RedeemFavoursVault(shares, source.PricedAssets(), source.totalShares);
    NoGainInside(out, target.PricedAssets(), target.totalShares);
    BuysBackAtMost(source.PricedAssets(), source.totalShares, shares, out, back, regained);
  }

  /**
   Migrating out and straight back never leaves the user with more old-vault shares than they started
   with, as long as others still hold old-vault shares and the new vault has no assets without shares.
   */
  lemma MigrationRoundTrip(source: VaultState, target: VaultState, expiry: Option<nat>, expiryBack: Option<nat>,
                           now: nat, later: nat, user: Address, shares: int,
                           minOut: int, minNew: int, minBack: int, minOld: int)
    requires VestedBacked(source) && VestedBacked(target)
    requires shares < source.totalShares
    requires target.totalShares == 0 ==> target.PricedAssets() == 0
    requires Migrate(source, target, expiry, now, user, shares, minOut, minNew).Ok?
    requires var ((source1, target1), (_, minted)) :=
               Migrate(source, target, expiry, now, user, shares, minOut, minNew).value;
             Migrate(target1, source1, expiryBack, later, user, minted, minBack, minOld).Ok?
    ensures var ((source1, target1), (_, minted)) :=
              Migrate(source, target, expiry, now, user, shares, minOut, minNew).value;
            Migrate(target1, source1, expiryBack, later, user, minted, minBack, minOld).value.1.1 <= shares
  {
    var ((source1, target1), (out, minted)) := Migrate(source, target, expiry, now, user, shares, minOut, minNew).value;
    var ((target2, source2), (back, regained)) :=
      Migrate(target1, source1, expiryBack, later, user, minted, minBack, minOld).value;
    MigrationAsLegs(source, target, expiry, now, user, shares, minOut, minNew);
    MigrationAsLegs(target1, source1, expiryBack, later, user, minted, minBack, minOld);
    PricedIsDifference(source);
    PricedIsDifference(target);
    OutAndBack(source, source1, source2, target, target1, target2, shares, out, minted, back, regained);
  }

  /**
   Shares regained by selling `sold` shares of a vault (A, S) for a deposit into a vault (T, U) and coming
   straight back, in pools and supplies.
   */
  function Regained(A: int, S: int, T: int, U: int, sold: int): Result<int> {
    var out :- AssetsForShares(sold, A, S);
    var minted :- DepositShares(out, U, T);
    var back :- AssetsForShares(minted, T + out, U + minted);
    DepositShares(back, S - sold, A - out)
  }

  predicate NoGain(A: int, S: int, T: int, U: int, sold: int) {
    0 < sold < S && A >= 0 && Regained(A, S, T, U, sold).Ok? ==> Regained(A, S, T, U, sold).value <= sold
  }

  /**
   A new vault is safe to migrate through from every old vault with other holders exactly when it holds no
   assets without shares.
   */
  lemma RoundTripSafeExactlyWhen(T: int, U: int)
    requires 0 <= T < I128_MAX && U >= 0
    ensures (forall A: int, S: int, sold: int :: NoGain(A, S, T, U, sold)) <==> (U == 0 ==> T == 0)
  {
    if U == 0 && T > 0 {
      StrandedAssetsAreCollected(T);
      assert !NoGain(2, 2, T, U, 1);
    } else {
      forall A: int, S: int, sold: int ensures NoGain(A, S, T, U, sold) {
        if 0 < sold < S && A >= 0 && Regained(A, S, T, U, sold).Ok? {
          var out := AssetsForShares(sold, A, S).value;
          var minted := DepositShares(out, U, T).value;
          var back := AssetsForShares(minted, T + out, U + minted).value;
          RedeemFavoursVault(sold, A, S);
          NoGainInside(out, T, U);
          BuysBackAtMost(A, S, sold, out, back, Regained(A, S, T, U, sold).value);
        }
      }
    }
  }

  /** One of two shares, sent through a vault with T stranded assets, comes back as T + 1 shares. */
  lemma StrandedAssetsAreCollected(T: int)
    requires 0 < T < I128_MAX
    ensures Regained(2, 2, T, 0, 1) == Ok(T + 1)
  {
    assert AssetsForShares(1, 2, 2) == Ok(1);
    assert DepositShares(1, 0, T) == Ok(1);
    assert AssetsForShares(1, T + 1, 1) == Ok(T + 1);
    assert DepositShares(T + 1, 1, 1) == Ok(T + 1);
  }
}

/** The migrator contract, calling two vault contracts. */
module MigrationContract {
  import opened Core
  import V = VaultContract
  import Migration

  class Migrator {
    var oldVault: V.Vault?
    var newVault: V.Vault?
    var expiry: Option<nat>

    /** Once initialized, the two vaults are set and differ. */
    ghost predicate Valid()
      reads this
    {
      expiry.Some? ==> oldVault != null && newVault != null && oldVault != newVault
    }

    constructor ()
      ensures Valid() && expiry == None
    {
      oldVault, newVault, expiry := null, null, None;
    }

    method Initialize(oldVault: V.Vault, newVault: V.Vault, expiry: nat) returns (r: Result<()>)
      requires Valid()
      modifies this
      ensures Valid()
      ensures r == if old(this.expiry).Some? then Err(AlreadyInitialized)
                   else if oldVault == newVault then Err(InvalidAddress) else Ok(())
      ensures r.Ok? ==> this.oldVault == oldVault && this.newVault == newVault && this.expiry == Some(expiry)
      ensures r.Err? ==> this.oldVault == old(this.oldVault) && this.newVault == old(this.newVault)
                         && this.expiry == old(this.expiry)
    {
      if this.expiry.Some? { return Err(AlreadyInitialized); }
      if oldVault == newVault { return Err(InvalidAddress); }
      this.oldVault, this.newVault, this.expiry := oldVault, newVault, Some(expiry);
      return Ok(());
    }

    /** Both legs or neither. */
    method Migrate(now: nat, user: Address, shares: int, minUnderlying: int, minShares: int)
      returns (r: Result<(int, int)>)
      requires Valid()
      modifies oldVault, newVault
      ensures expiry.None? ==> r == Err(NotInitialized)
      ensures expiry.Some? ==>
                match Migration.Migrate(old(oldVault.cells), old(newVault.cells), expiry, now, user, shares,
                                        minUnderlying, minShares)
                case Ok(p) => r == Ok(p.1) && oldVault.cells == p.0.0 && newVault.cells == p.0.1
                case Err(e) =>
                  r == Err(e) && oldVault.cells == old(oldVault.cells) && newVault.cells == old(newVault.cells)
    {
      if expiry.None? { return Err(NotInitialized); }
      if now > expiry.value { return Err(MigrationExpired); }
      if shares <= 0 { return Err(ZeroShares); }
      var oldBefore, newBefore := oldVault.cells, newVault.cells;
      var redeemed := oldVault.Withdraw(user, shares);
      if redeemed.Err? { return Err(redeemed.error); }
      if redeemed.value.Queued? {
        oldVault.cells := oldBefore;
        return Err(WithdrawalQueued);
      }
      var underlyingOut := redeemed.value.amount;
      if minUnderlying > 0 && underlyingOut < minUnderlying {
        oldVault.cells := oldBefore;
        return Err(SlippageExceeded);
      }
      var deposited := newVault.Deposit(user, underlyingOut);
      if deposited.Err? {
        oldVault.cells := oldBefore;
        return Err(deposited.error);
      }
      var newShares := deposited.value;
      if minShares > 0 && newShares < minShares {
        oldVault.cells, newVault.cells := oldBefore, newBefore;
        return Err(SlippageExceeded);
      }
      return Ok((underlyingOut, newShares));
    }
  }
}

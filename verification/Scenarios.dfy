/** Runs from a fresh vault that show, call by call, where the documented promises stop holding. */
module Scenarios {
  import opened Core
  import opened ShareMath
  import opened VaultModel
  import opened VaultRuns
  import opened Accounts
  import opened YieldAccuracy
  import opened Prices
  import AccountEffects
  import Batch
  import Migration
  import Vesting

  const ALICE := Address(1)
  const BOB := Address(2)
  const KEEPER := Address(3)

  const WITH_FEES := NO_LIMITS.(perfFeeBps := 2_000)
  const WITH_QUEUE := NO_LIMITS.(queueThreshold := 1)
  const ONE_BPS := NO_LIMITS.(maxWithdrawalBps := 1)

  /** The vault's state after a run from a fresh vault at ledger and time zero. */
  function After(config: Config, actions: seq<Action>): VaultState {
    Run(World(Initial(config, 0, 0), NOTHING), actions).state
  }

  lemma AfterOne(config: Config, actions: seq<Action>, a: Action)
    ensures After(config, actions + [a]) == Step(After(config, actions), a).0
  {
    assert (actions + [a])[..|actions + [a]| - 1] == actions;
  }

  /** An open vault at ledger and time zero with these totals. */
  predicate Totals(s: VaultState, config: Config, deposited: int, shares: int, tokens: int, fees: int, yps: int,
                   unvested: int) {
    && s.config == config && !s.paused && s.ledger == 0 && s.now == 0 && s.lastHarvest == 0
    && s.totalDeposited == deposited && s.totalShares == shares && s.tokenBalance == tokens && s.fees == fees
    && s.yps == yps && s.vestPending == unvested && s.vestStart == 0 && s.vestPeriod == DEFAULT_YIELD_VESTING_PERIOD
  }

  predicate Holds(s: VaultState, who: Address, shares: int, checkpoint: int, pending: int) {
    s.Balance(who) == shares && s.Checkpoint(who) == checkpoint && s.Pending(who) == pending
  }

  lemma Fresh(config: Config)
    ensures Totals(After(config, []), config, 0, 0, 0, 0, 0, 0)
    ensures Holds(After(config, []), ALICE, 0, 0, 0) && Holds(After(config, []), BOB, 0, 0, 0)
  {
  }

  /** With the whole of `unvested` scheduled at this ledger, none of it has vested. */
  lemma AllUnvested(s: VaultState)
    requires s.vestPending >= 0 && s.vestPeriod > 0 && s.vestStart == s.ledger
    ensures s.Unvested() == s.vestPending
  {
    Vesting.FreshSchedule(s);
  }

  /** A first deposit, before any yield. */
  lemma FirstDeposit(s: VaultState, config: Config, amount: int)
    requires Totals(s, config, 0, 0, 0, 0, 0, 0) && Holds(s, ALICE, 0, 0, 0) && Holds(s, BOB, 0, 0, 0)
    requires config == NO_LIMITS || config == WITH_FEES || config == WITH_QUEUE || config == ONE_BPS
    requires 0 < amount <= 100
    ensures var t := Step(s, Deposit(ALICE, amount)).0;
            && Totals(t, config, amount, amount, amount, 0, 0, 0)
            && Holds(t, ALICE, amount, 0, 0) && Holds(t, BOB, 0, 0, 0)
  {
  }

  lemma AfterFirstDeposit(config: Config, amount: int)
    requires config == NO_LIMITS || config == WITH_FEES || config == WITH_QUEUE || config == ONE_BPS
    requires 0 < amount <= 100
    ensures var s := After(config, [Deposit(ALICE, amount)]);
            Totals(s, config, amount, amount, amount, 0, 0, 0) && Holds(s, ALICE, amount, 0, 0)
              && Holds(s, BOB, 0, 0, 0)
  {
    Fresh(config);
    FirstDeposit(After(config, []), config, amount);
    AfterOne(config, [], Deposit(ALICE, amount));
    assert [] + [Deposit(ALICE, amount)] == [Deposit(ALICE, amount)];
  }

  /** Bob deposits as much as Alice has. */
  lemma SecondDeposit(s: VaultState, config: Config, amount: int)
    requires Totals(s, config, amount, amount, amount, 0, 0, 0) && Holds(s, ALICE, amount, 0, 0)
               && Holds(s, BOB, 0, 0, 0)
    requires config == NO_LIMITS || config == WITH_FEES
    requires amount == 5 || amount == 10
    ensures var t := Step(s, Deposit(BOB, amount)).0;
            && Totals(t, config, 2 * amount, 2 * amount, 2 * amount, 0, 0, 0)
            && Holds(t, ALICE, amount, 0, 0) && Holds(t, BOB, amount, 0, 0)
  {
    assert DepositShares(amount, amount, amount) == Ok(amount);
  }

  lemma AfterTwoDeposits(config: Config, amount: int)
    requires config == NO_LIMITS || config == WITH_FEES
    requires amount == 5 || amount == 10
    ensures var s := After(config, [Deposit(ALICE, amount), Deposit(BOB, amount)]);
            && Totals(s, config, 2 * amount, 2 * amount, 2 * amount, 0, 0, 0)
            && Holds(s, ALICE, amount, 0, 0) && Holds(s, BOB, amount, 0, 0)
  {
    AfterFirstDeposit(config, amount);
    SecondDeposit(After(config, [Deposit(ALICE, amount)]), config, amount);
    AfterOne(config, [Deposit(ALICE, amount)], Deposit(BOB, amount));
    assert [Deposit(ALICE, amount)] + [Deposit(BOB, amount)] == [Deposit(ALICE, amount), Deposit(BOB, amount)];
  }

  // ----- accrued yield that a checkpoint reset destroys -----

  const ACCRUED: seq<Action> := [Deposit(ALICE, 10), Distribute(KEEPER, 10)]

  lemma DistributeTen(s: VaultState)
    requires Totals(s, NO_LIMITS, 10, 10, 10, 0, 0, 0) && Holds(s, ALICE, 10, 0, 0)
    ensures var t := Step(s, Distribute(KEEPER, 10)).0;
            Totals(t, NO_LIMITS, 20, 10, 20, 0, YIELD_PRECISION, 0) && Holds(t, ALICE, 10, 0, 0)
  {
    assert PerfFee(10, 0) == Ok(0);
    assert DeltaYps(10, 10) == Ok(YIELD_PRECISION);
  }

  /** Alice deposits ten, ten are distributed: ten are due to her. */
  lemma AfterAccrual()
    ensures var s := After(NO_LIMITS, ACCRUED);
            Totals(s, NO_LIMITS, 20, 10, 20, 0, YIELD_PRECISION, 0) && Holds(s, ALICE, 10, 0, 0) && Due(s, ALICE) == 10
  {
    AfterFirstDeposit(NO_LIMITS, 10);
    DistributeTen(After(NO_LIMITS, [Deposit(ALICE, 10)]));
    AfterOne(NO_LIMITS, [Deposit(ALICE, 10)], Distribute(KEEPER, 10));
    assert [Deposit(ALICE, 10)] + [Distribute(KEEPER, 10)] == ACCRUED;
  }

  /** The call goes through, and of the ten units due to Alice none is left. */
  predicate DestroysTen(s: VaultState, a: Action) {
    !Step(s, a).1.Failed? && Due(s, ALICE) == 10 && Due(Step(s, a).0, ALICE) == 0
  }

  lemma OwnDepositDestroys()
    ensures DestroysTen(After(NO_LIMITS, ACCRUED), Deposit(ALICE, 2))
  {
    AfterAccrual();
    assert DepositShares(2, 10, 20) == Ok(1);
  }

  /** Bob pays two units in for Alice, and her ten units of accrued yield are gone. */
  lemma ThirdPartyDepositDestroys()
    ensures DestroysTen(After(NO_LIMITS, ACCRUED), DepositForMany(BOB, [(ALICE, 2)]))
  {
    AfterAccrual();
    PayForAlice(After(NO_LIMITS, ACCRUED));
  }

  lemma PayForAlice(s: VaultState)
    requires Totals(s, NO_LIMITS, 20, 10, 20, 0, YIELD_PRECISION, 0) && Holds(s, ALICE, 10, 0, 0) && Due(s, ALICE) == 10
    ensures DestroysTen(s, DepositForMany(BOB, [(ALICE, 2)]))
  {
    var recipients := [(ALICE, 2)];
    var received := ReceiveIn(s, 2);
    assert recipients[..|recipients| - 1] == [] && recipients[|recipients| - 1] == (ALICE, 2);
    assert TotalAmount([]) == Ok(0);
    assert TotalAmount(recipients) == Ok(2);
    assert DepositShares(2, 10, 20) == Ok(1);
    assert MintMany(received, []) == Ok((received, []));
    assert Mint(received, ALICE, 1, 2).Ok?;
    var minted := Mint(received, ALICE, 1, 2).value;
    assert DepositShares(2, received.totalShares, received.totalDeposited) == Ok(1);
    assert [] + [1] == [1];
    assert MintMany(received, recipients) == Ok((minted, [1]));
    assert VaultModel.DepositForMany(s, recipients) == Ok((minted, [1]));
  }

  lemma OwnWithdrawalDestroys()
    ensures DestroysTen(After(NO_LIMITS, ACCRUED), Withdraw(ALICE, 1))
  {
    AfterAccrual();
    assert AssetsForShares(1, 20, 10) == Ok(2);
  }

  lemma EmergencyExitDestroys()
    ensures DestroysTen(After(NO_LIMITS, ACCRUED + [SetPaused(true)]), EmergencyWithdraw(ALICE, 1))
  {
    AfterAccrual();
    AfterOne(NO_LIMITS, ACCRUED, SetPaused(true));
    AliceEscapes(After(NO_LIMITS, ACCRUED + [SetPaused(true)]));
  }

  lemma AliceEscapes(s: VaultState)
    requires s.paused && s.config == NO_LIMITS && s.totalDeposited == s.tokenBalance == 20 && s.totalShares == 10
    requires Holds(s, ALICE, 10, 0, 0) && s.yps == YIELD_PRECISION
    ensures DestroysTen(s, EmergencyWithdraw(ALICE, 1))
  {
    assert AssetsForShares(1, 20, 10) == Ok(2);
    assert RateLimit(s, 2) == Ok(s);
    assert VaultModel.EmergencyWithdraw(s, ALICE, 1).Ok?;
    AccountEffects.EmergencyWithdrawForfeitsAccrual(s, ALICE, 1);
  }

  lemma BatchDepositDestroys()
    ensures DestroysTen(After(NO_LIMITS, ACCRUED), BatchDeposit(ALICE, [2]))
  {
    AfterAccrual();
    OneItemDeposit(20, 10, 2, 1);
  }

  lemma OneItemDeposit(assets: int, shares: int, amount: int, minted: int)
    requires amount > 0 && DepositShares(amount, shares, assets) == Ok(minted)
    requires IsI128(amount) && IsI128(assets + amount) && IsI128(shares + minted)
    ensures Batch.Deposit(assets, shares, [amount], 0)
         == Ok(Batch.DepositRun(assets + amount, shares + minted, amount, [minted]))
  {
    var start := Batch.DepositRun(assets, shares, 0, []);
    assert [amount][..0] == [] && [] + [minted] == [minted];
    assert Batch.DepositFold(start, [], 0) == Ok(start);
  }

  lemma OneItemWithdrawal(assets: int, shares: int, amount: int, balance: int, paid: int)
    requires 0 < amount <= balance && amount <= shares && paid > 0
               && AssetsForShares(amount, assets, shares) == Ok(paid)
    requires IsI128(amount) && IsI128(paid) && IsI128(assets - paid) && IsI128(shares - amount)
    ensures Batch.Withdraw(assets, shares, [amount], balance)
         == Ok(Batch.WithdrawRun(assets - paid, shares - amount, amount, paid, [paid]))
  {
    var start := Batch.WithdrawRun(assets, shares, 0, 0, []);
    assert [amount][..0] == [] && [] + [paid] == [paid];
    assert Batch.WithdrawFold(start, [], balance) == Ok(start);
  }

  lemma BatchWithdrawalDestroys()
    ensures DestroysTen(After(NO_LIMITS, ACCRUED), BatchWithdraw(ALICE, [1]))
  {
    AfterAccrual();
    assert AssetsForShares(1, 20, 10) == Ok(2);
    OneItemWithdrawal(20, 10, 1, 10, 2);
  }

  // ----- unvested yield: what stays behind, and who takes it -----

  const HARVESTED: seq<Action> := [Deposit(ALICE, 10), Harvest(KEEPER, 10)]

  lemma HarvestTen(s: VaultState)
    requires Totals(s, NO_LIMITS, 10, 10, 10, 0, 0, 0)
    ensures var t := Step(s, Harvest(KEEPER, 10)).0;
            Totals(t, NO_LIMITS, 20, 10, 20, 0, 0, 10) && t.balances == s.balances
  {
    assert PerfFee(10, 0) == Ok(0);
  }

  lemma AfterHarvest()
    ensures var s := After(NO_LIMITS, HARVESTED);
            Totals(s, NO_LIMITS, 20, 10, 20, 0, 0, 10) && s.Balance(ALICE) == 10 && s.Unvested() == 10
  {
    AfterFirstDeposit(NO_LIMITS, 10);
    HarvestTen(After(NO_LIMITS, [Deposit(ALICE, 10)]));
    AfterOne(NO_LIMITS, [Deposit(ALICE, 10)], Harvest(KEEPER, 10));
    assert [Deposit(ALICE, 10)] + [Harvest(KEEPER, 10)] == HARVESTED;
    AllUnvested(After(NO_LIMITS, HARVESTED));
  }

  const STRANDED: seq<Action> := HARVESTED + [Withdraw(ALICE, 10)]

  /** Alice redeems her last share right after a harvest: ten deposits stay behind, all of them unvested. */
  lemma LastWithdrawalLeavesDeposits()
    ensures var t := After(NO_LIMITS, STRANDED);
            && Totals(t, NO_LIMITS, 10, 0, 10, 0, 0, 10) && t.Balance(ALICE) == 0
            && t.Unvested() == 10 && t.PricedAssets() == 0
  {
    AfterHarvest();
    var s := After(NO_LIMITS, HARVESTED);
    assert AssetsForShares(10, 10, 10) == Ok(10);
    AfterOne(NO_LIMITS, HARVESTED, Withdraw(ALICE, 10));
    SameUnvested(s, After(NO_LIMITS, STRANDED));
  }

  const VESTED_STRANDED: seq<Action> := STRANDED + [Advance(120_960, 0)]

  /** One vesting period later, total assets are ten and there is still no share. */
  lemma LastWithdrawalStrandsYield()
    ensures var t := After(NO_LIMITS, VESTED_STRANDED);
            && t.totalShares == 0 && t.PricedAssets() == 10 && t.totalDeposited == t.tokenBalance == 10
            && t.Unvested() == 0 && t.config == NO_LIMITS && !t.paused && t.Balance(ALICE) == 0 && t.ledger == 120_960
  {
    LastWithdrawalLeavesDeposits();
    AfterOne(NO_LIMITS, STRANDED, Advance(120_960, 0));
    Vesting.FullyVestedAfterPeriod(After(NO_LIMITS, STRANDED), 120_960, 0);
  }

  /** The last shares leave at the plain price right after a harvest: total assets are minus ten. */
  lemma BatchExitTakesUnvested()
    ensures var (t, o) := Step(After(NO_LIMITS, HARVESTED), BatchWithdraw(ALICE, [10]));
            o == BatchRedeemed(20) && t.totalShares == 0 && t.PricedAssets() == -10
  {
    AfterHarvest();
    var s := After(NO_LIMITS, HARVESTED);
    assert AssetsForShares(10, 20, 10) == Ok(20);
    OneItemWithdrawal(20, 10, 10, 10, 20);
    OneSum(20);
    var t := Step(s, BatchWithdraw(ALICE, [10])).0;
    SameUnvested(s, t);
  }

  lemma OneSum(x: int)
    ensures Batch.SeqSum([x]) == x
  {
    assert [x][..0] == [];
  }

  lemma EmergencyExitTakesUnvested()
    ensures var (t, o) := Step(After(NO_LIMITS, HARVESTED + [SetPaused(true)]), EmergencyWithdraw(ALICE, 10));
            o == Redeemed(20) && t.totalShares == 0 && t.PricedAssets() == -10
  {
    AfterHarvest();
    AfterOne(NO_LIMITS, HARVESTED, SetPaused(true));
    AliceTakesAll(After(NO_LIMITS, HARVESTED + [SetPaused(true)]));
  }

  lemma AliceTakesAll(s: VaultState)
    requires s.paused && s.config == NO_LIMITS && s.totalDeposited == s.tokenBalance == 20 && s.totalShares == 10
    requires s.Balance(ALICE) == 10 && s.Unvested() == 10
    ensures var (t, o) := Step(s, EmergencyWithdraw(ALICE, 10));
            o == Redeemed(20) && t.totalShares == 0 && t.PricedAssets() == -10
  {
    assert AssetsForShares(10, 20, 10) == Ok(20);
    assert RateLimit(s, 20) == Ok(s);
    assert VaultModel.EmergencyWithdraw(s, ALICE, 10).Ok?;
    EmergencyTotals(s, ALICE, 10);
    SameUnvested(s, VaultModel.EmergencyWithdraw(s, ALICE, 10).value.0);
  }

  const SHARED: seq<Action> := [Deposit(ALICE, 5), Deposit(BOB, 5), Harvest(KEEPER, 10)]

  /** Ten shares, twenty deposited, ten of them unvested. */
  lemma AfterSharedHarvest()
    ensures var s := After(NO_LIMITS, SHARED);
            && Totals(s, NO_LIMITS, 20, 10, 20, 0, 0, 10) && s.Unvested() == 10
            && s.Balance(ALICE) == 5 && s.Balance(BOB) == 5
  {
    AfterTwoDeposits(NO_LIMITS, 5);
    var two := [Deposit(ALICE, 5), Deposit(BOB, 5)];
    HarvestTen(After(NO_LIMITS, two));
    AfterOne(NO_LIMITS, two, Harvest(KEEPER, 10));
    assert two + [Harvest(KEEPER, 10)] == SHARED;
    AllUnvested(After(NO_LIMITS, SHARED));
  }

  /** The call goes through and the vested price falls. */
  predicate LowersVestedPrice(s: VaultState, a: Action) {
    !Step(s, a).1.Failed? && s.totalShares > 0 && !VestedPriceKept(s, Step(s, a).0)
  }

  /** Half the shares leave with half of everything, and those who stay keep only unvested yield. */
  lemma EmergencyExitCanLowerVestedPrice()
    ensures LowersVestedPrice(After(NO_LIMITS, SHARED + [SetPaused(true)]), EmergencyWithdraw(ALICE, 5))
  {
    AfterSharedHarvest();
    AfterOne(NO_LIMITS, SHARED, SetPaused(true));
    var s := After(NO_LIMITS, SHARED + [SetPaused(true)]);
    assert AssetsForShares(5, 20, 10) == Ok(10);
    assert VaultModel.EmergencyWithdraw(s, ALICE, 5).Ok?;
    EmergencyTotals(s, ALICE, 5);
    HalfGone(s, VaultModel.EmergencyWithdraw(s, ALICE, 5).value.0);
  }

  lemma BatchExitCanLowerVestedPrice()
    ensures LowersVestedPrice(After(NO_LIMITS, SHARED), BatchWithdraw(ALICE, [5]))
  {
    AfterSharedHarvest();
    var s := After(NO_LIMITS, SHARED);
    assert AssetsForShares(5, 20, 10) == Ok(10);
    OneItemWithdrawal(20, 10, 5, 5, 10);
    assert VaultModel.BatchWithdraw(s, ALICE, [5]).Ok?;
    HalfGone(s, VaultModel.BatchWithdraw(s, ALICE, [5]).value.0);
  }

  lemma HalfGone(s: VaultState, t: VaultState)
    requires s.totalDeposited == 20 && s.totalShares == 10 && s.Unvested() == 10
    requires SameVesting(s, t) && t.totalDeposited == 10 && t.totalShares == 5
    ensures !VestedPriceKept(s, t)
  {
    SameUnvested(s, t);
  }

  /** A deposit at the smaller vested pool takes the plain price from two to one and a half. */
  lemma DepositCanLowerPlainPrice()
    ensures var s := After(NO_LIMITS, SHARED);
            var (t, o) := Step(s, Deposit(ALICE, 10));
            !o.Failed? && s.totalShares > 0 && !PlainPriceKept(s, t)
  {
    AfterSharedHarvest();
    assert DepositShares(10, 10, 10) == Ok(10);
  }

  // ----- a healthy vault that refuses deposits -----

  /** An uncollected fee of two makes the strict balance guard refuse the next deposit. */
  lemma FeeBlocksDeposit()
    ensures var s := After(WITH_FEES, [Deposit(ALICE, 100), Harvest(KEEPER, 10)]);
            s.fees == 2 && VaultModel.Deposit(s, ALICE, 1) == Err(BalanceMismatch)
  {
    AfterFirstDeposit(WITH_FEES, 100);
    AfterOne(WITH_FEES, [Deposit(ALICE, 100)], Harvest(KEEPER, 10));
    assert [Deposit(ALICE, 100)] + [Harvest(KEEPER, 10)] == [Deposit(ALICE, 100), Harvest(KEEPER, 10)];
    assert PerfFee(10, 2_000) == Ok(2);
  }

  /** So does a queued withdrawal. */
  lemma QueueBlocksDeposit()
    ensures var s := After(WITH_QUEUE, [Deposit(ALICE, 10), Withdraw(ALICE, 5)]);
            s.queue != map[] && VaultModel.Deposit(s, ALICE, 1) == Err(BalanceMismatch)
  {
    AfterFirstDeposit(WITH_QUEUE, 10);
    AfterOne(WITH_QUEUE, [Deposit(ALICE, 10)], Withdraw(ALICE, 5));
    assert [Deposit(ALICE, 10)] + [Withdraw(ALICE, 5)] == [Deposit(ALICE, 10), Withdraw(ALICE, 5)];
    QueueFive(After(WITH_QUEUE, [Deposit(ALICE, 10)]));
  }

  lemma QueueFive(s: VaultState)
    requires Totals(s, WITH_QUEUE, 10, 10, 10, 0, 0, 0) && Holds(s, ALICE, 10, 0, 0)
    ensures var t := Step(s, Withdraw(ALICE, 5)).0;
            && t.totalDeposited == 5 && t.tokenBalance == 10 && s.nextId in t.queue
            && !t.paused && t.config == WITH_QUEUE
  {
    assert AssetsForShares(5, 10, 10) == Ok(5);
  }

  // ----- deposits below zero -----

  const OVERDRAWN: seq<Action> :=
    [Deposit(ALICE, 10), Deposit(BOB, 10), Distribute(KEEPER, 1_000), Transfer(ALICE, BOB, 1),
     BatchWithdraw(ALICE, [9]), BatchWithdraw(BOB, [5]), Collect(ALICE)]

  const STEP: int := 40 * YIELD_PRECISION

  lemma DistributeThousand(s: VaultState)
    requires Totals(s, WITH_FEES, 20, 20, 20, 0, 0, 0) && Holds(s, ALICE, 10, 0, 0) && Holds(s, BOB, 10, 0, 0)
    ensures var t := Step(s, Distribute(KEEPER, 1_000)).0;
            Totals(t, WITH_FEES, 820, 20, 1_020, 200, STEP, 0) && Holds(t, ALICE, 10, 0, 0) && Holds(t, BOB, 10, 0, 0)
  {
    assert PerfFee(1_000, 2_000) == Ok(200);
    assert DeltaYps(800, 20) == Ok(STEP);
  }

  lemma TransferOne(s: VaultState)
    requires Totals(s, WITH_FEES, 820, 20, 1_020, 200, STEP, 0) && Holds(s, ALICE, 10, 0, 0) && Holds(s, BOB, 10, 0, 0)
    ensures var t := Step(s, Transfer(ALICE, BOB, 1)).0;
            Totals(t, WITH_FEES, 820, 20, 1_020, 200, STEP, 0) && Holds(t, ALICE, 9, STEP, 400)
              && Holds(t, BOB, 11, STEP, 400)
  {
    assert Accrued(s, ALICE) == Ok(400);
    var one := Settle(s, ALICE).value;
    assert Accrued(one, BOB) == Ok(400);
  }

  lemma AliceExits(s: VaultState)
    requires Totals(s, WITH_FEES, 820, 20, 1_020, 200, STEP, 0) && Holds(s, ALICE, 9, STEP, 400)
               && Holds(s, BOB, 11, STEP, 400)
    ensures var t := Step(s, BatchWithdraw(ALICE, [9])).0;
            Totals(t, WITH_FEES, 451, 11, 651, 200, STEP, 0) && Holds(t, ALICE, 0, STEP, 400)
              && Holds(t, BOB, 11, STEP, 400)
  {
    assert AssetsForShares(9, 820, 20) == Ok(369);
    OneItemWithdrawal(820, 20, 9, 9, 369);
  }

  lemma BobExits(s: VaultState)
    requires Totals(s, WITH_FEES, 451, 11, 651, 200, STEP, 0) && Holds(s, ALICE, 0, STEP, 400)
               && Holds(s, BOB, 11, STEP, 400)
    ensures var t := Step(s, BatchWithdraw(BOB, [5])).0;
            Totals(t, WITH_FEES, 246, 6, 446, 200, STEP, 0) && Holds(t, ALICE, 0, STEP, 400)
  {
    assert AssetsForShares(5, 451, 11) == Ok(205);
    OneItemWithdrawal(451, 11, 5, 11, 205);
  }

  lemma AliceCollects(s: VaultState)
    requires Totals(s, WITH_FEES, 246, 6, 446, 200, STEP, 0) && Holds(s, ALICE, 0, STEP, 400)
    ensures Step(s, Collect(ALICE)).1 == Collected(400)
    ensures Totals(Step(s, Collect(ALICE)).0, WITH_FEES, -154, 6, 46, 200, STEP, 0)
    ensures Due(s, ALICE) == 400 > s.totalDeposited
  {
    assert Accrued(s, ALICE) == Ok(400);
  }

  /**
   Two depositors share 800 of distributed yield, leave most of their shares at a price that already
   contains it, and one collects it again: the vault's books end 154 below zero, paid from its fees.
   */
  lemma DepositsCanGoNegative()
    ensures After(WITH_FEES, OVERDRAWN).totalDeposited == After(WITH_FEES, OVERDRAWN).PricedAssets() == -154
    ensures After(WITH_FEES, OVERDRAWN).tokenBalance == 46 && After(WITH_FEES, OVERDRAWN).fees == 200
  {
    var l4 := BothHoldYield();
    AliceExits(After(WITH_FEES, l4));
    AfterOne(WITH_FEES, l4, BatchWithdraw(ALICE, [9]));
    var l5 := l4 + [BatchWithdraw(ALICE, [9])];
    BobExits(After(WITH_FEES, l5));
    AfterOne(WITH_FEES, l5, BatchWithdraw(BOB, [5]));
    var l6 := l5 + [BatchWithdraw(BOB, [5])];
    AliceCollects(After(WITH_FEES, l6));
    AfterOne(WITH_FEES, l6, Collect(ALICE));
    assert l6 + [Collect(ALICE)] == OVERDRAWN;
  }

  /** The first four calls of the run. */
  lemma BothHoldYield() returns (actions: seq<Action>)
    ensures actions == [Deposit(ALICE, 10), Deposit(BOB, 10), Distribute(KEEPER, 1_000), Transfer(ALICE, BOB, 1)]
    ensures var s := After(WITH_FEES, actions);
            Totals(s, WITH_FEES, 820, 20, 1_020, 200, STEP, 0) && Holds(s, ALICE, 9, STEP, 400)
              && Holds(s, BOB, 11, STEP, 400)
  {
    AfterTwoDeposits(WITH_FEES, 10);
    var l2 := [Deposit(ALICE, 10), Deposit(BOB, 10)];
    DistributeThousand(After(WITH_FEES, l2));
    AfterOne(WITH_FEES, l2, Distribute(KEEPER, 1_000));
    var l3 := l2 + [Distribute(KEEPER, 1_000)];
    TransferOne(After(WITH_FEES, l3));
    AfterOne(WITH_FEES, l3, Transfer(ALICE, BOB, 1));
    actions := l3 + [Transfer(ALICE, BOB, 1)];
  }

  // ----- shares without assets -----

  const UNBACKED: seq<Action> :=
    [Deposit(ALICE, 10), Deposit(BOB, 10), Distribute(KEEPER, 180), Transfer(ALICE, BOB, 1),
     BatchWithdraw(ALICE, [9]), BatchWithdraw(BOB, [2]), Collect(ALICE)]

  const RISE: int := 9 * YIELD_PRECISION

  lemma DistributeMore(s: VaultState)
    requires Totals(s, NO_LIMITS, 20, 20, 20, 0, 0, 0) && Holds(s, ALICE, 10, 0, 0) && Holds(s, BOB, 10, 0, 0)
    ensures var t := Step(s, Distribute(KEEPER, 180)).0;
            Totals(t, NO_LIMITS, 200, 20, 200, 0, RISE, 0) && Holds(t, ALICE, 10, 0, 0) && Holds(t, BOB, 10, 0, 0)
  {
    assert PerfFee(180, 0) == Ok(0);
    assert DeltaYps(180, 20) == Ok(RISE);
  }

  lemma TransferSettles(s: VaultState)
    requires Totals(s, NO_LIMITS, 200, 20, 200, 0, RISE, 0) && Holds(s, ALICE, 10, 0, 0) && Holds(s, BOB, 10, 0, 0)
    ensures var t := Step(s, Transfer(ALICE, BOB, 1)).0;
            Totals(t, NO_LIMITS, 200, 20, 200, 0, RISE, 0) && Holds(t, ALICE, 9, RISE, 90)
              && Holds(t, BOB, 11, RISE, 90)
  {
    assert Accrued(s, ALICE) == Ok(90);
    var one := Settle(s, ALICE).value;
    assert Accrued(one, BOB) == Ok(90);
  }

  lemma AliceSellsOut(s: VaultState)
    requires Totals(s, NO_LIMITS, 200, 20, 200, 0, RISE, 0) && Holds(s, ALICE, 9, RISE, 90)
               && Holds(s, BOB, 11, RISE, 90)
    ensures var t := Step(s, BatchWithdraw(ALICE, [9])).0;
            Totals(t, NO_LIMITS, 110, 11, 110, 0, RISE, 0) && Holds(t, ALICE, 0, RISE, 90)
              && Holds(t, BOB, 11, RISE, 90)
  {
    assert AssetsForShares(9, 200, 20) == Ok(90);
    OneItemWithdrawal(200, 20, 9, 9, 90);
  }

  lemma BobSellsTwo(s: VaultState)
    requires Totals(s, NO_LIMITS, 110, 11, 110, 0, RISE, 0) && Holds(s, ALICE, 0, RISE, 90)
               && Holds(s, BOB, 11, RISE, 90)
    ensures var t := Step(s, BatchWithdraw(BOB, [2])).0;
            Totals(t, NO_LIMITS, 90, 9, 90, 0, RISE, 0) && Holds(t, ALICE, 0, RISE, 90)
  {
    assert AssetsForShares(2, 110, 11) == Ok(20);
    OneItemWithdrawal(110, 11, 2, 11, 20);
  }

  lemma AliceTakesTheRest(s: VaultState)
    requires Totals(s, NO_LIMITS, 90, 9, 90, 0, RISE, 0) && Holds(s, ALICE, 0, RISE, 90)
    ensures Totals(Step(s, Collect(ALICE)).0, NO_LIMITS, 0, 9, 0, 0, RISE, 0)
    ensures Step(s, Collect(ALICE)).0.Balance(ALICE) == 0
  {
    assert Accrued(s, ALICE) == Ok(90);
  }

  lemma SharesBeforeCollection() returns (actions: seq<Action>)
    ensures actions + [Collect(ALICE)] == UNBACKED
    ensures var s := After(NO_LIMITS, actions);
            Totals(s, NO_LIMITS, 90, 9, 90, 0, RISE, 0) && Holds(s, ALICE, 0, RISE, 90)
  {
    AfterTwoDeposits(NO_LIMITS, 10);
    var l2 := [Deposit(ALICE, 10), Deposit(BOB, 10)];
    DistributeMore(After(NO_LIMITS, l2));
    AfterOne(NO_LIMITS, l2, Distribute(KEEPER, 180));
    var l3 := l2 + [Distribute(KEEPER, 180)];
    TransferSettles(After(NO_LIMITS, l3));
    AfterOne(NO_LIMITS, l3, Transfer(ALICE, BOB, 1));
    var l4 := l3 + [Transfer(ALICE, BOB, 1)];
    AliceSellsOut(After(NO_LIMITS, l4));
    AfterOne(NO_LIMITS, l4, BatchWithdraw(ALICE, [9]));
    var l5 := l4 + [BatchWithdraw(ALICE, [9])];
    BobSellsTwo(After(NO_LIMITS, l5));
    AfterOne(NO_LIMITS, l5, BatchWithdraw(BOB, [2]));
    actions := l5 + [BatchWithdraw(BOB, [2])];
  }

  /** A collection of exactly everything tracked leaves nine shares with nothing behind them. */
  lemma SharesWithoutAssets()
    ensures Totals(After(NO_LIMITS, UNBACKED), NO_LIMITS, 0, 9, 0, 0, RISE, 0)
    ensures After(NO_LIMITS, UNBACKED).Balance(ALICE) == 0
  {
    var actions := SharesBeforeCollection();
    AliceTakesTheRest(After(NO_LIMITS, actions));
    AfterOne(NO_LIMITS, actions, Collect(ALICE));
  }

  /** There, two single units in one batch mint eleven shares, and one deposit of two mints two. */
  lemma SplitDepositGains()
    ensures var s := After(NO_LIMITS, UNBACKED);
            && VaultModel.BatchDeposit(s, ALICE, [1, 1]).Ok?
            && VaultModel.BatchDeposit(s, ALICE, [1, 1]).value.1 == [1, 10]
            && VaultModel.Deposit(s, ALICE, 2).Ok? && VaultModel.Deposit(s, ALICE, 2).value.1 == 2
  {
    SharesWithoutAssets();
    TwoUnits();
  }

  lemma TwoUnits()
    ensures Batch.Deposit(0, 9, [1, 1], 0) == Ok(Batch.DepositRun(2, 20, 2, [1, 10]))
  {
    var amounts, start, one := [1, 1], Batch.DepositRun(0, 9, 0, []), Batch.DepositRun(1, 10, 1, [1]);
    assert amounts[..1] == [1] && [1][..0] == [];
    assert [] + [1] == [1] && [1] + [10] == [1, 10];
    assert Batch.DepositItem(start, 1, 0) == Ok(one);
    assert Batch.DepositFold(start, [], 0) == Ok(start);
    assert Batch.DepositFold(start, [1], 0) == Ok(one);
    assert DepositShares(1, 10, 1) == Ok(10);
    assert Batch.DepositItem(one, 1, 0) == Ok(Batch.DepositRun(2, 20, 2, [1, 10]));
  }

  // ----- assets without shares: a migration there and back -----

  /** An open vault without limits, fees or unvested yield, with these totals and shares of Alice's. */
  predicate Simple(s: VaultState, deposited: int, shares: int, hers: int) {
    && s.config == NO_LIMITS && !s.paused && s.Unvested() == 0
    && s.totalDeposited == s.tokenBalance == deposited && s.totalShares == shares && s.Balance(ALICE) == hers
  }

  lemma LegOut(s: VaultState, T: int, S: int, hers: int, shares: int, paid: int)
    requires Simple(s, T, S, hers) && 0 < shares <= hers <= 100 && 0 < S <= 100 && T <= 100
    requires AssetsForShares(shares, T, S) == Ok(paid) && 0 < paid <= T
    ensures VaultModel.Withdraw(s, ALICE, shares).Ok?
    ensures var (t, payout) := VaultModel.Withdraw(s, ALICE, shares).value;
            payout == Paid(paid) && Simple(t, T - paid, S - shares, hers - shares)
  {
    assert s.PricedAssets() == T;
    PaidAtOnce(s, shares, paid);
    SimpleAfter(s, VaultModel.Withdraw(s, ALICE, shares).value.0, T, S, hers, -paid, -shares);
  }

  /** Deposits, tokens, supply and Alice's shares move; nothing else does. */
  lemma SimpleAfter(s: VaultState, t: VaultState, T: int, S: int, hers: int, moved: int, shares: int)
    requires Simple(s, T, S, hers) && SameVesting(s, t) && t.config == s.config && !t.paused
    requires t.totalDeposited == T + moved && t.tokenBalance == T + moved
    requires t.totalShares == S + shares && t.Balance(ALICE) == hers + shares
    ensures Simple(t, T + moved, S + shares, hers + shares)
  {
    SameUnvested(s, t);
  }

  /** Without limits or a queue a withdrawal the vault can pay is paid. */
  lemma PaidAtOnce(s: VaultState, shares: int, paid: int)
    requires s.config == NO_LIMITS && !s.paused && s.totalDeposited == s.tokenBalance
    requires 0 < shares <= s.Balance(ALICE) <= 100 && 0 <= s.totalShares <= 100 && 0 < paid <= s.totalDeposited <= 100
    requires AssetsForShares(shares, s.PricedAssets(), s.totalShares) == Ok(paid)
    ensures VaultModel.Withdraw(s, ALICE, shares).Ok?
    ensures var (t, payout) := VaultModel.Withdraw(s, ALICE, shares).value;
            && payout == Paid(paid) && t.config == s.config && !t.paused && SameVesting(s, t)
            && t.totalDeposited == s.totalDeposited - paid && t.tokenBalance == s.tokenBalance - paid
            && t.totalShares == s.totalShares - shares && t.Balance(ALICE) == s.Balance(ALICE) - shares
  {
    assert RateLimit(s, paid) == Ok(s);
    var burned := Burn(s, ALICE, shares, paid).value;
    assert Burn(s, ALICE, shares, paid) == Ok(burned);
    var t := SendOut(burned, paid).value;
    assert SendOut(burned, paid) == Ok(t);
    assert VaultModel.Withdraw(s, ALICE, shares) == Ok((t, Paid(paid)));
  }

  lemma LegIn(s: VaultState, T: int, S: int, hers: int, amount: int, minted: int)
    requires Simple(s, T, S, hers) && 0 <= hers <= 100 && 0 <= S <= 100 && 0 <= T <= 100 && 0 < amount <= 100
    requires DepositShares(amount, S, T) == Ok(minted) && minted <= 100
    ensures VaultModel.Deposit(s, ALICE, amount).Ok?
    ensures var (t, shares) := VaultModel.Deposit(s, ALICE, amount).value;
            shares == minted && Simple(t, T + amount, S + minted, hers + minted)
  {
    assert s.PricedAssets() == T;
    assert VaultModel.Deposit(s, ALICE, amount).Ok?;
    DepositShape(s, ALICE, amount);
    SameUnvested(s, VaultModel.Deposit(s, ALICE, amount).value.0);
  }

  /** Alice sells five of her old vault's ten shares for the stranded vault's only ones. */
  lemma MigrateOut(source: VaultState, target: VaultState)
    requires Simple(source, 10, 10, 5) && Simple(target, 10, 0, 0)
    ensures var r := Migration.Migrate(source, target, Some(0), 0, ALICE, 5, 0, 0);
            && r.Ok? && r.value.1 == (5, 5)
            && Simple(r.value.0.0, 5, 5, 0) && Simple(r.value.0.1, 15, 5, 5)
  {
    assert AssetsForShares(5, 10, 10) == Ok(5);
    LegOut(source, 10, 10, 5, 5, 5);
    assert DepositShares(5, 0, 10) == Ok(5);
    LegIn(target, 10, 0, 0, 5, 5);
  }

  /** And brings back everything it held. */
  lemma MigrateBack(source: VaultState, target: VaultState)
    requires Simple(source, 15, 5, 5) && Simple(target, 5, 5, 0)
    ensures var r := Migration.Migrate(source, target, Some(0), 0, ALICE, 5, 0, 0);
            r.Ok? && r.value.1 == (15, 15)
  {
    assert AssetsForShares(5, 15, 5) == Ok(15);
    LegOut(source, 15, 5, 5, 5, 15);
    assert DepositShares(15, 5, 5) == Ok(15);
    LegIn(target, 5, 5, 0, 15, 15);
  }

  const OLD_VAULT: seq<Action> := [Deposit(ALICE, 5), Deposit(BOB, 5), Advance(120_960, 0)]

  lemma OldVault()
    ensures Simple(After(NO_LIMITS, OLD_VAULT), 10, 10, 5) && After(NO_LIMITS, OLD_VAULT).ledger == 120_960
  {
    AfterTwoDeposits(NO_LIMITS, 5);
    var two := [Deposit(ALICE, 5), Deposit(BOB, 5)];
    AfterOne(NO_LIMITS, two, Advance(120_960, 0));
    assert two + [Advance(120_960, 0)] == OLD_VAULT;
  }

  /**
   Two runs, to the same ledger: an old vault with another holder, and a new one whose last share left before
   its yield had vested. Migrating five shares out and straight back returns fifteen.
   */
  lemma MigrationThereAndBackGains()
    ensures var source, target := After(NO_LIMITS, OLD_VAULT), After(NO_LIMITS, VESTED_STRANDED);
            var there := Migration.Migrate(source, target, Some(0), 0, ALICE, 5, 0, 0);
            && source.ledger == target.ledger && there.Ok? && there.value.1.1 == 5
            && var back := Migration.Migrate(there.value.0.1, there.value.0.0, Some(0), 0, ALICE, 5, 0, 0);
            && back.Ok? && back.value.1.1 == 15
  {
    OldVault();
    LastWithdrawalStrandsYield();
    var source, target := After(NO_LIMITS, OLD_VAULT), After(NO_LIMITS, VESTED_STRANDED);
    MigrateOut(source, target);
    var there := Migration.Migrate(source, target, Some(0), 0, ALICE, 5, 0, 0).value.0;
    MigrateBack(there.1, there.0);
  }

  /** One second past the deadline the same migration is refused. */
  lemma LateMigrationRefused()
    ensures var source, target := After(NO_LIMITS, OLD_VAULT), After(NO_LIMITS, VESTED_STRANDED);
            && Migration.Migrate(source, target, Some(0), 0, ALICE, 5, 0, 0).Ok?
            && Migration.Migrate(source, target, Some(0), 1, ALICE, 5, 0, 0) == Err(MigrationExpired)
  {
    OldVault();
    LastWithdrawalStrandsYield();
    MigrateOut(After(NO_LIMITS, OLD_VAULT), After(NO_LIMITS, VESTED_STRANDED));
  }

  // ----- a batch at the queue -----

  /** With a threshold of one, a batch of ten is refused, and nothing moves; the same withdrawal is queued. */
  lemma BatchRefusedAtQueue()
    ensures var s := After(WITH_QUEUE, [Deposit(ALICE, 10)]);
            && Step(s, BatchWithdraw(ALICE, [10])) == (s, Failed(WithdrawalQueued))
            && Step(s, Withdraw(ALICE, 10)).1 == Enqueued(1, 10)
  {
    AfterFirstDeposit(WITH_QUEUE, 10);
    assert AssetsForShares(10, 10, 10) == Ok(10);
    OneItemWithdrawal(10, 10, 10, 10, 10);
    FirstQueueId();
  }

  lemma FirstQueueId()
    ensures After(WITH_QUEUE, [Deposit(ALICE, 10)]).nextId == 1
  {
    AfterOne(WITH_QUEUE, [], Deposit(ALICE, 10));
    assert [] + [Deposit(ALICE, 10)] == [Deposit(ALICE, 10)];
  }

  // ----- past the withdrawal limit -----

  /** One basis point of ten is nothing: a withdrawal is refused, a batch takes it all and is never counted. */
  lemma BatchPassesLimit()
    ensures var s := After(ONE_BPS, [Deposit(ALICE, 10)]);
            && VaultModel.Withdraw(s, ALICE, 10) == Err(WithdrawalLimitExceeded)
            && var (t, o) := Step(s, BatchWithdraw(ALICE, [10]));
            && o == BatchRedeemed(10) && t.ledgerWithdrawals == 0 && t.tokenBalance == 0
  {
    AfterFirstDeposit(ONE_BPS, 10);
    assert AssetsForShares(10, 10, 10) == Ok(10);
    OneItemWithdrawal(10, 10, 10, 10, 10);
    OneSum(10);
    LimitCellsUntouched();
  }

  lemma LimitCellsUntouched()
    ensures After(ONE_BPS, [Deposit(ALICE, 10)]).ledgerWithdrawals == 0
  {
    AfterOne(ONE_BPS, [], Deposit(ALICE, 10));
    assert [] + [Deposit(ALICE, 10)] == [Deposit(ALICE, 10)];
  }
}

/**
 The loops of batch.rs: one caller deposits or redeems several amounts in one call, each item priced
 at the totals the items before it left. The loops are proved equal to a left fold of single
 share_math steps, and the fold is bounded against one step of the whole amount.
 */
module Batch {
  import opened Core
  import opened Arith
  import opened ShareMath

  const MAX_BATCH_SIZE: nat := 20

  datatype DepositRun = DepositRun(assets: int, shares: int, paidIn: int, minted: seq<int>)
  datatype WithdrawRun = WithdrawRun(assets: int, shares: int, burned: int, redeemed: int, paid: seq<int>)

  function SeqSum(xs: seq<int>): int {
    if xs == [] then 0 else SeqSum(xs[..|xs| - 1]) + xs[|xs| - 1]
  }

  // ----- one item, and the fold over items -----

  function DepositItem(run: DepositRun, amount: int, minimum: int): Result<DepositRun> {
    if amount <= 0 then Err(ZeroAmount) else
    :- Need(minimum <= 0 || amount >= minimum, BelowMinDeposit);
    var paidIn :- CheckedAdd(run.paidIn, amount);
    var minted :- DepositShares(amount, run.shares, run.assets);
    var assets :- CheckedAdd(run.assets, amount);
    var shares :- CheckedAdd(run.shares, minted);
    Ok(DepositRun(assets, shares, paidIn, run.minted + [minted]))
  }

  function DepositFold(start: DepositRun, amounts: seq<int>, minimum: int): Result<DepositRun> {
    if amounts == [] then Ok(start)
    else
      var run :- DepositFold(start, amounts[..|amounts| - 1], minimum);
      DepositItem(run, amounts[|amounts| - 1], minimum)
  }

  function WithdrawItem(run: WithdrawRun, amount: int, balance: int): Result<WithdrawRun> {
    if amount <= 0 then Err(ZeroAmount) else
    var burned :- CheckedAdd(run.burned, amount);
    :- Need(burned <= balance && amount <= run.shares, InsufficientShares);
    var paid :- AssetsForShares(amount, run.assets, run.shares);
    :- Need(paid > 0, ZeroAmount);
    var redeemed :- CheckedAdd(run.redeemed, paid);
    var shares :- CheckedSub(run.shares, amount);
    var assets :- CheckedSub(run.assets, paid);
    Ok(WithdrawRun(assets, shares, burned, redeemed, run.paid + [paid]))
  }

  function WithdrawFold(start: WithdrawRun, amounts: seq<int>, balance: int): Result<WithdrawRun> {
    if amounts == [] then Ok(start)
    else
      var run :- WithdrawFold(start, amounts[..|amounts| - 1], balance);
      WithdrawItem(run, amounts[|amounts| - 1], balance)
  }

  function Deposit(assets: int, shares: int, amounts: seq<int>, minimum: int): Result<DepositRun> {
    if |amounts| == 0 || |amounts| > MAX_BATCH_SIZE then Err(InvalidAddress) else
    DepositFold(DepositRun(assets, shares, 0, []), amounts, minimum)
  }

  function Withdraw(assets: int, shares: int, amounts: seq<int>, balance: int): Result<WithdrawRun> {
    if |amounts| == 0 || |amounts| > MAX_BATCH_SIZE then Err(InvalidAddress) else
    WithdrawFold(WithdrawRun(assets, shares, 0, 0, []), amounts, balance)
  }

  /** An item that fails stops the whole batch with its error. */
  lemma {:induction false} DepositFoldStops(start: DepositRun, amounts: seq<int>, minimum: int, k: nat)
    requires k <= |amounts|
    requires DepositFold(start, amounts[..k], minimum).Err?
    ensures DepositFold(start, amounts, minimum) == DepositFold(start, amounts[..k], minimum)
  {
    if k == |amounts| {
      assert amounts[..k] == amounts;
    } else {
      var shorter := amounts[..|amounts| - 1];
      assert shorter[..k] == amounts[..k];
      DepositFoldStops(start, shorter, minimum, k);
    }
  }

  lemma {:induction false} WithdrawFoldStops(start: WithdrawRun, amounts: seq<int>, balance: int, k: nat)
    requires k <= |amounts|
    requires WithdrawFold(start, amounts[..k], balance).Err?
    ensures WithdrawFold(start, amounts, balance) == WithdrawFold(start, amounts[..k], balance)
  {
    if k == |amounts| {
      assert amounts[..k] == amounts;
    } else {
      var shorter := amounts[..|amounts| - 1];
      assert shorter[..k] == amounts[..k];
      WithdrawFoldStops(start, shorter, balance, k);
    }
  }

  // ----- the loops -----

  method DepositLoop(assets: int, shares: int, amounts: seq<int>, minimum: int) returns (r: Result<DepositRun>)
    ensures r == Deposit(assets, shares, amounts, minimum)
  {
    if |amounts| == 0 || |amounts| > MAX_BATCH_SIZE {
      return Err(InvalidAddress);
    }
    var runningAssets, runningShares, totalAmount, minted := assets, shares, 0, [];
    ghost var start := DepositRun(assets, shares, 0, []);
    for i := 0 to |amounts|
      invariant DepositFold(start, amounts[..i], minimum)
             == Ok(DepositRun(runningAssets, runningShares, totalAmount, minted))
    {
      var amount := amounts[i];
      assert amounts[..i + 1][..i] == amounts[..i];
      if DepositFold(start, amounts[..i + 1], minimum).Err? {
        DepositFoldStops(start, amounts, minimum, i + 1);
      }
      if amount <= 0 {
        return Err(ZeroAmount);
      }
      if minimum > 0 && amount < minimum {
        return Err(BelowMinDeposit);
      }
      totalAmount :- CheckedAdd(totalAmount, amount);
      var newShares := amount;
      if runningShares != 0 && runningAssets != 0 {
        var numerator :- CheckedMul(amount, runningShares);
        newShares :- CheckedDiv(numerator, runningAssets);
      }
      if newShares <= 0 {
        return Err(ZeroAmount);
      }
      runningAssets :- CheckedAdd(runningAssets, amount);
      runningShares :- CheckedAdd(runningShares, newShares);
      minted := minted + [newShares];
    }
    assert amounts[..|amounts|] == amounts;
    return Ok(DepositRun(runningAssets, runningShares, totalAmount, minted));
  }

  method WithdrawLoop(assets: int, shares: int, amounts: seq<int>, balance: int) returns (r: Result<WithdrawRun>)
    ensures r == Withdraw(assets, shares, amounts, balance)
  {
    if |amounts| == 0 || |amounts| > MAX_BATCH_SIZE {
      return Err(InvalidAddress);
    }
    var runningAssets, runningShares, totalBurned, totalRedeemed, redeemed := assets, shares, 0, 0, [];
    ghost var start := WithdrawRun(assets, shares, 0, 0, []);
    for i := 0 to |amounts|
      invariant WithdrawFold(start, amounts[..i], balance)
             == Ok(WithdrawRun(runningAssets, runningShares, totalBurned, totalRedeemed, redeemed))
    {
      var amount := amounts[i];
      assert amounts[..i + 1][..i] == amounts[..i];
      if WithdrawFold(start, amounts[..i + 1], balance).Err? {
        WithdrawFoldStops(start, amounts, balance, i + 1);
      }
      if amount <= 0 {
        return Err(ZeroAmount);
      }
      totalBurned :- CheckedAdd(totalBurned, amount);
      if totalBurned > balance || amount > runningShares {
        return Err(InsufficientShares);
      }
      var numerator :- CheckedMul(amount, runningAssets);
      var payout :- CheckedDiv(numerator, runningShares);
      if payout <= 0 {
        return Err(ZeroAmount);
      }
      totalRedeemed :- CheckedAdd(totalRedeemed, payout);
      runningShares :- CheckedSub(runningShares, amount);
      runningAssets :- CheckedSub(runningAssets, payout);
      redeemed := redeemed + [payout];
    }
    assert amounts[..|amounts|] == amounts;
    return Ok(WithdrawRun(runningAssets, runningShares, totalBurned, totalRedeemed, redeemed));
  }

  // ----- what the folds add up to -----

  lemma {:induction false} DepositTotals(assets: int, shares: int, amounts: seq<int>, minimum: int)
    requires DepositFold(DepositRun(assets, shares, 0, []), amounts, minimum).Ok?
    ensures var run := DepositFold(DepositRun(assets, shares, 0, []), amounts, minimum).value;
            && run.paidIn == SeqSum(amounts)
            && run.assets == assets + SeqSum(amounts)
            && |run.minted| == |amounts|
            && run.shares == shares + SeqSum(run.minted)
            && SeqSum(run.minted) >= |amounts|
            && SeqSum(amounts) >= |amounts|
  {
    if amounts != [] {
      DepositTotals(assets, shares, amounts[..|amounts| - 1], minimum);
      var before := DepositFold(DepositRun(assets, shares, 0, []), amounts[..|amounts| - 1], minimum).value;
      var run := DepositItem(before, amounts[|amounts| - 1], minimum).value;
      assert run.minted[..|amounts| - 1] == before.minted;
    }
  }

  lemma {:induction false} WithdrawTotals(assets: int, shares: int, amounts: seq<int>, balance: int)
    requires WithdrawFold(WithdrawRun(assets, shares, 0, 0, []), amounts, balance).Ok?
    ensures var run := WithdrawFold(WithdrawRun(assets, shares, 0, 0, []), amounts, balance).value;
            && run.burned == SeqSum(amounts) && (amounts != [] ==> run.burned <= balance && run.shares >= 0)
            && run.shares == shares - SeqSum(amounts)
            && |run.paid| == |amounts|
            && run.redeemed == SeqSum(run.paid)
            && run.assets == assets - run.redeemed
            && run.redeemed >= |amounts| && SeqSum(amounts) >= |amounts|
  {
    if amounts != [] {
      WithdrawTotals(assets, shares, amounts[..|amounts| - 1], balance);
      var before := WithdrawFold(WithdrawRun(assets, shares, 0, 0, []), amounts[..|amounts| - 1], balance).value;
      var run := WithdrawItem(before, amounts[|amounts| - 1], balance).value;
      assert run.paid[..|amounts| - 1] == before.paid;
    }
  }

  lemma DepositItemKeepsPrice(before: DepositRun, amount: int, minimum: int)
    requires before.assets >= 0 && before.shares >= 0
    requires DepositItem(before, amount, minimum).Ok?
    ensures var run := DepositItem(before, amount, minimum).value;
            && run.assets == before.assets + amount && amount > 0 && run.shares > before.shares
            && (before.shares > 0 ==> PriceNotLower(before.assets, before.shares, run.assets, run.shares))
            && (before.shares <= before.assets ==> run.shares - before.shares <= amount)
  {
    MintFavoursVault(amount, before.shares, before.assets);
    if 0 < before.shares <= before.assets {
      MintedAtMost(amount, DepositShares(amount, before.shares, before.assets).value, before.shares, before.assets);
    }
  }

  lemma MintedAtMost(amount: int, minted: int, shares: int, assets: int)
    requires amount > 0 && 0 < shares <= assets
    requires minted * assets <= amount * shares
    ensures minted <= amount
  {
    MulMono(shares, assets, amount);
    MulCancel(minted, amount, assets);
  }

  /** No batch of deposits lowers the share price; into an empty vault no unit buys more than one share. */
  lemma {:induction false} DepositsKeepPrice(assets: int, shares: int, amounts: seq<int>, minimum: int)
    requires assets >= 0 && shares >= 0
    requires DepositFold(DepositRun(assets, shares, 0, []), amounts, minimum).Ok?
    ensures var run := DepositFold(DepositRun(assets, shares, 0, []), amounts, minimum).value;
            && run.assets >= assets && run.shares >= shares
            && (shares > 0 ==> PriceNotLower(assets, shares, run.assets, run.shares))
            && (shares == 0 ==> run.shares <= run.assets - assets)
  {
    if amounts != [] {
      DepositsKeepPrice(assets, shares, amounts[..|amounts| - 1], minimum);
      var before := DepositFold(DepositRun(assets, shares, 0, []), amounts[..|amounts| - 1], minimum).value;
      var run := DepositFold(DepositRun(assets, shares, 0, []), amounts, minimum).value;
      DepositItemKeepsPrice(before, amounts[|amounts| - 1], minimum);
      if shares > 0 {
        PriceChain(assets, shares, before.assets, before.shares, run.assets, run.shares);
      }
    }
  }

  /** Price comparison chains while shares remain in the middle. */
  lemma PriceChain(a0: int, s0: int, a1: int, s1: int, a2: int, s2: int)
    requires s0 >= 0 && s1 > 0 && s2 >= 0
    requires PriceNotLower(a0, s0, a1, s1) && PriceNotLower(a1, s1, a2, s2)
    ensures PriceNotLower(a0, s0, a2, s2)
  {
    MulMono(a0 * s1, a1 * s0, s2);
    MulMono(a1 * s2, a2 * s1, s0);
    assert a0 * s2 * s1 == a0 * s1 * s2;
    assert a1 * s0 * s2 == a1 * s2 * s0;
    assert a2 * s0 * s1 == a2 * s1 * s0;
    MulCancel(a0 * s2, a2 * s0, s1);
  }

  /** Price not falling from (A, S) to (A + d, S + n) is exactly n·A <= d·S. */
  lemma PriceAfterMint(A: int, S: int, d: int, n: int)
    ensures PriceNotLower(A, S, A + d, S + n) <==> n * A <= d * S
  {
  }

  /**
   Splitting a deposit never mints more than one deposit of the sum, in a vault whose shares are backed.
   */
  lemma SplitDepositMintsNoMore(assets: int, shares: int, amounts: seq<int>, minimum: int)
    requires assets >= 0 && shares >= 0
    requires assets == 0 ==> shares == 0
    requires DepositFold(DepositRun(assets, shares, 0, []), amounts, minimum).Ok?
    requires SharesForAssets(SeqSum(amounts), shares, assets).Ok?
    ensures SeqSum(DepositFold(DepositRun(assets, shares, 0, []), amounts, minimum).value.minted)
         <= SharesForAssets(SeqSum(amounts), shares, assets).value
  {
    DepositTotals(assets, shares, amounts, minimum);
    DepositsKeepPrice(assets, shares, amounts, minimum);
    var minted := SeqSum(DepositFold(DepositRun(assets, shares, 0, []), amounts, minimum).value.minted);
    var total := SeqSum(amounts);
    if shares > 0 {
      PriceAfterMint(assets, shares, total, minted);
      WholeDepositMints(assets, shares, total, minted);
    }
  }

  lemma WholeDepositMints(assets: int, shares: int, total: int, minted: int)
    requires assets > 0 && shares > 0 && total >= 0
    requires minted * assets <= total * shares
    requires SharesForAssets(total, shares, assets).Ok?
    ensures minted <= SharesForAssets(total, shares, assets).value
  {
    MulMono(0, total, shares);
    FloorIsGreatest(total * shares, assets, minted);
  }

  predicate SplitIsFair(assets: int, shares: int, amounts: seq<int>, minimum: int) {
    var split := DepositFold(DepositRun(assets, shares, 0, []), amounts, minimum);
    var whole := SharesForAssets(SeqSum(amounts), shares, assets);
    split.Ok? && whole.Ok? ==> SeqSum(split.value.minted) <= whole.value
  }

  /** Splitting is fair to every deposit exactly when the vault does not hold shares without assets. */
  lemma SplitDepositsFairExactlyWhen(assets: int, shares: int)
    requires assets >= 0 && 0 <= shares && IsI128(2 * shares + 2)
    ensures (forall amounts: seq<int>, minimum: int :: SplitIsFair(assets, shares, amounts, minimum))
       <==> (assets == 0 ==> shares == 0)
  {
    if assets == 0 && shares > 0 {
      TwoUnitsReseed(shares);
      assert !SplitIsFair(assets, shares, [1, 1], 0);
    } else {
      forall amounts: seq<int>, minimum: int ensures SplitIsFair(assets, shares, amounts, minimum) {
        if DepositFold(DepositRun(assets, shares, 0, []), amounts, minimum).Ok?
           && SharesForAssets(SeqSum(amounts), shares, assets).Ok?
        {
          SplitDepositMintsNoMore(assets, shares, amounts, minimum);
        }
      }
    }
  }

  /** The first unit reseeds at 1:1, and the second doubles the supply. */
  lemma TwoUnitsReseed(shares: int)
    requires shares > 0 && IsI128(2 * shares + 2)
    ensures var run := DepositFold(DepositRun(0, shares, 0, []), [1, 1], 0);
            && run.Ok? && SeqSum(run.value.minted) == shares + 2
            && SeqSum([1, 1]) == 2 && SharesForAssets(2, shares, 0) == Ok(2)
  {
    var amounts, start := [1, 1], DepositRun(0, shares, 0, []);
    assert amounts[..1] == [1] && [1][..0] == [] && [1, shares + 1][..1] == [1];
    var one := DepositRun(1, shares + 1, 1, [1]);
    assert [] + [1] == [1] && [1] + [shares + 1] == [1, shares + 1];
    assert DepositItem(start, 1, 0) == Ok(one);
    assert DepositFold(start, [], 0) == Ok(start);
    assert DepositFold(start, [1], 0) == Ok(one);
    assert DepositShares(1, shares + 1, 1) == Ok(shares + 1);
    assert DepositItem(one, 1, 0) == Ok(DepositRun(2, 2 * shares + 2, 2, [1, shares + 1]));
    assert SeqSum([1]) == SeqSum([]) + 1;
  }

  /** P·S <= t·A < (P + n)·S for n items burning t shares and paying P. */
  ghost predicate Bracketed(A: int, S: int, run: WithdrawRun, n: nat) {
    run.redeemed * S <= run.burned * A <= (run.redeemed + n) * S
  }

  lemma {:induction false} WithdrawalsBracketShare(assets: int, shares: int, amounts: seq<int>, balance: int)
    requires assets >= 0 && shares > 0
    requires WithdrawFold(WithdrawRun(assets, shares, 0, 0, []), amounts, balance).Ok?
    ensures var run := WithdrawFold(WithdrawRun(assets, shares, 0, 0, []), amounts, balance).value;
            && run.assets >= 0 && run.shares >= 0
            && Bracketed(assets, shares, run, |amounts|)
            && (amounts != [] ==> run.burned * assets < (run.redeemed + |amounts|) * shares)
  {
    WithdrawTotals(assets, shares, amounts, balance);
    if amounts != [] {
      WithdrawalsBracketShare(assets, shares, amounts[..|amounts| - 1], balance);
      WithdrawTotals(assets, shares, amounts[..|amounts| - 1], balance);
      var before := WithdrawFold(WithdrawRun(assets, shares, 0, 0, []), amounts[..|amounts| - 1], balance).value;
      BracketItem(assets, shares, before, amounts[|amounts| - 1], balance, |amounts| - 1);
    }
  }

  lemma BracketItem(assets: int, shares: int, before: WithdrawRun, amount: int, balance: int, n: nat)
    requires assets >= 0 && shares > 0
    requires before.assets == assets - before.redeemed >= 0 && before.shares == shares - before.burned
    requires Bracketed(assets, shares, before, n)
    requires WithdrawItem(before, amount, balance).Ok?
    ensures var run := WithdrawItem(before, amount, balance).value;
            && run.assets >= 0 && run.shares >= 0
            && Bracketed(assets, shares, run, n + 1)
            && run.burned * assets < (run.redeemed + n + 1) * shares
  {
    var run := WithdrawItem(before, amount, balance).value;
    RedeemFavoursVault(amount, before.assets, before.shares);
    BracketStep(assets, shares, before.redeemed, before.burned, amount, run.redeemed - before.redeemed, n);
  }

  /** One item of the bracket, in plain numbers: the vault (A, S) has paid R for B shares so far. */
  lemma BracketStep(A: int, S: int, R: int, B: int, a: int, p: int, n: nat)
    requires A >= R && S > B && S > 0 && 0 < a <= S - B && A >= 0
    requires R * S <= B * A <= (R + n) * S
    requires p * (S - B) <= a * (A - R) < (p + 1) * (S - B)
    ensures (R + p) * S <= (B + a) * A < (R + p + n + 1) * S
  {
    RunningPriceNotLower(A, S, R, B);
    ItemAboveShare(A, S, A - R, S - B, a, p);
    assert (B + a) * A == B * A + a * A;
    assert (R + n) * S + (p + 1) * S == (R + p + n + 1) * S;
    ItemKeepsUpper(A, S, R, B, a, p);
  }

  lemma RunningPriceNotLower(A: int, S: int, R: int, B: int)
    ensures A * (S - B) <= (A - R) * S <==> R * S <= B * A
  {
    assert A * (S - B) == A * S - B * A;
    assert (A - R) * S == A * S - R * S;
  }

  lemma ItemAboveShare(A: int, S: int, Ai: int, Si: int, a: int, p: int)
    requires S > 0 && Si > 0 && a > 0
    requires A * Si <= Ai * S && a * Ai < (p + 1) * Si
    ensures a * A < (p + 1) * S
  {
    MulMono(A * Si, Ai * S, a);
    MulMono(a * Ai + 1, (p + 1) * Si, S);
    assert (a * A) * Si == a * (A * Si);
    assert a * (Ai * S) == (a * Ai) * S;
    assert ((p + 1) * Si) * S == ((p + 1) * S) * Si;
    MulCancelStrict(a * A, (p + 1) * S, Si);
  }

  lemma ItemKeepsUpper(A: int, S: int, R: int, B: int, a: int, p: int)
    requires A >= R && S > B && S > 0 && 0 < a <= S - B && A >= 0
    requires R * S <= B * A && p * (S - B) <= a * (A - R)
    ensures (R + p) * S <= (B + a) * A
  {
    RunningPriceNotLower(A, S, R, B);
    RunningPriceNotLower(A - R, S - B, p, a);
    PriceChain(A, S, A - R, S - B, A - R - p, S - B - a);
    RunningPriceNotLower(A, S, R + p, B + a);
  }

  /**
   Redeeming t shares in n pieces pays at most what one redemption of t would, and at most n - 1 less.
   */
  lemma SplitWithdrawalBounds(assets: int, shares: int, amounts: seq<int>, balance: int)
    requires assets >= 0 && shares > 0 && amounts != []
    requires WithdrawFold(WithdrawRun(assets, shares, 0, 0, []), amounts, balance).Ok?
    ensures var paid := SeqSum(WithdrawFold(WithdrawRun(assets, shares, 0, 0, []), amounts, balance).value.paid);
            var whole := SeqSum(amounts) * assets / shares;
            whole - (|amounts| - 1) <= paid <= whole
  {
    WithdrawTotals(assets, shares, amounts, balance);
    WithdrawalsBracketShare(assets, shares, amounts, balance);
    var paid := SeqSum(WithdrawFold(WithdrawRun(assets, shares, 0, 0, []), amounts, balance).value.paid);
    var t := SeqSum(amounts);
    FloorIsGreatest(t * assets, shares, paid);
    Floor(t * assets, shares);
    MulCancelStrict(t * assets / shares, paid + |amounts|, shares);
  }
}

/**
 The pure share arithmetic of share_math.rs, with the rounding theorems the vault relies on.
 `None` on overflow is the `MathOverflow` every caller turns it into.
 */
module ShareMath {
  import opened Core
  import opened Arith

  function SharesForAssets(assets: int, totalShares: int, totalAssets: int): Result<int> {
    if totalAssets == 0 || totalShares == 0 then Ok(assets)
    else
      var numerator :- CheckedMul(assets, totalShares);
      CheckedDiv(numerator, totalAssets)
  }

  function DepositShares(assets: int, totalShares: int, totalAssets: int): Result<int> {
    if assets <= 0 then Err(ZeroAmount) else
    var shares :- SharesForAssets(assets, totalShares, totalAssets);
    :- Need(shares > 0, ZeroAmount);
    Ok(shares)
  }

  function AssetsForShares(shares: int, totalAssets: int, totalShares: int): Result<int> {
    if totalShares == 0 then Err(MathOverflow) else
    var numerator :- CheckedMul(shares, totalAssets);
    CheckedDiv(numerator, totalShares)
  }

  function WithdrawalAssets(shares: int, totalAssets: int, totalShares: int): Result<int> {
    var assets :- AssetsForShares(shares, totalAssets, totalShares);
    :- Need(assets <= totalAssets, InsufficientUnderlying);
    Ok(assets)
  }

  /** `assets/shares` does not fall from the first pair to the second, compared as fractions. */
  predicate PriceNotLower(assets: int, shares: int, assets': int, shares': int) {
    assets * shares' <= assets' * shares
  }

  /** Minting floors, so the pool's price cannot fall, whatever the pool was. */
  lemma MintFavoursVault(assets: int, totalShares: int, pool: int)
    requires totalShares >= 0 && pool >= 0
    requires DepositShares(assets, totalShares, pool).Ok?
    ensures var minted := DepositShares(assets, totalShares, pool).value;
            totalShares > 0 ==>
              && minted * pool <= assets * totalShares
              && PriceNotLower(pool, totalShares, pool + assets, totalShares + minted)
  {
    if totalShares > 0 {
      var minted := DepositShares(assets, totalShares, pool).value;
      MulMono(0, totalShares, assets);
      if pool > 0 {
        Floor(assets * totalShares, pool);
      }
      assert pool * (totalShares + minted) == pool * totalShares + minted * pool;
      assert (pool + assets) * totalShares == pool * totalShares + assets * totalShares;
    }
  }

  /** Redeeming floors, so neither the pool nor its price can be overdrawn. */
  lemma RedeemFavoursVault(shares: int, pool: int, totalShares: int)
    requires 0 < shares <= totalShares && pool >= 0
    requires AssetsForShares(shares, pool, totalShares).Ok?
    ensures var paid := AssetsForShares(shares, pool, totalShares).value;
            && 0 <= paid <= pool
            && paid * totalShares <= shares * pool < (paid + 1) * totalShares
            && PriceNotLower(pool, totalShares, pool - paid, totalShares - shares)
            && (shares == totalShares ==> paid == pool)
            && (shares < totalShares && pool > 0 ==> paid < pool)
  {
    var paid := AssetsForShares(shares, pool, totalShares).value;
    MulMono(0, pool, shares);
    Floor(shares * pool, totalShares);
    FloorNonNegative(shares * pool, totalShares);
    MulMono(shares, totalShares, pool);
    FloorAtMost(shares * pool, totalShares, pool);
    assert pool * (totalShares - shares) == pool * totalShares - shares * pool;
    assert (pool - paid) * totalShares == pool * totalShares - paid * totalShares;
    if shares == totalShares {
      FloorUnique(shares * pool, totalShares, pool);
    } else if pool > 0 {
      MulMono(shares + 1, totalShares, pool);
    }
  }

  /** Redeeming never trips the available-assets bound when the shares exist. */
  lemma InsufficientAssetsUnreachable(shares: int, totalAssets: int, totalShares: int)
    requires 0 < shares <= totalShares && totalAssets >= 0
    ensures WithdrawalAssets(shares, totalAssets, totalShares) == AssetsForShares(shares, totalAssets, totalShares)
  {
    if AssetsForShares(shares, totalAssets, totalShares).Ok? {
      RedeemFavoursVault(shares, totalAssets, totalShares);
    }
  }

  /**
   Depositing and redeeming straight away never gains, and loses less than one share's worth
   plus one unit: (d - r)(S + n) < A + (S + n).
   */
  lemma RoundTrip(deposit: int, totalAssets: int, totalShares: int)
    requires totalAssets > 0 && totalShares > 0
    requires DepositShares(deposit, totalShares, totalAssets).Ok?
    requires var n := DepositShares(deposit, totalShares, totalAssets).value;
             WithdrawalAssets(n, totalAssets + deposit, totalShares + n).Ok?
    ensures var n := DepositShares(deposit, totalShares, totalAssets).value;
            var r := WithdrawalAssets(n, totalAssets + deposit, totalShares + n).value;
            r <= deposit && (deposit - r) * (totalShares + n) < totalAssets + (totalShares + n)
  {
    var A, S, d := totalAssets, totalShares, deposit;
    var n := DepositShares(d, S, A).value;
    var r := WithdrawalAssets(n, A + d, S + n).value;
    MulMono(0, S, d);
    Floor(d * S, A);
    MulMono(0, A + d, n);
    Floor(n * (A + d), S + n);
    RoundTripNumbers(A, S, d, n, r);
  }

  /** The round trip in plain numbers: n floors d·S/A, r floors n·(A + d)/(S + n). */
  lemma RoundTripNumbers(A: int, S: int, d: int, n: int, r: int)
    requires S > 0 && n > 0
    requires n * A <= d * S < (n + 1) * A
    requires r * (S + n) <= n * (A + d) < (r + 1) * (S + n)
    ensures r <= d && (d - r) * (S + n) < A + (S + n)
  {
    assert n * (A + d) == n * A + n * d;
    assert d * (S + n) == d * S + n * d;
    MulCancel(r, d, S + n);
    assert (d - r) * (S + n) == d * S + n * d - r * (S + n);
  }

  /** The first depositor gets everything back exactly. */
  lemma RoundTripOfFirstDeposit(deposit: int, totalAssets: int, totalShares: int)
    requires totalAssets == 0 && totalShares == 0
    requires DepositShares(deposit, totalShares, totalAssets).Ok?
    requires WithdrawalAssets(deposit, deposit, deposit).Ok?
    ensures DepositShares(deposit, totalShares, totalAssets).value == deposit
    ensures WithdrawalAssets(deposit, deposit, deposit).value == deposit
  {
    FloorUnique(deposit * deposit, deposit, deposit);
  }
}

/**
 What the loops over many deposits and redemptions mint and pay, item by item, in exact integers: each item
 at the totals the items before it left. The checked loops go through exactly when every exact value fits.
 */
module Credits {
  import opened Core
  import opened ShareMath
  import opened VaultModel
  import Batch

  // ----- exact values -----

  /** floor(amount·shares/assets) where both are positive; one for one where either is zero. */
  function ExactMint(amount: int, shares: int, assets: int): int {
    if shares == 0 || assets == 0 then amount else TruncDiv(amount * shares, assets)
  }

  /** The mint is positive, and its product and quotient fit. */
  predicate MintFits(amount: int, shares: int, assets: int) {
    && ExactMint(amount, shares, assets) > 0
    && (shares == 0 || assets == 0 || (IsI128(amount * shares) && IsI128(ExactMint(amount, shares, assets))))
  }

  lemma MintExactly(amount: int, shares: int, assets: int)
    ensures DepositShares(amount, shares, assets).Ok? <==> amount > 0 && MintFits(amount, shares, assets)
    ensures DepositShares(amount, shares, assets).Ok? ==>
              DepositShares(amount, shares, assets).value == ExactMint(amount, shares, assets)
  {
  }

  /** floor(amount·assets/shares). */
  function ExactPayment(amount: int, assets: int, shares: int): int {
    if shares == 0 then 0 else TruncDiv(amount * assets, shares)
  }

  /** The payment is positive, and its product and quotient fit. */
  predicate PaymentFits(amount: int, assets: int, shares: int) {
    && shares != 0 && ExactPayment(amount, assets, shares) > 0
    && IsI128(amount * assets) && IsI128(ExactPayment(amount, assets, shares))
  }

  lemma PaymentExactly(amount: int, assets: int, shares: int)
    ensures var r := AssetsForShares(amount, assets, shares);
            && (r.Ok? && r.value > 0 <==> PaymentFits(amount, assets, shares))
            && (r.Ok? ==> r.value == ExactPayment(amount, assets, shares))
  {
  }

  lemma SumLast(xs: seq<int>, x: int)
    ensures Batch.SeqSum(xs + [x]) == Batch.SeqSum(xs) + x
  {
    assert (xs + [x])[..|xs|] == xs;
  }

  // ----- one caller, many deposits -----

  /** Item by item, at the starting totals plus what was minted and paid in before. */
  function ExactMints(amounts: seq<int>, shares: int, assets: int): (minted: seq<int>)
    ensures |minted| == |amounts|
  {
    if amounts == [] then []
    else
      var before := amounts[..|amounts| - 1];
      var minted := ExactMints(before, shares, assets);
      minted + [ExactMint(amounts[|amounts| - 1], shares + Batch.SeqSum(minted), assets + Batch.SeqSum(before))]
  }

  lemma {:induction false} ExactMintsPrefix(amounts: seq<int>, shares: int, assets: int, i: nat)
    requires i <= |amounts|
    ensures ExactMints(amounts[..i], shares, assets) == ExactMints(amounts, shares, assets)[..i]
  {
    if i == |amounts| {
      assert amounts[..i] == amounts;
    } else {
      var shorter := amounts[..|amounts| - 1];
      assert shorter[..i] == amounts[..i];
      ExactMintsPrefix(shorter, shares, assets, i);
    }
  }

  /** Each item is priced at the totals before it. */
  lemma ExactMintAt(amounts: seq<int>, shares: int, assets: int, i: nat)
    requires i < |amounts|
    ensures var minted := ExactMints(amounts, shares, assets);
            minted[i] == ExactMint(amounts[i], shares + Batch.SeqSum(minted[..i]), assets + Batch.SeqSum(amounts[..i]))
  {
    ExactMintsPrefix(amounts, shares, assets, i);
    ExactMintsPrefix(amounts, shares, assets, i + 1);
    assert amounts[..i + 1][..i] == amounts[..i];
  }

  /** An item of a batch of deposits passes its checks, and every number on the way fits. */
  predicate DepositItemFits(amount: int, shares: int, assets: int, paidIn: int, minimum: int) {
    && amount > 0 && (minimum <= 0 || amount >= minimum) && IsI128(paidIn + amount)
    && MintFits(amount, shares, assets)
    && IsI128(assets + amount) && IsI128(shares + ExactMint(amount, shares, assets))
  }

  /** Every item fits at the totals the items before it leave. */
  predicate DepositsFit(amounts: seq<int>, shares: int, assets: int, minimum: int) {
    if amounts == [] then true
    else
      var before := amounts[..|amounts| - 1];
      && DepositsFit(before, shares, assets, minimum)
      && DepositItemFits(amounts[|amounts| - 1], shares + Batch.SeqSum(ExactMints(before, shares, assets)),
                         assets + Batch.SeqSum(before), Batch.SeqSum(before), minimum)
  }

  lemma DepositItemExactly(run: Batch.DepositRun, amount: int, minimum: int)
    ensures var r := Batch.DepositItem(run, amount, minimum);
            var minted := ExactMint(amount, run.shares, run.assets);
            && (r.Ok? <==> DepositItemFits(amount, run.shares, run.assets, run.paidIn, minimum))
            && (r.Ok? ==> r.value == Batch.DepositRun(run.assets + amount, run.shares + minted, run.paidIn + amount,
                                                      run.minted + [minted]))
  {
    MintExactly(amount, run.shares, run.assets);
  }

  /** The fold stands at `run` once every item fits and has minted what it should. */
  predicate DepositsAt(r: Result<Batch.DepositRun>, amounts: seq<int>, assets: int, shares: int) {
    var minted := ExactMints(amounts, shares, assets);
    r == Ok(Batch.DepositRun(assets + Batch.SeqSum(amounts), shares + Batch.SeqSum(minted), Batch.SeqSum(amounts),
                             minted))
  }

  lemma DepositsAtLast(run: Batch.DepositRun, assets: int, shares: int, amounts: seq<int>, minimum: int)
    requires amounts != [] && DepositsAt(Ok(run), amounts[..|amounts| - 1], assets, shares)
    ensures var before, last := amounts[..|amounts| - 1], amounts[|amounts| - 1];
            var r := Batch.DepositItem(run, last, minimum);
            && (r.Ok? <==> DepositItemFits(last, shares + Batch.SeqSum(ExactMints(before, shares, assets)),
                                           assets + Batch.SeqSum(before), Batch.SeqSum(before), minimum))
            && (r.Ok? ==> DepositsAt(r, amounts, assets, shares))
  {
    var last := amounts[|amounts| - 1];
    DepositItemExactly(run, last, minimum);
    SumLast(run.minted, ExactMint(last, run.shares, run.assets));
  }

  lemma NothingDeposited(assets: int, shares: int)
    ensures DepositsAt(Ok(Batch.DepositRun(assets, shares, 0, [])), [], assets, shares)
  {
  }

  lemma {:induction false} DepositFoldExactly(assets: int, shares: int, amounts: seq<int>, minimum: int)
    ensures var r := Batch.DepositFold(Batch.DepositRun(assets, shares, 0, []), amounts, minimum);
            && (r.Ok? <==> DepositsFit(amounts, shares, assets, minimum))
            && (r.Ok? ==> DepositsAt(r, amounts, assets, shares))
  {
    hide DepositItemFits, ExactMints, Batch.DepositItem, DepositsAt;
    NothingDeposited(assets, shares);
    if amounts != [] {
      var n := |amounts| - 1;
      DepositFoldExactly(assets, shares, amounts[..n], minimum);
      var before := Batch.DepositFold(Batch.DepositRun(assets, shares, 0, []), amounts[..n], minimum);
      if before.Ok? {
        DepositsAtLast(before.value, assets, shares, amounts, minimum);
      }
    }
  }

  // ----- one caller, many redemptions -----

  /** Item by item, at the starting totals less what was burned and paid before. */
  function ExactPayments(amounts: seq<int>, assets: int, shares: int): (paid: seq<int>)
    ensures |paid| == |amounts|
  {
    if amounts == [] then []
    else
      var before := amounts[..|amounts| - 1];
      var paid := ExactPayments(before, assets, shares);
      paid + [ExactPayment(amounts[|amounts| - 1], assets - Batch.SeqSum(paid), shares - Batch.SeqSum(before))]
  }

  lemma {:induction false} ExactPaymentsPrefix(amounts: seq<int>, assets: int, shares: int, i: nat)
    requires i <= |amounts|
    ensures ExactPayments(amounts[..i], assets, shares) == ExactPayments(amounts, assets, shares)[..i]
  {
    if i == |amounts| {
      assert amounts[..i] == amounts;
    } else {
      var shorter := amounts[..|amounts| - 1];
      assert shorter[..i] == amounts[..i];
      ExactPaymentsPrefix(shorter, assets, shares, i);
    }
  }

  lemma ExactPaymentAt(amounts: seq<int>, assets: int, shares: int, i: nat)
    requires i < |amounts|
    ensures var paid := ExactPayments(amounts, assets, shares);
            paid[i] == ExactPayment(amounts[i], assets - Batch.SeqSum(paid[..i]), shares - Batch.SeqSum(amounts[..i]))
  {
    ExactPaymentsPrefix(amounts, assets, shares, i);
    ExactPaymentsPrefix(amounts, assets, shares, i + 1);
    assert amounts[..i + 1][..i] == amounts[..i];
  }

  /** An item of a batch of redemptions passes its checks, and every number on the way fits. */
  predicate WithdrawItemFits(amount: int, assets: int, shares: int, burned: int, redeemed: int, balance: int) {
    && amount > 0 && IsI128(burned + amount) && burned + amount <= balance && amount <= shares
    && PaymentFits(amount, assets, shares)
    && IsI128(redeemed + ExactPayment(amount, assets, shares))
    && IsI128(shares - amount) && IsI128(assets - ExactPayment(amount, assets, shares))
  }

  /** Every item fits at the totals the items before it leave. */
  predicate WithdrawalsFit(amounts: seq<int>, assets: int, shares: int, balance: int) {
    if amounts == [] then true
    else
      var before := amounts[..|amounts| - 1];
      var paid := Batch.SeqSum(ExactPayments(before, assets, shares));
      && WithdrawalsFit(before, assets, shares, balance)
      && WithdrawItemFits(amounts[|amounts| - 1], assets - paid, shares - Batch.SeqSum(before),
                          Batch.SeqSum(before), paid, balance)
  }

  lemma WithdrawItemExactly(run: Batch.WithdrawRun, amount: int, balance: int)
    ensures var r := Batch.WithdrawItem(run, amount, balance);
            var paid := ExactPayment(amount, run.assets, run.shares);
            && (r.Ok? <==> WithdrawItemFits(amount, run.assets, run.shares, run.burned, run.redeemed, balance))
            && (r.Ok? ==> r.value == Batch.WithdrawRun(run.assets - paid, run.shares - amount, run.burned + amount,
                                                       run.redeemed + paid, run.paid + [paid]))
  {
    PaymentExactly(amount, run.assets, run.shares);
  }

  predicate WithdrawalsAt(r: Result<Batch.WithdrawRun>, amounts: seq<int>, assets: int, shares: int) {
    var paid := ExactPayments(amounts, assets, shares);
    r == Ok(Batch.WithdrawRun(assets - Batch.SeqSum(paid), shares - Batch.SeqSum(amounts), Batch.SeqSum(amounts),
                              Batch.SeqSum(paid), paid))
  }

  lemma WithdrawalsAtLast(run: Batch.WithdrawRun, assets: int, shares: int, amounts: seq<int>, balance: int)
    requires amounts != [] && WithdrawalsAt(Ok(run), amounts[..|amounts| - 1], assets, shares)
    ensures var before, last := amounts[..|amounts| - 1], amounts[|amounts| - 1];
            var paid := Batch.SeqSum(ExactPayments(before, assets, shares));
            var r := Batch.WithdrawItem(run, last, balance);
            && (r.Ok? <==> WithdrawItemFits(last, assets - paid, shares - Batch.SeqSum(before), Batch.SeqSum(before),
                                            paid, balance))
            && (r.Ok? ==> WithdrawalsAt(r, amounts, assets, shares))
  {
    var last := amounts[|amounts| - 1];
    WithdrawItemExactly(run, last, balance);
    SumLast(run.paid, ExactPayment(last, run.assets, run.shares));
  }

  lemma NothingWithdrawn(assets: int, shares: int)
    ensures WithdrawalsAt(Ok(Batch.WithdrawRun(assets, shares, 0, 0, [])), [], assets, shares)
  {
  }

  lemma {:induction false} WithdrawFoldExactly(assets: int, shares: int, amounts: seq<int>, balance: int)
    ensures var r := Batch.WithdrawFold(Batch.WithdrawRun(assets, shares, 0, 0, []), amounts, balance);
            && (r.Ok? <==> WithdrawalsFit(amounts, assets, shares, balance))
            && (r.Ok? ==> WithdrawalsAt(r, amounts, assets, shares))
  {
    hide WithdrawItemFits, ExactPayments, Batch.WithdrawItem, WithdrawalsAt;
    NothingWithdrawn(assets, shares);
    if amounts != [] {
      var n := |amounts| - 1;
      WithdrawFoldExactly(assets, shares, amounts[..n], balance);
      var before := Batch.WithdrawFold(Batch.WithdrawRun(assets, shares, 0, 0, []), amounts[..n], balance);
      if before.Ok? {
        WithdrawalsAtLast(before.value, assets, shares, amounts, balance);
      }
    }
  }

  // ----- one payer, many recipients -----

  function Amounts(recipients: seq<(Address, int)>): (amounts: seq<int>)
    ensures |amounts| == |recipients|
    ensures forall i | 0 <= i < |recipients| :: amounts[i] == recipients[i].1
  {
    if recipients == [] then [] else Amounts(recipients[..|recipients| - 1]) + [recipients[|recipients| - 1].1]
  }

  /** The part of `minted` that belongs to `u`: the sum over the payments made to it. */
  function Credited(recipients: seq<(Address, int)>, minted: seq<int>, u: Address): int
    requires |minted| == |recipients|
  {
    if recipients == [] then 0
    else
      var n := |recipients| - 1;
      Credited(recipients[..n], minted[..n], u) + if recipients[n].0 == u then minted[n] else 0
  }

  /** What each payment mints in a vault with these totals. */
  function MintedFor(shares: int, assets: int, recipients: seq<(Address, int)>): (minted: seq<int>)
    ensures |minted| == |recipients|
  {
    ExactMints(Amounts(recipients), shares, assets)
  }

  predicate PaymentToFits(amount: int, shares: int, assets: int, balance: int) {
    && amount > 0 && MintFits(amount, shares, assets)
    && IsI128(balance + ExactMint(amount, shares, assets)) && IsI128(shares + ExactMint(amount, shares, assets))
    && IsI128(assets + amount)
  }

  /** Every payment fits at the totals, and in the recipient's balance, that the payments before it leave. */
  predicate PaymentsFit(balances: map<Address, int>, shares: int, assets: int, recipients: seq<(Address, int)>) {
    if recipients == [] then true
    else
      var before, last := recipients[..|recipients| - 1], recipients[|recipients| - 1];
      var minted := MintedFor(shares, assets, before);
      && PaymentsFit(balances, shares, assets, before)
      && PaymentToFits(last.1, shares + Batch.SeqSum(minted), assets + Batch.SeqSum(Amounts(before)),
                       Get(balances, last.0) + Credited(before, minted, last.0))
  }

  /** Minted in order of payment, and nothing but accounts and totals has moved. */
  predicate MintedInOrder(s: VaultState, t: VaultState, recipients: seq<(Address, int)>, minted: seq<int>) {
    && minted == MintedFor(s.totalShares, s.totalDeposited, recipients)
    && t == s.(balances := t.balances, checkpoints := t.checkpoints, pending := t.pending,
               totalShares := s.totalShares + Batch.SeqSum(minted),
               totalDeposited := s.totalDeposited + Batch.SeqSum(Amounts(recipients)))
  }

  lemma PaymentExactlyFits(s: VaultState, u: Address, amount: int)
    ensures var shares := DepositShares(amount, s.totalShares, s.totalDeposited);
            var minted := ExactMint(amount, s.totalShares, s.totalDeposited);
            && (shares.Ok? && Mint(s, u, shares.value, amount).Ok?
                <==> PaymentToFits(amount, s.totalShares, s.totalDeposited, s.Balance(u)))
            && (shares.Ok? ==> shares.value == minted)
  {
    MintExactly(amount, s.totalShares, s.totalDeposited);
  }

  lemma MintMoves(s: VaultState, u: Address, shares: int, amount: int, v: Address)
    requires Mint(s, u, shares, amount).Ok?
    ensures var t := Mint(s, u, shares, amount).value;
            && t == s.(balances := t.balances, checkpoints := t.checkpoints, pending := t.pending,
                       totalShares := s.totalShares + shares, totalDeposited := s.totalDeposited + amount)
            && t.Balance(v) == s.Balance(v) + if u == v then shares else 0
  {
  }

  lemma CreditedLast(before: seq<(Address, int)>, last: (Address, int), minted: seq<int>, shares: int, u: Address)
    requires |minted| == |before|
    ensures Credited(before + [last], minted + [shares], u)
         == Credited(before, minted, u) + if last.0 == u then shares else 0
  {
    assert (before + [last])[..|before|] == before && (minted + [shares])[..|minted|] == minted;
  }

  lemma MintedForLast(shares: int, assets: int, before: seq<(Address, int)>, last: (Address, int))
    ensures Amounts(before + [last]) == Amounts(before) + [last.1]
    ensures MintedFor(shares, assets, before + [last])
         == MintedFor(shares, assets, before)
            + [ExactMint(last.1, shares + Batch.SeqSum(MintedFor(shares, assets, before)),
                         assets + Batch.SeqSum(Amounts(before)))]
  {
    assert (before + [last])[..|before|] == before;
    assert (Amounts(before) + [last.1])[..|before|] == Amounts(before);
  }

  /** One more payment on what the earlier ones have reached. */
  lemma PaymentStep(s: VaultState, m: VaultState, before: seq<(Address, int)>, last: (Address, int),
                    minted: seq<int>, u: Address)
    requires MintedInOrder(s, m, before, minted)
    requires m.Balance(u) == s.Balance(u) + Credited(before, minted, u)
    requires DepositShares(last.1, m.totalShares, m.totalDeposited).Ok?
    requires Mint(m, last.0, DepositShares(last.1, m.totalShares, m.totalDeposited).value, last.1).Ok?
    ensures var shares := DepositShares(last.1, m.totalShares, m.totalDeposited).value;
            var t := Mint(m, last.0, shares, last.1).value;
            && MintedInOrder(s, t, before + [last], minted + [shares])
            && t.Balance(u) == s.Balance(u) + Credited(before + [last], minted + [shares], u)
  {
    var shares := DepositShares(last.1, m.totalShares, m.totalDeposited).value;
    PaymentExactlyFits(m, last.0, last.1);
    MintMoves(m, last.0, shares, last.1, u);
    CreditedLast(before, last, minted, shares, u);
    MintedForLast(s.totalShares, s.totalDeposited, before, last);
    SumLast(minted, shares);
    SumLast(Amounts(before), last.1);
  }

  /** Whether one more payment goes through on what the earlier ones have reached. */
  predicate OneMoreMints(m: VaultState, last: (Address, int)) {
    var shares := DepositShares(last.1, m.totalShares, m.totalDeposited);
    shares.Ok? && Mint(m, last.0, shares.value, last.1).Ok?
  }

  lemma PaymentsFitLast(balances: map<Address, int>, shares: int, assets: int,
                        before: seq<(Address, int)>, last: (Address, int))
    ensures var minted := MintedFor(shares, assets, before);
            PaymentsFit(balances, shares, assets, before + [last])
            <==> && PaymentsFit(balances, shares, assets, before)
                 && PaymentToFits(last.1, shares + Batch.SeqSum(minted), assets + Batch.SeqSum(Amounts(before)),
                                  Get(balances, last.0) + Credited(before, minted, last.0))
  {
    hide PaymentToFits, ExactMints;
    assert (before + [last])[..|before|] == before;
  }

  lemma OneMoreFits(s: VaultState, m: VaultState, before: seq<(Address, int)>, last: (Address, int), minted: seq<int>)
    requires MintedInOrder(s, m, before, minted)
    requires m.Balance(last.0) == s.Balance(last.0) + Credited(before, minted, last.0)
    requires PaymentsFit(s.balances, s.totalShares, s.totalDeposited, before)
    ensures OneMoreMints(m, last) <==> PaymentsFit(s.balances, s.totalShares, s.totalDeposited, before + [last])
  {
    hide PaymentToFits, ExactMints, DepositShares, Mint, PaymentsFit;
    PaymentExactlyFits(m, last.0, last.1);
    PaymentsFitLast(s.balances, s.totalShares, s.totalDeposited, before, last);
  }

  lemma MintManyLast(s: VaultState, before: seq<(Address, int)>, last: (Address, int))
    ensures MintMany(s, before + [last]).Ok? <==>
              MintMany(s, before).Ok? && OneMoreMints(MintMany(s, before).value.0, last)
    ensures MintMany(s, before + [last]).Ok? ==>
              var (m, minted) := MintMany(s, before).value;
              var shares := DepositShares(last.1, m.totalShares, m.totalDeposited).value;
              MintMany(s, before + [last]).value == (Mint(m, last.0, shares, last.1).value, minted + [shares])
  {
    assert (before + [last])[..|before|] == before;
  }

  /**
   Minting for many recipients goes through exactly when every payment fits. It returns the exact mints in the
   order of the payments, and credits an account with the mints of the payments made to it.
   */
  lemma {:induction false} MintManyExactly(s: VaultState, recipients: seq<(Address, int)>, u: Address)
    ensures var r := MintMany(s, recipients);
            && (r.Ok? <==> PaymentsFit(s.balances, s.totalShares, s.totalDeposited, recipients))
            && (r.Ok? ==> && MintedInOrder(s, r.value.0, recipients, r.value.1)
                          && r.value.0.Balance(u) == s.Balance(u) + Credited(recipients, r.value.1, u))
  {
    if recipients != [] {
      var before, last := recipients[..|recipients| - 1], recipients[|recipients| - 1];
      MintManyExactly(s, before, last.0);
      MintManyExactly(s, before, u);
      assert recipients == before + [last];
      MintManyLast(s, before, last);
      if MintMany(s, before).Ok? {
        var (m, minted) := MintMany(s, before).value;
        OneMoreFits(s, m, before, last, minted);
        if OneMoreMints(m, last) {
          PaymentStep(s, m, before, last, minted, u);
        }
      }
    }
  }

  /** Every amount is positive, and every partial sum fits. */
  predicate AmountsFit(recipients: seq<(Address, int)>) {
    if recipients == [] then true
    else
      var before, last := recipients[..|recipients| - 1], recipients[|recipients| - 1];
      AmountsFit(before) && last.1 > 0 && IsI128(Batch.SeqSum(Amounts(before)) + last.1)
  }

  lemma {:induction false} TotalAmountExactly(recipients: seq<(Address, int)>)
    ensures TotalAmount(recipients).Ok? <==> AmountsFit(recipients)
    ensures TotalAmount(recipients).Ok? ==> TotalAmount(recipients).value == Batch.SeqSum(Amounts(recipients))
  {
    if recipients != [] {
      var before, last := recipients[..|recipients| - 1], recipients[|recipients| - 1];
      TotalAmountExactly(before);
      SumLast(Amounts(before), last.1);
    }
  }
}

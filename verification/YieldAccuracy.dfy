/** How close distributed yield comes to the net yield that was paid in. */
module YieldAccuracy {
  import opened Core
  import opened Arith
  import opened Sums
  import opened VaultModel
  import opened VaultRuns
  import opened Accounts

  /** With at most 10^12 shares the accuracy guard can never fire. */
  lemma AccuracyErrorUnreachable(net: int, totalShares: int)
    requires net >= 0 && 0 < totalShares <= YIELD_PRECISION
    ensures DeltaYps(net, totalShares) != Err(DistributionAccuracyError)
  {
    var P := YIELD_PRECISION;
    var delta := net * P / totalShares;
    Floor(net * P, totalShares);
    FloorNonNegative(net * P, totalShares);
    if delta != 0 {
      MulMono(0, totalShares, delta);
      CreditedWithinOne(net, totalShares, delta);
      if net == 0 {
        FloorUnique(0, totalShares, 0);
      }
      FloorIsGreatest(net + 9_999, 10_000, 1);
    }
  }

  lemma CreditedWithinOne(net: int, totalShares: int, delta: int)
    requires 0 < totalShares <= YIELD_PRECISION
    requires delta * totalShares <= net * YIELD_PRECISION < delta * totalShares + totalShares
    ensures net - 1 <= delta * totalShares / YIELD_PRECISION <= net
  {
    FloorAtMost(delta * totalShares, YIELD_PRECISION, net);
    FloorIsGreatest(delta * totalShares, YIELD_PRECISION, net - 1);
  }

  /** Past 10^12 shares the guard is live. */
  lemma AccuracyErrorReachable()
    ensures DeltaYps(19_999, 10_000_000_000_000_000) == Err(DistributionAccuracyError)
  {
    FloorUnique(19_999 * YIELD_PRECISION, 10_000_000_000_000_000, 1);
  }

  // ----- the preview against the distribution -----

  /** The guards and additions of `distribute_yield` that the preview does not look at. */
  predicate RestOfDistributeFits(s: VaultState, amount: int, net: int, delta: int) {
    && !s.paused && amount >= s.config.minHarvest && ManagedBalanceGuard(s).Ok?
    && IsI128(s.yps + delta) && IsI128(s.totalDeposited + net) && IsI128(s.fees + (amount - net))
  }

  lemma PreviewMatchesDelta(s: VaultState, amount: int)
    requires amount > 0 && s.totalShares != 0
    requires PerfFee(amount, s.config.perfFeeBps).Ok?
               && CheckedSub(amount, PerfFee(amount, s.config.perfFeeBps).value).Ok?
    ensures var net := amount - PerfFee(amount, s.config.perfFeeBps).value;
            var preview := PreviewDistribution(s, amount);
            && (preview.Ok? && preview.value.3 <==> DeltaYps(net, s.totalShares).Ok?)
            && (preview.Ok? ==> preview.value.0 == net)
            && (DeltaYps(net, s.totalShares).Ok? ==> preview.value.1 == DeltaYps(net, s.totalShares).value)
  {
  }

  lemma DistributeSucceedsExactlyWhen(s: VaultState, amount: int)
    requires amount > 0 && s.totalShares != 0
    ensures VaultModel.Distribute(s, amount).Ok? <==>
              && PerfFee(amount, s.config.perfFeeBps).Ok?
              && CheckedSub(amount, PerfFee(amount, s.config.perfFeeBps).value).Ok?
              && var net := amount - PerfFee(amount, s.config.perfFeeBps).value;
              && DeltaYps(net, s.totalShares).Ok?
              && RestOfDistributeFits(s, amount, net, DeltaYps(net, s.totalShares).value)
    ensures VaultModel.Distribute(s, amount).Ok? ==>
              var (t, net) := VaultModel.Distribute(s, amount).value;
              net == amount - PerfFee(amount, s.config.perfFeeBps).value
                && t.yps == s.yps + DeltaYps(net, s.totalShares).value
  {
  }

  /**
   The preview tells the truth: a distribution succeeds if and only if the preview reports it accurate and
   the guards the preview does not look at hold, and then it credits exactly the previewed net yield and
   raises the accumulator by exactly the previewed step.
   */
  lemma PreviewPredictsDistribution(s: VaultState, amount: int)
    ensures var preview := PreviewDistribution(s, amount);
            && (VaultModel.Distribute(s, amount).Ok? <==>
                  preview.Ok? && preview.value.3 && RestOfDistributeFits(s, amount, preview.value.0, preview.value.1))
            && (VaultModel.Distribute(s, amount).Ok? ==>
                  var (t, net) := VaultModel.Distribute(s, amount).value;
                  preview.value.0 == net && t.yps == s.yps + preview.value.1)
  {
    if amount > 0 && s.totalShares != 0 {
      DistributeSucceedsExactlyWhen(s, amount);
      if PerfFee(amount, s.config.perfFeeBps).Ok?
         && CheckedSub(amount, PerfFee(amount, s.config.perfFeeBps).value).Ok?
      {
        PreviewMatchesDelta(s, amount);
      }
    }
  }

  /** Calls under which nobody's shares, checkpoint or stored yield move. */
  predicate HoldersUnmoved(actions: seq<Action>) {
    forall a | a in actions :: !IsMinting(a) && !IsBurning(a) && !a.Collect? && !a.Transfer?
  }

  /** How many distributions of a run succeeded. */
  function Distributions(w: World, actions: seq<Action>): nat {
    if actions == [] then 0
    else
      var before := Run(w, actions[..|actions| - 1]);
      Distributions(w, actions[..|actions| - 1])
      + (if Step(before.state, actions[|actions| - 1]).1.Distributed? then 1 else 0)
  }

  /** From `s` to `t` nobody moved, and the accumulator grew by the net yield less one unit per distribution. */
  predicate KeepsUp(s: VaultState, t: VaultState, net: int, k: int) {
    && t.balances == s.balances && t.pending == s.pending && t.checkpoints == s.checkpoints
    && t.totalShares == s.totalShares && t.yps >= s.yps
    && (t.yps - s.yps) * s.totalShares >= (net - k) * YIELD_PRECISION
  }

  lemma KeepsUpChain(s: VaultState, m: VaultState, t: VaultState, net0: int, k0: int, net1: int, k1: int)
    requires KeepsUp(s, m, net0, k0) && KeepsUp(m, t, net1, k1)
    ensures KeepsUp(s, t, net0 + net1, k0 + k1)
  {
    assert (t.yps - s.yps) * s.totalShares
        == (m.yps - s.yps) * s.totalShares + (t.yps - m.yps) * s.totalShares;
  }

  lemma {:induction false} AccumulatorAfter(w: World, actions: seq<Action>)
    requires 0 <= w.state.totalShares <= YIELD_PRECISION
    requires HoldersUnmoved(actions)
    ensures var t := Run(w, actions);
            KeepsUp(w.state, t.state, t.history.distributed - w.history.distributed, Distributions(w, actions))
  {
    if actions != [] {
      var shorter, a := actions[..|actions| - 1], actions[|actions| - 1];
      AccumulatorAfter(w, shorter);
      var mid := Run(w, shorter);
      UnmovedStep(mid, a);
      KeepsUpChain(w.state, mid.state, Next(mid, a).state,
                   mid.history.distributed - w.history.distributed, Distributions(w, shorter),
                   Next(mid, a).history.distributed - mid.history.distributed,
                   if Step(mid.state, a).1.Distributed? then 1 else 0);
    }
  }

  lemma UnmovedStep(w: World, a: Action)
    requires 0 <= w.state.totalShares <= YIELD_PRECISION
    requires !IsMinting(a) && !IsBurning(a) && !a.Collect? && !a.Transfer?
    ensures KeepsUp(w.state, Next(w, a).state, Next(w, a).history.distributed - w.history.distributed,
                    if Step(w.state, a).1.Distributed? then 1 else 0)
  {
    if a.Distribute? {
      if VaultModel.Distribute(w.state, a.amount).Ok? {
        DistributeKeepsUp(w.state, a.amount);
      }
    } else {
      OtherCallsKeepAccounts(w.state, a);
      QuietHistory(w, a);
      QuietOutcome(w.state, a);
    }
  }

  lemma QuietOutcome(s: VaultState, a: Action)
    requires !a.Distribute?
    ensures !Step(s, a).1.Distributed?
  {
  }

  lemma DistributeYps(s: VaultState, amount: int)
    requires VaultModel.Distribute(s, amount).Ok?
    ensures var (t, net) := VaultModel.Distribute(s, amount).value;
            && net >= 0 && s.totalShares != 0 && DeltaYps(net, s.totalShares).Ok?
            && t.yps == s.yps + DeltaYps(net, s.totalShares).value
            && t.balances == s.balances && t.pending == s.pending && t.checkpoints == s.checkpoints
            && t.totalShares == s.totalShares
  {
    PerfFeeBounds(amount, s.config.perfFeeBps);
  }

  lemma RaisedKeepsUp(s: VaultState, t: VaultState, net: int, delta: int)
    requires 0 < s.totalShares <= YIELD_PRECISION && delta > 0
    requires t.balances == s.balances && t.pending == s.pending && t.checkpoints == s.checkpoints
    requires t.totalShares == s.totalShares && t.yps == s.yps + delta
    requires net * YIELD_PRECISION < (delta + 1) * s.totalShares
    ensures KeepsUp(s, t, net, 1)
  {
    assert (delta + 1) * s.totalShares == delta * s.totalShares + s.totalShares;
  }

  lemma DistributeKeepsUp(s: VaultState, amount: int)
    requires 0 <= s.totalShares <= YIELD_PRECISION
    requires VaultModel.Distribute(s, amount).Ok?
    ensures var (t, net) := VaultModel.Distribute(s, amount).value; KeepsUp(s, t, net, 1)
  {
    DistributeYps(s, amount);
    var (t, net) := VaultModel.Distribute(s, amount).value;
    DeltaAtMostNet(net, s.totalShares);
    RaisedKeepsUp(s, t, net, DeltaYps(net, s.totalShares).value);
  }

  /** What `u` can collect, as a number of any size. */
  function Due(s: VaultState, u: Address): int {
    s.Pending(u) + s.Balance(u) * (s.yps - s.Checkpoint(u)) / YIELD_PRECISION
  }

  /** The view's arithmetic fits in an i128, so it shows what is due; otherwise it falls back. */
  predicate ViewFits(s: VaultState, u: Address) {
    IsI128(s.yps - s.Checkpoint(u)) && IsI128(s.Balance(u) * (s.yps - s.Checkpoint(u))) && IsI128(Due(s, u))
  }

  lemma ViewShowsDue(s: VaultState, u: Address)
    requires SoundAccount(s, u)
    ensures s.PendingYield(u) <= Due(s, u)
    ensures ViewFits(s, u) ==> s.PendingYield(u) == Due(s, u)
  {
    var delta := SaturatingSub(s.yps, s.Checkpoint(u));
    MulMono(delta, s.yps - s.Checkpoint(u), s.Balance(u));
    MulMono(0, delta, s.Balance(u));
    FloorMono(s.Balance(u) * delta, s.Balance(u) * (s.yps - s.Checkpoint(u)), YIELD_PRECISION);
    FloorNonNegative(s.Balance(u) * (s.yps - s.Checkpoint(u)), YIELD_PRECISION);
  }

  lemma DueGain(s: VaultState, t: VaultState, u: Address)
    requires t.balances == s.balances && t.pending == s.pending && t.checkpoints == s.checkpoints
    ensures (Due(t, u) - Due(s, u)) * YIELD_PRECISION + YIELD_PRECISION > (t.yps - s.yps) * s.Balance(u)
  {
    Floor(s.Balance(u) * (s.yps - s.Checkpoint(u)), YIELD_PRECISION);
    Floor(s.Balance(u) * (t.yps - s.Checkpoint(u)), YIELD_PRECISION);
    assert s.Balance(u) * (t.yps - s.Checkpoint(u))
        == s.Balance(u) * (s.yps - s.Checkpoint(u)) + (t.yps - s.yps) * s.Balance(u);
  }

  /** Summing holders: if each gains more than delta·balance - P, all gain more than delta·supply - m·P. */
  lemma HoldersGain(us: set<Address>, gain: Address -> int, balance: Address -> int, delta: int, P: int)
    requires forall u | u in us :: 1 + delta * balance(u) <= P + P * gain(u)
    ensures |us| + delta * Sum(us, balance) <= P * |us| + P * Sum(us, gain)
  {
    AffineSum(us, gain, P, P);
    AffineSum(us, balance, 1, delta);
    SumMonotone(us, (u: Address) => 1 + delta * balance(u), (u: Address) => P + P * gain(u));
  }

  lemma AffineSum(us: set<Address>, f: Address -> int, c: int, k: int)
    ensures Sum(us, (u: Address) => c + k * f(u)) == c * |us| + k * Sum(us, f)
  {
    SumConstant(us, (u: Address) => c, c);
    SumLinear(us, (u: Address) => c, f, k, (u: Address) => c + k * f(u));
  }

  lemma GainOfOne(s: VaultState, t: VaultState, u: Address)
    requires SoundAccount(s, u) && SoundAccount(t, u) && ViewFits(t, u)
    requires t.balances == s.balances && t.pending == s.pending && t.checkpoints == s.checkpoints
    ensures (t.PendingYield(u) - s.PendingYield(u)) * YIELD_PRECISION + YIELD_PRECISION > (t.yps - s.yps) * s.Balance(u)
  {
    ViewShowsDue(s, u);
    ViewShowsDue(t, u);
    DueGain(s, t, u);
  }

  lemma UnmovedStaySound(s: VaultState, t: VaultState, u: Address, net: int, k: int)
    requires SoundAccount(s, u) && KeepsUp(s, t, net, k)
    ensures SoundAccount(t, u)
  {
  }

  /** From `s` to `t`, with nobody moving, all holders' views together gain more than net - k - m. */
  lemma ViewsGain(s: VaultState, t: VaultState, us: set<Address>, net: int, k: int)
    requires Accounted(s, us) && us != {} && KeepsUp(s, t, net, k)
    requires forall u | u in us :: ViewFits(t, u)
    ensures Sum(us, u => t.PendingYield(u)) - Sum(us, u => s.PendingYield(u)) > net - k - |us|
  {
    var gain := (u: Address) => t.PendingYield(u) - s.PendingYield(u);
    var delta := t.yps - s.yps;
    forall u | u in us ensures 1 + delta * s.Balance(u) <= YIELD_PRECISION + YIELD_PRECISION * gain(u) {
      assert SoundAccount(s, u);
      UnmovedStaySound(s, t, u, net, k);
      GainOfOne(s, t, u);
    }
    HoldersGain(us, gain, u => s.Balance(u), delta, YIELD_PRECISION);
    SumLinear(us, u => t.PendingYield(u), u => s.PendingYield(u), -1, gain);
    NonEmptySize(us);
  }

  lemma NonEmptySize(us: set<Address>)
    requires us != {}
    ensures |us| >= 1
  {
  }

  /**
   Distribution accuracy over runs: with at most 10^12 shares all held by m holders who do not move,
   k distributions raise the pending yield of all holders together by more than the net yield
   distributed less k + m units.
   */
  lemma DistributionReachesHolders(w: World, actions: seq<Action>, us: set<Address>)
    requires Accounted(w.state, us) && us != {} && w.state.totalShares <= YIELD_PRECISION
    requires HoldersUnmoved(actions)
    requires forall u | u in us :: ViewFits(Run(w, actions).state, u)
    ensures var t := Run(w, actions);
            Sum(us, u => t.state.PendingYield(u)) - Sum(us, u => w.state.PendingYield(u))
            > (t.history.distributed - w.history.distributed) - Distributions(w, actions) - |us|
  {
    var t := Run(w, actions);
    SupplyNonNegative(w.state, us);
    AccumulatorAfter(w, actions);
    ViewsGain(w.state, t.state, us, t.history.distributed - w.history.distributed, Distributions(w, actions));
  }
}

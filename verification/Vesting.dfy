/** Linear vesting of harvested yield, and the circuit breaker on harvests. */
module Vesting {
  import opened Core
  import opened Arith
  import opened VaultModel
  import opened VaultRuns
  import Accounts

  const U32_MAX: nat := 0xFFFF_FFFF

  /** The part of `pending` still unvested after `elapsed` of `period` ledgers. */
  function LinearRemainder(pending: int, period: nat, elapsed: nat): int
    requires period > 0
  {
    if elapsed >= period then 0 else pending * (period - elapsed) / period
  }

  /** The split quotient-and-remainder formula is one floor of the linear remainder. */
  lemma UnvestedIsLinear(s: VaultState)
    requires s.vestPending >= 0 && s.vestPeriod > 0
    ensures s.Unvested() == LinearRemainder(s.vestPending, s.vestPeriod, Elapsed(s.ledger, s.vestStart))
    ensures 0 <= s.Unvested() <= s.vestPending
  {
    var p, n := s.vestPending, s.vestPeriod;
    var elapsed := Elapsed(s.ledger, s.vestStart);
    if elapsed < n {
      var left := n - elapsed;
      SplitFloor(p, n, left);
      MulMono(0, left, p);
      FloorNonNegative(p * left, n);
      MulMono(left, n, p);
      FloorAtMost(p * left, n, p);
      if p == 0 {
        FloorUnique(0, n, 0);
      }
    }
  }

  lemma SplitFloor(p: int, n: int, left: int)
    requires p >= 0 && n > 0 && left >= 0
    ensures (p / n) * left + ((p % n) * left) / n == p * left / n
  {
    var q, r := p / n, p % n;
    assert p == q * n + r;
    Floor(r * left, n);
    var f := r * left / n;
    assert p * left == q * left * n + r * left;
    assert (q * left + f) * n == q * left * n + f * n;
    FloorUnique(p * left, n, q * left + f);
  }

  /** Every intermediate of the split formula fits in an i128, for any pending amount and u32 period. */
  lemma SplitFormulaNeverOverflows(pending: int, period: nat, elapsed: nat)
    requires 0 <= pending <= I128_MAX && elapsed < period <= U32_MAX
    ensures var left := period - elapsed;
            && IsI128((pending / period) * left)
            && IsI128((pending % period) * left)
            && IsI128((pending / period) * left + ((pending % period) * left) / period)
  {
    var left := period - elapsed;
    FloorNonNegative(pending, period);
    Floor(pending, period);
    MulMono(left, period, pending / period);
    MulMono(0, left, pending / period);
    MulMono(0, left, pending % period);
    MulMono(pending % period, U32_MAX, left);
    SplitFloor(pending, period, left);
    MulMono(left, period, pending);
    FloorAtMost(pending * left, period, pending);
    MulMono(0, left, pending);
    FloorNonNegative(pending * left, period);
  }

  /**
   The direct product, which the split form avoids, fits for every pending amount if and only if at most
   one ledger remains.
   */
  lemma DirectProductFitsExactlyWhen(left: nat)
    ensures (forall pending: int | 0 <= pending <= I128_MAX :: IsI128(pending * left)) <==> left <= 1
  {
    if left >= 2 {
      MulMono(2, left, I128_MAX);
      assert !IsI128(I128_MAX * left);
    }
  }

  /** Ledgers closing can only vest yield: the unvested part never grows, so total assets never fall. */
  lemma VestsAsLedgersClose(s: VaultState, ledgers: nat, seconds: nat)
    requires s.vestPending >= 0 && s.vestPeriod > 0
    ensures VaultModel.Advance(s, ledgers, seconds).Unvested() <= s.Unvested()
    ensures s.PricedAssets() <= VaultModel.Advance(s, ledgers, seconds).PricedAssets()
  {
    var t := VaultModel.Advance(s, ledgers, seconds);
    UnvestedIsLinear(s);
    UnvestedIsLinear(t);
    var n := s.vestPeriod;
    var before, after := Elapsed(s.ledger, s.vestStart), Elapsed(t.ledger, t.vestStart);
    if after < n {
      MulMono(n - after, n - before, s.vestPending);
      FloorMono(s.vestPending * (n - after), s.vestPending * (n - before), n);
    }
  }

  /** One full period after the schedule started, nothing is left unvested. */
  lemma FullyVestedAfterPeriod(s: VaultState, ledgers: nat, seconds: nat)
    requires s.vestStart + s.vestPeriod <= s.ledger + ledgers
    ensures VaultModel.Advance(s, ledgers, seconds).Unvested() == 0
  {
  }

  /** A fresh schedule has everything unvested. */
  lemma FreshSchedule(s: VaultState)
    requires s.vestPending >= 0 && s.vestPeriod > 0 && s.vestStart == s.ledger
    ensures s.Unvested() == s.vestPending
  {
    UnvestedIsLinear(s);
    FloorUnique(s.vestPending * s.vestPeriod, s.vestPeriod, s.vestPending);
  }

  /**
   At the instant of a harvest the assets shares are priced at do not move: everything credited is
   scheduled, and what was still unvested stays so.
   */
  lemma HarvestKeepsPricedAssets(s: VaultState, amount: int)
    requires s.vestPending >= 0 && s.vestPeriod > 0
    requires VaultModel.Harvest(s, amount).Ok?
    ensures var (t, net) := VaultModel.Harvest(s, amount).value;
            && t.Unvested() == s.Unvested() + net && t.totalDeposited == s.totalDeposited + net
            && t.PricedAssets() == s.PricedAssets() && net >= 0
  {
    var (t, net) := VaultModel.Harvest(s, amount).value;
    Accounts.PerfFeeBounds(amount, s.config.perfFeeBps);
    UnvestedIsLinear(s);
    FreshSchedule(t);
  }

  /** Changing the period restarts the schedule on what is still unvested, and moves no value. */
  lemma PeriodChangeKeepsPricedAssets(s: VaultState, ledgers: nat)
    requires s.vestPending >= 0 && s.vestPeriod > 0
    requires VaultModel.SetVestingPeriod(s, ledgers).Ok?
    ensures var t := VaultModel.SetVestingPeriod(s, ledgers).value.0;
            && t.Unvested() == s.Unvested() && t.PricedAssets() == s.PricedAssets()
            && t.vestStart == s.ledger && t.vestPeriod == ledgers
  {
    UnvestedIsLinear(s);
    FreshSchedule(VaultModel.SetVestingPeriod(s, ledgers).value.0);
  }

  // ----- the circuit breaker over consecutive harvests -----

  function Pow(base: int, exponent: nat): int {
    if exponent == 0 then 1 else base * Pow(base, exponent - 1)
  }

  lemma {:induction false} PowPositive(base: int, exponent: nat)
    requires base > 0
    ensures Pow(base, exponent) > 0
  {
    if exponent > 0 {
      PowPositive(base, exponent - 1);
      MulMono(1, base, Pow(base, exponent - 1));
    }
  }

  /** Consecutive harvests, with time passing between them. */
  predicate HarvestsOnly(actions: seq<Action>) {
    forall a | a in actions :: a.Harvest? || a.Advance?
  }

  function Harvests(w: World, actions: seq<Action>): nat {
    if actions == [] then 0
    else
      var before := Run(w, actions[..|actions| - 1]);
      Harvests(w, actions[..|actions| - 1])
      + (if Step(before.state, actions[|actions| - 1]).1.Harvested? then 1 else 0)
  }

  predicate Vests(s: VaultState) { s.vestPending >= 0 && s.vestPeriod > 0 && s.totalDeposited >= 0 }

  lemma HarvestWithinLimit(s: VaultState, amount: int)
    requires Vests(s) && s.PricedAssets() > 0 && s.config.priceLimitBps > 0
    requires VaultModel.Harvest(s, amount).Ok?
    ensures var t := VaultModel.Harvest(s, amount).value.0;
            && Vests(t) && t.PricedAssets() == s.PricedAssets() && t.config == s.config
            && t.totalDeposited * BASIS_POINTS <= s.totalDeposited * (BASIS_POINTS + s.config.priceLimitBps)
  {
    HarvestKeepsPricedAssets(s, amount);
    HarvestShape(s, amount);
    UnvestedIsLinear(s);
    PricedAtMostDeposits(s);
    WithinLimit(s.totalDeposited, s.PricedAssets(), VaultModel.Harvest(s, amount).value.1, s.config.priceLimitBps);
  }

  lemma WithinLimit(deposited: int, priced: int, net: int, limit: nat)
    requires priced <= deposited && net * BASIS_POINTS <= priced * limit
    ensures (deposited + net) * BASIS_POINTS <= deposited * (BASIS_POINTS + limit)
  {
    MulMono(priced, deposited, limit);
  }

  lemma PricedAtMostDeposits(s: VaultState)
    requires s.Unvested() >= 0 && s.PricedAssets() > 0
    ensures s.PricedAssets() <= s.totalDeposited
  {
  }

  lemma HarvestShape(s: VaultState, amount: int)
    requires VaultModel.Harvest(s, amount).Ok?
    ensures var (t, net) := VaultModel.Harvest(s, amount).value;
            && t.config == s.config && t.totalShares == s.totalShares && t.vestPeriod == s.vestPeriod
            && t.vestPending == s.Unvested() + net && t.vestStart == s.ledger == t.ledger
            && IsI128(t.totalDeposited)
            && (s.config.priceLimitBps > 0 && s.PricedAssets() > 0 && net >= 0 ==>
                  net * BASIS_POINTS <= s.PricedAssets() * s.config.priceLimitBps)
  {
  }

  /** T_k·10000^k <= T_0·(10000 + L)^k. */
  predicate Compounded(t0: int, t: int, limit: nat, k: nat) {
    t * Pow(BASIS_POINTS, k) <= t0 * Pow(BASIS_POINTS + limit, k)
  }

  lemma LimitStep(t0: int, t1: int, t2: int, limit: nat, k: nat)
    requires Compounded(t0, t1, limit, k)
    requires t2 * BASIS_POINTS <= t1 * (BASIS_POINTS + limit)
    ensures Compounded(t0, t2, limit, k + 1)
  {
    var B, C := BASIS_POINTS, BASIS_POINTS + limit;
    var b, c := Pow(B, k), Pow(C, k);
    PowPositive(B, k);
    MulMono(t2 * B, t1 * C, b);
    MulMono(t1 * b, t0 * c, C);
    assert t2 * (B * b) == t2 * B * b;
    assert t1 * C * b == t1 * b * C;
    assert t0 * (C * c) == t0 * c * C;
  }

  predicate Priced(s: VaultState) { Vests(s) && s.PricedAssets() > 0 && s.config.priceLimitBps > 0 }

  lemma LimitedStep(s: VaultState, a: Action)
    requires Priced(s) && (a.Harvest? || a.Advance?)
    ensures var (t, o) := Step(s, a);
            && Priced(t) && t.config == s.config
            && (o.Harvested? ==> t.totalDeposited * BASIS_POINTS
                                 <= s.totalDeposited * (BASIS_POINTS + s.config.priceLimitBps))
            && (!o.Harvested? ==> t.totalDeposited == s.totalDeposited)
  {
    match a
    case Harvest(_, amount) =>
      if VaultModel.Harvest(s, amount).Ok? {
        HarvestWithinLimit(s, amount);
      }
    case Advance(ledgers, seconds) =>
      VestsAsLedgersClose(s, ledgers, seconds);
  }

  /** Induction over consecutive harvests: what one harvest or ledger closing keeps, the run keeps. */
  lemma {:induction false} HarvestInduction(w: World, actions: seq<Action>, holds: (VaultState, nat) -> bool)
    requires HarvestsOnly(actions) && holds(w.state, 0)
    requires forall s: VaultState, a: Action, k: nat | (a.Harvest? || a.Advance?) && holds(s, k) ::
               holds(Step(s, a).0, if Step(s, a).1.Harvested? then k + 1 else k)
    ensures holds(Run(w, actions).state, Harvests(w, actions))
  {
    if actions != [] {
      var shorter, a := actions[..|actions| - 1], actions[|actions| - 1];
      HarvestInduction(w, shorter, holds);
      assert a.Harvest? || a.Advance?;
    }
  }

  predicate LimitKept(s: VaultState, t0: int, config: Config, k: nat) {
    Priced(s) && s.config == config && Compounded(t0, s.totalDeposited, config.priceLimitBps, k)
  }

  lemma LimitKeptStep(s: VaultState, a: Action, t0: int, config: Config, k: nat)
    requires (a.Harvest? || a.Advance?) && LimitKept(s, t0, config, k)
    ensures LimitKept(Step(s, a).0, t0, config, if Step(s, a).1.Harvested? then k + 1 else k)
  {
    LimitedStep(s, a);
    if Step(s, a).1.Harvested? {
      LimitStep(t0, s.totalDeposited, Step(s, a).0.totalDeposited, config.priceLimitBps, k);
    }
  }

  /**
   The circuit breaker compounds: with limit L > 0 and positive priced assets, k successful harvests in
   a row, however much time passes between them, keep T_k·10000^k <= T_0·(10000 + L)^k.
   */
  lemma CircuitBreakerCompounds(w: World, actions: seq<Action>)
    requires HarvestsOnly(actions) && Priced(w.state)
    ensures Run(w, actions).state.totalDeposited * Pow(10_000, Harvests(w, actions))
         <= w.state.totalDeposited * Pow(10_000 + w.state.config.priceLimitBps, Harvests(w, actions))
  {
    var t0, config := w.state.totalDeposited, w.state.config;
    var holds := (s: VaultState, k: nat) => LimitKept(s, t0, config, k);
    forall s: VaultState, a: Action, k: nat | (a.Harvest? || a.Advance?) && holds(s, k)
      ensures holds(Step(s, a).0, if Step(s, a).1.Harvested? then k + 1 else k)
    {
      LimitKeptStep(s, a, t0, config, k);
    }
    HarvestInduction(w, actions, holds);
    assert holds(Run(w, actions).state, Harvests(w, actions));
  }
}

/**
 How far floored harvest claims can grow. A withdrawal pays a floored part of the account's claim and
 floors each closed weight once more; what is paid and what can still be claimed add up to at most one
 unit per further closed epoch above the old claim. So a claim never grows when at most one epoch is
 closed, and for every larger number of closed epochs there is a run in which it does.
 */
module EpochGrowth {
  import opened Core
  import opened Arith
  import opened ShareMath
  import opened EpochModel
  import opened EpochRuns
  import opened EpochShares
  import opened EpochClaims
  import VaultModel

  // ----- the bound -----

  /** One epoch: the reward left after keeping r of b shares, against the reward before. */
  lemma RewardLeft(V: int, V': int, Y: int, W: int, r: int, b: int)
    requires W > 0 && b > 0 && Y >= 0 && V >= 0 && 0 <= r <= b
    requires V' == V * r / b
    ensures (V' * Y / W) * b <= (V * Y / W + 1) * r
  {
    Floor(V * r, b);
    Floor(V * Y, W);
    Floor(V' * Y, W);
    RewardChain(V, V', V * Y / W, V' * Y / W, Y, W, r, b);
  }

  lemma RewardChain(V: int, V': int, x: int, x': int, Y: int, W: int, r: int, b: int)
    requires W > 0 && b > 0 && Y >= 0 && r >= 0
    requires V' * b <= V * r && V * Y <= (x + 1) * W && x' * W <= V' * Y
    ensures x' * b <= (x + 1) * r
  {
    MulMono(V' * b, V * r, Y);
    MulMono(x' * W, V' * Y, b);
    MulMono(V * Y, (x + 1) * W, r);
    assert x' * W * b == (x' * b) * W;
    assert V' * Y * b == V' * b * Y && V * r * Y == V * Y * r;
    assert (x + 1) * W * r == ((x + 1) * r) * W;
    MulCancel(x' * b, (x + 1) * r, W);
  }

  lemma {:induction false} ClaimLeft(s: EpochState, t: EpochState, u: Address, r: int, n: nat)
    requires Kept(s) && 0 <= r <= s.Balance(u) && s.Balance(u) > 0
    requires s.epochTotal == t.epochTotal && s.epochYield == t.epochYield
    requires forall e: nat | e < n :: Total(s, e) > 0 && Yield(s, e) >= 0
    requires forall e: nat | e < n :: Virtual(t, u, e) == Virtual(s, u, e) * r / s.Balance(u)
    ensures Claimable(t, u, n) * s.Balance(u) <= (Claimable(s, u, n) + n) * r
  {
    if n > 0 {
      ClaimLeft(s, t, u, r, n - 1);
      var e, b := n - 1, s.Balance(u);
      VirtualNonNegative(s, u, e);
      RewardLeft(Virtual(s, u, e), Virtual(t, u, e), Yield(s, e), Total(s, e), r, b);
      var x, x' := Virtual(s, u, e) * Yield(s, e) / Total(s, e), Virtual(t, u, e) * Yield(s, e) / Total(s, e);
      AddReward(Claimable(s, u, e), Claimable(t, u, e), x, x', e, r, b);
    }
  }

  lemma AddReward(C: int, R: int, x: int, x': int, n: nat, r: int, b: int)
    requires R * b <= (C + n) * r && x' * b <= (x + 1) * r
    ensures (R + x') * b <= (C + x + (n + 1)) * r
  {
    assert (R + x') * b == R * b + x' * b;
    assert (C + x + (n + 1)) * r == (C + n) * r + (x + 1) * r;
  }

  lemma PaidAndLeft(C: int, R: int, p: int, shares: int, b: int, n: nat)
    requires 0 < shares <= b && n > 0
    requires p * b <= C * shares && R * b <= (C + n) * (b - shares)
    ensures p + R <= C + n - 1
  {
    assert (C + n) * (b - shares) == C * b + n * b - C * shares - n * shares;
    assert (p + R) * b == p * b + R * b;
    assert (C + n) * b == C * b + n * b;
    MulMono(1, n, shares);
    MulCancelStrict(p + R, C + n, b);
  }

  /** What a withdrawal takes off the outstanding yield, plus what the account can still claim after it. */
  function PaidPlusRemaining(s: EpochState, t: EpochState, u: Address): int {
    s.outstanding - t.outstanding + Claimable(t, u, t.epoch)
  }

  /** The bound for any state a withdrawal of `shares` shares may have led to. */
  lemma GrowthAfter(s: EpochState, t: EpochState, u: Address, shares: int)
    requires Kept(s) && 0 < shares <= s.Balance(u)
    requires t.epoch == s.epoch && t.epochTotal == s.epochTotal && t.epochYield == s.epochYield
    requires forall e: nat | e < s.epoch :: Total(s, e) > 0 && Yield(s, e) >= 0
    requires forall e: nat | e < s.epoch ::
               Virtual(t, u, e) == Virtual(s, u, e) * (s.Balance(u) - shares) / s.Balance(u)
    requires s.outstanding - t.outstanding == Claimable(s, u, s.epoch) * shares / s.Balance(u)
    ensures PaidPlusRemaining(s, t, u) <= Claimable(s, u, s.epoch) + if s.epoch == 0 then 0 else s.epoch - 1
  {
    var C, R, b := Claimable(s, u, s.epoch), Claimable(t, u, s.epoch), s.Balance(u);
    Floor(C * shares, b);
    ClaimLeft(s, t, u, b - shares, s.epoch);
    if s.epoch > 0 {
      PaidAndLeft(C, R, s.outstanding - t.outstanding, shares, b, s.epoch);
    } else {
      FloorUnique(0, b, 0);
    }
  }

  lemma WithdrawGrowthBound(s: EpochState, caller: Address, shares: int, us: set<Address>)
    requires Sound(s, us) && caller in us && EpochModel.Withdraw(s, caller, shares).Ok?
    ensures PaidPlusRemaining(s, EpochModel.Withdraw(s, caller, shares).value.0, caller)
         <= Claimable(s, caller, s.epoch) + if s.epoch == 0 then 0 else s.epoch - 1
  {
    WithdrawFacts(s, caller, shares, us);
    GrowthAfter(s, EpochModel.Withdraw(s, caller, shares).value.0, caller, shares);
  }

  lemma WithdrawFacts(s: EpochState, caller: Address, shares: int, us: set<Address>)
    requires Sound(s, us) && caller in us && EpochModel.Withdraw(s, caller, shares).Ok?
    ensures var t := EpochModel.Withdraw(s, caller, shares).value.0;
            && 0 < shares <= s.Balance(caller)
            && t.epoch == s.epoch && t.epochTotal == s.epochTotal && t.epochYield == s.epochYield
            && (forall e: nat | e < s.epoch ::
                  Virtual(t, caller, e) == Virtual(s, caller, e) * (s.Balance(caller) - shares) / s.Balance(caller))
            && s.outstanding - t.outstanding == Claimable(s, caller, s.epoch) * shares / s.Balance(caller)
  {
    WithdrawVirtual(s, caller, shares);
    WithdrawCovered(s, caller, shares, us);
    WithdrawPays(s, caller, shares, us);
  }

  function AllUsers(actions: seq<Action>): set<Address> {
    if actions == [] then {} else AllUsers(actions[..|actions| - 1]) + actions[|actions| - 1].Users()
  }

  lemma {:induction false} WithinAllUsers(actions: seq<Action>, us: set<Address>)
    requires AllUsers(actions) <= us
    ensures Within(actions, us)
  {
    if actions != [] {
      WithinAllUsers(actions[..|actions| - 1], us);
    }
  }

  /**
   After every run, whoever withdraws whatever: payment and remaining floored claim together exceed the
   old claim by at most one unit for each closed epoch but one.
   */
  lemma FlooredClaimGrowthBound(perfFeeBps: nat, now: nat, actions: seq<Action>, caller: Address, shares: int)
    requires EpochModel.Withdraw(Run(Initial(perfFeeBps, now), actions), caller, shares).Ok?
    ensures var s := Run(Initial(perfFeeBps, now), actions);
            PaidPlusRemaining(s, EpochModel.Withdraw(s, caller, shares).value.0, caller)
            <= Claimable(s, caller, s.epoch) + if s.epoch == 0 then 0 else s.epoch - 1
  {
    var us := AllUsers(actions) + {caller};
    WithinAllUsers(actions, us);
    RunSound(perfFeeBps, now, actions, us);
    WithdrawGrowthBound(Run(Initial(perfFeeBps, now), actions), caller, shares, us);
  }

  // ----- a run in which a claim grows, for every number of closed epochs from two on -----

  const ALICE := Address(1)
  const BOB := Address(2)

  /** Bob alone holds 310 shares, and k epochs of no length have been closed with a yield of one each. */
  ghost predicate Idle(s: EpochState, k: nat) {
    && s.epoch == k && s.now == s.lastUpdate == 0 && s.shareSeconds == 0 && s.perfFeeBps == 0
    && s.totalShares == 310 && s.totalDeposited == 310 + k && s.outstanding == k
    && s.StartAt(k) == 0 && s.weights == map[] && ALICE !in s.cursors && s.Balance(ALICE) == 0
    && (forall e: nat | e < k :: Total(s, e) == 310 && Yield(s, e) == 1)
  }

  lemma BobDeposits(s: EpochState)
    requires s == Initial(0, 0)
    ensures Idle(Step(s, Deposit(BOB, 310)), 0)
  {
    assert CheckpointTotal(s) == Ok(s);
    assert RecordWeights(s, BOB, Cursor(0, 0), 0, 0) == Ok(map[]);
    assert RecordWeights(s, BOB, Cursor(0, 0), 0, 1) == Ok(map[]);
    assert EpochModel.Deposit(s, BOB, 310).Ok?;
  }

  lemma IdleHarvest(s: EpochState, k: nat)
    requires Idle(s, k) && k <= U64_MAX
    ensures Idle(Step(s, Harvest(1)), k + 1)
  {
    assert CheckpointTotal(s) == Ok(s);
    assert VaultModel.PerfFee(1, 0) == Ok(0);
    assert RecordEpoch(s, 1).Ok?;
    RecordEpochShape(s, 1);
    assert EpochModel.Harvest(s, 1).Ok?;
    var t := Step(s, Harvest(1));
    assert t == RecordEpoch(s, 1).value.(totalDeposited := s.totalDeposited + 1);
    forall e: nat | e < k + 1 ensures Total(t, e) == 310 && Yield(t, e) == 1 {
      if e < k { assert Total(s, e) == 310 && Yield(s, e) == 1; }
    }
  }

  lemma {:induction false} IdleRun(k: nat) returns (actions: seq<Action>)
    requires k <= U64_MAX
    ensures Idle(Run(Initial(0, 0), actions), k)
  {
    if k == 0 {
      RunOne(Initial(0, 0), [], Deposit(BOB, 310));
      BobDeposits(Initial(0, 0));
      actions := [] + [Deposit(BOB, 310)];
    } else {
      var shorter := IdleRun(k - 1);
      IdleHarvest(Run(Initial(0, 0), shorter), k - 1);
      RunOne(Initial(0, 0), shorter, Harvest(1));
      actions := shorter + [Harvest(1)];
    }
  }

  /** Alice has joined with 690 shares in epoch k; j further epochs of one second and a yield of ten are closed. */
  ghost predicate Joined(s: EpochState, k: nat, j: nat) {
    && s.epoch == k + j && s.now == s.lastUpdate == j && s.shareSeconds == 0 && s.perfFeeBps == 0
    && s.totalShares == 1_000 && s.totalDeposited == 1_000 + k + 10 * j && s.outstanding == k + 10 * j
    && s.Balance(ALICE) == 690 && ALICE in s.cursors && s.cursors[ALICE] == Cursor(0, k) && s.weights == map[]
    && (forall e: nat | e < k :: Total(s, e) == 310 && Yield(s, e) == 1)
    && (forall e: nat | k <= e < k + j :: Total(s, e) == 1_000 && Yield(s, e) == 10)
    && (forall e: nat | k <= e <= k + j :: s.StartAt(e) == e - k)
    && (forall e: nat | k <= e < k + j :: e in s.endAt && s.endAt[e] == e - k + 1)
  }

  lemma AliceJoins(s: EpochState, k: nat)
    requires Idle(s, k) && k <= U64_MAX
    ensures Joined(Step(s, Deposit(ALICE, 690)), k, 0)
  {
    assert CheckpointTotal(s) == Ok(s);
    assert s.CursorOf(ALICE) == Cursor(0, k);
    assert RecordWeights(s, ALICE, Cursor(0, k), 0, k) == Ok(s.weights);
    assert RecordOne(s, s.weights, ALICE, Cursor(0, k), 0, k) == Ok(s.weights);
    assert RecordWeights(s, ALICE, Cursor(0, k), 0, k + 1) == Ok(s.weights);
    assert DepositShares(690, 310, 310) == Ok(690);
    assert EpochModel.Deposit(s, ALICE, 690).Ok?;
    var t := Step(s, Deposit(ALICE, 690));
    assert t.epochTotal == s.epochTotal && t.epochYield == s.epochYield;
    forall e: nat | e < k ensures Total(t, e) == 310 && Yield(t, e) == 1 {
      assert Total(s, e) == 310 && Yield(s, e) == 1;
    }
  }

  lemma SecondPasses(s: EpochState, k: nat, j: nat)
    requires Joined(s, k, j) && k <= U64_MAX && j <= 1
    ensures Joined(Step(Step(s, Advance(1)), Harvest(10)), k, j + 1)
  {
    var m := Step(s, Advance(1));
    assert CheckpointTotal(m) == Ok(m.(shareSeconds := 1_000, lastUpdate := j + 1));
    assert VaultModel.PerfFee(10, 0) == Ok(0);
    assert RecordEpoch(m, 10).Ok?;
    RecordEpochShape(m, 10);
    assert EpochModel.Harvest(m, 10).Ok?;
    TenHarvested(s, m, Step(m, Harvest(10)), k, j);
  }

  lemma TenHarvested(s: EpochState, m: EpochState, t: EpochState, k: nat, j: nat)
    requires Joined(s, k, j) && m == s.(now := j + 1)
    requires t == m.(endAt := m.endAt[m.epoch := m.now], epochTotal := m.epochTotal[m.epoch := 1_000],
                     epochYield := m.epochYield[m.epoch := 10], outstanding := m.outstanding + 10,
                     epoch := m.epoch + 1, startAt := m.startAt[m.epoch + 1 := m.now],
                     shareSeconds := 0, lastUpdate := m.now, totalDeposited := m.totalDeposited + 10)
    ensures Joined(t, k, j + 1)
  {
    forall e: nat | e < k + j ensures Total(t, e) == Total(s, e) && Yield(t, e) == Yield(s, e) {
    }
    forall e: nat | k <= e <= k + j + 1 ensures t.StartAt(e) == e - k {
      if e <= k + j { assert s.StartAt(e) == e - k; }
    }
    forall e: nat | k <= e < k + j + 1 ensures e in t.endAt && t.endAt[e] == e - k + 1 {
      if e < k + j { assert e in s.endAt && s.endAt[e] == e - k + 1; }
    }
  }

  /** Alice's share-seconds: none before she joined, 690 in each of her two closed epochs, none yet in the open one. */
  lemma AliceWeights(s: EpochState, k: nat, e: nat)
    requires Joined(s, k, 2) && e <= k + 2
    ensures k <= e ==> EpochWeight(s, Cursor(0, k), 690, e) == if e < k + 2 then 690 else 0
    ensures Virtual(s, ALICE, e) == if k <= e < k + 2 then 690 else 0
  {
    if k <= e {
      assert s.StartAt(e) == e - k;
      if e < k + 2 {
        assert s.EndOf(e) == e - k + 1;
      }
    }
  }

  lemma {:induction false} NoEarlyClaim(s: EpochState, u: Address, k: nat)
    requires forall e: nat | e < k :: Virtual(s, u, e) == 0 && Total(s, e) == 310
    ensures Claimable(s, u, k) == 0
  {
    if k > 0 {
      NoEarlyClaim(s, u, k - 1);
      assert Virtual(s, u, k - 1) == 0 && Total(s, k - 1) == 310;
      FloorUnique(0, 310, 0);
      assert 0 * Yield(s, k - 1) == 0;
    }
  }

  /** Two floored rewards of six: from 690 share-seconds of 1000, or from 621. */
  lemma TwelveClaimed(s: EpochState, u: Address, k: nat, weight: int)
    requires 600 <= weight < 700
    requires forall e: nat | e < k :: Virtual(s, u, e) == 0 && Total(s, e) == 310
    requires forall e: nat | k <= e < k + 2 :: Virtual(s, u, e) == weight && Total(s, e) == 1_000 && Yield(s, e) == 10
    ensures Claimable(s, u, k + 2) == 12
  {
    NoEarlyClaim(s, u, k);
    FloorUnique(weight * 10, 1_000, 6);
    assert Virtual(s, u, k) == weight && Total(s, k) == 1_000 && Yield(s, k) == 10;
    assert Virtual(s, u, k + 1) == weight && Total(s, k + 1) == 1_000 && Yield(s, k + 1) == 10;
    assert Claimable(s, u, k + 1) == Claimable(s, u, k) + 6;
    assert Claimable(s, u, k + 2) == Claimable(s, u, k + 1) + 6;
  }

  // The withdrawal of 69 of Alice's 690 shares goes through.

  lemma AliceRecorded(s: EpochState, k: nat)
    requires Joined(s, k, 2)
    ensures RecordWeights(s, ALICE, Cursor(0, k), 690, k + 3) == Ok(map[(ALICE, k) := 690, (ALICE, k + 1) := 690])
  {
    var c, w1, w2 := Cursor(0, k), map[(ALICE, k) := 690], map[(ALICE, k) := 690, (ALICE, k + 1) := 690];
    AliceWeights(s, k, k);
    AliceWeights(s, k, k + 1);
    AliceWeights(s, k, k + 2);
    assert s.StartAt(k) == 0 && s.StartAt(k + 1) == 1 && s.StartAt(k + 2) == 2;
    assert s.EndOf(k) == 1 && s.EndOf(k + 1) == 2 && s.EndOf(k + 2) == 2;
    assert RecordWeights(s, ALICE, c, 690, k) == Ok(map[]);
    assert RecordOne(s, map[], ALICE, c, 690, k) == Ok(w1);
    assert RecordWeights(s, ALICE, c, 690, k + 1) == Ok(w1);
    assert RecordOne(s, w1, ALICE, c, 690, k + 1) == Ok(w2);
    assert RecordWeights(s, ALICE, c, 690, k + 2) == Ok(w2);
    assert RecordOne(s, w2, ALICE, c, 690, k + 2) == Ok(w2);
  }

  lemma {:induction false} NoEarlyYield(s: EpochState, u: Address, k: nat)
    requires forall e: nat | e < k :: s.Weight(u, e) == 0 && Total(s, e) == 310
    ensures HarvestYield(s, u, k) == Ok(0)
  {
    if k > 0 {
      NoEarlyYield(s, u, k - 1);
      assert s.Weight(u, k - 1) == 0 && Total(s, k - 1) == 310;
      FloorUnique(0, 310, 0);
      assert 0 * Yield(s, k - 1) == 0;
    }
  }

  lemma TwelveEarned(s: EpochState, u: Address, k: nat)
    requires forall e: nat | e < k :: s.Weight(u, e) == 0 && Total(s, e) == 310
    requires forall e: nat | k <= e < k + 2 :: s.Weight(u, e) == 690 && Total(s, e) == 1_000 && Yield(s, e) == 10
    ensures HarvestYield(s, u, k + 2) == Ok(12)
  {
    NoEarlyYield(s, u, k);
    FloorUnique(6_900, 1_000, 6);
    assert s.Weight(u, k) == 690 && Total(s, k) == 1_000 && Yield(s, k) == 10;
    assert s.Weight(u, k + 1) == 690 && Total(s, k + 1) == 1_000 && Yield(s, k + 1) == 10;
    assert HarvestYield(s, u, k + 1) == Ok(6);
  }

  lemma {:induction false} SmallWeightsReduce(weights: map<(Address, nat), int>, u: Address, n: nat)
    requires forall e: nat :: 0 <= Get(weights, (u, e)) <= 690
    ensures ReduceWeights(weights, u, 621, 690, n).Ok?
  {
    if n > 0 {
      SmallWeightsReduce(weights, u, n - 1);
      ReducedWeights(weights, u, 621, 690, n - 1);
      var w := Get(weights, (u, n - 1));
      assert 0 <= w <= 690;
      assert Get(ReduceWeights(weights, u, 621, 690, n - 1).value, (u, n - 1)) == w;
      Floor(w * 621, 690);
    }
  }

  lemma AliceIsPaid(s: EpochState, k: nat)
    requires Joined(s, k, 2) && k <= U64_MAX
    ensures EpochModel.Withdraw(s, ALICE, 69).Ok?
  {
    assert CheckpointTotal(s) == Ok(s);
    AliceRecorded(s, k);
    var weights := map[(ALICE, k) := 690, (ALICE, k + 1) := 690];
    var settled := s.(weights := weights, cursors := s.cursors[ALICE := Cursor(2, k + 2)]);
    assert CheckpointUser(s, ALICE, 690) == Ok(settled);
    AliceQuoted(s, settled, k, weights);
    SmallWeightsReduce(weights, ALICE, k + 2);
    assert Pay(settled, ALICE, 69, 70, 1).Ok?;
  }

  lemma AliceQuoted(s: EpochState, settled: EpochState, k: nat, weights: map<(Address, nat), int>)
    requires Joined(s, k, 2) && k <= U64_MAX && weights == map[(ALICE, k) := 690, (ALICE, k + 1) := 690]
    requires settled == s.(weights := weights, cursors := settled.cursors)
    ensures Quote(settled, ALICE, 69) == Ok((70, 1))
  {
    forall e: nat | e < k + 2
      ensures settled.Weight(ALICE, e) == (if e < k then 0 else 690)
      ensures Total(settled, e) == (if e < k then 310 else 1_000) && (e >= k ==> Yield(settled, e) == 10)
    {
      assert Total(settled, e) == Total(s, e) && Yield(settled, e) == Yield(s, e);
    }
    TwelveEarned(settled, ALICE, k);
    assert AssetsForShares(69, 1_000, 1_000) == Ok(69);
    assert CheckedDiv(12 * 69, 690) == Ok(1);
  }

  /** The withdrawal goes through, and payment and remaining claim together exceed the old claim. */
  predicate ClaimGrows(perfFeeBps: nat, now: nat, actions: seq<Action>, caller: Address, shares: int) {
    var s := Run(Initial(perfFeeBps, now), actions);
    && EpochModel.Withdraw(s, caller, shares).Ok?
    && PaidPlusRemaining(s, EpochModel.Withdraw(s, caller, shares).value.0, caller) > Claimable(s, caller, s.epoch)
  }

  lemma TwelveStaysTwelve(s: EpochState, k: nat, us: set<Address>)
    requires Sound(s, us) && ALICE in us && Joined(s, k, 2) && EpochModel.Withdraw(s, ALICE, 69).Ok?
    ensures var t := EpochModel.Withdraw(s, ALICE, 69).value.0;
            && Claimable(s, ALICE, k + 2) == 12 && s.outstanding - t.outstanding == 1
            && Claimable(t, ALICE, k + 2) == 12
            && t.epoch == k + 2
  {
    var t := EpochModel.Withdraw(s, ALICE, 69).value.0;
    WithdrawVirtual(s, ALICE, 69);
    WithdrawCovered(s, ALICE, 69, us);
    WithdrawPays(s, ALICE, 69, us);
    forall e: nat | e < k + 2
      ensures Virtual(s, ALICE, e) == (if e < k then 0 else 690) && Virtual(t, ALICE, e) == (if e < k then 0 else 621)
      ensures Total(t, e) == Total(s, e) == (if e < k then 310 else 1_000)
      ensures Yield(t, e) == Yield(s, e) == (if e < k then 1 else 10)
    {
      AliceWeights(s, k, e);
    }
    TwelveClaimed(s, ALICE, k, 690);
    TwelveClaimed(t, ALICE, k, 621);
  }

  /**
   For every number n >= 2 of closed epochs an epoch counter can hold, a run in which Alice can claim
   12, withdraws a tenth of her shares, is paid 1 of her claim, and can still claim 12.
   */
  lemma FlooredClaimsCanGrow(n: nat) returns (actions: seq<Action>)
    requires 2 <= n <= U64_MAX
    ensures var s := Run(Initial(0, 0), actions);
            && s.epoch == n && EpochModel.Withdraw(s, ALICE, 69).Ok?
            && var t := EpochModel.Withdraw(s, ALICE, 69).value.0;
            && Claimable(s, ALICE, n) == 12 && s.outstanding - t.outstanding == 1 && Claimable(t, ALICE, n) == 12
    ensures ClaimGrows(0, 0, actions, ALICE, 69)
  {
    var k := n - 2;
    actions := JoinedRun(k);
    var s := Run(Initial(0, 0), actions);
    AliceIsPaid(s, k);
    var us := AllUsers(actions) + {ALICE};
    WithinAllUsers(actions, us);
    RunSound(0, 0, actions, us);
    TwelveStaysTwelve(s, k, us);
    GrowthShown(actions, n);
  }

  lemma GrowthShown(actions: seq<Action>, n: nat)
    requires var s := Run(Initial(0, 0), actions);
             && s.epoch == n && EpochModel.Withdraw(s, ALICE, 69).Ok?
             && var t := EpochModel.Withdraw(s, ALICE, 69).value.0;
             && t.epoch == n
             && Claimable(s, ALICE, n) == 12 && s.outstanding - t.outstanding == 1 && Claimable(t, ALICE, n) == 12
    ensures ClaimGrows(0, 0, actions, ALICE, 69)
  {
  }

  lemma JoinedRun(k: nat) returns (actions: seq<Action>)
    requires k <= U64_MAX
    ensures Joined(Run(Initial(0, 0), actions), k, 2)
  {
    var start := Initial(0, 0);
    var idle := IdleRun(k);
    AliceJoins(Run(start, idle), k);
    RunOne(start, idle, Deposit(ALICE, 690));
    var joined := idle + [Deposit(ALICE, 690)];
    SecondPasses(Run(start, joined), k, 0);
    RunOne(start, joined, Advance(1));
    RunOne(start, joined + [Advance(1)], Harvest(10));
    var once := joined + [Advance(1)] + [Harvest(10)];
    SecondPasses(Run(start, once), k, 1);
    RunOne(start, once, Advance(1));
    RunOne(start, once + [Advance(1)], Harvest(10));
    actions := once + [Advance(1)] + [Harvest(10)];
  }

  ghost predicate NeverGrowsWith(n: nat) {
    forall perfFeeBps: nat, now: nat, actions: seq<Action>, caller: Address, shares: int
      | Run(Initial(perfFeeBps, now), actions).epoch == n ::
      !ClaimGrows(perfFeeBps, now, actions, caller, shares)
  }

  /** Floored claims never grow, for any account in any run with n closed epochs, if and only if n is at most one. */
  lemma FlooredClaimsStayExactlyWhen(n: nat)
    requires n <= U64_MAX
    ensures NeverGrowsWith(n) <==> n <= 1
  {
    if n <= 1 {
      forall perfFeeBps: nat, now: nat, actions: seq<Action>, caller: Address, shares: int
        | Run(Initial(perfFeeBps, now), actions).epoch == n
        ensures !ClaimGrows(perfFeeBps, now, actions, caller, shares)
      {
        if EpochModel.Withdraw(Run(Initial(perfFeeBps, now), actions), caller, shares).Ok? {
          FlooredClaimGrowthBound(perfFeeBps, now, actions, caller, shares);
        }
      }
    } else {
      var actions := FlooredClaimsCanGrow(n);
      assert ClaimGrows(0, 0, actions, ALICE, 69);
    }
  }
}

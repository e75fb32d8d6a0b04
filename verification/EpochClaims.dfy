/**
 Harvest claims are always covered. Claims are floored per epoch and per withdrawal, so the quantity
 that only goes down is the unfloored one: each account's share-seconds times yield over total, as a
 fraction. What all accounts are entitled to, so measured, never exceeds OutstandingHarvestYield.
 */
module EpochClaims {
  import opened Core
  import opened Arith
  import opened Sums
  import opened ShareMath
  import opened EpochModel
  import opened EpochRuns
  import opened EpochShares
  import Batch

  function Total(s: EpochState, e: nat): int { Get(s.epochTotal, e) }

  function Yield(s: EpochState, e: nat): int { Get(s.epochYield, e) }

  /** All accounts' share-seconds in an epoch. */
  ghost function VirtualTotal(s: EpochState, us: set<Address>, e: nat): int { Sum(us, u => Virtual(s, u, e)) }

  ghost predicate Holders(s: EpochState, us: set<Address>) {
    && s.balances.Keys <= us
    && Sum(us, u => s.Balance(u)) == s.totalShares
  }

  /**
   The aggregate books: in the open epoch the accounts' share-seconds add up to the contract's running
   count, in a closed one to at most the recorded total.
   */
  ghost predicate Counted(s: EpochState, us: set<Address>) {
    && s.shareSeconds >= 0
    && VirtualTotal(s, us, s.epoch) == s.shareSeconds + s.totalShares * (s.now - s.lastUpdate)
    && (forall e: nat | e < s.epoch :: Total(s, e) > 0 && Yield(s, e) >= 0 && VirtualTotal(s, us, e) <= Total(s, e))
  }

  lemma VirtualNonNegative(s: EpochState, u: Address, e: nat)
    requires Kept(s)
    ensures Virtual(s, u, e) >= 0
  {
    assert SoundCursor(s, u);
    assert Get(s.weights, (u, e)) >= 0;
    if u in s.cursors {
      EpochWeightNonNegative(s, s.cursors[u], s.Balance(u), e);
    }
  }

  lemma SupplyNonNegative(s: EpochState, us: set<Address>)
    requires Kept(s) && Holders(s, us)
    ensures s.totalShares >= 0 && forall u: Address :: s.Balance(u) <= s.totalShares
  {
    forall u: Address ensures 0 <= s.Balance(u) <= s.totalShares {
      forall v | v in us ensures s.Balance(v) >= 0 { assert SoundCursor(s, v); }
      SumConstant(us, (v: Address) => 0, 0);
      SumMonotone(us, (v: Address) => 0, v => s.Balance(v));
      if u in us {
        SumMember(us, v => s.Balance(v), u);
      }
    }
    assert s.Balance(Address(0)) <= s.totalShares;
  }

  lemma SameVirtualTotal(s: EpochState, t: EpochState, us: set<Address>, e: nat)
    requires forall u | u in us :: Virtual(s, u, e) == Virtual(t, u, e)
    ensures VirtualTotal(s, us, e) == VirtualTotal(t, us, e)
  {
    SumCongruent(us, u => Virtual(s, u, e), u => Virtual(t, u, e));
  }

  // ----- entitlements -----

  /** Floored claims of one account over the first `n` epochs. */
  function Claimable(s: EpochState, u: Address, n: nat): int {
    if n == 0 then 0
    else
      var reward := if Total(s, n - 1) == 0 then 0 else Virtual(s, u, n - 1) * Yield(s, n - 1) / Total(s, n - 1);
      Claimable(s, u, n - 1) + reward
  }

  /** `weight` share-seconds' part of an epoch's yield, unfloored. */
  function Part(weight: int, yielded: int, total: int): real
    requires total > 0
  {
    (weight * yielded) as real / total as real
  }

  /** Unfloored claims of all accounts over the first `n` epochs. */
  ghost function Entitled(s: EpochState, us: set<Address>, n: nat): real {
    if n == 0 then 0.0
    else
      var part := if Total(s, n - 1) <= 0 then 0.0
                  else Part(VirtualTotal(s, us, n - 1), Yield(s, n - 1), Total(s, n - 1));
      Entitled(s, us, n - 1) + part
  }

  ghost predicate Covered(s: EpochState, us: set<Address>) {
    Entitled(s, us, s.epoch) <= s.outstanding as real
  }

  lemma {:induction false} SameEntitled(s: EpochState, t: EpochState, us: set<Address>, n: nat)
    requires forall e: nat | e < n ::
               VirtualTotal(s, us, e) == VirtualTotal(t, us, e) && Total(s, e) == Total(t, e)
                 && Yield(s, e) == Yield(t, e)
    ensures Entitled(s, us, n) == Entitled(t, us, n)
  {
    if n > 0 {
      SameEntitled(s, t, us, n - 1);
    }
  }

  lemma PartAtMost(weight: int, yielded: int, total: int)
    requires 0 <= weight <= total && yielded >= 0 && total > 0
    ensures Part(weight, yielded, total) <= yielded as real
  {
    MulMono(weight, total, yielded);
    RealQuotient(weight * yielded, total, yielded);
  }

  /** x <= q·d gives x/d <= q. */
  lemma RealQuotient(x: int, d: int, q: int)
    requires d > 0 && x <= q * d
    ensures x as real / d as real <= q as real
  {
    var r := x as real / d as real;
    assert r * d as real == x as real;
    assert (q * d) as real == q as real * d as real;
    RealCancel(r, q as real, d as real);
  }

  lemma RealPositive(x: real, y: real)
    requires x > 0.0 && y > 0.0
    ensures x * y > 0.0
  {
  }

  lemma RealCancel(x: real, y: real, z: real)
    requires z > 0.0 && x * z <= y * z
    ensures x <= y
  {
    if x > y {
      RealPositive(x - y, z);
    }
  }

  // ----- floored claims are within the entitlement -----

  lemma {:induction false} ClaimsWithinEntitled(s: EpochState, us: set<Address>, n: nat)
    requires Kept(s) && n <= s.epoch
    requires forall e: nat | e < n :: Total(s, e) > 0 && Yield(s, e) >= 0
    ensures Sum(us, u => Claimable(s, u, n)) as real <= Entitled(s, us, n)
  {
    if n == 0 {
      SumConstant(us, u => Claimable(s, u, 0), 0);
    } else {
      ClaimsWithinEntitled(s, us, n - 1);
      var e, W, Y := n - 1, Total(s, n - 1), Yield(s, n - 1);
      var floored := (u: Address) => Virtual(s, u, e) * Y / W;
      SumLinear(us, u => Claimable(s, u, n - 1), floored, 1, u => Claimable(s, u, n));
      FlooredPartsWithin(us, u => Virtual(s, u, e), floored, Y, W);
      IntWithinPart(Sum(us, floored), VirtualTotal(s, us, e), Y, W);
    }
  }

  lemma FlooredPartsWithin(us: set<Address>, weight: Address -> int, floored: Address -> int, Y: int, W: int)
    requires W > 0 && forall u: Address :: floored(u) == weight(u) * Y / W
    ensures Sum(us, floored) * W <= Sum(us, weight) * Y
  {
    forall u | u in us ensures W * floored(u) <= Y * weight(u) {
      Floor(weight(u) * Y, W);
    }
    SumConstant(us, (u: Address) => 0, 0);
    SumLinear(us, (u: Address) => 0, floored, W, u => W * floored(u));
    SumLinear(us, (u: Address) => 0, weight, Y, u => Y * weight(u));
    SumMonotone(us, u => W * floored(u), u => Y * weight(u));
  }

  lemma IntWithinPart(x: int, weight: int, Y: int, W: int)
    requires W > 0 && x * W <= weight * Y
    ensures x as real <= Part(weight, Y, W)
  {
    var r := Part(weight, Y, W);
    assert r * W as real == (weight * Y) as real;
    assert (x * W) as real == x as real * W as real;
    RealCancel(x as real, r, W as real);
  }

  // ----- a withdrawal takes no more out than the entitlement drops -----

  /** In one epoch: V share-seconds fall to V', of which the withdrawn fraction of floor(V·Y/W) is paid. */
  lemma EpochDrop(before: int, after: int, V: int, V': int, Y: int, W: int, f: int, shares: int, b: int)
    requires W > 0 && b > 0 && Y >= 0 && shares >= 0
    requires after == before - V + V' && V' * b <= V * (b - shares)
    requires f * W <= V * Y
    ensures Part(after, Y, W) + (f * shares) as real / b as real <= Part(before, Y, W)
  {
    // f·shares·W <= (V - V')·Y·b, all in integers.
    assert (V - V') * b >= V * shares by {
      assert (V - V') * b == V * b - V' * b;
      assert V * (b - shares) == V * b - V * shares;
    }
    MulMono(f * W, V * Y, shares);
    MulMono(V * shares, (V - V') * b, Y);
    assert (f * shares) * W <= ((V - V') * Y) * b by {
      assert (f * shares) * W == f * W * shares;
      assert V * Y * shares == V * shares * Y;
      assert (V - V') * b * Y == ((V - V') * Y) * b;
    }
    CrossFractions(f * shares, b, (V - V') * Y, W);
    assert before * Y == after * Y + (V - V') * Y;
    assert Part(before, Y, W) == Part(after, Y, W) + ((V - V') * Y) as real / W as real;
  }

  lemma CrossFractions(x: int, b: int, y: int, W: int)
    requires b > 0 && W > 0 && x * W <= y * b
    ensures x as real / b as real <= y as real / W as real
  {
    var p, q := x as real / b as real, y as real / W as real;
    var B, D := b as real, W as real;
    assert p * B == x as real && q * D == y as real;
    assert p * B * D == (x * W) as real;
    assert q * D * B == (y * b) as real;
    assert p * (B * D) == p * B * D && q * (B * D) == q * D * B;
    assert B * D > 0.0;
    RealCancel(p, q, B * D);
  }

  /** What a withdrawal does to everyone's share-seconds in closed epochs. */
  ghost predicate ScaledFor(s: EpochState, t: EpochState, us: set<Address>, caller: Address, shares: int, n: nat) {
    && caller in us && s.Balance(caller) > 0
    && forall v: Address, e: nat | v in us && e < n ::
         Virtual(t, v, e) == if v == caller then Virtual(s, v, e) * (s.Balance(caller) - shares) / s.Balance(caller)
                             else Virtual(s, v, e)
  }

  lemma {:induction false} EntitledDrop(s: EpochState, t: EpochState, us: set<Address>, caller: Address, shares: int,
                                        n: nat)
    requires s.Balance(caller) >= shares > 0
    requires s.epochTotal == t.epochTotal && s.epochYield == t.epochYield
    requires forall e: nat | e < n :: Total(s, e) > 0 && Yield(s, e) >= 0
    requires ScaledFor(s, t, us, caller, shares, n)
    ensures Entitled(t, us, n) + (Claimable(s, caller, n) * shares) as real / s.Balance(caller) as real
         <= Entitled(s, us, n)
  {
    if n > 0 {
      EntitledDrop(s, t, us, caller, shares, n - 1);
      EntitledDropAt(s, t, us, caller, shares, n - 1);
      var reward := Virtual(s, caller, n - 1) * Yield(s, n - 1) / Total(s, n - 1);
      DistributeShares(Claimable(s, caller, n - 1), reward, shares, s.Balance(caller));
    }
  }

  lemma EntitledDropAt(s: EpochState, t: EpochState, us: set<Address>, caller: Address, shares: int, e: nat)
    requires s.Balance(caller) >= shares > 0
    requires Total(s, e) > 0 && Yield(s, e) >= 0
    requires ScaledFor(s, t, us, caller, shares, e + 1)
    ensures Part(VirtualTotal(t, us, e), Yield(s, e), Total(s, e))
            + ((Virtual(s, caller, e) * Yield(s, e) / Total(s, e)) * shares) as real / s.Balance(caller) as real
         <= Part(VirtualTotal(s, us, e), Yield(s, e), Total(s, e))
  {
    var b, V, V', Y, W := s.Balance(caller), Virtual(s, caller, e), Virtual(t, caller, e), Yield(s, e), Total(s, e);
    SumUpdate(us, u => Virtual(s, u, e), u => Virtual(t, u, e), caller);
    Floor(V * (b - shares), b);
    Floor(V * Y, W);
    EpochDrop(VirtualTotal(s, us, e), VirtualTotal(t, us, e), V, V', Y, W, V * Y / W, shares, b);
  }

  lemma DistributeShares(x: int, y: int, shares: int, b: int)
    requires b > 0
    ensures ((x + y) * shares) as real / b as real
              == (x * shares) as real / b as real + (y * shares) as real / b as real
  {
    assert (x + y) * shares == x * shares + y * shares;
    SplitQuotient(x * shares, y * shares, b);
  }

  lemma SplitQuotient(x: int, y: int, b: int)
    requires b > 0
    ensures (x + y) as real / b as real == x as real / b as real + y as real / b as real
  {
  }

  // ----- `user_harvest_yield` on a checkpointed account -----

  lemma {:induction false} HarvestYieldIsClaimable(s: EpochState, u: Address, n: nat)
    requires forall e: nat | e < n :: 0 <= s.Weight(u, e) == Virtual(s, u, e) && Yield(s, e) >= 0 && Total(s, e) > 0
    requires HarvestYield(s, u, n).Ok?
    ensures HarvestYield(s, u, n).value == Claimable(s, u, n) >= 0
  {
    if n > 0 {
      HarvestYieldIsClaimable(s, u, n - 1);
      MulMono(0, s.Weight(u, n - 1), Yield(s, n - 1));
      FloorNonNegative(s.Weight(u, n - 1) * Yield(s, n - 1), Total(s, n - 1));
    }
  }

  lemma {:induction false} SameClaimable(s: EpochState, t: EpochState, u: Address, n: nat)
    requires forall e: nat | e < n ::
               Virtual(s, u, e) == Virtual(t, u, e) && Total(s, e) == Total(t, e) && Yield(s, e) == Yield(t, e)
    ensures Claimable(s, u, n) == Claimable(t, u, n)
  {
    if n > 0 {
      SameClaimable(s, t, u, n - 1);
    }
  }

  // ----- the invariant -----

  ghost predicate Sound(s: EpochState, us: set<Address>) {
    Kept(s) && Holders(s, us) && Counted(s, us) && Covered(s, us)
    && s.Pool() >= 0 && (s.totalShares == 0 <==> s.Pool() == 0)
  }

  lemma AdvanceSound(s: EpochState, seconds: nat, us: set<Address>)
    requires Sound(s, us)
    ensures Sound(EpochModel.Advance(s, seconds), us)
  {
    var t := EpochModel.Advance(s, seconds);
    AdvanceKeeps(s, seconds);
    SumCongruent(us, u => s.Balance(u), u => t.Balance(u));
    forall e: nat | e < s.epoch ensures VirtualTotal(t, us, e) == VirtualTotal(s, us, e) {
      forall u | u in us ensures Virtual(s, u, e) == Virtual(t, u, e) { AdvanceVirtual(s, seconds, u, e); }
      SameVirtualTotal(s, t, us, e);
    }
    forall u | u in us ensures Virtual(t, u, s.epoch) == Virtual(s, u, s.epoch) + seconds * s.Balance(u) {
      AdvanceVirtual(s, seconds, u, s.epoch);
    }
    SumLinear(us, u => Virtual(s, u, s.epoch), u => s.Balance(u), seconds, u => Virtual(t, u, s.epoch));
    assert s.totalShares * (s.now + seconds - s.lastUpdate)
        == s.totalShares * (s.now - s.lastUpdate) + seconds * s.totalShares;
    SameEntitled(s, t, us, s.epoch);
  }

  lemma DepositSound(s: EpochState, caller: Address, amount: int, us: set<Address>)
    requires Sound(s, us) && caller in us
    requires EpochModel.Deposit(s, caller, amount).Ok?
    ensures Sound(EpochModel.Deposit(s, caller, amount).value.0, us)
  {
    var (t, shares) := EpochModel.Deposit(s, caller, amount).value;
    DepositVirtual(s, caller, amount);
    DepositShape(s, caller, amount);
    CheckpointTotalKeeps(s);
    SupplyNonNegative(s, us);
    SumUpdate(us, u => s.Balance(u), u => t.Balance(u), caller);
    RecountedKeeps(s, t, us);
  }

  /** With everyone's share-seconds as they were, bringing the running count up to now keeps the books. */
  lemma RecountedKeeps(s: EpochState, t: EpochState, us: set<Address>)
    requires Kept(s) && Counted(s, us) && Covered(s, us) && s.totalShares >= 0
    requires t.epoch == s.epoch && t.epochTotal == s.epochTotal && t.epochYield == s.epochYield
    requires t.now == t.lastUpdate == s.now && t.outstanding == s.outstanding
    requires t.shareSeconds == s.shareSeconds + s.totalShares * (s.now - s.lastUpdate)
    requires forall u: Address, e: nat | e <= s.epoch :: Virtual(t, u, e) == Virtual(s, u, e)
    ensures Counted(t, us) && Covered(t, us)
  {
    forall e: nat | e <= s.epoch ensures VirtualTotal(t, us, e) == VirtualTotal(s, us, e) {
      SameVirtualTotal(s, t, us, e);
    }
    SecondsNonNegative(s);
    assert t.totalShares * (t.now - t.lastUpdate) == 0;
    SameEntitled(s, t, us, s.epoch);
  }

  lemma SecondsNonNegative(s: EpochState)
    requires s.totalShares >= 0 && s.shareSeconds >= 0 && s.lastUpdate <= s.now
    ensures s.shareSeconds + s.totalShares * (s.now - s.lastUpdate) >= 0
  {
    MulMono(0, s.totalShares, s.now - s.lastUpdate);
  }

  /** The claim paid by a withdrawal, and what it leaves covered. */
  lemma WithdrawCovered(s: EpochState, caller: Address, shares: int, us: set<Address>)
    requires Sound(s, us) && caller in us
    requires EpochModel.Withdraw(s, caller, shares).Ok?
    ensures var t := EpochModel.Withdraw(s, caller, shares).value.0;
            && Covered(t, us)
            && s.outstanding - t.outstanding == Claimable(s, caller, s.epoch) * shares / s.Balance(caller) >= 0
  {
    var t := EpochModel.Withdraw(s, caller, shares).value.0;
    WithdrawVirtual(s, caller, shares);
    WithdrawPays(s, caller, shares, us);
    EntitledDrop(s, t, us, caller, shares, s.epoch);
    ClaimableNonNegative(s, caller, s.epoch);
    PaidWithin(Claimable(s, caller, s.epoch), shares, s.Balance(caller));
  }

  lemma WithdrawPays(s: EpochState, caller: Address, shares: int, us: set<Address>)
    requires Kept(s) && Counted(s, us)
    requires EpochModel.Withdraw(s, caller, shares).Ok?
    ensures var t := EpochModel.Withdraw(s, caller, shares).value.0;
            && s.Balance(caller) > 0
            && t.outstanding == s.outstanding - TruncDiv(Claimable(s, caller, s.epoch) * shares, s.Balance(caller))
            && t.epochTotal == s.epochTotal && t.epochYield == s.epochYield && t.epoch == s.epoch
  {
    WithdrawShape(s, caller, shares);
    SettledShape(s, caller);
    CheckpointTotalKeeps(s);
    CheckpointUserVirtual(CheckpointTotal(s).value, caller);
    var settled := CheckpointUser(CheckpointTotal(s).value, caller, s.Balance(caller)).value;
    forall e: nat | e < s.epoch ensures settled.Weight(caller, e) >= 0 {
      VirtualNonNegative(settled, caller, e);
    }
    forall e: nat | e < s.epoch ensures Total(settled, e) == Total(s, e) > 0 && Yield(settled, e) == Yield(s, e) >= 0 {
      assert Total(s, e) > 0 && Yield(s, e) >= 0;
    }
    HarvestYieldIsClaimable(settled, caller, s.epoch);
    SameClaimable(s, settled, caller, s.epoch);
  }

  lemma PaidWithin(earned: int, shares: int, b: int)
    requires earned >= 0 && shares >= 0 && b > 0
    ensures 0 <= earned * shares / b
    ensures TruncDiv(earned * shares, b) == earned * shares / b
    ensures (earned * shares / b) as real <= (earned * shares) as real / b as real
  {
    MulMono(0, earned, shares);
    FloorNonNegative(earned * shares, b);
    Floor(earned * shares, b);
    var q := earned * shares / b;
    var r := (earned * shares) as real / b as real;
    assert r * b as real == (earned * shares) as real;
    assert (q * b) as real == q as real * b as real;
    RealCancel(q as real, r, b as real);
  }

  lemma WithdrawSound(s: EpochState, caller: Address, shares: int, us: set<Address>)
    requires Sound(s, us) && caller in us
    requires EpochModel.Withdraw(s, caller, shares).Ok?
    ensures Sound(EpochModel.Withdraw(s, caller, shares).value.0, us)
  {
    var (t, redeem) := EpochModel.Withdraw(s, caller, shares).value;
    WithdrawCovered(s, caller, shares, us);
    WithdrawVirtual(s, caller, shares);
    WithdrawShape(s, caller, shares);
    SettledShape(s, caller);
    CheckpointTotalKeeps(s);
    SupplyNonNegative(s, us);
    RedeemFavoursVault(shares, s.Pool(), s.totalShares);
    SumUpdate(us, u => s.Balance(u), u => t.Balance(u), caller);
    WithdrawCounted(s, t, caller, shares, us);
  }

  lemma WithdrawCounted(s: EpochState, t: EpochState, caller: Address, shares: int, us: set<Address>)
    requires Kept(s) && Counted(s, us) && s.totalShares >= 0
    requires s.Balance(caller) >= shares > 0
    requires t.epoch == s.epoch && t.epochTotal == s.epochTotal && t.epochYield == s.epochYield
    requires t.now == t.lastUpdate == s.now
    requires t.shareSeconds == s.shareSeconds + s.totalShares * (s.now - s.lastUpdate)
    requires forall v: Address, e: nat | e <= s.epoch ::
               Virtual(t, v, e) == if v == caller && e < s.epoch
                                   then Virtual(s, v, e) * (s.Balance(caller) - shares) / s.Balance(caller)
                                   else Virtual(s, v, e)
    ensures Counted(t, us)
  {
    SameVirtualTotal(s, t, us, s.epoch);
    SecondsNonNegative(s);
    assert t.totalShares * (t.now - t.lastUpdate) == 0;
    forall e: nat | e < s.epoch
      ensures Total(t, e) > 0 && Yield(t, e) >= 0 && VirtualTotal(t, us, e) <= Total(t, e)
    {
      assert Total(s, e) == Total(t, e) && Yield(s, e) == Yield(t, e);
      VirtualNonNegative(s, caller, e);
      KeptFraction(Virtual(s, caller, e), s.Balance(caller) - shares, s.Balance(caller));
      SumMonotone(us, u => Virtual(t, u, e), u => Virtual(s, u, e));
    }
  }

  lemma KeptFraction(weight: int, remaining: int, prior: int)
    requires weight >= 0 && 0 <= remaining <= prior && prior > 0
    ensures weight * remaining / prior <= weight
  {
    MulMono(remaining, prior, weight);
    FloorAtMost(weight * remaining, prior, weight);
  }

  lemma HarvestSound(s: EpochState, amount: int, us: set<Address>)
    requires Sound(s, us)
    requires EpochModel.Harvest(s, amount).Ok?
    ensures Sound(EpochModel.Harvest(s, amount).value.0, us)
  {
    var (t, net) := EpochModel.Harvest(s, amount).value;
    HarvestShape(s, amount);
    RecordEpochShape(s, net);
    RecordEpochKeeps(s, net);
    SameEpochsKeep(RecordEpoch(s, net).value, t);
    SumCongruent(us, u => s.Balance(u), u => t.Balance(u));
    HarvestCounted(s, amount, us);
    ClosingCovered(s, t, us, net);
  }

  /** Closing an epoch entitles the accounts to at most its yield, all of which becomes outstanding. */
  lemma ClosingCovered(s: EpochState, t: EpochState, us: set<Address>, net: int)
    requires Covered(s, us) && Kept(t) && Counted(t, us)
    requires t.epoch == s.epoch + 1 && t.outstanding == s.outstanding + net && Yield(t, s.epoch) == net
    requires forall e: nat | e < s.epoch ::
               VirtualTotal(t, us, e) == VirtualTotal(s, us, e) && Total(t, e) == Total(s, e)
                 && Yield(t, e) == Yield(s, e)
    ensures Covered(t, us)
  {
    SameEntitled(s, t, us, s.epoch);
    VirtualTotalNonNegative(t, us, s.epoch);
    PartAtMost(VirtualTotal(t, us, s.epoch), net, Total(t, s.epoch));
  }

  lemma VirtualTotalNonNegative(s: EpochState, us: set<Address>, e: nat)
    requires Kept(s)
    ensures VirtualTotal(s, us, e) >= 0
  {
    forall u | u in us ensures Virtual(s, u, e) >= 0 { VirtualNonNegative(s, u, e); }
    SumConstant(us, (u: Address) => 0, 0);
    SumMonotone(us, (u: Address) => 0, u => Virtual(s, u, e));
  }

  /** The closing epoch's total covers every account's share-seconds, the new epoch starts from nothing. */
  lemma HarvestCounted(s: EpochState, amount: int, us: set<Address>)
    requires Sound(s, us)
    requires EpochModel.Harvest(s, amount).Ok?
    ensures var t := EpochModel.Harvest(s, amount).value.0;
            && Counted(t, us)
            && (forall e: nat | e < s.epoch ::
                  VirtualTotal(t, us, e) == VirtualTotal(s, us, e) && Total(t, e) == Total(s, e)
                    && Yield(t, e) == Yield(s, e))
  {
    var (t, net) := EpochModel.Harvest(s, amount).value;
    HarvestShape(s, amount);
    RecordEpochShape(s, net);
    CheckpointTotalKeeps(s);
    SupplyNonNegative(s, us);
    SecondsNonNegative(s);
    forall u: Address, e: nat | e <= s.epoch + 1
      ensures Virtual(t, u, e) == if e == s.epoch + 1 then 0
                                  else if e == s.epoch && s.StartAt(e) == s.now then s.Balance(u)
                                  else Virtual(s, u, e)
    {
      HarvestVirtual(s, amount, u, e);
    }
    ClosedEpochCounted(s, t, us);
  }

  /** As `HarvestCounted`, of any state the share-seconds of `s` have been closed into. */
  lemma ClosedEpochCounted(s: EpochState, t: EpochState, us: set<Address>)
    requires Kept(s) && Holders(s, us) && Counted(s, us) && s.totalShares >= 0
    requires t.epoch == s.epoch + 1 && t.now == t.lastUpdate && t.shareSeconds == 0
    requires Yield(t, s.epoch) >= 0 && Total(t, s.epoch) > 0
    requires var counted := s.shareSeconds + s.totalShares * (s.now - s.lastUpdate);
             Total(t, s.epoch) == (if counted == 0 then s.totalShares else counted)
    requires forall e: nat | e < s.epoch :: Total(t, e) == Total(s, e) && Yield(t, e) == Yield(s, e)
    requires forall u: Address, e: nat | e <= s.epoch + 1 ::
               Virtual(t, u, e) == if e == s.epoch + 1 then 0
                                   else if e == s.epoch && s.StartAt(e) == s.now then s.Balance(u)
                                   else Virtual(s, u, e)
    ensures Counted(t, us)
    ensures forall e: nat | e < s.epoch :: VirtualTotal(t, us, e) == VirtualTotal(s, us, e)
  {
    forall e: nat | e < s.epoch
      ensures VirtualTotal(t, us, e) == VirtualTotal(s, us, e) && Total(t, e) == Total(s, e)
                && Yield(t, e) == Yield(s, e)
    {
      SameVirtualTotal(s, t, us, e);
    }
    SumConstant(us, u => Virtual(t, u, s.epoch + 1), 0);
    assert t.totalShares * (t.now - t.lastUpdate) == 0;
    ClosingTotal(s, t, us);
  }

  lemma ClosingTotal(s: EpochState, t: EpochState, us: set<Address>)
    requires Kept(s) && Holders(s, us) && Counted(s, us) && s.totalShares >= 0
    requires var counted := s.shareSeconds + s.totalShares * (s.now - s.lastUpdate);
             Total(t, s.epoch) == (if counted == 0 then s.totalShares else counted)
    requires forall u: Address ::
               Virtual(t, u, s.epoch) == if s.StartAt(s.epoch) == s.now then s.Balance(u) else Virtual(s, u, s.epoch)
    ensures VirtualTotal(t, us, s.epoch) <= Total(t, s.epoch)
  {
    if s.StartAt(s.epoch) == s.now {
      SumCongruent(us, u => s.Balance(u), u => Virtual(t, u, s.epoch));
      forall u | u in us ensures Virtual(s, u, s.epoch) == 0 {
        assert SoundCursor(s, u);
        if u in s.cursors { NothingEarnedYet(s, s.cursors[u], s.Balance(u)); }
      }
      SumConstant(us, u => Virtual(s, u, s.epoch), 0);
    } else {
      SameVirtualTotal(s, t, us, s.epoch);
    }
  }

  // ----- runs -----

  predicate Within(actions: seq<Action>, us: set<Address>) {
    forall a | a in actions :: a.Users() <= us
  }

  lemma StepSound(s: EpochState, a: Action, us: set<Address>)
    requires Sound(s, us) && a.Users() <= us
    ensures Sound(Step(s, a), us)
  {
    match a
    case Deposit(caller, amount) =>
      if EpochModel.Deposit(s, caller, amount).Ok? { DepositSound(s, caller, amount, us); }
    case Withdraw(caller, shares) =>
      if EpochModel.Withdraw(s, caller, shares).Ok? { WithdrawSound(s, caller, shares, us); }
    case Harvest(amount) =>
      if EpochModel.Harvest(s, amount).Ok? { HarvestSound(s, amount, us); }
    case Advance(seconds) => AdvanceSound(s, seconds, us);
  }

  lemma InitialSound(perfFeeBps: nat, now: nat, us: set<Address>)
    ensures Sound(Initial(perfFeeBps, now), us)
  {
    var s := Initial(perfFeeBps, now);
    SumConstant(us, u => s.Balance(u), 0);
    SumConstant(us, u => Virtual(s, u, 0), 0);
  }

  lemma {:induction false} RunSound(perfFeeBps: nat, now: nat, actions: seq<Action>, us: set<Address>)
    requires Within(actions, us)
    ensures Sound(Run(Initial(perfFeeBps, now), actions), us)
  {
    var s := Initial(perfFeeBps, now);
    if actions == [] {
      InitialSound(perfFeeBps, now, us);
    } else {
      RunSound(perfFeeBps, now, actions[..|actions| - 1], us);
      StepSound(Run(s, actions[..|actions| - 1]), actions[|actions| - 1], us);
    }
  }

  /** The accounts' share-seconds against the contract's own counts. */
  ghost predicate BooksAgree(s: EpochState, us: set<Address>) {
    && VirtualTotal(s, us, s.epoch) == s.shareSeconds + s.totalShares * (s.now - s.lastUpdate)
    && (forall e: nat | e < s.epoch :: 0 <= VirtualTotal(s, us, e) <= Total(s, e))
  }

  lemma SoundBooksAgree(s: EpochState, us: set<Address>)
    requires Sound(s, us)
    ensures BooksAgree(s, us)
  {
    forall e: nat | e < s.epoch ensures 0 <= VirtualTotal(s, us, e) <= Total(s, e) {
      VirtualTotalNonNegative(s, us, e);
    }
  }

  /**
   Aggregate share-seconds: after every run, the open epoch's recorded and unrecorded share-seconds of
   all accounts add up exactly to the contract's running count brought up to now, and those of a closed
   epoch to at most its recorded total.
   */
  lemma ShareSecondsAddUp(perfFeeBps: nat, now: nat, actions: seq<Action>, us: set<Address>)
    requires Within(actions, us)
    ensures BooksAgree(Run(Initial(perfFeeBps, now), actions), us)
  {
    RunSound(perfFeeBps, now, actions, us);
    SoundBooksAgree(Run(Initial(perfFeeBps, now), actions), us);
  }

  /**
   Harvest claims are covered: after every run, what all accounts could claim at once on all closed
   epochs is within OutstandingHarvestYield, which is never negative.
   */
  lemma HarvestClaimsCovered(perfFeeBps: nat, now: nat, actions: seq<Action>, us: set<Address>)
    requires Within(actions, us)
    ensures var s := Run(Initial(perfFeeBps, now), actions);
            && 0 <= Sum(us, u => StoredYield(s, u)) <= Sum(us, u => Claimable(s, u, s.epoch)) <= s.outstanding
            && (forall u | u in us :: 0 <= StoredYield(s, u) <= Claimable(s, u, s.epoch))
  {
    RunSound(perfFeeBps, now, actions, us);
    ClaimsCovered(Run(Initial(perfFeeBps, now), actions), us);
    StoredCovered(Run(Initial(perfFeeBps, now), actions), us);
  }

  /** What `user_harvest_yield` computes from the weights stored right now, when it does not overflow. */
  function StoredYield(s: EpochState, u: Address): int {
    var r := HarvestYield(s, u, s.epoch);
    if r.Ok? then r.value else 0
  }

  lemma {:induction false} StoredWithinClaimable(s: EpochState, u: Address, n: nat)
    requires Kept(s) && forall e: nat | e < n :: Total(s, e) > 0 && Yield(s, e) >= 0
    requires HarvestYield(s, u, n).Ok?
    ensures 0 <= HarvestYield(s, u, n).value <= Claimable(s, u, n)
  {
    if n > 0 {
      StoredWithinClaimable(s, u, n - 1);
      var e := n - 1;
      assert SoundCursor(s, u);
      assert Get(s.weights, (u, e)) >= 0;
      if u in s.cursors { EpochWeightNonNegative(s, s.cursors[u], s.Balance(u), e); }
      RewardMonotone(s.Weight(u, e), Virtual(s, u, e), Yield(s, e), Total(s, e));
    }
  }

  lemma RewardMonotone(weight: int, weight': int, yielded: int, total: int)
    requires 0 <= weight <= weight' && yielded >= 0 && total > 0
    ensures 0 <= weight * yielded / total <= weight' * yielded / total
    ensures TruncDiv(weight * yielded, total) == weight * yielded / total
  {
    MulMono(0, weight, yielded);
    MulMono(weight, weight', yielded);
    FloorNonNegative(weight * yielded, total);
    FloorMono(weight * yielded, weight' * yielded, total);
  }

  lemma StoredCovered(s: EpochState, us: set<Address>)
    requires Sound(s, us)
    ensures 0 <= Sum(us, u => StoredYield(s, u)) <= Sum(us, u => Claimable(s, u, s.epoch))
    ensures forall u | u in us :: 0 <= StoredYield(s, u) <= Claimable(s, u, s.epoch)
  {
    forall u | u in us ensures 0 <= StoredYield(s, u) <= Claimable(s, u, s.epoch) {
      ClaimableNonNegative(s, u, s.epoch);
      if HarvestYield(s, u, s.epoch).Ok? { StoredWithinClaimable(s, u, s.epoch); }
    }
    SumConstant(us, (u: Address) => 0, 0);
    SumMonotone(us, (u: Address) => 0, u => StoredYield(s, u));
    SumMonotone(us, u => StoredYield(s, u), u => Claimable(s, u, s.epoch));
  }

  lemma ClaimsCovered(s: EpochState, us: set<Address>)
    requires Sound(s, us)
    ensures 0 <= Sum(us, u => Claimable(s, u, s.epoch)) <= s.outstanding
  {
    ClaimsWithinEntitled(s, us, s.epoch);
    forall u | u in us ensures Claimable(s, u, s.epoch) >= 0 { ClaimableNonNegative(s, u, s.epoch); }
    SumConstant(us, (u: Address) => 0, 0);
    SumMonotone(us, (u: Address) => 0, u => Claimable(s, u, s.epoch));
  }

  lemma {:induction false} ClaimableNonNegative(s: EpochState, u: Address, n: nat)
    requires Kept(s) && forall e: nat | e < n :: Total(s, e) > 0 && Yield(s, e) >= 0
    ensures Claimable(s, u, n) >= 0
  {
    if n > 0 {
      ClaimableNonNegative(s, u, n - 1);
      VirtualNonNegative(s, u, n - 1);
      MulMono(0, Virtual(s, u, n - 1), Yield(s, n - 1));
      FloorNonNegative(Virtual(s, u, n - 1) * Yield(s, n - 1), Total(s, n - 1));
    }
  }

  /**
   The subtraction in `withdraw`: after every run, a successful withdrawal takes exactly the withdrawn
   fraction, floored, of what the account could claim, and leaves OutstandingHarvestYield non-negative.
   */
  lemma WithdrawNeverOverdraws(perfFeeBps: nat, now: nat, actions: seq<Action>, us: set<Address>, caller: Address,
                               shares: int)
    requires Within(actions, us) && caller in us
    requires EpochModel.Withdraw(Run(Initial(perfFeeBps, now), actions), caller, shares).Ok?
    ensures var s := Run(Initial(perfFeeBps, now), actions);
            var t := EpochModel.Withdraw(s, caller, shares).value.0;
            && s.outstanding - t.outstanding == Claimable(s, caller, s.epoch) * shares / s.Balance(caller)
            && t.outstanding >= 0
  {
    var s := Run(Initial(perfFeeBps, now), actions);
    RunSound(perfFeeBps, now, actions, us);
    WithdrawCovered(s, caller, shares, us);
    var longer := actions + [Withdraw(caller, shares)];
    assert longer[..|longer| - 1] == actions;
    HarvestClaimsCovered(perfFeeBps, now, longer, us);
  }

  // ----- harvested yield never leaks into the share price -----

  predicate SharesRemain(s: EpochState, actions: seq<Action>) {
    actions == [] || (SharesRemain(s, actions[..|actions| - 1]) && Run(s, actions[..|actions| - 1]).totalShares > 0)
  }

  lemma StepKeepsPoolPrice(s: EpochState, a: Action, us: set<Address>)
    requires Sound(s, us) && a.Users() <= us && s.totalShares > 0
    ensures PriceNotLower(s.Pool(), s.totalShares, Step(s, a).Pool(), Step(s, a).totalShares)
    ensures a.Harvest? || a.Advance? ==> Step(s, a).Pool() == s.Pool() && Step(s, a).totalShares == s.totalShares
  {
    match a
    case Deposit(caller, amount) =>
      if EpochModel.Deposit(s, caller, amount).Ok? { DepositKeepsPoolPrice(s, caller, amount, us); }
    case Withdraw(caller, shares) =>
      if EpochModel.Withdraw(s, caller, shares).Ok? { WithdrawKeepsPoolPrice(s, caller, shares, us); }
    case Harvest(amount) =>
      if EpochModel.Harvest(s, amount).Ok? {
        HarvestShape(s, amount);
        RecordEpochShape(s, EpochModel.Harvest(s, amount).value.1);
      }
    case Advance(_) =>
  }

  lemma DepositKeepsPoolPrice(s: EpochState, caller: Address, amount: int, us: set<Address>)
    requires Sound(s, us) && s.totalShares > 0 && EpochModel.Deposit(s, caller, amount).Ok?
    ensures var t := EpochModel.Deposit(s, caller, amount).value.0;
            PriceNotLower(s.Pool(), s.totalShares, t.Pool(), t.totalShares)
  {
    DepositShape(s, caller, amount);
    CheckpointTotalKeeps(s);
    MintFavoursVault(amount, s.totalShares, s.Pool());
  }

  lemma WithdrawKeepsPoolPrice(s: EpochState, caller: Address, shares: int, us: set<Address>)
    requires Sound(s, us) && s.totalShares > 0 && EpochModel.Withdraw(s, caller, shares).Ok?
    ensures var t := EpochModel.Withdraw(s, caller, shares).value.0;
            PriceNotLower(s.Pool(), s.totalShares, t.Pool(), t.totalShares)
  {
    WithdrawShape(s, caller, shares);
    SettledShape(s, caller);
    CheckpointTotalKeeps(s);
    SupplyNonNegative(s, us);
    RedeemFavoursVault(shares, s.Pool(), s.totalShares);
  }

  /** While shares remain, the pool price (total_deposited - outstanding) / total_shares never falls. */
  lemma {:induction false} PoolPriceNeverFalls(s: EpochState, actions: seq<Action>, us: set<Address>)
    requires Sound(s, us) && Within(actions, us)
    ensures Sound(Run(s, actions), us)
    ensures SharesRemain(s, actions) ==>
              PriceNotLower(s.Pool(), s.totalShares, Run(s, actions).Pool(), Run(s, actions).totalShares)
  {
    if actions != [] {
      var shorter, a := actions[..|actions| - 1], actions[|actions| - 1];
      PoolPriceNeverFalls(s, shorter, us);
      var mid := Run(s, shorter);
      StepSound(mid, a, us);
      SupplyNonNegative(s, us);
      SupplyNonNegative(Step(mid, a), us);
      if SharesRemain(s, actions) {
        StepKeepsPoolPrice(mid, a, us);
        Batch.PriceChain(s.Pool(), s.totalShares, mid.Pool(), mid.totalShares, Step(mid, a).Pool(),
                         Step(mid, a).totalShares);
      }
    }
  }
}

/**
 When the epoch machine's calls go through, and what they pay. The conditions are on share-seconds and claims as
 an eager bookkeeper would hold them: cursors, and the loops that catch up with them, do not appear.
 */
module EpochRules {
  import opened Core
  import opened Arith
  import opened ShareMath
  import opened EpochModel
  import opened EpochShares
  import opened EpochClaims
  import Credits
  import E = EntryPoints

  predicate Small(x: int) { x <= I128_MAX }

  // ----- the running count -----

  /** The open epoch's share-seconds, brought up to now. */
  function SecondsNow(s: EpochState): int { s.shareSeconds + s.totalShares * (s.now - s.lastUpdate) }

  predicate CountFits(s: EpochState) { s.now > s.lastUpdate ==> Small(SecondsNow(s)) }

  lemma CountsExactlyWhen(s: EpochState)
    requires s.lastUpdate <= s.now && s.shareSeconds >= 0 && s.totalShares >= 0
    ensures CheckpointTotal(s).Ok? <==> CountFits(s)
  {
    MulMono(0, s.totalShares, s.now - s.lastUpdate);
  }

  // ----- the checkpoint loop -----

  predicate OneRecordFits(s: EpochState, u: Address, cursor: Cursor, shares: int, e: nat) {
    && IsI128(shares * Elapsed(s.EndOf(e), MaxNat(cursor.time, s.StartAt(e))))
    && (EpochWeight(s, cursor, shares, e) > 0 ==> IsI128(s.Weight(u, e) + EpochWeight(s, cursor, shares, e)))
  }

  lemma OneRecordExactly(s: EpochState, recorded: map<(Address, nat), int>, u: Address, cursor: Cursor, shares: int,
                         e: nat)
    requires Get(recorded, (u, e)) == s.Weight(u, e)
    ensures RecordOne(s, recorded, u, cursor, shares, e).Ok? <==> OneRecordFits(s, u, cursor, shares, e)
  {
  }

  lemma {:induction false} RecordsExactlyWhen(s: EpochState, u: Address, cursor: Cursor, shares: int, n: nat)
    requires shares >= 0
    ensures RecordWeights(s, u, cursor, shares, n).Ok? <==>
              forall e: nat | cursor.epoch <= e < n :: OneRecordFits(s, u, cursor, shares, e)
  {
    hide OneRecordFits, RecordOne, EpochWeight;
    if n > cursor.epoch {
      RecordsExactlyWhen(s, u, cursor, shares, n - 1);
      var before := RecordWeights(s, u, cursor, shares, n - 1);
      if before.Ok? {
        RecordedWeights(s, u, cursor, shares, n - 1);
        OneRecordExactly(s, before.value, u, cursor, shares, n - 1);
      }
    }
  }

  /** Everything the account has not recorded yet fits on top of what it has. */
  ghost predicate WeightsFit(s: EpochState, u: Address) {
    forall e: nat | e <= s.epoch && Unrecorded(s, u, e) > 0 :: Small(Virtual(s, u, e))
  }

  lemma RecordFitsAsWeight(s: EpochState, u: Address, e: nat)
    requires Kept(s) && u in s.cursors && s.cursors[u].epoch <= e <= s.epoch
    ensures OneRecordFits(s, u, s.cursors[u], s.Balance(u), e)
       <==> (Unrecorded(s, u, e) > 0 ==> Small(Virtual(s, u, e)))
  {
    var c := s.cursors[u];
    assert SoundCursor(s, u);
    assert Get(s.weights, (u, e)) >= 0;
    MulMono(0, s.Balance(u), Elapsed(s.EndOf(e), MaxNat(c.time, s.StartAt(e))));
  }

  lemma CheckpointsExactlyWhen(s: EpochState, u: Address)
    requires Kept(s)
    ensures CheckpointUser(s, u, s.Balance(u)).Ok? <==> WeightsFit(s, u)
  {
    hide OneRecordFits, RecordWeights, Virtual;
    assert SoundCursor(s, u);
    var c := s.CursorOf(u);
    RecordsExactlyWhen(s, u, c, s.Balance(u), s.epoch + 1);
    if u in s.cursors {
      forall e: nat | c.epoch <= e <= s.epoch
        ensures OneRecordFits(s, u, c, s.Balance(u), e) <==> (Unrecorded(s, u, e) > 0 ==> Small(Virtual(s, u, e)))
      {
        RecordFitsAsWeight(s, u, e);
      }
    } else {
      NewcomerFits(s, u, c);
    }
  }

  lemma NewcomerFits(s: EpochState, u: Address, c: Cursor)
    requires s.Balance(u) == 0
    ensures forall e: nat :: OneRecordFits(s, u, c, 0, e)
  {
  }

  // ----- the claim loop and the reduction loop -----

  lemma RewardBounds(weight: int, yielded: int, total: int)
    requires weight >= 0 && yielded >= 0 && total > 0
    ensures 0 <= weight * yielded / total <= weight * yielded
  {
    MulMono(0, weight, yielded);
    FloorNonNegative(weight * yielded, total);
    Floor(weight * yielded, total);
    MulMono(1, total, weight * yielded / total);
  }

  predicate OneRewardFits(s: EpochState, u: Address, e: nat) { Small(s.Weight(u, e) * Yield(s, e)) }

  lemma OneMoreReward(s: EpochState, u: Address, n: nat)
    requires 0 <= s.Weight(u, n) && Yield(s, n) >= 0 && Total(s, n) > 0
    requires HarvestYield(s, u, n).Ok? ==> HarvestYield(s, u, n).value >= 0
    ensures HarvestYield(s, u, n + 1).Ok? <==>
              && HarvestYield(s, u, n).Ok? && OneRewardFits(s, u, n)
              && Small(HarvestYield(s, u, n).value + s.Weight(u, n) * Yield(s, n) / Total(s, n))
  {
    RewardBounds(s.Weight(u, n), Yield(s, n), Total(s, n));
  }

  lemma OneMoreClaim(s: EpochState, u: Address, n: nat)
    requires 0 <= s.Weight(u, n) == Virtual(s, u, n) && Yield(s, n) >= 0 && Total(s, n) > 0
    ensures Claimable(s, u, n + 1) == Claimable(s, u, n) + s.Weight(u, n) * Yield(s, n) / Total(s, n)
    ensures Claimable(s, u, n + 1) >= Claimable(s, u, n)
  {
    RewardBounds(s.Weight(u, n), Yield(s, n), Total(s, n));
  }

  lemma {:induction false} ClaimsExactlyWhen(s: EpochState, u: Address, n: nat)
    requires forall e: nat | e < n :: 0 <= s.Weight(u, e) == Virtual(s, u, e) && Yield(s, e) >= 0 && Total(s, e) > 0
    ensures Claimable(s, u, n) >= 0
    ensures HarvestYield(s, u, n).Ok? <==>
              Small(Claimable(s, u, n)) && forall e: nat | e < n :: OneRewardFits(s, u, e)
  {
    hide Virtual, OneRewardFits;
    if n > 0 {
      ClaimsExactlyWhen(s, u, n - 1);
      OneMoreClaim(s, u, n - 1);
      if HarvestYield(s, u, n - 1).Ok? {
        HarvestYieldIsClaimable(s, u, n - 1);
      }
      OneMoreReward(s, u, n - 1);
    }
  }

  predicate OneReductionFits(weights: map<(Address, nat), int>, u: Address, remaining: int, e: nat) {
    Small(Get(weights, (u, e)) * remaining)
  }

  lemma OneMoreReduction(weights: map<(Address, nat), int>, u: Address, remaining: int, prior: int, n: nat)
    requires remaining >= 0 && prior > 0 && forall e: nat :: Get(weights, (u, e)) >= 0
    ensures ReduceWeights(weights, u, remaining, prior, n + 1).Ok? <==>
              ReduceWeights(weights, u, remaining, prior, n).Ok? && OneReductionFits(weights, u, remaining, n)
  {
    var before := ReduceWeights(weights, u, remaining, prior, n);
    if before.Ok? {
      ReducedWeights(weights, u, remaining, prior, n);
      assert Get(before.value, (u, n)) == Get(weights, (u, n));
      RewardBounds(Get(weights, (u, n)), remaining, prior);
    }
  }

  lemma {:induction false} ReducesExactlyWhen(weights: map<(Address, nat), int>, u: Address, remaining: int, prior: int,
                                              n: nat)
    requires remaining >= 0 && prior > 0 && forall e: nat :: Get(weights, (u, e)) >= 0
    ensures ReduceWeights(weights, u, remaining, prior, n).Ok? <==>
              forall e: nat | e < n :: OneReductionFits(weights, u, remaining, e)
  {
    hide OneReductionFits;
    if n > 0 {
      ReducesExactlyWhen(weights, u, remaining, prior, n - 1);
      OneMoreReduction(weights, u, remaining, prior, n - 1);
    }
  }

  // ----- the calls -----

  ghost predicate DepositAllowed(s: EpochState, caller: Address, amount: int) {
    var minted := Credits.ExactMint(amount, s.totalShares, s.Pool());
    && amount > 0 && Credits.MintFits(amount, s.totalShares, s.Pool())
    && CountFits(s) && WeightsFit(s, caller) && IsI128(s.Pool())
    && IsI128(s.Balance(caller) + minted) && IsI128(s.totalShares + minted) && IsI128(s.totalDeposited + amount)
  }

  /** A deposit goes through exactly when it mints something and its numbers fit; it mints the exact share. */
  lemma DepositsExactlyWhen(s: EpochState, us: set<Address>, caller: Address, amount: int)
    requires Sound(s, us)
    ensures var r := EpochModel.Deposit(s, caller, amount);
            var minted := Credits.ExactMint(amount, s.totalShares, s.Pool());
            && (r.Ok? <==> DepositAllowed(s, caller, amount))
            && (r.Ok? ==>
                  && r.value.1 == minted
                  && r.value.0.balances == s.balances[caller := s.Balance(caller) + minted]
                  && r.value.0.totalShares == s.totalShares + minted
                  && r.value.0.totalDeposited == s.totalDeposited + amount)
  {
    hide Sound, WeightsFit, CountFits, DepositShares, Credits.MintFits, Credits.ExactMint, CheckpointUser, Virtual;
    SoundTotals(s, us);
    Credits.MintExactly(amount, s.totalShares, s.Pool());
    CountsExactlyWhen(s);
    SettlesExactlyWhen(s, us, caller);
    if EpochModel.Deposit(s, caller, amount).Ok? {
      DepositShape(s, caller, amount);
    }
  }

  lemma SoundTotals(s: EpochState, us: set<Address>)
    requires Sound(s, us)
    ensures Kept(s) && s.shareSeconds >= 0 && s.totalShares >= 0 && s.lastUpdate <= s.now && s.Pool() >= 0
  {
    SupplyNonNegative(s, us);
  }

  /** Both checkpoints, on the way into a deposit or withdrawal. */
  lemma SettlesExactlyWhen(s: EpochState, us: set<Address>, caller: Address)
    requires Sound(s, us)
    ensures Settled(s, caller).Ok? <==> CountFits(s) && WeightsFit(s, caller)
  {
    hide Virtual, CheckpointUser;
    SoundTotals(s, us);
    CountsExactlyWhen(s);
    if CheckpointTotal(s).Ok? {
      CheckpointTotalKeeps(s);
      var counted := CheckpointTotal(s).value;
      CheckpointsExactlyWhen(counted, caller);
      SameWeightsFit(s, counted, caller);
    }
  }

  lemma SameWeightsFit(s: EpochState, t: EpochState, u: Address)
    requires SameEpochs(s, t)
    ensures WeightsFit(t, u) <==> WeightsFit(s, u)
  {
    forall e: nat ensures Unrecorded(t, u, e) == Unrecorded(s, u, e) && Virtual(t, u, e) == Virtual(s, u, e) {
    }
  }

  // ----- withdrawals -----

  /** What the burned shares are worth on the pool, and their fraction of the account's claim, floored. */
  function Base(s: EpochState, shares: int): int { Credits.ExactPayment(shares, s.Pool(), s.totalShares) }

  function Harvested(s: EpochState, u: Address, shares: int): int
    requires s.Balance(u) > 0
  {
    Claimable(s, u, s.epoch) * shares / s.Balance(u)
  }

  ghost predicate ClaimsFit(s: EpochState, u: Address) {
    Small(Claimable(s, u, s.epoch)) && forall e: nat | e < s.epoch :: Small(Virtual(s, u, e) * Yield(s, e))
  }

  ghost predicate ReductionsFit(s: EpochState, u: Address, remaining: int) {
    forall e: nat | e < s.epoch :: Small(Virtual(s, u, e) * remaining)
  }

  /** The checkpointed account holds, in every closed epoch, exactly its share-seconds. */
  ghost predicate UpToDate(s: EpochState, t: EpochState, u: Address) {
    && t.epoch == s.epoch && t.epochTotal == s.epochTotal && t.epochYield == s.epochYield
    && SoundWeights(t.weights, u, t.epoch)
    && forall e: nat | e < s.epoch :: t.Weight(u, e) == Virtual(t, u, e) == Virtual(s, u, e)
  }

  lemma SettledUpToDate(s: EpochState, us: set<Address>, u: Address)
    requires Sound(s, us) && Settled(s, u).Ok?
    ensures var t := Settled(s, u).value;
            && UpToDate(s, t, u) && t.balances == s.balances && t.totalShares == s.totalShares
            && t.totalDeposited == s.totalDeposited && t.outstanding == s.outstanding
  {
    SettledShape(s, u);
    CheckpointTotalKeeps(s);
    CheckpointUserVirtual(CheckpointTotal(s).value, u);
    assert SoundCursor(Settled(s, u).value, u);
  }

  lemma SettledClaims(s: EpochState, t: EpochState, us: set<Address>, u: Address)
    requires Sound(s, us) && UpToDate(s, t, u)
    ensures Claimable(s, u, s.epoch) >= 0
    ensures HarvestYield(t, u, t.epoch).Ok? <==> ClaimsFit(s, u)
    ensures HarvestYield(t, u, t.epoch).Ok? ==> HarvestYield(t, u, t.epoch).value == Claimable(s, u, s.epoch)
  {
    hide Virtual, Small;
    forall e: nat | e < s.epoch
      ensures 0 <= t.Weight(u, e) == Virtual(t, u, e) && Yield(t, e) >= 0 && Total(t, e) > 0
    {
      assert Get(t.weights, (u, e)) >= 0;
      assert Total(s, e) > 0 && Yield(s, e) >= 0;
    }
    SameClaimable(s, t, u, s.epoch);
    ClaimsExactlyWhen(t, u, s.epoch);
    if HarvestYield(t, u, s.epoch).Ok? {
      HarvestYieldIsClaimable(t, u, s.epoch);
    }
    RewardsFit(s, t, u);
  }

  lemma RewardsFit(s: EpochState, t: EpochState, u: Address)
    requires UpToDate(s, t, u)
    ensures (forall e: nat | e < s.epoch :: OneRewardFits(t, u, e))
       <==> (forall e: nat | e < s.epoch :: Small(Virtual(s, u, e) * Yield(s, e)))
  {
    hide Virtual, Small;
    forall e: nat | e < s.epoch
      ensures OneRewardFits(t, u, e) <==> Small(Virtual(s, u, e) * Yield(s, e))
    {
      assert t.Weight(u, e) == Virtual(s, u, e) && Yield(t, e) == Yield(s, e);
    }
  }

  lemma SettledReductions(s: EpochState, t: EpochState, u: Address, remaining: int, prior: int)
    requires UpToDate(s, t, u) && remaining >= 0 && prior > 0
    ensures ReduceWeights(t.weights, u, remaining, prior, t.epoch).Ok? <==> ReductionsFit(s, u, remaining)
  {
    hide Virtual, Small;
    ReducesExactlyWhen(t.weights, u, remaining, prior, t.epoch);
    forall e: nat | e < s.epoch
      ensures OneReductionFits(t.weights, u, remaining, e) <==> Small(Virtual(s, u, e) * remaining)
    {
      assert t.Weight(u, e) == Virtual(s, u, e);
    }
  }

  /** What a withdrawal pays can be computed. */
  predicate QuoteFits(s: EpochState, u: Address, shares: int)
    requires s.Balance(u) > 0
  {
    && IsI128(s.Pool()) && Small(shares * s.Pool()) && Small(Claimable(s, u, s.epoch) * shares)
    && 0 < Base(s, shares) + Harvested(s, u, shares) && Small(Base(s, shares) + Harvested(s, u, shares))
  }

  lemma QuotesExactlyWhen(s: EpochState, t: EpochState, u: Address, shares: int)
    requires 0 < shares <= s.Balance(u) && shares <= s.totalShares && s.Pool() >= 0
    requires t.epoch == s.epoch && t.balances == s.balances && t.totalShares == s.totalShares
    requires t.Pool() == s.Pool() && Claimable(s, u, s.epoch) >= 0
    requires HarvestYield(t, u, t.epoch).Ok? ==> HarvestYield(t, u, t.epoch).value == Claimable(s, u, s.epoch)
    ensures Quote(t, u, shares).Ok? <==> HarvestYield(t, u, t.epoch).Ok? && QuoteFits(s, u, shares)
    ensures Quote(t, u, shares).Ok? ==>
              Quote(t, u, shares).value == (Base(s, shares) + Harvested(s, u, shares), Harvested(s, u, shares))
  {
    hide HarvestYield, Claimable;
    RewardBounds(shares, s.Pool(), s.totalShares);
    RewardBounds(Claimable(s, u, s.epoch), shares, s.Balance(u));
    MulMono(0, s.Pool(), shares);
    MulMono(0, shares, Claimable(s, u, s.epoch));
  }

  ghost predicate WithdrawAllowed(s: EpochState, u: Address, shares: int) {
    && 0 < shares <= s.Balance(u) && CountFits(s) && WeightsFit(s, u) && ClaimsFit(s, u)
    && ReductionsFit(s, u, s.Balance(u) - shares) && QuoteFits(s, u, shares)
    && IsI128(s.outstanding - Harvested(s, u, shares)) && IsI128(s.totalShares - shares)
    && IsI128(s.totalDeposited - Base(s, shares) - Harvested(s, u, shares))
  }

  lemma PaysExactlyWhen(s: EpochState, u: Address, shares: int, redeem: int, harvested: int)
    ensures Pay(s, u, shares, redeem, harvested).Ok? <==>
              && ReduceWeights(s.weights, u, s.Balance(u) - shares, s.Balance(u), s.epoch).Ok?
              && IsI128(s.outstanding - harvested) && IsI128(s.totalShares - shares)
              && IsI128(s.totalDeposited - redeem)
  {
  }

  /**
   A withdrawal goes through exactly when the shares are there, something is paid and the numbers fit. It pays the
   shares' worth of the pool and their fraction of the claim on closed epochs, and takes both off the books.
   */
  lemma WithdrawsExactlyWhen(s: EpochState, us: set<Address>, u: Address, shares: int)
    requires Sound(s, us)
    ensures var r := EpochModel.Withdraw(s, u, shares);
            && (r.Ok? <==> WithdrawAllowed(s, u, shares))
            && (r.Ok? ==>
                  var t := r.value.0;
                  && s.Balance(u) > 0 && r.value.1 == Base(s, shares) + Harvested(s, u, shares)
                  && t.balances == s.balances[u := s.Balance(u) - shares] && t.totalShares == s.totalShares - shares
                  && t.totalDeposited == s.totalDeposited - r.value.1
                  && t.outstanding == s.outstanding - Harvested(s, u, shares))
  {
    hide CountFits, WeightsFit, ClaimsFit, ReductionsFit, QuoteFits, UpToDate, Base, Harvested, HarvestYield,
      CheckpointUser, CheckpointTotal, ReduceWeights, Quote, Pay, Virtual, Sound;
    SoundTotals(s, us);
    SettlesExactlyWhen(s, us, u);
    if 0 < shares <= s.Balance(u) && Settled(s, u).Ok? {
      var t := Settled(s, u).value;
      SettledUpToDate(s, us, u);
      SettledClaims(s, t, us, u);
      SharesInSupply(s, us, u, shares);
      QuotesExactlyWhen(s, t, u, shares);
      SettledReductions(s, t, u, s.Balance(u) - shares, s.Balance(u));
      if Quote(t, u, shares).Ok? {
        var (redeem, harvested) := Quote(t, u, shares).value;
        PaysExactlyWhen(t, u, shares, redeem, harvested);
        if Pay(t, u, shares, redeem, harvested).Ok? {
          PayShape(t, u, shares, redeem, harvested);
        }
      }
    }
  }

  lemma SharesInSupply(s: EpochState, us: set<Address>, u: Address, shares: int)
    requires Sound(s, us) && shares <= s.Balance(u)
    ensures shares <= s.totalShares
  {
    SupplyNonNegative(s, us);
  }

  // ----- harvests -----

  predicate HarvestAllowed(s: EpochState, amount: int) {
    var net := amount - E.Part(amount, s.perfFeeBps);
    && amount > 0 && s.totalShares != 0 && E.FeeFits(amount, s.perfFeeBps) && CountFits(s)
    && IsI128(net) && IsI128(s.totalDeposited + net) && IsI128(s.outstanding + net)
  }

  /** A harvest goes through exactly when there are shares and its numbers fit; it closes the epoch on its net yield. */
  lemma HarvestsExactlyWhen(s: EpochState, us: set<Address>, amount: int)
    requires Sound(s, us)
    ensures var r := EpochModel.Harvest(s, amount);
            var net := amount - E.Part(amount, s.perfFeeBps);
            && (r.Ok? <==> HarvestAllowed(s, amount))
            && (r.Ok? ==>
                  && r.value.1 == net
                  && r.value.0 == s.(
                       totalDeposited := s.totalDeposited + net, outstanding := s.outstanding + net,
                       epochTotal := s.epochTotal[s.epoch := if SecondsNow(s) == 0 then s.totalShares
                                                             else SecondsNow(s)],
                       epochYield := s.epochYield[s.epoch := net], endAt := s.endAt[s.epoch := s.now],
                       startAt := s.startAt[s.epoch + 1 := s.now], epoch := s.epoch + 1, shareSeconds := 0,
                       lastUpdate := s.now))
  {
    hide Virtual, CountFits, E.Part;
    SoundTotals(s, us);
    CountsExactlyWhen(s);
    if amount > 0 && s.totalShares != 0 {
      E.PerfFeeExactly(amount, s.perfFeeBps);
      if CheckpointTotal(s).Ok? {
        CheckpointTotalKeeps(s);
        MulMono(0, s.totalShares, s.now - s.lastUpdate);
      }
    }
  }
}

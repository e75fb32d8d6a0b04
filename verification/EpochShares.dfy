/**
 Lazy share-seconds agree with eager ones: what an account has recorded plus what its cursor still
 owes is, at every moment of every run, exactly what the eager bookkeeper has written down for it.
 */
module EpochShares {
  import opened Core
  import opened Arith
  import opened EpochModel
  import opened EpochRuns
  import opened ShareMath
  import Accounts

  /** Weight the cursor has not recorded yet. */
  function Unrecorded(s: EpochState, u: Address, e: nat): int {
    if u in s.cursors && s.cursors[u].epoch <= e <= s.epoch then EpochWeight(s, s.cursors[u], s.Balance(u), e) else 0
  }

  /** An account's share-seconds in an epoch: recorded, plus not yet recorded. */
  function Virtual(s: EpochState, u: Address, e: nat): int {
    s.Weight(u, e) + Unrecorded(s, u, e)
  }

  /** Epochs follow one another without gaps, up to now. */
  ghost predicate Timeline(s: EpochState) {
    && s.StartAt(s.epoch) <= s.lastUpdate <= s.now
    && (forall e: nat | e < s.epoch :: e in s.endAt && s.endAt[e] == GetTime(s.startAt, e + 1))
    && (forall e: nat, f: nat | e <= f <= s.epoch :: GetTime(s.startAt, e) <= GetTime(s.startAt, f))
  }

  ghost predicate SoundCursor(s: EpochState, u: Address) {
    && s.Balance(u) >= 0
    && (s.Balance(u) > 0 ==> u in s.cursors)
    && (u in s.cursors ==>
          var c := s.cursors[u];
          && c.epoch <= s.epoch && s.StartAt(c.epoch) <= c.time <= s.now
          && (c.epoch < s.epoch ==> c.time <= s.StartAt(c.epoch + 1)))
    && SoundWeights(s.weights, u, s.epoch)
    && (s.StartAt(s.epoch) == s.now ==> s.Weight(u, s.epoch) == 0)
  }

  /** No negative weights, and none for epochs that have not opened. */
  ghost predicate SoundWeights(weights: map<(Address, nat), int>, u: Address, epoch: nat) {
    && (forall e: nat :: Get(weights, (u, e)) >= 0)
    && (forall e: nat | e > epoch :: Get(weights, (u, e)) == 0)
  }

  ghost predicate Kept(s: EpochState) {
    Timeline(s) && forall u: Address :: SoundCursor(s, u)
  }

  // ----- the loops, epoch by epoch -----

  lemma EpochWeightNonNegative(s: EpochState, cursor: Cursor, shares: int, e: nat)
    requires shares >= 0
    ensures EpochWeight(s, cursor, shares, e) >= 0
  {
    MulMono(0, shares, Elapsed(s.EndOf(e), MaxNat(cursor.time, s.StartAt(e))));
  }

  /** The checkpoint loop adds each epoch's weight once, and touches nobody else. */
  lemma {:induction false} RecordedWeights(s: EpochState, u: Address, cursor: Cursor, shares: int, n: nat)
    requires shares >= 0
    requires RecordWeights(s, u, cursor, shares, n).Ok?
    ensures forall v: Address, e: nat ::
              Get(RecordWeights(s, u, cursor, shares, n).value, (v, e))
              == s.Weight(v, e) + (if v == u && cursor.epoch <= e < n then EpochWeight(s, cursor, shares, e) else 0)
  {
    if n > cursor.epoch {
      RecordedWeights(s, u, cursor, shares, n - 1);
      RecordedOne(s, RecordWeights(s, u, cursor, shares, n - 1).value, u, cursor, shares, n - 1);
    }
  }

  lemma RecordedOne(s: EpochState, recorded: map<(Address, nat), int>, u: Address, cursor: Cursor, shares: int, n: nat)
    requires shares >= 0
    requires RecordOne(s, recorded, u, cursor, shares, n).Ok?
    ensures forall v: Address, e: nat ::
              Get(RecordOne(s, recorded, u, cursor, shares, n).value, (v, e))
              == Get(recorded, (v, e)) + (if v == u && e == n then EpochWeight(s, cursor, shares, n) else 0)
  {
    EpochWeightNonNegative(s, cursor, shares, n);
  }

  /** The reduction loop floors each closed weight of the account once. */
  lemma {:induction false} ReducedWeights(weights: map<(Address, nat), int>, u: Address, remaining: int, prior: int,
                                          n: nat)
    requires remaining >= 0 && prior > 0
    requires forall e: nat :: Get(weights, (u, e)) >= 0
    requires ReduceWeights(weights, u, remaining, prior, n).Ok?
    ensures forall v: Address, e: nat ::
              Get(ReduceWeights(weights, u, remaining, prior, n).value, (v, e))
              == if v == u && e < n then Get(weights, (v, e)) * remaining / prior else Get(weights, (v, e))
  {
    if n > 0 {
      ReducedWeights(weights, u, remaining, prior, n - 1);
      MulMono(0, remaining, Get(weights, (u, n - 1)));
    }
  }

  // ----- each step, on virtual weights -----

  lemma AdvanceVirtual(s: EpochState, seconds: nat, u: Address, e: nat)
    requires Kept(s) && e <= s.epoch
    ensures Virtual(EpochModel.Advance(s, seconds), u, e)
         == Virtual(s, u, e) + (if e == s.epoch then s.Balance(u) * seconds else 0)
  {
    assert SoundCursor(s, u);
    if u in s.cursors && s.cursors[u].epoch <= e && e == s.epoch {
      var from := MaxNat(s.cursors[u].time, s.StartAt(e));
      assert s.Balance(u) * (s.now + seconds - from) == s.Balance(u) * (s.now - from) + s.Balance(u) * seconds;
    }
  }

  lemma AdvanceKeeps(s: EpochState, seconds: nat)
    requires Kept(s)
    ensures Kept(EpochModel.Advance(s, seconds))
  {
    forall u: Address ensures SoundCursor(EpochModel.Advance(s, seconds), u) { assert SoundCursor(s, u); }
  }

  /** Same accounts, epochs and clock. */
  predicate SameEpochs(s: EpochState, t: EpochState) {
    && t.balances == s.balances && t.epoch == s.epoch && t.startAt == s.startAt && t.endAt == s.endAt
    && t.now == s.now && t.cursors == s.cursors && t.weights == s.weights
  }

  lemma SameEpochsKeep(s: EpochState, t: EpochState)
    requires Kept(s) && SameEpochs(s, t) && s.StartAt(s.epoch) <= t.lastUpdate <= t.now
    ensures Kept(t)
    ensures forall u: Address, e: nat :: Virtual(t, u, e) == Virtual(s, u, e)
  {
    forall u: Address ensures SoundCursor(t, u) { assert SoundCursor(s, u); }
  }

  lemma CheckpointUserVirtual(s: EpochState, u: Address)
    requires Kept(s) && CheckpointUser(s, u, s.Balance(u)).Ok?
    ensures var t := CheckpointUser(s, u, s.Balance(u)).value;
            && Kept(t)
            && (forall v: Address, e: nat | e <= s.epoch :: Virtual(t, v, e) == Virtual(s, v, e))
            && (forall e: nat | e < s.epoch :: t.Weight(u, e) == Virtual(t, u, e))
  {
    var t := CheckpointUser(s, u, s.Balance(u)).value;
    forall v: Address, e: nat | e <= s.epoch ensures Virtual(t, v, e) == Virtual(s, v, e) {
      CheckpointedWeight(s, u, v, e);
    }
    forall e: nat | e < s.epoch ensures t.Weight(u, e) == Virtual(t, u, e) {
      CheckpointedWeight(s, u, u, e);
    }
    CheckpointedOthers(s, u);
  }

  lemma CheckpointedOthers(s: EpochState, u: Address)
    requires Kept(s) && CheckpointUser(s, u, s.Balance(u)).Ok?
    ensures Kept(CheckpointUser(s, u, s.Balance(u)).value)
  {
    var t := CheckpointUser(s, u, s.Balance(u)).value;
    assert SoundCursor(s, u);
    RecordedWeights(s, u, s.CursorOf(u), s.Balance(u), s.epoch + 1);
    CheckpointedCursor(s, u);
    forall v: Address ensures SoundCursor(t, v) {
      assert SoundCursor(s, v);
    }
  }

  lemma CheckpointedWeight(s: EpochState, u: Address, v: Address, e: nat)
    requires Kept(s) && CheckpointUser(s, u, s.Balance(u)).Ok? && e <= s.epoch
    ensures var t := CheckpointUser(s, u, s.Balance(u)).value;
            && Virtual(t, v, e) == Virtual(s, v, e)
            && (v == u && e < s.epoch ==> t.Weight(v, e) == Virtual(t, v, e))
  {
    var t := CheckpointUser(s, u, s.Balance(u)).value;
    assert SoundCursor(s, u);
    RecordedWeights(s, u, s.CursorOf(u), s.Balance(u), s.epoch + 1);
    if v == u {
      assert u !in s.cursors ==> s.Balance(u) == 0;
      assert Unrecorded(t, u, e) == 0;
    } else {
      assert Unrecorded(t, v, e) == Unrecorded(s, v, e);
    }
  }

  lemma CheckpointedCursor(s: EpochState, u: Address)
    requires Kept(s) && CheckpointUser(s, u, s.Balance(u)).Ok?
    ensures SoundCursor(CheckpointUser(s, u, s.Balance(u)).value, u)
  {
    var t := CheckpointUser(s, u, s.Balance(u)).value;
    var c := s.CursorOf(u);
    assert SoundCursor(s, u);
    RecordedStaySound(s, u, c, s.Balance(u));
    if s.StartAt(s.epoch) == s.now {
      RecordedWeights(s, u, c, s.Balance(u), s.epoch + 1);
      NothingEarnedYet(s, c, s.Balance(u));
    }
  }

  lemma RecordedStaySound(s: EpochState, u: Address, cursor: Cursor, shares: int)
    requires shares >= 0 && SoundWeights(s.weights, u, s.epoch)
    requires RecordWeights(s, u, cursor, shares, s.epoch + 1).Ok?
    ensures SoundWeights(RecordWeights(s, u, cursor, shares, s.epoch + 1).value, u, s.epoch)
  {
    var recorded := RecordWeights(s, u, cursor, shares, s.epoch + 1).value;
    RecordedWeights(s, u, cursor, shares, s.epoch + 1);
    forall e: nat ensures Get(recorded, (u, e)) >= 0 && (e > s.epoch ==> Get(recorded, (u, e)) == 0) {
      assert Get(s.weights, (u, e)) >= 0;
      EpochWeightNonNegative(s, cursor, shares, e);
    }
  }

  /** An epoch that began this instant has earned nothing while it is open. */
  lemma NothingEarnedYet(s: EpochState, cursor: Cursor, shares: int)
    requires s.StartAt(s.epoch) == s.now
    ensures EpochWeight(s, cursor, shares, s.epoch) == 0
  {
  }

  /** Once checkpointed, an account's balance can change without changing any share-seconds. */
  lemma RebalanceVirtual(s: EpochState, t: EpochState, u: Address, balance: int)
    requires Kept(s) && balance >= 0
    requires u in s.cursors && s.cursors[u] == Cursor(s.now, s.epoch)
    requires t.balances == s.balances[u := balance]
    requires t.epoch == s.epoch && t.startAt == s.startAt && t.endAt == s.endAt && t.now == s.now
    requires t.cursors == s.cursors && t.weights == s.weights && t.lastUpdate == s.lastUpdate
    ensures Kept(t)
    ensures forall v: Address, e: nat | e <= s.epoch :: Virtual(t, v, e) == Virtual(s, v, e)
  {
    forall v: Address ensures SoundCursor(t, v) { assert SoundCursor(s, v); }
  }

  // ----- harvest -----

  lemma RecordEpochShape(s: EpochState, net: int)
    requires RecordEpoch(s, net).Ok?
    ensures CheckpointTotal(s).Ok?
    ensures var t := RecordEpoch(s, net).value;
            var counted := CheckpointTotal(s).value;
            var total := if counted.shareSeconds == 0 then s.totalShares else counted.shareSeconds;
            && total > 0
            && t == s.(endAt := s.endAt[s.epoch := s.now], epochTotal := s.epochTotal[s.epoch := total],
                       epochYield := s.epochYield[s.epoch := net], outstanding := s.outstanding + net,
                       epoch := s.epoch + 1, startAt := s.startAt[s.epoch + 1 := s.now],
                       shareSeconds := 0, lastUpdate := s.now)
  {
  }

  /** Closing the open epoch now does not change what a cursor owes, except for an epoch of no length. */
  lemma ClosingWeight(s: EpochState, t: EpochState, c: Cursor, shares: int, e: nat)
    requires t.epoch == s.epoch + 1 && t.now == s.now
    requires t.endAt == s.endAt[s.epoch := s.now] && t.startAt == s.startAt[s.epoch + 1 := s.now]
    requires e <= s.epoch && shares >= 0 && c.time <= s.now && s.StartAt(e) <= s.now
    ensures EpochWeight(t, c, shares, e)
         == if e == s.epoch && s.StartAt(e) == s.now then shares else EpochWeight(s, c, shares, e)
  {
  }

  lemma RecordEpochVirtual(s: EpochState, net: int, u: Address, e: nat)
    requires Kept(s) && RecordEpoch(s, net).Ok? && e <= s.epoch + 1
    ensures Virtual(RecordEpoch(s, net).value, u, e)
         == if e == s.epoch + 1 then 0
            else if e == s.epoch && s.StartAt(e) == s.now then s.Balance(u)
            else Virtual(s, u, e)
  {
    RecordEpochShape(s, net);
    var t := RecordEpoch(s, net).value;
    assert SoundCursor(s, u);
    if u in s.cursors {
      if e <= s.epoch {
        assert GetTime(s.startAt, e) <= GetTime(s.startAt, s.epoch);
        ClosingWeight(s, t, s.cursors[u], s.Balance(u), e);
      } else {
        NothingEarnedYet(t, s.cursors[u], s.Balance(u));
      }
    }
  }

  lemma RecordEpochKeeps(s: EpochState, net: int)
    requires Kept(s) && RecordEpoch(s, net).Ok?
    ensures Kept(RecordEpoch(s, net).value)
  {
    RecordEpochShape(s, net);
    ClosingKeeps(s, RecordEpoch(s, net).value);
  }

  /** Closing the open epoch now and opening the next. */
  lemma ClosingKeeps(s: EpochState, t: EpochState)
    requires Kept(s) && t.epoch == s.epoch + 1 && t.now == t.lastUpdate == s.now
    requires t.endAt == s.endAt[s.epoch := s.now] && t.startAt == s.startAt[s.epoch + 1 := s.now]
    requires t.balances == s.balances && t.cursors == s.cursors && t.weights == s.weights
    ensures Kept(t)
  {
    forall e: nat, f: nat | e <= f <= t.epoch ensures GetTime(t.startAt, e) <= GetTime(t.startAt, f) {
      if e <= s.epoch {
        assert GetTime(s.startAt, e) <= GetTime(s.startAt, s.epoch);
        assert f <= s.epoch ==> GetTime(s.startAt, e) <= GetTime(s.startAt, f);
      }
    }
    forall u: Address ensures SoundCursor(t, u) { assert SoundCursor(s, u); }
  }

  // ----- deposit and withdraw -----

  lemma CheckpointTotalKeeps(s: EpochState)
    requires Kept(s) && CheckpointTotal(s).Ok?
    ensures var t := CheckpointTotal(s).value;
            && SameEpochs(s, t) && Kept(t) && t.lastUpdate == s.now
            && t == s.(shareSeconds := t.shareSeconds, lastUpdate := s.now)
            && t.shareSeconds == s.shareSeconds + s.totalShares * (s.now - s.lastUpdate)
            && (forall u: Address, e: nat :: Virtual(t, u, e) == Virtual(s, u, e))
  {
    CheckpointTotalShape(s);
    SameEpochsKeep(s, CheckpointTotal(s).value);
  }

  lemma CheckpointTotalShape(s: EpochState)
    requires s.lastUpdate <= s.now && CheckpointTotal(s).Ok?
    ensures var t := CheckpointTotal(s).value;
            && t == s.(shareSeconds := t.shareSeconds, lastUpdate := s.now)
            && t.shareSeconds == s.shareSeconds + s.totalShares * (s.now - s.lastUpdate)
  {
  }

  lemma DepositShape(s: EpochState, caller: Address, amount: int)
    requires EpochModel.Deposit(s, caller, amount).Ok?
    ensures CheckpointTotal(s).Ok?
    ensures var counted := CheckpointTotal(s).value;
            CheckpointUser(counted, caller, s.Balance(caller)).Ok?
    ensures var settled := CheckpointUser(CheckpointTotal(s).value, caller, s.Balance(caller)).value;
            var (t, shares) := EpochModel.Deposit(s, caller, amount).value;
            && shares > 0 && amount > 0 && DepositShares(amount, s.totalShares, s.Pool()) == Ok(shares)
            && t == settled.(balances := s.balances[caller := s.Balance(caller) + shares],
                             totalShares := s.totalShares + shares, totalDeposited := s.totalDeposited + amount)
  {
  }

  lemma DepositVirtual(s: EpochState, caller: Address, amount: int)
    requires Kept(s) && EpochModel.Deposit(s, caller, amount).Ok?
    ensures var t := EpochModel.Deposit(s, caller, amount).value.0;
            && Kept(t) && t.epoch == s.epoch
            && (forall v: Address, e: nat | e <= s.epoch :: Virtual(t, v, e) == Virtual(s, v, e))
  {
    DepositShape(s, caller, amount);
    CheckpointTotalKeeps(s);
    var counted := CheckpointTotal(s).value;
    CheckpointUserVirtual(counted, caller);
    assert SoundCursor(s, caller);
    var t := EpochModel.Deposit(s, caller, amount).value.0;
    RebalanceVirtual(CheckpointUser(counted, caller, s.Balance(caller)).value, t, caller, t.Balance(caller));
  }

  lemma QuoteShape(s: EpochState, caller: Address, shares: int)
    requires Quote(s, caller, shares).Ok?
    ensures AssetsForShares(shares, s.Pool(), s.totalShares).Ok? && HarvestYield(s, caller, s.epoch).Ok?
    ensures s.Balance(caller) != 0
    ensures var (redeem, harvested) := Quote(s, caller, shares).value;
            && redeem == AssetsForShares(shares, s.Pool(), s.totalShares).value + harvested
            && harvested == TruncDiv(HarvestYield(s, caller, s.epoch).value * shares, s.Balance(caller))
  {
  }

  lemma PayShape(s: EpochState, caller: Address, shares: int, redeem: int, harvested: int)
    requires Pay(s, caller, shares, redeem, harvested).Ok?
    ensures ReduceWeights(s.weights, caller, s.Balance(caller) - shares, s.Balance(caller), s.epoch).Ok?
    ensures Pay(s, caller, shares, redeem, harvested).value
         == s.(weights := ReduceWeights(s.weights, caller, s.Balance(caller) - shares, s.Balance(caller),
                                         s.epoch).value,
               outstanding := s.outstanding - harvested, balances := s.balances[caller := s.Balance(caller) - shares],
               totalShares := s.totalShares - shares, totalDeposited := s.totalDeposited - redeem)
  {
  }

  /** The account checkpointed on the way into a withdrawal or deposit. */
  function Settled(s: EpochState, caller: Address): Result<EpochState> {
    var counted :- CheckpointTotal(s);
    CheckpointUser(counted, caller, s.Balance(caller))
  }

  lemma SettledShape(s: EpochState, caller: Address)
    requires Settled(s, caller).Ok?
    ensures CheckpointTotal(s).Ok?
    ensures var t := Settled(s, caller).value;
            && CheckpointUser(CheckpointTotal(s).value, caller, s.Balance(caller)) == Ok(t)
            && t == s.(weights := t.weights, cursors := s.cursors[caller := Cursor(s.now, s.epoch)],
                       shareSeconds := t.shareSeconds, lastUpdate := s.now)
  {
  }

  lemma WithdrawShape(s: EpochState, caller: Address, shares: int)
    requires EpochModel.Withdraw(s, caller, shares).Ok?
    ensures Settled(s, caller).Ok?
    ensures var b, settled := s.Balance(caller), Settled(s, caller).value;
            var (t, redeem) := EpochModel.Withdraw(s, caller, shares).value;
            && 0 < shares <= b
            && AssetsForShares(shares, s.Pool(), s.totalShares).Ok?
            && HarvestYield(settled, caller, s.epoch).Ok?
            && ReduceWeights(settled.weights, caller, b - shares, b, s.epoch).Ok?
            && var base := AssetsForShares(shares, s.Pool(), s.totalShares).value;
            && var harvested := TruncDiv(HarvestYield(settled, caller, s.epoch).value * shares, b);
            && redeem == base + harvested
            && t == settled.(weights := ReduceWeights(settled.weights, caller, b - shares, b, s.epoch).value,
                             outstanding := s.outstanding - harvested,
                             balances := s.balances[caller := b - shares],
                             totalShares := s.totalShares - shares, totalDeposited := s.totalDeposited - redeem)
  {
    WithdrawStages(s, caller, shares);
    var settled := Settled(s, caller).value;
    SettledShape(s, caller);
    QuoteShape(settled, caller, shares);
    var (redeem, harvested) := Quote(settled, caller, shares).value;
    PayShape(settled, caller, shares, redeem, harvested);
  }

  lemma WithdrawStages(s: EpochState, caller: Address, shares: int)
    requires EpochModel.Withdraw(s, caller, shares).Ok?
    ensures 0 < shares <= s.Balance(caller)
    ensures Settled(s, caller).Ok? && Quote(Settled(s, caller).value, caller, shares).Ok?
    ensures var settled := Settled(s, caller).value;
            var (redeem, harvested) := Quote(settled, caller, shares).value;
            && Pay(settled, caller, shares, redeem, harvested).Ok?
            && EpochModel.Withdraw(s, caller, shares).value
               == (Pay(settled, caller, shares, redeem, harvested).value, redeem)
  {
  }

  lemma WithdrawVirtual(s: EpochState, caller: Address, shares: int)
    requires Kept(s) && EpochModel.Withdraw(s, caller, shares).Ok?
    ensures s.Balance(caller) >= shares > 0
    ensures var t := EpochModel.Withdraw(s, caller, shares).value.0;
            && Kept(t) && t.epoch == s.epoch
            && (forall v: Address, e: nat | e <= s.epoch ::
                  Virtual(t, v, e) == if v == caller && e < s.epoch
                                      then Virtual(s, v, e) * (s.Balance(caller) - shares) / s.Balance(caller)
                                      else Virtual(s, v, e))
  {
    WithdrawShape(s, caller, shares);
    SettledShape(s, caller);
    CheckpointTotalKeeps(s);
    var b := s.Balance(caller);
    var counted := CheckpointTotal(s).value;
    CheckpointUserVirtual(counted, caller);
    var settled := CheckpointUser(counted, caller, b).value;
    assert SoundCursor(settled, caller);
    ReducedWeights(settled.weights, caller, b - shares, b, s.epoch);
    var t := EpochModel.Withdraw(s, caller, shares).value.0;
    var kept := (e: nat) => settled.Weight(caller, e) * (b - shares) / b;
    forall e: nat ensures kept(e) >= 0 {
      assert Get(settled.weights, (caller, e)) >= 0;
      KeptNonNegative(settled.Weight(caller, e), b - shares, b);
    }
    ReducedKeeps(settled, t, caller, b - shares, kept);
  }

  /** After the reduction loop, on an account just checkpointed: its closed weights are whatever was kept. */
  lemma ReducedKeeps(s: EpochState, t: EpochState, u: Address, remaining: int, kept: nat -> int)
    requires Kept(s) && 0 <= remaining
    requires u in s.cursors && s.cursors[u] == Cursor(s.now, s.epoch)
    requires t.balances == s.balances[u := remaining]
    requires t.epoch == s.epoch && t.startAt == s.startAt && t.endAt == s.endAt && t.now == s.now
    requires t.cursors == s.cursors && t.lastUpdate == s.lastUpdate
    requires forall e: nat :: kept(e) >= 0
    requires forall v: Address, e: nat ::
               Get(t.weights, (v, e)) == if v == u && e < s.epoch then kept(e) else Get(s.weights, (v, e))
    ensures Kept(t)
    ensures forall v: Address, e: nat | e <= s.epoch ::
              Virtual(t, v, e) == if v == u && e < s.epoch then kept(e) else Virtual(s, v, e)
  {
    forall v: Address ensures SoundCursor(t, v) {
      assert SoundCursor(s, v);
      SameWeightsStaySound(s, t, v, u, kept);
    }
    forall v: Address, e: nat | e <= s.epoch
      ensures Virtual(t, v, e) == if v == u && e < s.epoch then kept(e) else Virtual(s, v, e)
    {
      assert t.Weight(v, e) == if v == u && e < s.epoch then kept(e) else s.Weight(v, e);
      if v == u {
        assert Unrecorded(s, u, e) == 0 && Unrecorded(t, u, e) == 0;
      } else {
        assert Unrecorded(t, v, e) == Unrecorded(s, v, e);
      }
    }
  }

  lemma SameWeightsStaySound(s: EpochState, t: EpochState, v: Address, u: Address, kept: nat -> int)
    requires SoundWeights(s.weights, v, s.epoch)
    requires forall e: nat :: kept(e) >= 0
    requires forall v: Address, e: nat ::
               Get(t.weights, (v, e)) == if v == u && e < s.epoch then kept(e) else Get(s.weights, (v, e))
    ensures SoundWeights(t.weights, v, s.epoch)
  {
    forall e: nat ensures Get(t.weights, (v, e)) >= 0 && (e > s.epoch ==> Get(t.weights, (v, e)) == 0) {
      assert Get(s.weights, (v, e)) >= 0;
    }
  }

  lemma KeptNonNegative(weight: int, remaining: int, prior: int)
    requires weight >= 0 && remaining >= 0 && prior > 0
    ensures weight * remaining / prior >= 0
  {
    MulMono(0, remaining, weight);
    FloorNonNegative(weight * remaining, prior);
  }

  // ----- lazy equals eager, over every run -----

  ghost predicate Agrees(s: EpochState, h: Eager) {
    forall u: Address, e: nat | e <= s.epoch :: Virtual(s, u, e) == h(u, e)
  }

  /** The eager book has no entries for epochs that have not opened. */
  ghost predicate NothingAhead(s: EpochState, h: Eager) {
    forall u: Address, e: nat | e > s.epoch :: h(u, e) == 0
  }

  lemma AdvanceAgrees(s: EpochState, h: Eager, seconds: nat)
    requires Kept(s) && Agrees(s, h) && NothingAhead(s, h)
    ensures var t := EpochModel.Advance(s, seconds);
            var h' := EagerStep(h, s, Advance(seconds));
            Kept(t) && Agrees(t, h') && NothingAhead(t, h')
  {
    AdvanceKeeps(s, seconds);
    var h' := EagerStep(h, s, Advance(seconds));
    forall u: Address, e: nat | e <= s.epoch ensures Virtual(EpochModel.Advance(s, seconds), u, e) == h'(u, e) {
      AdvanceVirtual(s, seconds, u, e);
    }
  }

  lemma WithdrawAgrees(s: EpochState, h: Eager, caller: Address, shares: int)
    requires Kept(s) && Agrees(s, h) && NothingAhead(s, h)
    requires EpochModel.Withdraw(s, caller, shares).Ok?
    ensures var t := EpochModel.Withdraw(s, caller, shares).value.0;
            var h' := EagerStep(h, s, Withdraw(caller, shares));
            Kept(t) && Agrees(t, h') && NothingAhead(t, h')
  {
    WithdrawVirtual(s, caller, shares);
    EagerWithdraws(s, h, caller, shares);
    WithdrawEager(s, h, EpochModel.Withdraw(s, caller, shares).value.0, EagerStep(h, s, Withdraw(caller, shares)),
                  caller, s.Balance(caller) - shares, s.Balance(caller));
  }

  lemma EagerWithdraws(s: EpochState, h: Eager, caller: Address, shares: int)
    requires EpochModel.Withdraw(s, caller, shares).Ok? && s.Balance(caller) > 0
    ensures forall v: Address, e: nat ::
              EagerStep(h, s, Withdraw(caller, shares))(v, e)
              == if v == caller && e < s.epoch then h(v, e) * (s.Balance(caller) - shares) / s.Balance(caller)
                else h(v, e)
  {
  }

  lemma WithdrawEager(s: EpochState, h: Eager, t: EpochState, h': Eager, caller: Address, remaining: int, prior: int)
    requires Agrees(s, h) && NothingAhead(s, h) && prior > 0 && t.epoch == s.epoch
    requires forall v: Address, e: nat | e <= s.epoch ::
               Virtual(t, v, e) == if v == caller && e < s.epoch then Virtual(s, v, e) * remaining / prior
                 else Virtual(s, v, e)
    requires forall v: Address, e: nat ::
               h'(v, e) == if v == caller && e < s.epoch then h(v, e) * remaining / prior else h(v, e)
    ensures Agrees(t, h') && NothingAhead(t, h')
  {
  }

  lemma StepAgrees(s: EpochState, h: Eager, a: Action)
    requires Kept(s) && Agrees(s, h) && NothingAhead(s, h)
    ensures Kept(Step(s, a)) && Agrees(Step(s, a), EagerStep(h, s, a)) && NothingAhead(Step(s, a), EagerStep(h, s, a))
  {
    match a
    case Advance(seconds) =>
      AdvanceAgrees(s, h, seconds);
    case Deposit(caller, amount) =>
      if EpochModel.Deposit(s, caller, amount).Ok? { DepositVirtual(s, caller, amount); }
    case Withdraw(caller, shares) =>
      if EpochModel.Withdraw(s, caller, shares).Ok? { WithdrawAgrees(s, h, caller, shares); }
    case Harvest(amount) =>
      if EpochModel.Harvest(s, amount).Ok? { HarvestAgrees(s, h, amount); }
  }

  lemma HarvestShape(s: EpochState, amount: int)
    requires EpochModel.Harvest(s, amount).Ok?
    ensures var (t, net) := EpochModel.Harvest(s, amount).value;
            && amount >= net >= 0 && s.totalShares != 0
            && RecordEpoch(s, net).Ok?
            && t == RecordEpoch(s, net).value.(totalDeposited := s.totalDeposited + net)
  {
    Accounts.PerfFeeBounds(amount, s.perfFeeBps);
  }

  lemma HarvestVirtual(s: EpochState, amount: int, u: Address, e: nat)
    requires Kept(s) && EpochModel.Harvest(s, amount).Ok? && e <= s.epoch + 1
    ensures Virtual(EpochModel.Harvest(s, amount).value.0, u, e)
         == if e == s.epoch + 1 then 0
            else if e == s.epoch && s.StartAt(e) == s.now then s.Balance(u)
            else Virtual(s, u, e)
  {
    HarvestShape(s, amount);
    var net := EpochModel.Harvest(s, amount).value.1;
    RecordEpochVirtual(s, net, u, e);
    RecordEpochKeeps(s, net);
    SameEpochsKeep(RecordEpoch(s, net).value, EpochModel.Harvest(s, amount).value.0);
  }

  lemma HarvestAgrees(s: EpochState, h: Eager, amount: int)
    requires Kept(s) && Agrees(s, h) && NothingAhead(s, h)
    requires EpochModel.Harvest(s, amount).Ok?
    ensures var t := EpochModel.Harvest(s, amount).value.0;
            var h' := EagerStep(h, s, Harvest(amount));
            Kept(t) && Agrees(t, h') && NothingAhead(t, h')
  {
    HarvestShape(s, amount);
    var (t, net) := EpochModel.Harvest(s, amount).value;
    RecordEpochKeeps(s, net);
    SameEpochsKeep(RecordEpoch(s, net).value, t);
    var h' := EagerStep(h, s, Harvest(amount));
    forall u: Address, e: nat | e <= t.epoch ensures Virtual(t, u, e) == h'(u, e) {
      HarvestVirtual(s, amount, u, e);
    }
  }

  lemma {:induction false} RunAgrees(s: EpochState, perfFeeBps: nat, now: nat, actions: seq<Action>)
    requires s == Initial(perfFeeBps, now)
    ensures Kept(Run(s, actions)) && Agrees(Run(s, actions), EagerRun(s, actions))
    ensures NothingAhead(Run(s, actions), EagerRun(s, actions))
  {
    if actions != [] {
      RunAgrees(s, perfFeeBps, now, actions[..|actions| - 1]);
      StepAgrees(Run(s, actions[..|actions| - 1]), EagerRun(s, actions[..|actions| - 1]), actions[|actions| - 1]);
    }
  }

  /**
   The refinement: after any run, for every account and every epoch so far, recorded plus unrecorded
   share-seconds are the eager ones; and checkpointing an account then records exactly the eager weight
   of every closed epoch.
   */
  lemma LazyEqualsEager(perfFeeBps: nat, now: nat, actions: seq<Action>, u: Address)
    ensures var s := Run(Initial(perfFeeBps, now), actions);
            var h := EagerRun(Initial(perfFeeBps, now), actions);
            && (forall e: nat | e <= s.epoch :: Virtual(s, u, e) == h(u, e))
            && (CheckpointUser(s, u, s.Balance(u)).Ok? ==>
                  forall e: nat | e < s.epoch :: CheckpointUser(s, u, s.Balance(u)).value.Weight(u, e) == h(u, e))
  {
    var s := Run(Initial(perfFeeBps, now), actions);
    RunAgrees(Initial(perfFeeBps, now), perfFeeBps, now, actions);
    if CheckpointUser(s, u, s.Balance(u)).Ok? {
      CheckpointUserVirtual(s, u);
    }
  }
}

/** The repository's own worked example of a mid-epoch deposit, followed step by step through the model. */
module EpochScenario {
  import opened Core
  import opened EpochModel
  import R = EpochRuns
  import VaultModel

  const ALICE := Address(1)
  const BOB := Address(2)

  /** Alice deposits at 0, Bob at 100, 2000 is harvested at 200. */
  const MID_EPOCH: seq<R.Action> :=
    [R.Deposit(ALICE, 1_000), R.Advance(100), R.Deposit(BOB, 1_000), R.Advance(100), R.Harvest(2_000)]

  lemma Harvested() returns (s: EpochState)
    ensures s == R.Run(Initial(0, 0), MID_EPOCH)
    ensures s.epoch == 1 && s.now == 200 && s.totalShares == 2_000 && s.totalDeposited == 4_000
              && s.outstanding == 2_000
    ensures s.balances == map[ALICE := 1_000, BOB := 1_000]
    ensures s.startAt == map[0 := 0, 1 := 200] && s.endAt == map[0 := 200]
    ensures s.epochTotal == map[0 := 300_000] && s.epochYield == map[0 := 2_000]
    ensures s.cursors == map[ALICE := Cursor(0, 0), BOB := Cursor(100, 0)] && s.weights == map[]
    ensures s.lastUpdate == 200 && s.shareSeconds == 0
  {
    var s0 := Initial(0, 0);
    s := FirstDeposit(s0);
    var run := Extend([], R.Deposit(ALICE, 1_000), s0, s);
    run := Extend(run, R.Advance(100), s, Advance(s, 100));
    s := Advance(s, 100);
    var t := SecondDeposit(s);
    run := Extend(run, R.Deposit(BOB, 1_000), s, t);
    run := Extend(run, R.Advance(100), t, Advance(t, 100));
    s := Advance(t, 100);
    t := HarvestAt200(s);
    run := Extend(run, R.Harvest(2_000), s, t);
    assert run == MID_EPOCH;
    s := t;
  }

  /** One more call on a run that has reached `s`. */
  lemma Extend(run: seq<R.Action>, a: R.Action, s: EpochState, t: EpochState) returns (longer: seq<R.Action>)
    requires s == R.Run(Initial(0, 0), run) && t == R.Step(s, a)
    ensures longer == run + [a] && t == R.Run(Initial(0, 0), longer)
  {
    longer := run + [a];
    R.RunOne(Initial(0, 0), run, a);
  }

  lemma HarvestAt200(s: EpochState) returns (t: EpochState)
    requires s.epoch == 0 && s.now == 200 && s.lastUpdate == 100 && s.shareSeconds == 100_000 && s.outstanding == 0
    requires s.totalShares == 2_000 && s.totalDeposited == 2_000 && s.perfFeeBps == 0
    requires s.startAt == map[0 := 0] && s.endAt == map[] && s.epochTotal == map[] && s.epochYield == map[]
    ensures Harvest(s, 2_000) == Ok((t, 2_000))
    ensures t == s.(totalDeposited := 4_000, outstanding := 2_000, epoch := 1, startAt := map[0 := 0, 1 := 200],
                    endAt := map[0 := 200], epochTotal := map[0 := 300_000], epochYield := map[0 := 2_000],
                    shareSeconds := 0, lastUpdate := 200)
  {
    var counted := s.(shareSeconds := 300_000, lastUpdate := 200);
    assert CheckpointTotal(s) == Ok(counted);
    var closed := s.(outstanding := 2_000, epoch := 1, startAt := map[0 := 0, 1 := 200],
                     endAt := map[0 := 200], epochTotal := map[0 := 300_000], epochYield := map[0 := 2_000],
                     shareSeconds := 0, lastUpdate := 200);
    assert RecordEpoch(s, 2_000) == Ok(closed);
    assert VaultModel.PerfFee(2_000, 0) == Ok(0);
    t := closed.(totalDeposited := 4_000);
  }

  lemma FirstDeposit(s: EpochState) returns (t: EpochState)
    requires s == Initial(0, 0)
    ensures Deposit(s, ALICE, 1_000) == Ok((t, 1_000))
    ensures t == s.(balances := map[ALICE := 1_000], totalShares := 1_000, totalDeposited := 1_000,
                    cursors := map[ALICE := Cursor(0, 0)])
  {
    assert RecordWeights(s, ALICE, Cursor(0, 0), 0, 0) == Ok(map[]);
    assert RecordWeights(s, ALICE, Cursor(0, 0), 0, 1) == Ok(map[]);
    t := Deposit(s, ALICE, 1_000).value.0;
  }

  lemma SecondDeposit(s: EpochState) returns (t: EpochState)
    requires s == Initial(0, 0).(balances := map[ALICE := 1_000], totalShares := 1_000, totalDeposited := 1_000,
                                 cursors := map[ALICE := Cursor(0, 0)], now := 100)
    ensures Deposit(s, BOB, 1_000) == Ok((t, 1_000))
    ensures t == s.(balances := map[ALICE := 1_000, BOB := 1_000], totalShares := 2_000, totalDeposited := 2_000,
                    cursors := map[ALICE := Cursor(0, 0), BOB := Cursor(100, 0)],
                    shareSeconds := 100_000, lastUpdate := 100)
  {
    var counted := s.(shareSeconds := 100_000, lastUpdate := 100);
    assert CheckpointTotal(s) == Ok(counted);
    assert RecordWeights(counted, BOB, Cursor(100, 0), 0, 0) == Ok(map[]);
    assert RecordWeights(counted, BOB, Cursor(100, 0), 0, 1) == Ok(map[]);
    t := Deposit(s, BOB, 1_000).value.0;
  }

  /** Bob, who held for half the epoch, redeems 1666 of the 4000; Alice, who held throughout, 2333. */
  lemma MidEpochDepositScenario() returns (s: EpochState, afterBob: EpochState)
    ensures s == R.Run(Initial(0, 0), MID_EPOCH)
    ensures Withdraw(s, BOB, 1_000) == Ok((afterBob, 1_666))
    ensures Withdraw(afterBob, ALICE, 1_000).Ok? && Withdraw(afterBob, ALICE, 1_000).value.1 == 2_333
  {
    s := Harvested();
    assert CheckpointTotal(s) == Ok(s);
    var c := Cursor(100, 0);
    assert EpochWeight(s, c, 1_000, 0) == 100_000 && EpochWeight(s, c, 1_000, 1) == 0;
    var w1 := map[(BOB, 0) := 100_000];
    assert RecordWeights(s, BOB, c, 1_000, 0) == Ok(map[]);
    assert RecordOne(s, map[], BOB, c, 1_000, 0) == Ok(w1);
    assert RecordWeights(s, BOB, c, 1_000, 1) == Ok(w1);
    assert RecordWeights(s, BOB, c, 1_000, 2) == Ok(w1);
    var settled := s.(weights := w1, cursors := s.cursors[BOB := Cursor(200, 1)]);
    assert CheckpointUser(s, BOB, 1_000) == Ok(settled);
    assert HarvestYield(settled, BOB, 0) == Ok(0);
    assert HarvestYield(settled, BOB, 1) == Ok(666);
    assert Quote(settled, BOB, 1_000) == Ok((1_666, 666));
    var w2 := map[(BOB, 0) := 0];
    assert ReduceWeights(w1, BOB, 0, 1_000, 0) == Ok(w1) && w1[(BOB, 0) := 0] == w2;
    assert ReduceWeights(w1, BOB, 0, 1_000, 1) == Ok(w2);
    afterBob := Withdraw(s, BOB, 1_000).value.0;
    AliceLeaves(afterBob);
  }

  lemma AliceLeaves(s: EpochState)
    requires s.epoch == 1 && s.now == 200 && s.totalShares == 1_000 && s.totalDeposited == 2_334
               && s.outstanding == 1_334
    requires s.Balance(ALICE) == 1_000
    requires s.startAt == map[0 := 0, 1 := 200] && s.endAt == map[0 := 200]
    requires s.epochTotal == map[0 := 300_000] && s.epochYield == map[0 := 2_000]
    requires ALICE in s.cursors && s.cursors[ALICE] == Cursor(0, 0) && s.weights == map[(BOB, 0) := 0]
    requires s.lastUpdate == 200 && s.shareSeconds == 0
    ensures Withdraw(s, ALICE, 1_000).Ok? && Withdraw(s, ALICE, 1_000).value.1 == 2_333
  {
    assert CheckpointTotal(s) == Ok(s);
    var c := Cursor(0, 0);
    assert EpochWeight(s, c, 1_000, 0) == 200_000 && EpochWeight(s, c, 1_000, 1) == 0;
    var w1 := s.weights[(ALICE, 0) := 200_000];
    assert RecordWeights(s, ALICE, c, 1_000, 0) == Ok(s.weights);
    assert RecordOne(s, s.weights, ALICE, c, 1_000, 0) == Ok(w1);
    assert RecordWeights(s, ALICE, c, 1_000, 1) == Ok(w1);
    assert RecordWeights(s, ALICE, c, 1_000, 2) == Ok(w1);
    var settled := s.(weights := w1, cursors := s.cursors[ALICE := Cursor(200, 1)]);
    assert CheckpointUser(s, ALICE, 1_000) == Ok(settled);
    assert HarvestYield(settled, ALICE, 0) == Ok(0);
    assert HarvestYield(settled, ALICE, 1) == Ok(1_333);
    assert Quote(settled, ALICE, 1_000) == Ok((2_333, 1_333));
    assert ReduceWeights(w1, ALICE, 0, 1_000, 0) == Ok(w1);
    assert ReduceWeights(w1, ALICE, 0, 1_000, 1) == Ok(w1[(ALICE, 0) := 0]);
  }
}

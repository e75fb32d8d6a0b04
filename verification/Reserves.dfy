/**
 Where the vault's tokens are, over whole runs: every token held is a tracked deposit, an uncollected
 fee or a queued redemption; queue entries are created once, honoured once and never early.
 */
module Reserves {
  import opened Core
  import opened Arith
  import opened Sums
  import opened VaultModel
  import opened VaultRuns
  import Accounts
  import Batch

  function Owed(queue: map<nat, QueueEntry>, id: nat): int {
    if id in queue then queue[id].redeemAmount else 0
  }

  /** The sum of all queued redemptions. */
  ghost function QueuedTotal(queue: map<nat, QueueEntry>): int {
    Sum(queue.Keys, id => Owed(queue, id))
  }

  ghost predicate Reserved(s: VaultState) {
    s.tokenBalance == s.totalDeposited + s.fees + QueuedTotal(s.queue)
  }

  /** The queue as the run saw it: unclaimed entries, as they were queued, under ids already issued. */
  predicate QueueTracked(w: World) {
    var s, h := w.state, w.history;
    && s.fees >= 0
    && s.nextId >= 1
    && s.queue.Keys !! h.claimed
    && s.queue.Keys + h.claimed == h.enqueued.Keys
    && (forall id | id in h.enqueued.Keys :: 1 <= id < s.nextId)
    && (forall id | id in s.queue :: s.queue[id] == h.enqueued[id] && 0 < s.queue[id].redeemAmount <= I128_MAX)
  }

  // ----- the queue total under insertion and removal -----

  lemma Enqueue(queue: map<nat, QueueEntry>, id: nat, entry: QueueEntry)
    requires id !in queue
    ensures QueuedTotal(queue[id := entry]) == QueuedTotal(queue) + entry.redeemAmount
  {
    var longer := queue[id := entry];
    SumRemove(longer.Keys, i => Owed(longer, i), id);
    assert longer.Keys - {id} == queue.Keys;
    SumCongruent(queue.Keys, i => Owed(queue, i), i => Owed(longer, i));
  }

  lemma Dequeue(queue: map<nat, QueueEntry>, id: nat)
    requires id in queue
    ensures QueuedTotal(queue - {id}) == QueuedTotal(queue) - queue[id].redeemAmount
  {
    var shorter := queue - {id};
    assert shorter[id := queue[id]] == queue;
    Enqueue(shorter, id, queue[id]);
  }

  /** With positive entries, nothing is owed exactly when nothing is queued. */
  lemma NothingOwed(queue: map<nat, QueueEntry>)
    requires forall id | id in queue :: queue[id].redeemAmount > 0
    ensures QueuedTotal(queue) >= 0
    ensures QueuedTotal(queue) == 0 <==> queue == map[]
  {
    SumConstant(queue.Keys, (i: nat) => 0, 0);
    SumMonotone(queue.Keys, (i: nat) => 0, i => Owed(queue, i));
    if queue != map[] {
      var id :| id in queue;
      SumMember(queue.Keys, i => Owed(queue, i), id);
    } else {
      assert queue.Keys == {};
    }
  }

  // ----- calls that move tokens and leave the queue alone -----

  /** Tokens, tracked deposits and fees move together. */
  predicate Balanced(s: VaultState, t: VaultState) {
    && t.tokenBalance - s.tokenBalance == (t.totalDeposited - s.totalDeposited) + (t.fees - s.fees)
    && t.queue == s.queue && t.nextId == s.nextId
    && (s.fees >= 0 ==> t.fees >= 0)
  }

  lemma {:induction false} TotalAmountPositive(recipients: seq<(Address, int)>)
    requires TotalAmount(recipients).Ok?
    ensures TotalAmount(recipients).value >= |recipients|
  {
    if recipients != [] {
      TotalAmountPositive(recipients[..|recipients| - 1]);
    }
  }

  lemma {:induction false} MintManyTotals(s: VaultState, recipients: seq<(Address, int)>)
    requires MintMany(s, recipients).Ok? && TotalAmount(recipients).Ok?
    ensures var (t, shares) := MintMany(s, recipients).value;
            && t.totalDeposited == s.totalDeposited + TotalAmount(recipients).value
            && |shares| == |recipients|
            && t == s.(balances := t.balances, checkpoints := t.checkpoints, pending := t.pending,
                       totalShares := t.totalShares, totalDeposited := t.totalDeposited)
  {
    if recipients != [] {
      MintManyTotals(s, recipients[..|recipients| - 1]);
    }
  }

  lemma DepositsBalance(s: VaultState, a: Action)
    requires Accounts.IsMinting(a)
    ensures Balanced(s, Step(s, a).0)
  {
    match a
    case Deposit(caller, amount) => DepositBalances(s, caller, amount);
    case DepositForMany(_, recipients) => DepositForManyBalances(s, recipients);
    case BatchDeposit(caller, amounts) => BatchDepositBalances(s, caller, amounts);
  }

  lemma DepositBalances(s: VaultState, caller: Address, amount: int)
    ensures VaultModel.Deposit(s, caller, amount).Ok? ==>
              Balanced(s, VaultModel.Deposit(s, caller, amount).value.0)
  {
  }

  lemma DepositForManyBalances(s: VaultState, recipients: seq<(Address, int)>)
    ensures VaultModel.DepositForMany(s, recipients).Ok? ==>
              Balanced(s, VaultModel.DepositForMany(s, recipients).value.0)
  {
    if VaultModel.DepositForMany(s, recipients).Ok? {
      MintManyTotals(ReceiveIn(s, TotalAmount(recipients).value), recipients);
    }
  }

  lemma BatchDepositBalances(s: VaultState, caller: Address, amounts: seq<int>)
    ensures VaultModel.BatchDeposit(s, caller, amounts).Ok? ==>
              Balanced(s, VaultModel.BatchDeposit(s, caller, amounts).value.0)
  {
    if VaultModel.BatchDeposit(s, caller, amounts).Ok? {
      Batch.DepositTotals(s.totalDeposited, s.totalShares, amounts, s.config.minDeposit);
    }
  }

  lemma ExitsBalance(s: VaultState, a: Action)
    requires a.EmergencyWithdraw? || a.BatchWithdraw? || a.Collect? || a.WithdrawFees?
    ensures Balanced(s, Step(s, a).0)
  {
    match a
    case EmergencyWithdraw(caller, shares) => EmergencyBalances(s, caller, shares);
    case BatchWithdraw(caller, amounts) => BatchWithdrawBalances(s, caller, amounts);
    case Collect(caller) => CollectBalances(s, caller);
    case WithdrawFees =>
  }

  lemma EmergencyBalances(s: VaultState, caller: Address, shares: int)
    ensures VaultModel.EmergencyWithdraw(s, caller, shares).Ok? ==>
              Balanced(s, VaultModel.EmergencyWithdraw(s, caller, shares).value.0)
  {
  }

  lemma BatchWithdrawBalances(s: VaultState, caller: Address, amounts: seq<int>)
    ensures VaultModel.BatchWithdraw(s, caller, amounts).Ok? ==>
              Balanced(s, VaultModel.BatchWithdraw(s, caller, amounts).value.0)
  {
    if VaultModel.BatchWithdraw(s, caller, amounts).Ok? {
      Batch.WithdrawTotals(s.totalDeposited, s.totalShares, amounts, s.Balance(caller));
    }
  }

  lemma CollectBalances(s: VaultState, caller: Address)
    ensures VaultModel.Collect(s, caller).Ok? ==>
              Balanced(s, VaultModel.Collect(s, caller).value.0)
  {
  }

  lemma HarvestBalances(s: VaultState, amount: int)
    ensures VaultModel.Harvest(s, amount).Ok? ==>
              Balanced(s, VaultModel.Harvest(s, amount).value.0)
  {
    if VaultModel.Harvest(s, amount).Ok? {
      Accounts.PerfFeeBounds(amount, s.config.perfFeeBps);
    }
  }

  lemma DistributeBalances(s: VaultState, amount: int)
    ensures VaultModel.Distribute(s, amount).Ok? ==>
              Balanced(s, VaultModel.Distribute(s, amount).value.0)
  {
    if VaultModel.Distribute(s, amount).Ok? {
      Accounts.PerfFeeBounds(amount, s.config.perfFeeBps);
    }
  }

  lemma TransferBalances(s: VaultState, from: Address, to: Address, amount: int)
    ensures VaultModel.Transfer(s, from, to, amount).Ok? ==>
              Balanced(s, VaultModel.Transfer(s, from, to, amount).value.0)
  {
  }

  predicate TouchesQueue(a: Action) { a.Withdraw? || a.Claim? }

  lemma OtherCallsBalance(s: VaultState, a: Action)
    requires !TouchesQueue(a)
    ensures Balanced(s, Step(s, a).0)
  {
    if Accounts.IsMinting(a) {
      DepositsBalance(s, a);
    } else if a.EmergencyWithdraw? || a.BatchWithdraw? || a.Collect? || a.WithdrawFees? {
      ExitsBalance(s, a);
    } else {
      match a
      case Harvest(_, amount) => HarvestBalances(s, amount);
      case Distribute(_, amount) => DistributeBalances(s, amount);
      case Transfer(from, to, amount) => TransferBalances(s, from, to, amount);
      case SetVestingPeriod(_) =>
      case Configure(_) =>
      case SetPaused(_) =>
      case Advance(_, _) =>
    }
  }

  // ----- the two calls that move the queue -----

  lemma WithdrawKeepsReserves(w: World, a: Action)
    requires a.Withdraw?
    requires Reserved(w.state) && QueueTracked(w)
    ensures Reserved(Next(w, a).state) && QueueTracked(Next(w, a))
    ensures Step(w.state, a).1.Enqueued? ==> Step(w.state, a).1.id !in w.history.enqueued
  {
    var s := w.state;
    WithdrawShape(s, a.caller, a.shares);
    if VaultModel.Withdraw(s, a.caller, a.shares).Ok? {
      var (t, payout) := VaultModel.Withdraw(s, a.caller, a.shares).value;
      if payout.Queued? {
        assert s.nextId !in w.history.enqueued.Keys;
        Enqueue(s.queue, s.nextId, t.queue[s.nextId]);
      }
    }
  }

  /** What a successful withdrawal does to tokens, deposits and the queue. */
  lemma WithdrawShape(s: VaultState, caller: Address, shares: int)
    ensures VaultModel.Withdraw(s, caller, shares).Ok? ==>
              var (t, payout) := VaultModel.Withdraw(s, caller, shares).value;
              && payout.amount > 0
              && t.fees == s.fees && t.totalDeposited == s.totalDeposited - payout.amount
              && (payout.Queued? <==> 0 < s.config.queueThreshold <= payout.amount)
              && (payout.Paid? ==>
                    t.tokenBalance == s.tokenBalance - payout.amount && t.queue == s.queue && t.nextId == s.nextId)
              && (payout.Queued? ==>
                    && t.tokenBalance == s.tokenBalance && payout.id == s.nextId && t.nextId == s.nextId + 1
                    && t.queue == s.queue[s.nextId := QueueEntry(caller, shares, payout.amount,
                                                                 SaturatingAddU64(s.now, s.config.unbondingSecs))])
  {
  }

  lemma ClaimShape(s: VaultState, caller: Address, id: nat)
    requires VaultModel.Claim(s, caller, id).Ok?
    requires id in s.queue ==> s.queue[id].redeemAmount > 0
    ensures var (t, net) := VaultModel.Claim(s, caller, id).value;
            && id in s.queue && s.queue[id].owner == caller && s.now >= s.queue[id].claimableAfter
            && t.queue == s.queue - {id} && t.nextId == s.nextId && t.totalDeposited == s.totalDeposited
            && t.tokenBalance == s.tokenBalance - net && t.fees >= s.fees
            && 0 < net && net + (t.fees - s.fees) == s.queue[id].redeemAmount
            && t.fees - s.fees == s.queue[id].redeemAmount * s.config.withdrawalFeeBps / BASIS_POINTS
  {
    var amount := s.queue[id].redeemAmount;
    var scaled := amount * s.config.withdrawalFeeBps;
    MulMono(0, s.config.withdrawalFeeBps, amount);
    FloorNonNegative(scaled, BASIS_POINTS);
    if s.config.withdrawalFeeBps == 0 {
      FloorUnique(scaled, BASIS_POINTS, 0);
    }
  }

  lemma ClaimKeepsReserves(w: World, a: Action)
    requires a.Claim?
    requires Reserved(w.state) && QueueTracked(w)
    ensures Reserved(Next(w, a).state) && QueueTracked(Next(w, a))
  {
    var s := w.state;
    if VaultModel.Claim(s, a.caller, a.id).Ok? {
      ClaimShape(s, a.caller, a.id);
      Dequeue(s.queue, a.id);
    }
  }

  // ----- runs -----

  lemma QuietQueueHistory(w: World, a: Action)
    requires !TouchesQueue(a)
    ensures Next(w, a).history.enqueued == w.history.enqueued && Next(w, a).history.claimed == w.history.claimed
  {
  }

  lemma StepKeepsReserves(w: World, a: Action)
    requires Reserved(w.state) && QueueTracked(w)
    ensures Reserved(Next(w, a).state) && QueueTracked(Next(w, a))
  {
    if a.Withdraw? {
      WithdrawKeepsReserves(w, a);
    } else if a.Claim? {
      ClaimKeepsReserves(w, a);
    } else {
      OtherCallsBalance(w.state, a);
      QuietQueueHistory(w, a);
    }
  }

  lemma {:induction false} RunKeepsReserves(w: World, actions: seq<Action>)
    requires Reserved(w.state) && QueueTracked(w)
    ensures Reserved(Run(w, actions).state) && QueueTracked(Run(w, actions))
  {
    if actions != [] {
      RunKeepsReserves(w, actions[..|actions| - 1]);
      StepKeepsReserves(Run(w, actions[..|actions| - 1]), actions[|actions| - 1]);
    }
  }

  /**
   The reserve identity: after every run, the tokens held are exactly the tracked deposits, the
   uncollected fees and the queued redemptions.
   */
  lemma ReserveIdentity(config: Config, ledger: nat, now: nat, actions: seq<Action>)
    ensures var w := Run(World(Initial(config, ledger, now), NOTHING), actions);
            && w.state.tokenBalance == w.state.totalDeposited + w.state.fees + QueuedTotal(w.state.queue)
            && QueueTracked(w)
  {
    var w := World(Initial(config, ledger, now), NOTHING);
    assert QueuedTotal(map[]) == 0 by { NothingOwed(map[]); }
    RunKeepsReserves(w, actions);
  }

  /**
   The balance guards, read through the reserve identity: the strict guard refuses exactly while a
   fee is uncollected or a withdrawal is queued, the managed guard exactly while one is queued.
   */
  lemma GuardsPassExactlyWhen(config: Config, ledger: nat, now: nat, actions: seq<Action>)
    ensures var s := Run(World(Initial(config, ledger, now), NOTHING), actions).state;
            && (ExactBalanceGuard(s).Pass? <==> s.fees == 0 && s.queue == map[])
            && (IsI128(s.totalDeposited + s.fees) ==> (ManagedBalanceGuard(s).Ok? <==> s.queue == map[]))
  {
    ReserveIdentity(config, ledger, now, actions);
    NothingOwed(Run(World(Initial(config, ledger, now), NOTHING), actions).state.queue);
  }

  /**
   Whatever a run has done so far, the next queued withdrawal gets an id never issued before, and
   the next claim is of an entry queued earlier in the run, unclaimed, by its owner, no earlier than
   its due time, for the queued amount less exactly the withdrawal fee.
   */
  lemma QueueHonoursEntriesOnce(config: Config, ledger: nat, now: nat, actions: seq<Action>, a: Action)
    ensures var w := Run(World(Initial(config, ledger, now), NOTHING), actions);
            var (t, o) := Step(w.state, a);
            && (o.Enqueued? ==> o.id !in w.history.enqueued)
            && (o.Claimed? ==>
                  && a.Claim? && o.id == a.id && o.id in w.history.enqueued && o.id !in w.history.claimed
                  && w.history.enqueued[o.id].owner == a.caller
                  && w.history.enqueued[o.id].claimableAfter <= w.state.now
                  && o.net + (t.fees - w.state.fees) == w.history.enqueued[o.id].redeemAmount)
  {
    ReserveIdentity(config, ledger, now, actions);
    var w := Run(World(Initial(config, ledger, now), NOTHING), actions);
    if a.Withdraw? {
      WithdrawKeepsReserves(w, a);
    } else if a.Claim? {
      if VaultModel.Claim(w.state, a.caller, a.id).Ok? {
        ClaimShape(w.state, a.caller, a.id);
      }
    } else {
      OtherOutcomes(w.state, a);
    }
  }

  lemma OtherOutcomes(s: VaultState, a: Action)
    requires !TouchesQueue(a)
    ensures !Step(s, a).1.Enqueued? && !Step(s, a).1.Claimed?
  {
  }
}

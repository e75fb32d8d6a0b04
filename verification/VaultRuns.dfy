/**
 Runs of the vault: any sequence of calls and ledger closings, in any order, failed calls included.
 Beside the contract's own cells a run keeps a history of what actually happened; the run theorems
 compare the two.
 */
module VaultRuns {
  import opened Core
  import opened VaultModel
  import Batch

  datatype Action =
    | Deposit(caller: Address, amount: int)
    | DepositForMany(caller: Address, recipients: seq<(Address, int)>)
    | BatchDeposit(caller: Address, amounts: seq<int>)
    | Withdraw(caller: Address, shares: int)
    | EmergencyWithdraw(caller: Address, shares: int)
    | BatchWithdraw(caller: Address, amounts: seq<int>)
    | Claim(caller: Address, id: nat)
    | Harvest(caller: Address, amount: int)
    | Distribute(caller: Address, amount: int)
    | Collect(caller: Address)
    | Transfer(caller: Address, to: Address, amount: int)
    | WithdrawFees
    | SetVestingPeriod(ledgers: nat)
    | Configure(config: Config)
    | SetPaused(paused: bool)
    | Advance(ledgers: nat, seconds: nat)
  {
    /** Whose account cells the call may touch. */
    function Users(): set<Address> {
      match this
      case DepositForMany(_, recipients) => set r | r in recipients :: r.0
      case Transfer(from, to, _) => {from, to}
      case WithdrawFees | SetVestingPeriod(_) | Configure(_) | SetPaused(_) | Advance(_, _) => {}
      case _ => {caller}
    }
  }

  datatype Outcome =
    | Failed(error: VaultError)
    | Done
    | Redeemed(amount: int)
    | BatchRedeemed(total: int)
    | Enqueued(id: nat, amount: int)
    | Claimed(id: nat, net: int)
    | Harvested(net: int)
    | Distributed(net: int)
    | Collected(amount: int)

  function Settled<T>(s: VaultState, r: Result<(VaultState, T)>, outcome: T -> Outcome): (VaultState, Outcome) {
    match r
    case Ok(p) => (p.0, outcome(p.1))
    case Err(e) => (s, Failed(e))
  }

  function Step(s: VaultState, a: Action): (VaultState, Outcome) {
    match a
    case Deposit(caller, amount) => Settled(s, VaultModel.Deposit(s, caller, amount), _ => Done)
    case DepositForMany(_, recipients) => Settled(s, VaultModel.DepositForMany(s, recipients), _ => Done)
    case BatchDeposit(caller, amounts) => Settled(s, VaultModel.BatchDeposit(s, caller, amounts), _ => Done)
    case Withdraw(caller, shares) =>
      Settled(s, VaultModel.Withdraw(s, caller, shares),
              (p: Payout) => match p case Paid(n) => Redeemed(n) case Queued(id, n) => Enqueued(id, n))
    case EmergencyWithdraw(caller, shares) =>
      Settled(s, VaultModel.EmergencyWithdraw(s, caller, shares), n => Redeemed(n))
    case BatchWithdraw(caller, amounts) =>
      Settled(s, VaultModel.BatchWithdraw(s, caller, amounts), paid => BatchRedeemed(Batch.SeqSum(paid)))
    case Claim(caller, id) => Settled(s, VaultModel.Claim(s, caller, id), n => Claimed(id, n))
    case Harvest(_, amount) => Settled(s, VaultModel.Harvest(s, amount), n => Harvested(n))
    case Distribute(_, amount) => Settled(s, VaultModel.Distribute(s, amount), n => Distributed(n))
    case Collect(caller) => Settled(s, VaultModel.Collect(s, caller), n => Collected(n))
    case Transfer(from, to, amount) => Settled(s, VaultModel.Transfer(s, from, to, amount), _ => Done)
    case WithdrawFees => Settled(s, VaultModel.WithdrawFees(s), _ => Done)
    case SetVestingPeriod(ledgers) => Settled(s, VaultModel.SetVestingPeriod(s, ledgers), _ => Done)
    case Configure(config) => Settled(s, VaultModel.Configure(s, config), _ => Done)
    case SetPaused(paused) => (VaultModel.SetPaused(s, paused), Done)
    case Advance(ledgers, seconds) => (VaultModel.Advance(s, ledgers, seconds), Done)
  }

  /** What a run did, recorded from outcomes alone. */
  datatype History = History(
    distributed: int,                     // net yield distributed so far
    collected: int,                       // yield paid out by `collect_pending_yield`
    ledgerRedeemed: int,                  // redeemed through withdraw and emergency_withdraw in this ledger
    batchRedeemed: int,                   // redeemed through batch_withdraw in this ledger
    enqueued: map<nat, QueueEntry>,       // every withdrawal ever queued, as it was queued
    claimed: set<nat>)                    // queue ids claimed so far

  const NOTHING := History(0, 0, 0, 0, map[], {})

  function Record(h: History, s: VaultState, a: Action, o: Outcome): History {
    match o
    case Distributed(net) => h.(distributed := h.distributed + net)
    case Collected(n) => h.(collected := h.collected + n)
    case BatchRedeemed(n) => h.(batchRedeemed := h.batchRedeemed + n)
    case Redeemed(n) => h.(ledgerRedeemed := h.ledgerRedeemed + n)
    case Enqueued(id, n) =>
      var due := SaturatingAddU64(s.now, s.config.unbondingSecs);
      var entry := if a.Withdraw? then QueueEntry(a.caller, a.shares, n, due) else QueueEntry(Address(0), 0, n, due);
      h.(ledgerRedeemed := h.ledgerRedeemed + n, enqueued := h.enqueued[id := entry])
    case Claimed(id, _) => h.(claimed := h.claimed + {id})
    case _ => if a.Advance? && a.ledgers > 0 then h.(ledgerRedeemed := 0, batchRedeemed := 0) else h
  }

  datatype World = World(state: VaultState, history: History)

  function Next(w: World, a: Action): World {
    var (s, o) := Step(w.state, a);
    World(s, Record(w.history, w.state, a, o))
  }

  function Run(w: World, actions: seq<Action>): World {
    if actions == [] then w else Next(Run(w, actions[..|actions| - 1]), actions[|actions| - 1])
  }
}

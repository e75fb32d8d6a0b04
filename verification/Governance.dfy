/** Multi-signature governance: proposals, signatures, execution, and the signer set. */
module Governance {
  import opened Core

  const ALLOWLIST_REQUIRED_SIGNATURES: nat := 3
  const ALLOWLIST_TIMELOCK_SECS: nat := 86_400
  const MULTISIG_EXPIRY_SECS: nat := 259_200
  const ALLOWLIST_PARAMETER := "set_allowlist_enabled"
  const UNSET_THRESHOLD: nat := 2

  datatype OpType =
    | Upgrade(hash: nat)
    | SetPerfFee(bps: nat)
    | SetMgmtFee(bps: nat)
    | SetTvlCap(cap: int)
    | AddSigner(signer: Address)
    | RemoveSigner(signer: Address)
    | SetThreshold(threshold: nat)
    | UpdateAdmin
    | UpdateUnderlyingToken
    | UpdateParameter(name: string, value: int)
    | UpdateAdminAddress(admin: Address)
    | UpdateUnderlyingTokenAddress(token: Address)
  {
    predicate IsAllowlistUpdate() { UpdateParameter? && name == ALLOWLIST_PARAMETER }
  }

  datatype OpStatus = Pending | Ready | Executed | Expired | Cancelled

  datatype MultiSigOp = MultiSigOp(
    id: nat,
    opType: OpType,
    proposer: Address,
    status: OpStatus,
    sigCount: nat,
    signers: seq<Address>,
    proposedAt: nat,
    expiresAt: nat)

  datatype GovState = GovState(
    signers: seq<Address>,
    threshold: nat,
    opCount: nat,
    ops: map<nat, MultiSigOp>,
    votes: set<(nat, Address)>,
    allowlistEnabled: bool,
    now: nat)
  {
    function Required(opType: OpType): nat {
      if opType.IsAllowlistUpdate() && threshold < ALLOWLIST_REQUIRED_SIGNATURES then ALLOWLIST_REQUIRED_SIGNATURES
      else threshold
    }

    /** Everyone whose vote on the operation is recorded. */
    function Voters(id: nat): set<Address> { set v | v in votes && v.0 == id :: v.1 }
  }

  /** The threshold for a fresh signer list: two, or fewer when there are fewer signers, but at least one. */
  function DefaultThreshold(count: nat): nat {
    if count == 0 then 1 else if count < 2 then count else 2
  }

  /** A contract whose governance has not been set up. */
  function Unset(now: nat): GovState { GovState([], UNSET_THRESHOLD, 0, map[], {}, false, now) }

  /** `initialize_governance`: refused once there are signers. */
  function Initialize(g: GovState, signers: seq<Address>): Result<(GovState, ())> {
    if |g.signers| > 0 then Err(AlreadyInitialized)
    else Ok((g.(signers := signers, opCount := 0, threshold := DefaultThreshold(|signers|)), ()))
  }

  /** The state a fresh contract's set-up leaves; runs start here. */
  function Initial(signers: seq<Address>, now: nat): GovState {
    GovState(signers, DefaultThreshold(|signers|), 0, map[], {}, false, now)
  }

  lemma InitializeReachesInitial(signers: seq<Address>, now: nat, again: seq<Address>)
    ensures Initialize(Unset(now), signers) == Ok((Initial(signers, now), ()))
    ensures Initial(signers, now).threshold == if |signers| <= 1 then 1 else 2
    ensures Initialize(Initial(signers, now), again).Err? <==> signers != []
  {
  }

  function Propose(g: GovState, proposer: Address, opType: OpType): Result<(GovState, nat)> {
    if proposer !in g.signers then Err(NotASigner) else
    var id := g.opCount + 1;
    var status := if 1 >= g.Required(opType) then Ready else Pending;
    var op := MultiSigOp(id, opType, proposer, status, 1, [proposer], g.now, g.now + MULTISIG_EXPIRY_SECS);
    Ok((g.(ops := g.ops[id := op], opCount := id, votes := g.votes + {(id, proposer)}), id))
  }

  function StillOpen(status: OpStatus): Guard {
    match status
    case Executed => Fail(OperationAlreadyExecuted)
    case Expired => Fail(OperationExpired)
    case Cancelled => Fail(ProposalCancelled)
    case _ => Pass
  }

  function Sign(g: GovState, signer: Address, id: nat): Result<(GovState, ())> {
    if signer !in g.signers then Err(NotASigner) else
    :- Need(id in g.ops, OperationNotFound);
    var op := g.ops[id];
    :- Need(!(g.now > op.expiresAt && op.status == Pending), OperationExpired);
    :- StillOpen(op.status);
    :- Need((id, signer) !in g.votes, AlreadyVoted);
    var status := if op.sigCount + 1 >= g.Required(op.opType) then Ready else op.status;
    var signed := op.(sigCount := op.sigCount + 1, signers := op.signers + [signer], status := status);
    Ok((g.(ops := g.ops[id := signed], votes := g.votes + {(id, signer)}), ()))
  }

  /** `vote`: a rejection is accepted and does nothing. */
  function Vote(g: GovState, voter: Address, id: nat, approve: bool): Result<(GovState, ())> {
    if approve then Sign(g, voter, id) else Ok((g, ()))
  }

  function ExecuteOp(g: GovState, executor: Address, id: nat): Result<(GovState, MultiSigOp)> {
    if executor !in g.signers then Err(NotASigner) else
    :- Need(id in g.ops, OperationNotFound);
    var op := g.ops[id];
    :- Need(!(g.now > op.expiresAt && op.status == Pending), OperationExpired);
    :- StillOpen(op.status);
    :- Need(op.status == Ready, ThresholdNotMet);
    :- Need(!op.opType.IsAllowlistUpdate() || op.sigCount >= g.Required(op.opType), ThresholdNotMet);
    :- Need(!op.opType.IsAllowlistUpdate() || g.now >= op.proposedAt + ALLOWLIST_TIMELOCK_SECS, TimelockNotExpired);
    var executed := op.(status := Executed);
    Ok((g.(ops := g.ops[id := executed]), executed))
  }

  /** lib.rs `execute`: mark the operation executed, and apply an allowlist change. */
  function Execute(g: GovState, executor: Address, id: nat): Result<(GovState, ())> {
    var done :- ExecuteOp(g, executor, id);
    var (h, op) := done;
    if op.opType.IsAllowlistUpdate() then
      :- Need(op.opType.value == 0 || op.opType.value == 1, InvalidAddress);
      Ok((h.(allowlistEnabled := op.opType.value == 1), ()))
    else Ok((h, ()))
  }

  function Cancel(g: GovState, proposer: Address, id: nat): Result<(GovState, ())> {
    if id !in g.ops then Err(OperationNotFound) else
    var op := g.ops[id];
    :- Need(op.proposer == proposer, NotASigner);
    :- StillOpen(op.status);
    Ok((g.(ops := g.ops[id := op.(status := Cancelled)]), ()))
  }

  /** Anyone may persist an expiry; returns whether it changed anything. */
  function Expire(g: GovState, id: nat): Result<(GovState, bool)> {
    if id !in g.ops then Err(OperationNotFound) else
    var op := g.ops[id];
    if op.status == Expired || op.status == Executed || g.now <= op.expiresAt then Ok((g, false))
    else Ok((g.(ops := g.ops[id := op.(status := Expired)]), true))
  }

  function ApplyAddSigner(g: GovState, signer: Address): Result<(GovState, ())> {
    if signer in g.signers then Ok((g, ())) else Ok((g.(signers := g.signers + [signer]), ()))
  }

  function Without(signers: seq<Address>, target: Address): seq<Address> {
    if signers == [] then []
    else
      var rest := Without(signers[..|signers| - 1], target);
      if signers[|signers| - 1] == target then rest else rest + [signers[|signers| - 1]]
  }

  function ApplyRemoveSigner(g: GovState, target: Address): Result<(GovState, ())> {
    var kept := Without(g.signers, target);
    :- Need(|kept| >= g.threshold, InvalidThreshold);
    Ok((g.(signers := kept), ()))
  }

  function ApplySetThreshold(g: GovState, threshold: nat): Result<(GovState, ())> {
    if threshold == 0 || threshold > |g.signers| then Err(InvalidThreshold) else
    Ok((g.(threshold := threshold), ()))
  }

  function Advance(g: GovState, seconds: nat): GovState { g.(now := g.now + seconds) }
}

/** Runs of the governance contract. */
module GovernanceRuns {
  import opened Core
  import G = Governance

  datatype Action =
    | Propose(proposer: Address, opType: G.OpType)
    | Vote(voter: Address, id: nat, approve: bool)
    | Execute(executor: Address, id: nat)
    | Cancel(proposer: Address, id: nat)
    | Expire(id: nat)
    | AddSigner(signer: Address)
    | RemoveSigner(signer: Address)
    | SetThreshold(threshold: nat)
    | Advance(seconds: nat)

  function Settled<T>(g: G.GovState, r: Result<(G.GovState, T)>): G.GovState {
    match r
    case Ok(p) => p.0
    case Err(_) => g
  }

  function Step(g: G.GovState, a: Action): G.GovState {
    match a
    case Propose(proposer, opType) => Settled(g, G.Propose(g, proposer, opType))
    case Vote(voter, id, approve) => Settled(g, G.Vote(g, voter, id, approve))
    case Execute(executor, id) => Settled(g, G.Execute(g, executor, id))
    case Cancel(proposer, id) => Settled(g, G.Cancel(g, proposer, id))
    case Expire(id) => Settled(g, G.Expire(g, id))
    case AddSigner(signer) => Settled(g, G.ApplyAddSigner(g, signer))
    case RemoveSigner(signer) => Settled(g, G.ApplyRemoveSigner(g, signer))
    case SetThreshold(threshold) => Settled(g, G.ApplySetThreshold(g, threshold))
    case Advance(seconds) => G.Advance(g, seconds)
  }

  function Run(g: G.GovState, actions: seq<Action>): G.GovState {
    if actions == [] then g else Step(Run(g, actions[..|actions| - 1]), actions[|actions| - 1])
  }

  lemma {:induction false} RunConcat(g: G.GovState, first: seq<Action>, second: seq<Action>)
    ensures Run(g, first + second) == Run(Run(g, first), second)
  {
    if second == [] {
      assert first + second == first;
    } else {
      var n := |second| - 1;
      assert (first + second)[..|first + second| - 1] == first + second[..n];
      RunConcat(g, first, second[..n]);
    }
  }
}

/** The governance entry points over the contract's storage, proved to commit what `Governance` specifies. */
module GovernanceContract {
  import opened Core
  import G = Governance

  ghost predicate Commits<T>(before: G.GovState, after: G.GovState, r: Result<T>, spec: Result<(G.GovState, T)>) {
    match spec
    case Ok(p) => r == Ok(p.1) && after == p.0
    case Err(e) => r == Err(e) && after == before
  }

  class MultiSig {
    /** The contract's storage. */
    var cells: G.GovState

    constructor (now: nat)
      ensures cells == G.Unset(now)
    {
      cells := G.Unset(now);
    }

    method Initialize(signers: seq<Address>) returns (r: Result<()>)
      modifies this
      ensures Commits(old(cells), cells, r, G.Initialize(old(cells), signers))
    {
      if |cells.signers| > 0 { return Err(AlreadyInitialized); }
      cells := cells.(signers := signers);
      cells := cells.(opCount := 0);
      var threshold := if |signers| == 0 then 1 else if |signers| < 2 then |signers| else 2;
      cells := cells.(threshold := threshold);
      return Ok(());
    }

    method Propose(proposer: Address, opType: G.OpType) returns (r: Result<nat>)
      modifies this
      ensures Commits(old(cells), cells, r, G.Propose(old(cells), proposer, opType))
    {
      if proposer !in cells.signers { return Err(NotASigner); }
      var newId := cells.opCount + 1;
      var threshold := cells.Required(opType);
      var status := if 1 >= threshold then G.Ready else G.Pending;
      var op := G.MultiSigOp(newId, opType, proposer, status, 1, [proposer],
                             cells.now, cells.now + G.MULTISIG_EXPIRY_SECS);
      cells := cells.(ops := cells.ops[newId := op]);
      cells := cells.(opCount := newId);
      cells := cells.(votes := cells.votes + {(newId, proposer)});
      return Ok(newId);
    }

    method Vote(voter: Address, id: nat, approve: bool) returns (r: Result<()>)
      modifies this
      ensures Commits(old(cells), cells, r, G.Vote(old(cells), voter, id, approve))
    {
      if !approve { return Ok(()); }
      r := Sign(voter, id);
    }

    method Sign(signer: Address, id: nat) returns (r: Result<()>)
      modifies this
      ensures Commits(old(cells), cells, r, G.Sign(old(cells), signer, id))
    {
      if signer !in cells.signers { return Err(NotASigner); }
      if id !in cells.ops { return Err(OperationNotFound); }
      var op := cells.ops[id];
      if cells.now > op.expiresAt && op.status == G.Pending { return Err(OperationExpired); }
      match op.status {
        case Executed => return Err(OperationAlreadyExecuted);
        case Expired => return Err(OperationExpired);
        case Cancelled => return Err(ProposalCancelled);
        case Pending =>
        case Ready =>
      }
      if (id, signer) in cells.votes { return Err(AlreadyVoted); }
      op := op.(sigCount := op.sigCount + 1);
      op := op.(signers := op.signers + [signer]);
      cells := cells.(votes := cells.votes + {(id, signer)});
      if op.sigCount >= cells.Required(op.opType) {
        op := op.(status := G.Ready);
      }
      cells := cells.(ops := cells.ops[id := op]);
      return Ok(());
    }

    method Execute(executor: Address, id: nat) returns (r: Result<()>)
      modifies this
      ensures Commits(old(cells), cells, r, G.Execute(old(cells), executor, id))
    {
      var before := cells;
      var executed := ExecuteOp(executor, id);
      var op :- executed;
      if op.opType.IsAllowlistUpdate() {
        if op.opType.value == 0 {
          cells := cells.(allowlistEnabled := false);
        } else if op.opType.value == 1 {
          cells := cells.(allowlistEnabled := true);
        } else {
          cells := before;
          return Err(InvalidAddress);
        }
      }
      return Ok(());
    }

    method ExecuteOp(executor: Address, id: nat) returns (r: Result<G.MultiSigOp>)
      modifies this
      ensures Commits(old(cells), cells, r, G.ExecuteOp(old(cells), executor, id))
    {
      if executor !in cells.signers { return Err(NotASigner); }
      if id !in cells.ops { return Err(OperationNotFound); }
      var op := cells.ops[id];
      if cells.now > op.expiresAt && op.status == G.Pending { return Err(OperationExpired); }
      match op.status {
        case Executed => return Err(OperationAlreadyExecuted);
        case Expired => return Err(OperationExpired);
        case Cancelled => return Err(ProposalCancelled);
        case Pending => return Err(ThresholdNotMet);
        case Ready =>
      }
      if op.opType.IsAllowlistUpdate() {
        if op.sigCount < cells.Required(op.opType) { return Err(ThresholdNotMet); }
        if cells.now < op.proposedAt + G.ALLOWLIST_TIMELOCK_SECS { return Err(TimelockNotExpired); }
      }
      op := op.(status := G.Executed);
      cells := cells.(ops := cells.ops[id := op]);
      return Ok(op);
    }

    method Cancel(proposer: Address, id: nat) returns (r: Result<()>)
      modifies this
      ensures Commits(old(cells), cells, r, G.Cancel(old(cells), proposer, id))
    {
      if id !in cells.ops { return Err(OperationNotFound); }
      var op := cells.ops[id];
      if op.proposer != proposer { return Err(NotASigner); }
      match op.status {
        case Executed => return Err(OperationAlreadyExecuted);
        case Expired => return Err(OperationExpired);
        case Cancelled => return Err(ProposalCancelled);
        case Pending =>
        case Ready =>
      }
      cells := cells.(ops := cells.ops[id := op.(status := G.Cancelled)]);
      return Ok(());
    }

    method Expire(id: nat) returns (r: Result<bool>)
      modifies this
      ensures Commits(old(cells), cells, r, G.Expire(old(cells), id))
    {
      if id !in cells.ops { return Err(OperationNotFound); }
      var op := cells.ops[id];
      if op.status == G.Expired || op.status == G.Executed { return Ok(false); }
      if cells.now <= op.expiresAt { return Ok(false); }
      cells := cells.(ops := cells.ops[id := op.(status := G.Expired)]);
      return Ok(true);
    }

    method ApplyAddSigner(signer: Address) returns (r: Result<()>)
      modifies this
      ensures Commits(old(cells), cells, r, G.ApplyAddSigner(old(cells), signer))
    {
      if signer in cells.signers { return Ok(()); }
      cells := cells.(signers := cells.signers + [signer]);
      return Ok(());
    }

    method ApplyRemoveSigner(target: Address) returns (r: Result<()>)
      modifies this
      ensures Commits(old(cells), cells, r, G.ApplyRemoveSigner(old(cells), target))
    {
      var signers := cells.signers;
      var newLen := 0;
      for i := 0 to |signers|
        invariant newLen == |G.Without(signers[..i], target)|
      {
        assert signers[..i + 1][..i] == signers[..i];
        if signers[i] != target { newLen := newLen + 1; }
      }
      assert signers[..|signers|] == signers;
      if newLen < cells.threshold { return Err(InvalidThreshold); }
      var newSigners: seq<Address> := [];
      for i := 0 to |signers|
        invariant newSigners == G.Without(signers[..i], target)
      {
        assert signers[..i + 1][..i] == signers[..i];
        if signers[i] != target { newSigners := newSigners + [signers[i]]; }
      }
      cells := cells.(signers := newSigners);
      return Ok(());
    }

    method ApplySetThreshold(threshold: nat) returns (r: Result<()>)
      modifies this
      ensures Commits(old(cells), cells, r, G.ApplySetThreshold(old(cells), threshold))
    {
      if threshold == 0 || threshold > |cells.signers| { return Err(InvalidThreshold); }
      cells := cells.(threshold := threshold);
      return Ok(());
    }

    method Advance(seconds: nat)
      modifies this
      ensures cells == G.Advance(old(cells), seconds)
    {
      cells := cells.(now := cells.now + seconds);
    }
  }
}

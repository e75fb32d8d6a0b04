/** What governance keeps over every run, and what it can always still do. */
module GovernanceProofs {
  import opened Core
  import opened Governance
  import opened R = GovernanceRuns

  predicate NoDuplicates(xs: seq<Address>) {
    forall i, j | 0 <= i < j < |xs| :: xs[i] != xs[j]
  }

  function SetOf(xs: seq<Address>): set<Address> { set x | x in xs }

  lemma {:induction false} SetOfSize(xs: seq<Address>)
    requires NoDuplicates(xs)
    ensures |SetOf(xs)| == |xs|
  {
    if xs != [] {
      var last := xs[|xs| - 1];
      SetOfSize(xs[..|xs| - 1]);
      assert SetOf(xs) == SetOf(xs[..|xs| - 1]) + {last};
    }
  }

  // ----- the signer set and threshold -----

  /** A threshold of at least one that the signers, once there are any, can meet. */
  predicate SoundSigners(g: GovState) {
    NoDuplicates(g.signers) && 1 <= g.threshold && g.threshold <= if g.signers == [] then 1 else |g.signers|
  }

  lemma {:induction false} WithoutKeeps(signers: seq<Address>, target: Address)
    ensures forall x :: x in Without(signers, target) <==> x in signers && x != target
    ensures NoDuplicates(signers) ==> NoDuplicates(Without(signers, target))
  {
    if signers != [] {
      var shorter, last := signers[..|signers| - 1], signers[|signers| - 1];
      WithoutKeeps(shorter, target);
      assert signers == shorter + [last];
      if NoDuplicates(signers) {
        assert last !in shorter;
        assert last !in Without(shorter, target);
      }
    }
  }

  // ----- operation records -----

  /** Each record stands under its own id and counts exactly its recorded, distinct voters. */
  ghost predicate SoundOp(g: GovState, id: nat)
    requires id in g.ops
  {
    var op := g.ops[id];
    && op.id == id
    && op.sigCount == |op.signers| >= 1
    && op.expiresAt == op.proposedAt + MULTISIG_EXPIRY_SECS
    && NoDuplicates(op.signers)
    && (forall v: Address :: v in op.signers <==> (id, v) in g.votes)
  }

  ghost predicate SoundOps(g: GovState) {
    && (forall id: nat :: id in g.ops <==> 1 <= id <= g.opCount)
    && (forall id | id in g.ops :: SoundOp(g, id))
    && (forall v | v in g.votes :: v.0 in g.ops)
  }

  lemma VotersAreCounted(g: GovState, id: nat)
    requires SoundOps(g) && id in g.ops
    ensures |g.Voters(id)| == g.ops[id].sigCount
    ensures g.Voters(id) == SetOf(g.ops[id].signers)
  {
    var op := g.ops[id];
    assert SoundOp(g, id);
    SetOfSize(op.signers);
    assert g.Voters(id) == SetOf(op.signers) by {
      forall v ensures v in g.Voters(id) <==> v in SetOf(op.signers) {
        assert v in g.Voters(id) <==> (id, v) in g.votes;
      }
    }
  }

  /** How a record may change: its terms never, its status only forward. */
  predicate Evolves(before: MultiSigOp, after: MultiSigOp) {
    && after.id == before.id && after.opType == before.opType && after.proposer == before.proposer
    && after.proposedAt == before.proposedAt && after.expiresAt == before.expiresAt
    && match before.status
       case Pending => true
       case Ready => after.status != Pending
       case Executed => after == before
       case Expired => after == before
       case Cancelled => after == before || after == before.(status := Expired)
  }

  ghost predicate Keeps(g: GovState, h: GovState) {
    && h.opCount >= g.opCount
    && (forall id | id in g.ops :: id in h.ops && Evolves(g.ops[id], h.ops[id]))
  }

  ghost predicate Sound(g: GovState) { SoundSigners(g) && SoundOps(g) }

  lemma ProposeStep(g: GovState, proposer: Address, opType: OpType)
    requires Sound(g) && Governance.Propose(g, proposer, opType).Ok?
    ensures var h := Governance.Propose(g, proposer, opType).value.0; Sound(h) && Keeps(g, h)
  {
    var h := Governance.Propose(g, proposer, opType).value.0;
    var id := g.opCount + 1;
    forall i | i in h.ops ensures SoundOp(h, i) {
      if i in g.ops { assert SoundOp(g, i); }
      assert forall v: Address :: (id, v) !in g.votes;
    }
  }

  lemma SignStep(g: GovState, signer: Address, id: nat)
    requires Sound(g) && Governance.Sign(g, signer, id).Ok?
    ensures var h := Governance.Sign(g, signer, id).value.0; Sound(h) && Keeps(g, h)
  {
    var h := Governance.Sign(g, signer, id).value.0;
    forall i | i in h.ops ensures SoundOp(h, i) {
      assert SoundOp(g, i);
      if i == id {
        forall v: Address ensures v in h.ops[id].signers <==> (id, v) in h.votes {
          assert v in g.ops[id].signers <==> (id, v) in g.votes;
        }
      }
    }
  }

  /** Changing only one record's status keeps the books. */
  lemma StatusStep(g: GovState, h: GovState, id: nat)
    requires Sound(g) && id in g.ops
    requires exists status :: h.ops == g.ops[id := g.ops[id].(status := status)]
    requires h.signers == g.signers && h.threshold == g.threshold && h.opCount == g.opCount && h.votes == g.votes
    ensures Sound(h)
  {
    forall i | i in h.ops ensures SoundOp(h, i) { assert SoundOp(g, i); }
  }

  lemma ExecuteStep(g: GovState, executor: Address, id: nat)
    requires Sound(g) && Governance.Execute(g, executor, id).Ok?
    ensures var h := Governance.Execute(g, executor, id).value.0;
            && Sound(h) && g.ops[id].status == Ready && h.ops == g.ops[id := g.ops[id].(status := Executed)]
            && Keeps(g, h)
  {
    StatusStep(g, Governance.Execute(g, executor, id).value.0, id);
  }

  lemma CancelStep(g: GovState, proposer: Address, id: nat)
    requires Sound(g) && Governance.Cancel(g, proposer, id).Ok?
    ensures var h := Governance.Cancel(g, proposer, id).value.0; Sound(h) && Keeps(g, h)
  {
    StatusStep(g, Governance.Cancel(g, proposer, id).value.0, id);
  }

  lemma ExpireStep(g: GovState, id: nat)
    requires Sound(g) && Governance.Expire(g, id).Ok?
    ensures var h := Governance.Expire(g, id).value.0; Sound(h) && Keeps(g, h)
  {
    if Governance.Expire(g, id).value.1 {
      StatusStep(g, Governance.Expire(g, id).value.0, id);
    }
  }

  lemma SignerStep(g: GovState, h: GovState)
    requires Sound(g) && SoundSigners(h)
    requires h.ops == g.ops && h.votes == g.votes && h.opCount == g.opCount
    ensures Sound(h) && Keeps(g, h)
  {
    forall i | i in h.ops ensures SoundOp(h, i) { assert SoundOp(g, i); }
  }

  lemma StepSound(g: GovState, a: Action)
    requires Sound(g)
    ensures Sound(Step(g, a)) && Keeps(g, Step(g, a))
  {
    match a
    case Propose(proposer, opType) =>
      if Governance.Propose(g, proposer, opType).Ok? { ProposeStep(g, proposer, opType); }
    case Vote(voter, id, approve) =>
      if approve && Governance.Sign(g, voter, id).Ok? { SignStep(g, voter, id); }
    case Execute(executor, id) =>
      if Governance.Execute(g, executor, id).Ok? { ExecuteStep(g, executor, id); }
    case Cancel(proposer, id) =>
      if Governance.Cancel(g, proposer, id).Ok? { CancelStep(g, proposer, id); }
    case Expire(id) =>
      if Governance.Expire(g, id).Ok? { ExpireStep(g, id); }
    case AddSigner(signer) => SignerStep(g, Step(g, a));
    case RemoveSigner(signer) => WithoutKeeps(g.signers, signer); SignerStep(g, Step(g, a));
    case SetThreshold(threshold) => SignerStep(g, Step(g, a));
    case Advance(seconds) => SignerStep(g, Step(g, a));
  }

  lemma KeepsChain(f: GovState, g: GovState, h: GovState)
    requires Keeps(f, g) && Keeps(g, h)
    ensures Keeps(f, h)
  {
    forall id | id in f.ops ensures id in h.ops && Evolves(f.ops[id], h.ops[id]) {
      assert id in g.ops && Evolves(f.ops[id], g.ops[id]) && Evolves(g.ops[id], h.ops[id]);
    }
  }

  lemma {:induction false} RunSound(g: GovState, actions: seq<Action>)
    requires Sound(g)
    ensures Sound(Run(g, actions)) && Keeps(g, Run(g, actions))
  {
    if actions != [] {
      var shorter := actions[..|actions| - 1];
      RunSound(g, shorter);
      StepSound(Run(g, shorter), actions[|actions| - 1]);
      KeepsChain(g, Run(g, shorter), Run(g, actions));
    }
  }

  lemma InitialSound(signers: seq<Address>, now: nat)
    requires NoDuplicates(signers)
    ensures Sound(Initial(signers, now))
  {
  }

  /**
   Threshold sanity: through any additions, removals and threshold changes, signers stay distinct, and
   the threshold is at least one and never more than the signers there are.
   */
  lemma ThresholdStaysReachable(signers: seq<Address>, now: nat, actions: seq<Action>)
    requires NoDuplicates(signers)
    ensures var g := Run(Initial(signers, now), actions);
            && NoDuplicates(g.signers) && g.threshold >= 1
            && (g.signers == [] ==> g.threshold == 1)
            && (g.signers != [] ==> g.threshold <= |g.signers|)
  {
    InitialSound(signers, now);
    RunSound(Initial(signers, now), actions);
  }

  /**
   Operation lifecycle over runs: ids are exactly 1..count, each record counts exactly its distinct
   recorded voters, Executed and Expired are final, Cancelled can only become Expired, and an operation
   in any of the three can never be executed again.
   */
  lemma OperationLifecycle(signers: seq<Address>, now: nat, actions: seq<Action>, more: seq<Action>)
    requires NoDuplicates(signers)
    ensures var g := Run(Initial(signers, now), actions);
            var h := Run(g, more);
            && (forall id: nat :: id in g.ops <==> 1 <= id <= g.opCount)
            && (forall id | id in g.ops :: |g.Voters(id)| == g.ops[id].sigCount)
            && (forall id | id in g.ops ::
                  && id in h.ops
                  && (g.ops[id].status.Executed? || g.ops[id].status.Expired? ==> h.ops[id] == g.ops[id])
                  && (g.ops[id].status.Cancelled? ==> h.ops[id].status.Cancelled? || h.ops[id].status.Expired?)
                  && (g.ops[id].status.Executed? || g.ops[id].status.Expired? || g.ops[id].status.Cancelled? ==>
                        forall e: Address :: Governance.Execute(h, e, id).Err?))
  {
    var g := Run(Initial(signers, now), actions);
    InitialSound(signers, now);
    RunSound(Initial(signers, now), actions);
    RunSound(g, more);
    forall id | id in g.ops ensures |g.Voters(id)| == g.ops[id].sigCount {
      VotersAreCounted(g, id);
    }
    forall id | id in g.ops ensures id in Run(g, more).ops && Evolves(g.ops[id], Run(g, more).ops[id]) {
    }
  }

  // ----- where votes and proposals come from -----

  /** Call `i` of the run proposed operation `id` with these terms, by a signer, at that time. */
  ghost predicate ProposedBy(start: GovState, actions: seq<Action>, i: nat, id: nat, op: MultiSigOp) {
    && i < |actions|
    && var at := Run(start, actions[..i]);
    && actions[i] == R.Propose(op.proposer, op.opType)
    && op.proposer in at.signers && at.opCount + 1 == id && at.now == op.proposedAt
  }

  /** Call `i` of the run cast `v`'s vote on operation `id` while `v` was a signer. */
  ghost predicate VotedBy(start: GovState, actions: seq<Action>, i: nat, id: nat, v: Address) {
    && i < |actions|
    && var at := Run(start, actions[..i]);
    && v in at.signers
    && (actions[i] == R.Vote(v, id, true)
        || (actions[i].Propose? && actions[i].proposer == v && at.opCount + 1 == id))
  }

  lemma ProvenanceLasts(start: GovState, actions: seq<Action>)
    requires actions != []
    ensures forall i: nat, id: nat, op: MultiSigOp | ProposedBy(start, actions[..|actions| - 1], i, id, op) ::
              ProposedBy(start, actions, i, id, op)
    ensures forall i: nat, id: nat, v: Address | VotedBy(start, actions[..|actions| - 1], i, id, v) ::
              VotedBy(start, actions, i, id, v)
  {
    forall i: nat | i < |actions| - 1 ensures actions[..|actions| - 1][..i] == actions[..i] {
    }
  }

  /** What an operation was proposed as; its later status and signatures do not matter. */
  lemma SameProposal(start: GovState, actions: seq<Action>, i: nat, id: nat, op: MultiSigOp, op': MultiSigOp)
    requires ProposedBy(start, actions, i, id, op)
    requires op'.proposer == op.proposer && op'.opType == op.opType && op'.proposedAt == op.proposedAt
    ensures ProposedBy(start, actions, i, id, op')
  {
  }

  ghost predicate Traced(start: GovState, actions: seq<Action>, g: GovState) {
    && (forall id | id in g.ops :: exists i: nat :: ProposedBy(start, actions, i, id, g.ops[id]))
    && (forall v | v in g.votes :: exists i: nat :: VotedBy(start, actions, i, v.0, v.1))
  }

  lemma NewVotes(g: GovState, a: Action)
    ensures forall v | v in Step(g, a).votes && v !in g.votes ::
              && v.1 in g.signers
              && (a == R.Vote(v.1, v.0, true) || (a.Propose? && a.proposer == v.1 && g.opCount + 1 == v.0))
  {
  }

  lemma NewOps(g: GovState, a: Action)
    ensures forall id | id in Step(g, a).ops && id !in g.ops ::
              && a.Propose? && a.proposer in g.signers && id == g.opCount + 1
              && Step(g, a).ops[id].proposer == a.proposer && Step(g, a).ops[id].opType == a.opType
              && Step(g, a).ops[id].proposedAt == g.now
  {
  }

  lemma {:induction false} RunTraced(start: GovState, actions: seq<Action>)
    requires Sound(start) && start.ops == map[] && start.votes == {}
    ensures Traced(start, actions, Run(start, actions))
  {
    if actions != [] {
      var n := |actions| - 1;
      RunTraced(start, actions[..n]);
      RunSound(start, actions[..n]);
      StepSound(Run(start, actions[..n]), actions[n]);
      StepTraced(start, actions, Run(start, actions[..n]), actions[n]);
    }
  }

  lemma StepTraced(start: GovState, actions: seq<Action>, g: GovState, a: Action)
    requires actions != [] && a == actions[|actions| - 1] && g == Run(start, actions[..|actions| - 1])
    requires Traced(start, actions[..|actions| - 1], g) && Keeps(g, Step(g, a))
    ensures Traced(start, actions, Step(g, a))
  {
    ProvenanceLasts(start, actions);
    var n, h := |actions| - 1, Step(g, a);
    NewVotes(g, a);
    NewOps(g, a);
    forall id | id in h.ops ensures exists i: nat :: ProposedBy(start, actions, i, id, h.ops[id]) {
      if id in g.ops {
        var i: nat :| ProposedBy(start, actions[..n], i, id, g.ops[id]);
        assert Evolves(g.ops[id], h.ops[id]);
        SameProposal(start, actions, i, id, g.ops[id], h.ops[id]);
      } else {
        assert ProposedBy(start, actions, n, id, h.ops[id]);
      }
    }
    forall v | v in h.votes ensures exists i: nat :: VotedBy(start, actions, i, v.0, v.1) {
      if v !in g.votes {
        assert VotedBy(start, actions, n, v.0, v.1);
      } else {
        var i: nat :| VotedBy(start, actions[..n], i, v.0, v.1);
        assert VotedBy(start, actions, i, v.0, v.1);
      }
    }
  }

  lemma OnlyExecuteTouchesAllowlist(g: GovState, a: Action)
    ensures Step(g, a).allowlistEnabled != g.allowlistEnabled ==>
              && a.Execute? && Governance.Execute(g, a.executor, a.id).Ok?
              && a.id in g.ops && g.ops[a.id].opType.IsAllowlistUpdate()
              && g.ops[a.id].sigCount >= g.threshold && g.ops[a.id].sigCount >= ALLOWLIST_REQUIRED_SIGNATURES
              && g.now >= g.ops[a.id].proposedAt + ALLOWLIST_TIMELOCK_SECS
              && Step(g, a).allowlistEnabled == (g.ops[a.id].opType.value == 1)
  {
  }

  /**
   Allowlist safety over runs: if a call changes the allowlist flag, it executes an allowlist operation
   whose distinct voters number at least the current threshold and at least three, each of whom cast
   that vote earlier in the run while a signer; the operation was proposed earlier in the run by a
   signer, at least 24 hours before, with the very value that is applied.
   */
  lemma AllowlistSafety(signers: seq<Address>, now: nat, actions: seq<Action>, a: Action)
    requires NoDuplicates(signers)
    ensures var start := Initial(signers, now);
            var g := Run(start, actions);
            Step(g, a).allowlistEnabled != g.allowlistEnabled ==>
              && a.Execute? && a.id in g.ops
              && var op := g.ops[a.id];
              && op.opType.IsAllowlistUpdate() && Step(g, a).allowlistEnabled == (op.opType.value == 1)
              && |g.Voters(a.id)| >= g.threshold && |g.Voters(a.id)| >= 3
              && (forall v | v in g.Voters(a.id) :: exists i: nat :: VotedBy(start, actions, i, a.id, v))
              && (exists i: nat :: ProposedBy(start, actions, i, a.id, op)
                                   && Run(start, actions[..i]).now + 24 * 60 * 60 <= g.now)
  {
    var start := Initial(signers, now);
    var g := Run(start, actions);
    InitialSound(signers, now);
    RunSound(start, actions);
    RunTraced(start, actions);
    OnlyExecuteTouchesAllowlist(g, a);
    if Step(g, a).allowlistEnabled != g.allowlistEnabled {
      VotersAreCounted(g, a.id);
      forall v | v in g.Voters(a.id) ensures exists i: nat :: VotedBy(start, actions, i, a.id, v) {
        assert (a.id, v) in g.votes;
      }
    }
  }

  // ----- time and expiry -----

  /**
   Past its expiry an operation can still be executed by a signer if and only if it is Ready — and, for an
   allowlist change, has the signatures required now and a value of 0 or 1: expiry stops pending operations,
   not ready ones.
   */
  lemma LateExecutionExactlyWhenReady(g: GovState, executor: Address, id: nat)
    requires Sound(g) && id in g.ops && g.now > g.ops[id].expiresAt
    ensures var op := g.ops[id];
            Governance.Execute(g, executor, id).Ok? <==>
              && executor in g.signers && op.status == Ready
              && (op.opType.IsAllowlistUpdate() ==>
                    op.sigCount >= g.Required(op.opType) && (op.opType.value == 0 || op.opType.value == 1))
  {
    assert SoundOp(g, id);
  }

  /** A lone signer's proposal is Ready at once and can be executed after its three days are over. */
  lemma LateExecutionHappens(signer: Address)
    ensures var g := Run(Initial([signer], 0), [R.Propose(signer, SetTvlCap(0)), R.Advance(259_201)]);
            1 in g.ops && g.now > g.ops[1].expiresAt && Governance.Execute(g, signer, 1).Ok?
  {
    var start := Initial([signer], 0);
    var actions := [R.Propose(signer, SetTvlCap(0)), R.Advance(259_201)];
    assert actions[..1] == [R.Propose(signer, SetTvlCap(0))] && actions[..1][..0] == [];
    assert Run(start, []) == start;
    assert Run(start, actions[..1]) == Step(start, actions[0]);
  }

  // ----- progress: what signatures alone can still achieve -----

  /** Current signers who have not voted on the operation. */
  function Unsigned(g: GovState, id: nat): set<Address> { set s | s in g.signers && (id, s) !in g.votes }

  predicate SignOnly(actions: seq<Action>, id: nat) {
    forall a | a in actions :: a.Vote? && a.id == id && a.approve
  }

  /** A pending operation that has not run out of time. */
  predicate OpenPending(g: GovState, id: nat) {
    id in g.ops && g.ops[id].status == Pending && g.now <= g.ops[id].expiresAt
  }

  lemma SignEffect(g: GovState, v: Address, id: nat)
    requires Sound(g) && id in g.ops && (g.ops[id].status == Pending || g.ops[id].status == Ready)
    ensures var h := Step(g, R.Vote(v, id, true));
            && id in h.ops && h.signers == g.signers && h.threshold == g.threshold && h.now == g.now
            && h.ops[id].opType == g.ops[id].opType
            && (h == g
                || (v in Unsigned(g, id) && Unsigned(h, id) == Unsigned(g, id) - {v}
                    && h.ops[id].sigCount == g.ops[id].sigCount + 1
                    && h.ops[id].status == if h.ops[id].sigCount >= h.Required(h.ops[id].opType) then Ready
                       else g.ops[id].status))
            && (v in Unsigned(g, id) && g.now <= g.ops[id].expiresAt ==>
                h != g && h.ops[id].expiresAt == g.ops[id].expiresAt)
  {
    var h := Step(g, R.Vote(v, id, true));
    if h != g {
      assert Unsigned(h, id) == Unsigned(g, id) - {v};
    }
    if Governance.Sign(g, v, id).Ok? {
      assert (id, v) in h.votes && (id, v) !in g.votes;
    }
  }

  lemma UnsignedShrinks(g: GovState, h: GovState, id: nat, v: Address)
    requires v in Unsigned(g, id) && Unsigned(h, id) == Unsigned(g, id) - {v}
    ensures |Unsigned(h, id)| == |Unsigned(g, id)| - 1
  {
  }

  /** Signatures only move people from unsigned to signed; readiness takes at least one of them. */
  lemma {:induction false} SignOnlyRun(g: GovState, id: nat, actions: seq<Action>)
    requires Sound(g) && OpenPending(g, id) && SignOnly(actions, id)
    ensures var h := Run(g, actions);
            && Sound(h) && id in h.ops && h.signers == g.signers && h.threshold == g.threshold
            && h.ops[id].opType == g.ops[id].opType
            && (h.ops[id].status == Pending || h.ops[id].status == Ready)
            && h.ops[id].sigCount + |Unsigned(h, id)| == g.ops[id].sigCount + |Unsigned(g, id)|
            && h.ops[id].sigCount >= g.ops[id].sigCount
            && (h.ops[id].status == Ready ==>
                  h.ops[id].sigCount >= h.Required(h.ops[id].opType) && h.ops[id].sigCount > g.ops[id].sigCount)
  {
    if actions != [] {
      var n := |actions| - 1;
      SignOnlyRun(g, id, actions[..n]);
      var mid, a := Run(g, actions[..n]), actions[n];
      assert a == R.Vote(a.voter, id, true);
      SignEffect(mid, a.voter, id);
      StepSound(mid, a);
      if Step(mid, a) != mid {
        UnsignedShrinks(mid, Step(mid, a), id, a.voter);
      }
    }
  }

  lemma SizedNonEmpty(s: set<Address>)
    requires |s| > 0
    ensures s != {}
  {
  }

  lemma {:induction false} SignUntilReady(g: GovState, id: nat) returns (actions: seq<Action>)
    requires Sound(g) && OpenPending(g, id) && Unsigned(g, id) != {}
    requires g.ops[id].sigCount + |Unsigned(g, id)| >= g.Required(g.ops[id].opType)
    ensures SignOnly(actions, id)
    ensures id in Run(g, actions).ops && Run(g, actions).ops[id].status == Ready
    decreases |Unsigned(g, id)|
  {
    var v :| v in Unsigned(g, id);
    var a := R.Vote(v, id, true);
    var h := Step(g, a);
    SignEffect(g, v, id);
    StepSound(g, a);
    UnsignedShrinks(g, h, id, v);
    if h.ops[id].status == Ready {
      actions := [a];
      assert [a][..0] == [];
      assert Run(g, [a]) == h;
    } else {
      SizedNonEmpty(Unsigned(h, id));
      var rest := SignUntilReady(h, id);
      actions := [a] + rest;
      RunConcat(g, [a], rest);
      assert [a][..0] == [];
      assert Run(g, [a]) == h;
    }
  }

  /**
   Progress, exactly: a pending, unexpired operation can be made Ready by signatures alone if and only if
   some current signer has not signed and enough of them remain to meet the requirement. (With enough
   signatures already recorded, after a threshold was lowered, one further signature is still needed.)
   */
  lemma ReadyReachableExactlyWhen(g: GovState, id: nat)
    requires Sound(g) && OpenPending(g, id)
    ensures (exists actions ::
             SignOnly(actions, id) && id in Run(g, actions).ops && Run(g, actions).ops[id].status == Ready)
       <==> Unsigned(g, id) != {} && g.ops[id].sigCount + |Unsigned(g, id)| >= g.Required(g.ops[id].opType)
  {
    if Unsigned(g, id) != {} && g.ops[id].sigCount + |Unsigned(g, id)| >= g.Required(g.ops[id].opType) {
      var actions := SignUntilReady(g, id);
    }
    if actions :| SignOnly(actions, id) && id in Run(g, actions).ops && Run(g, actions).ops[id].status == Ready {
      SignOnlyRun(g, id, actions);
    }
  }

  const THREE_SIGNERS: seq<Address> := [Address(1), Address(2), Address(3)]

  /** Two of three required signatures are in when the threshold drops to two and the third signer leaves. */
  const STRANDED: seq<Action> :=
    [R.SetThreshold(3), R.Propose(Address(1), SetTvlCap(0)), R.Vote(Address(2), 1, true),
     R.SetThreshold(2), R.RemoveSigner(Address(3))]

  lemma RunOne(g: GovState, actions: seq<Action>, a: Action)
    ensures Run(g, actions + [a]) == Step(Run(g, actions), a)
  {
    assert (actions + [a])[..|actions + [a]| - 1] == actions;
  }

  /** One more call on a run. */
  lemma Extend(start: GovState, run: seq<Action>, a: Action) returns (longer: seq<Action>)
    ensures longer == run + [a] && Run(start, longer) == Step(Run(start, run), a)
  {
    longer := run + [a];
    RunOne(start, run, a);
  }

  /** Operation 1, a cap change, is pending with these signatures. */
  predicate PendingCap(g: GovState, signers: seq<Address>, threshold: nat, sigCount: nat, votes: set<(nat, Address)>) {
    && g.signers == signers && g.threshold == threshold && g.now == 0 && 1 in g.ops && g.votes == votes
    && g.ops[1].opType == SetTvlCap(0) && g.ops[1].status == Pending && g.ops[1].sigCount == sigCount
    && g.ops[1].expiresAt == MULTISIG_EXPIRY_SECS
  }

  lemma CapProposed(g: GovState)
    requires g == Initial(THREE_SIGNERS, 0).(threshold := 3)
    ensures PendingCap(Step(g, R.Propose(Address(1), SetTvlCap(0))), THREE_SIGNERS, 3, 1, {(1, Address(1))})
  {
  }

  lemma CapSigned(g: GovState)
    requires PendingCap(g, THREE_SIGNERS, 3, 1, {(1, Address(1))})
    ensures PendingCap(Step(g, R.Vote(Address(2), 1, true)), THREE_SIGNERS, 3, 2, {(1, Address(1)), (1, Address(2))})
  {
  }

  lemma ThirdSignerLeaves(g: GovState, votes: set<(nat, Address)>)
    requires PendingCap(g, THREE_SIGNERS, 2, 2, votes)
    ensures PendingCap(Step(g, R.RemoveSigner(Address(3))), [Address(1), Address(2)], 2, 2, votes)
  {
    WithoutLast([], Address(1), Address(3));
    WithoutLast([Address(1)], Address(2), Address(3));
    WithoutLast([Address(1), Address(2)], Address(3), Address(3));
    assert [] + [Address(1)] == [Address(1)] && [Address(1)] + [Address(2)] == [Address(1), Address(2)];
    assert [Address(1), Address(2)] + [Address(3)] == THREE_SIGNERS;
  }

  lemma StrandedRun()
    ensures PendingCap(Run(Initial(THREE_SIGNERS, 0), STRANDED), [Address(1), Address(2)], 2, 2,
                       {(1, Address(1)), (1, Address(2))})
  {
    var start := Initial(THREE_SIGNERS, 0);
    var run := Extend(start, [], R.SetThreshold(3));
    CapProposed(Run(start, run));
    run := Extend(start, run, R.Propose(Address(1), SetTvlCap(0)));
    CapSigned(Run(start, run));
    run := Extend(start, run, R.Vote(Address(2), 1, true));
    run := Extend(start, run, R.SetThreshold(2));
    ThirdSignerLeaves(Run(start, run), {(1, Address(1)), (1, Address(2))});
    run := Extend(start, run, R.RemoveSigner(Address(3)));
    assert run == STRANDED;
  }

  lemma WithoutLast(signers: seq<Address>, last: Address, target: Address)
    ensures Without(signers + [last], target)
         == if last == target then Without(signers, target) else Without(signers, target) + [last]
  {
    assert (signers + [last])[..|signers + [last]| - 1] == signers;
  }

  /** The operation has all the signatures it needs and can never become Ready: nobody is left to sign. */
  lemma StrandedOperation()
    ensures var g := Run(Initial(THREE_SIGNERS, 0), STRANDED);
            && OpenPending(g, 1) && g.ops[1].sigCount >= g.Required(g.ops[1].opType)
            && forall actions | SignOnly(actions, 1) ::
                 !(1 in Run(g, actions).ops && Run(g, actions).ops[1].status == Ready)
  {
    var start := Initial(THREE_SIGNERS, 0);
    StrandedRun();
    InitialSound(THREE_SIGNERS, 0);
    RunSound(start, STRANDED);
    var g := Run(start, STRANDED);
    assert Unsigned(g, 1) == {};
    ReadyReachableExactlyWhen(g, 1);
  }

  lemma SignersSplit(g: GovState, id: nat)
    requires Sound(g) && id in g.ops
    ensures g.ops[id].sigCount + |Unsigned(g, id)| >= |g.signers|
  {
    VotersAreCounted(g, id);
    SetOfSize(g.signers);
    var all := g.Voters(id) + Unsigned(g, id);
    assert SetOf(g.signers) <= all by {
      forall s | s in SetOf(g.signers) ensures s in all {
        assert (id, s) in g.votes ==> s in g.Voters(id);
      }
    }
    SubsetSize(SetOf(g.signers), all);
    assert |all| <= |g.Voters(id)| + |Unsigned(g, id)|;
  }

  lemma {:induction false} SubsetSize<T>(a: set<T>, b: set<T>)
    requires a <= b
    ensures |a| <= |b|
  {
    assert b == a + (b - a);
  }

  /**
   Governance progress: after any run, a pending, unexpired operation with fewer signatures than it needs,
   and no more needed than there are signers, can be driven to Ready by signatures of current signers.
   */
  lemma GovernanceProgress(signers: seq<Address>, now: nat, history: seq<Action>, id: nat)
    requires NoDuplicates(signers)
    requires var g := Run(Initial(signers, now), history);
             OpenPending(g, id) && g.ops[id].sigCount < g.Required(g.ops[id].opType) <= |g.signers|
    ensures var g := Run(Initial(signers, now), history);
            exists actions ::
              SignOnly(actions, id) && id in Run(g, actions).ops && Run(g, actions).ops[id].status == Ready
  {
    var g := Run(Initial(signers, now), history);
    InitialSound(signers, now);
    RunSound(Initial(signers, now), history);
    SignersSplit(g, id);
    SizedNonEmpty(Unsigned(g, id));
    ReadyReachableExactlyWhen(g, id);
  }
}

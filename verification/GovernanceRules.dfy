/**
 When each governance call goes through and what it then leaves, at any time and in any state, in terms of
 the record it is about.
 */
module GovernanceRules {
  import opened Core
  import opened Governance
  import opened R = GovernanceRuns
  import opened GovernanceProofs

  predicate IsOpen(op: MultiSigOp) { op.status == Pending || op.status == Ready }

  predicate ChangesAllowlist(opType: OpType) { opType.UpdateParameter? && opType.name == "set_allowlist_enabled" }

  /** Signatures an operation needs now: the threshold, and three at least for an allowlist change. */
  function Needed(g: GovState, opType: OpType): nat {
    if ChangesAllowlist(opType) && g.threshold < 3 then 3 else g.threshold
  }

  predicate MayExecute(g: GovState, op: MultiSigOp) {
    && op.status == Ready
    && (ChangesAllowlist(op.opType) ==>
          && op.sigCount >= Needed(g, op.opType) && op.proposedAt + 24 * 60 * 60 <= g.now
          && (op.opType.value == 0 || op.opType.value == 1))
  }

  /**
   A signer can execute an operation if and only if it is Ready and, for an allowlist change, has the signatures
   needed now, is a day old and asks for 0 or 1: at any time, before and after its expiry. It is then Executed,
   an allowlist change takes effect, and nothing else moves.
   */
  lemma ExecutesExactlyWhen(g: GovState, executor: Address, id: nat)
    ensures var r := Governance.Execute(g, executor, id);
            && (r.Ok? <==> executor in g.signers && id in g.ops && MayExecute(g, g.ops[id]))
            && (r.Ok? ==>
                  var op := g.ops[id];
                  r.value.0 == g.(ops := g.ops[id := op.(status := Executed)],
                                  allowlistEnabled := if ChangesAllowlist(op.opType) then op.opType.value == 1
                                                      else g.allowlistEnabled))
  {
  }

  /** A signer's proposal is recorded with the proposer's own signature, for three days. */
  lemma ProposesExactlyWhen(g: GovState, proposer: Address, opType: OpType)
    ensures var r := Governance.Propose(g, proposer, opType);
            var id := g.opCount + 1;
            && (r.Ok? <==> proposer in g.signers)
            && (r.Ok? ==>
                  var (h, issued) := r.value;
                  && issued == id && id in h.ops
                  && h == g.(opCount := id, ops := g.ops[id := h.ops[id]], votes := g.votes + {(id, proposer)})
                  && (h.ops[id].status == Ready <==> Needed(g, opType) <= 1)
                  && h.ops[id] == MultiSigOp(id, opType, proposer, h.ops[id].status, 1, [proposer], g.now,
                                             g.now + 72 * 60 * 60)
                  && IsOpen(h.ops[id]))
  {
  }

  /** A signer's first vote on an open operation counts, until a pending one runs out of time. */
  lemma SignsExactlyWhen(g: GovState, voter: Address, id: nat)
    ensures var r := Governance.Vote(g, voter, id, true);
            && (r.Ok? <==> && voter in g.signers && id in g.ops && (id, voter) !in g.votes && IsOpen(g.ops[id])
                           && (g.ops[id].status == Pending ==> g.now <= g.ops[id].expiresAt))
            && (r.Ok? ==>
                  var op, count := g.ops[id], g.ops[id].sigCount + 1;
                  var status := if count >= Needed(g, op.opType) then Ready else op.status;
                  r.value.0 == g.(votes := g.votes + {(id, voter)},
                                  ops := g.ops[id := op.(sigCount := count, signers := op.signers + [voter],
                                                         status := status)]))
    ensures Governance.Vote(g, voter, id, false) == Ok((g, ()))
  {
  }

  /** Its proposer can cancel an open operation, at any time, and it is then Cancelled. */
  lemma CancelsExactlyWhen(g: GovState, proposer: Address, id: nat)
    ensures var r := Governance.Cancel(g, proposer, id);
            && (r.Ok? <==> id in g.ops && g.ops[id].proposer == proposer && IsOpen(g.ops[id]))
            && (r.Ok? ==> r.value.0 == g.(ops := g.ops[id := g.ops[id].(status := Cancelled)]))
  {
  }

  /** Past its expiry any operation that has not been executed or expired becomes Expired; before it none does. */
  lemma ExpiresExactlyWhen(g: GovState, id: nat)
    ensures var r := Governance.Expire(g, id);
            && (r.Ok? <==> id in g.ops)
            && (r.Ok? ==>
                  var op := g.ops[id];
                  && (r.value.1 <==> op.expiresAt < g.now && (IsOpen(op) || op.status == Cancelled))
                  && r.value.0 == if r.value.1 then g.(ops := g.ops[id := op.(status := Expired)]) else g)
  {
  }

  // ----- the signer set -----

  lemma {:induction false} WithoutAbsent(signers: seq<Address>, target: Address)
    requires target !in signers
    ensures Without(signers, target) == signers
  {
    if signers != [] {
      WithoutAbsent(signers[..|signers| - 1], target);
    }
  }

  lemma {:induction false} WithoutOne(before: seq<Address>, target: Address, after: seq<Address>)
    requires target !in before && target !in after
    ensures Without(before + [target] + after, target) == before + after
  {
    var n := |after| - 1;
    if after == [] {
      assert before + [target] + [] == before + [target] && before + [] == before;
      WithoutLast(before, target, target);
      WithoutAbsent(before, target);
    } else {
      WithoutOne(before, target, after[..n]);
      assert before + [target] + after == before + [target] + after[..n] + [after[n]];
      WithoutLast(before + [target] + after[..n], after[n], target);
      assert before + after[..n] + [after[n]] == before + after;
    }
  }

  /** A newcomer is appended; a signer already there changes nothing. */
  lemma AddsExactly(g: GovState, signer: Address)
    ensures Governance.ApplyAddSigner(g, signer)
         == Ok((if signer in g.signers then g else g.(signers := g.signers + [signer]), ()))
  {
  }

  /** A signer can be removed if and only if those left can still meet the threshold, and they keep their order. */
  lemma RemovesExactlyWhen(g: GovState, before: seq<Address>, target: Address, after: seq<Address>)
    requires Sound(g) && g.signers == before + [target] + after
    ensures var r := Governance.ApplyRemoveSigner(g, target);
            && (r.Ok? <==> |before| + |after| >= g.threshold)
            && (r.Ok? ==> r.value.0 == g.(signers := before + after))
  {
    assert g.signers[|before|] == target;
    forall x | x in before || x in after ensures x != target {
      if x in before {
        var i :| 0 <= i < |before| && before[i] == x;
        assert g.signers[i] == x;
      } else {
        var i :| 0 <= i < |after| && after[i] == x;
        assert g.signers[|before| + 1 + i] == x;
      }
    }
    WithoutOne(before, target, after);
  }

  lemma RemovingAStranger(g: GovState, target: Address)
    requires Sound(g) && g.signers != [] && target !in g.signers
    ensures Governance.ApplyRemoveSigner(g, target) == Ok((g, ()))
  {
    WithoutAbsent(g.signers, target);
  }

  lemma SetsThresholdExactlyWhen(g: GovState, threshold: nat)
    ensures var r := Governance.ApplySetThreshold(g, threshold);
            && (r.Ok? <==> 1 <= threshold <= |g.signers|)
            && (r.Ok? ==> r.value.0 == g.(threshold := threshold))
  {
  }

  // ----- runs that execute in time -----

  /** A lone signer's proposal is executed the moment it is made. */
  lemma ExecutesOnTime(signer: Address)
    ensures var g := Run(Initial([signer], 0), [R.Propose(signer, SetTvlCap(0))]);
            && 1 in g.ops && g.ops[1].status == Ready && g.now <= g.ops[1].expiresAt
            && var h := Step(g, R.Execute(signer, 1));
            1 in h.ops && h.ops[1].status == Executed && Governance.Execute(h, signer, 1).Err?
  {
    var start := Initial([signer], 0);
    RunOne(start, [], R.Propose(signer, SetTvlCap(0)));
    assert [] + [R.Propose(signer, SetTvlCap(0))] == [R.Propose(signer, SetTvlCap(0))];
  }

  const ALLOWLIST_ON: OpType := UpdateParameter(ALLOWLIST_PARAMETER, 1)

  /** Three signers agree to turn the allowlist on. */
  const AGREED: seq<Action> :=
    [R.Propose(Address(1), ALLOWLIST_ON), R.Vote(Address(2), 1, true), R.Vote(Address(3), 1, true)]

  predicate AllowlistAgreed(g: GovState, count: nat, now: nat) {
    && g.signers == THREE_SIGNERS && g.threshold == 2 && g.now == now && !g.allowlistEnabled && 1 in g.ops
    && g.ops[1].opType == ALLOWLIST_ON && g.ops[1].proposedAt == 0 && g.ops[1].expiresAt == 259_200
    && g.ops[1].sigCount == count && g.ops[1].status == (if count >= 3 then Ready else Pending)
    && (forall v | v in g.votes :: v.1.id <= count)
  }

  lemma OneAgrees(g: GovState)
    requires g == Initial(THREE_SIGNERS, 0)
    ensures AllowlistAgreed(Step(g, R.Propose(Address(1), ALLOWLIST_ON)), 1, 0)
  {
  }

  lemma AnotherAgrees(g: GovState, k: nat)
    requires 1 <= k <= 2 && AllowlistAgreed(g, k, 0)
    ensures AllowlistAgreed(Step(g, R.Vote(Address(k + 1), 1, true)), k + 1, 0)
  {
    assert Address(k + 1) == THREE_SIGNERS[k];
  }

  lemma DueAfterADay(g: GovState)
    requires AllowlistAgreed(g, 3, 0)
    ensures !Step(Step(g, R.Advance(86_399)), R.Execute(Address(1), 1)).allowlistEnabled
    ensures Step(Step(g, R.Advance(86_400)), R.Execute(Address(1), 1)).allowlistEnabled
  {
    assert Address(1) == THREE_SIGNERS[0];
    ExecutesExactlyWhen(Step(g, R.Advance(86_399)), Address(1), 1);
    ExecutesExactlyWhen(Step(g, R.Advance(86_400)), Address(1), 1);
  }

  /** An agreed allowlist change takes effect a day after it was proposed, and not a second sooner. */
  lemma AllowlistTurnsOn()
    ensures var g := Run(Initial(THREE_SIGNERS, 0), AGREED);
            && !Step(Step(g, R.Advance(86_399)), R.Execute(Address(1), 1)).allowlistEnabled
            && Step(Step(g, R.Advance(86_400)), R.Execute(Address(1), 1)).allowlistEnabled
  {
    var start := Initial(THREE_SIGNERS, 0);
    OneAgrees(start);
    var run := Extend(start, [], R.Propose(Address(1), ALLOWLIST_ON));
    AnotherAgrees(Run(start, run), 1);
    run := Extend(start, run, R.Vote(Address(2), 1, true));
    AnotherAgrees(Run(start, run), 2);
    run := Extend(start, run, R.Vote(Address(3), 1, true));
    assert run == AGREED;
    DueAfterADay(Run(start, run));
  }
}

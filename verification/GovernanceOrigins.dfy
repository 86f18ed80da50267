/** Where proposals and roles come from: an execution carries out what was proposed. */
module GovernanceOrigins {
  import opened Host
  import opened Governance

  /** Governance starts with a threshold between one and the size of the admin list. */
  lemma InitializeSucceedsIff(admin: Address, threshold: U32, adminSet: seq<Address>)
    ensures Initialize(admin, threshold, adminSet).Ok? <==> 1 <= threshold <= |adminSet|
  {
  }

  /** At the start the listed addresses, and nobody else, hold a role: Admin. The parameters have their defaults,
      nothing is paused and nothing proposed. */
  lemma FirstState(start: State, who: Address, role: Role)
    requires Start(start)
    ensures (who, role) in start.roles <==> role == Admin && who in start.adminSet
    ensures start.params
         == map[AidDefaultExpiry := 604_800, TreasuryWithdrawalLimit := 100_000_000_000, ReferralTierBps(1) := 500,
                ReferralTierBps(2) := 250, ReferralTierBps(3) := 100, ReferralMaxTiers := 3,
                ReferralRewardCap := 10_000_000_000]
    ensures !start.paused && start.proposals == map[] && start.approvals == {} && start.proposalCount == 0
  {
  }

  /** The bounds of each parameter; a tier beyond ten has none and takes no value. */
  lemma InBoundsIff(key: ParameterKey, value: int)
    ensures InBounds(key, value) <==>
              match key
              case AidDefaultExpiry => 60 <= value <= 31_536_000
              case TreasuryWithdrawalLimit => 0 <= value <= 1_000_000_000_000_000_000
              case ReferralTierBps(tier) => 1 <= tier <= 10 && 0 <= value <= 10_000
              case ReferralMaxTiers => 1 <= value <= 10
              case ReferralRewardCap => 0 <= value <= 1_000_000_000_000_000_000
  {
  }

  lemma ProposeSucceedsIff(s: State, caller: Address, action: Action)
    ensures Propose(s, caller, action).Ok? <==> (caller, Admin) in s.roles && s.proposalCount < U64_MAX
  {
  }

  /** The call proposed this action under this id. */
  ghost predicate Proposes(s: State, call: Call, id: nat, p: Proposal) {
    && call.CallPropose? && IsAdmin(s, call.caller) && Apply(s, call).Ok?
    && Propose(s, call.caller, call.action).value.1 == id
    && p.id == id && p.action == call.action && p.proposer == call.caller
  }

  ghost predicate ProposedAt(start: State, calls: seq<Call>, i: nat, id: nat, p: Proposal) {
    i < |calls| && Proposes(Run(start, calls[..i]), calls[i], id, p)
  }

  /** A stored proposal keeps its id, its proposer and its action. */
  predicate SameProposal(p: Proposal, q: Proposal) {
    p.id == q.id && p.proposer == q.proposer && p.action == q.action
  }

  lemma StepKeepsProposal(s: State, call: Call, id: nat)
    requires id in Step(s, call).proposals
    ensures var p := Step(s, call).proposals[id];
            (id in s.proposals && SameProposal(s.proposals[id], p)) || Proposes(s, call, id, p)
  {
  }

  /** Over every run the action and the proposer of a stored proposal are those of the accepted call that returned its
      id, made by an admin. */
  lemma {:induction false} ProposalIsAsProposed(start: State, calls: seq<Call>, id: nat)
    requires Start(start) && id in Run(start, calls).proposals
    ensures exists i: nat :: ProposedAt(start, calls, i, id, Run(start, calls).proposals[id])
  {
    var n := |calls| - 1;
    var front, s := calls[..n], Run(start, calls[..n]);
    var p := Run(start, calls).proposals[id];
    StepKeepsProposal(s, calls[n], id);
    if Proposes(s, calls[n], id, p) {
      assert ProposedAt(start, calls, n, id, p);
    } else {
      ProposalIsAsProposed(start, front, id);
      var i: nat :| ProposedAt(start, front, i, id, s.proposals[id]);
      assert front[..i] == calls[..i];
      assert ProposedAt(start, calls, i, id, p);
    }
  }

  /** What carrying out an action leaves of roles, parameters and the pause flag. */
  ghost predicate CarriedOut(s: State, action: Action, s': State) {
    && (forall who: Address, role: Role :: (who, role) in s'.roles <==>
          ((who, role) in s.roles && action != DoRevokeRole(who, role)) || action == DoGrantRole(who, role))
    && s'.params == (if action.DoSetParameter? then s.params[action.key := action.value] else s.params)
    && s'.paused == (action == DoPause || (s.paused && action != DoUnpause))
  }

  lemma ExecutionDoes(s: State, call: Call, id: nat)
    requires Executes(s, call, id)
    ensures id in s.proposals && CarriedOut(s, s.proposals[id].action, Step(s, call))
  {
  }

  /** Over every run an execution does exactly what the accepted call that returned the id proposed. */
  lemma ExecutesAsProposed(start: State, calls: seq<Call>, call: Call, id: nat)
    requires Start(start) && Executes(Run(start, calls), call, id)
    ensures id in Run(start, calls).proposals
    ensures exists i: nat ::
              && ProposedAt(start, calls, i, id, Run(start, calls).proposals[id])
              && CarriedOut(Run(start, calls), calls[i].action, Step(Run(start, calls), call))
  {
    ExecutionDoes(Run(start, calls), call, id);
    ProposalIsAsProposed(start, calls, id);
    var i: nat :| ProposedAt(start, calls, i, id, Run(start, calls).proposals[id]);
  }
}

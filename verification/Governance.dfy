/** Multi-signature governance: roles, parameters and proposals. */
module Governance {
  import opened Host
  import opened Errors

  datatype Role = Admin | Upgrader | TreasuryManager | Pauser | ReferralManager | OracleSigner

  datatype ParameterKey =
    | AidDefaultExpiry
    | TreasuryWithdrawalLimit
    | ReferralTierBps(tier: U32)
    | ReferralMaxTiers
    | ReferralRewardCap

  datatype Action =
    | DoGrantRole(user: Address, role: Role)
    | DoRevokeRole(user: Address, role: Role)
    | DoSetParameter(key: ParameterKey, value: int)
    | DoPause
    | DoUnpause

  datatype Status = Pending | Executed

  datatype Proposal = Proposal(id: nat, proposer: Address, action: Action, approvalCount: nat, status: Status)

  datatype State = State(
    admin: Address,
    threshold: nat,
    adminSet: seq<Address>,
    roles: set<(Address, Role)>,
    params: map<ParameterKey, int>,
    paused: bool,
    proposalCount: nat,
    proposals: map<nat, Proposal>,
    approvals: set<(nat, Address)>)

  // -------------------------------------------------------------------------
  // Parameters
  // -------------------------------------------------------------------------

  datatype Bounds = Bounds(min: int, max: int)

  function BoundsFor(key: ParameterKey): Option<Bounds> {
    match key
    case AidDefaultExpiry => Some(Bounds(60, 31_536_000))
    case TreasuryWithdrawalLimit => Some(Bounds(0, 1_000_000_000_000_000_000))
    case ReferralTierBps(tier) => if tier == 0 || tier > 10 then None else Some(Bounds(0, 10_000))
    case ReferralMaxTiers => Some(Bounds(1, 10))
    case ReferralRewardCap => Some(Bounds(0, 1_000_000_000_000_000_000))
  }

  predicate InBounds(key: ParameterKey, value: int) {
    BoundsFor(key).Some? && BoundsFor(key).value.min <= value <= BoundsFor(key).value.max
  }

  function WriteParam(s: State, key: ParameterKey, value: int): Result<State, Error> {
    var _ :- Need(InBounds(key, value), InvalidArgument);
    Ok(s.(params := s.params[key := value]))
  }

  function Defaults(): map<ParameterKey, int> {
    map[AidDefaultExpiry := 604_800,
        TreasuryWithdrawalLimit := 100_000_000_000,
        ReferralTierBps(1) := 500,
        ReferralTierBps(2) := 250,
        ReferralTierBps(3) := 100,
        ReferralMaxTiers := 3,
        ReferralRewardCap := 10_000_000_000]
  }

  // -------------------------------------------------------------------------
  // Entry points as state changes
  // -------------------------------------------------------------------------

  predicate IsAdmin(s: State, who: Address) { (who, Admin) in s.roles }

  /** The Admin role for every listed address. */
  function AdminRoles(adminSet: seq<Address>): set<(Address, Role)> {
    set a | a in adminSet :: (a, Admin)
  }

  function Initialize(admin: Address, threshold: U32, adminSet: seq<Address>): Result<State, Error> {
    var _ :- Need(threshold >= 1, InvalidArgument);
    var _ :- Need(|adminSet| >= threshold, InvalidArgument);
    Ok(State(admin, threshold, adminSet, AdminRoles(adminSet), Defaults(), false, 0, map[], {}))
  }

  function GrantRole(s: State, caller: Address, user: Address, role: Role): Result<State, Error> {
    var _ :- Need(IsAdmin(s, caller), Unauthorized);
    Ok(s.(roles := s.roles + {(user, role)}))
  }

  function RevokeRole(s: State, caller: Address, user: Address, role: Role): Result<State, Error> {
    var _ :- Need(IsAdmin(s, caller), Unauthorized);
    Ok(s.(roles := s.roles - {(user, role)}))
  }

  function SetAdminSet(s: State, caller: Address, adminSet: seq<Address>, threshold: U32): Result<State, Error> {
    var _ :- Need(IsAdmin(s, caller), Unauthorized);
    var _ :- Need(threshold >= 1 && |adminSet| >= threshold, InvalidArgument);
    Ok(s.(threshold := threshold, adminSet := adminSet))
  }

  function Propose(s: State, caller: Address, action: Action): Result<(State, nat), Error> {
    var _ :- Need(IsAdmin(s, caller), Unauthorized);
    var _ :- Need(s.proposalCount + 1 <= U64_MAX, Overflow);
    var id := s.proposalCount + 1;
    Ok((s.(proposalCount := id, proposals := s.proposals[id := Proposal(id, caller, action, 0, Pending)]), id))
  }

  function Approve(s: State, caller: Address, id: nat): Result<State, Error> {
    var _ :- Need(IsAdmin(s, caller), Unauthorized);
    var p :- Get(s.proposals, id).OkOr(ProposalNotFound);
    var _ :- Need(p.status == Pending, AlreadyExecuted);
    var _ :- Need((id, caller) !in s.approvals, AlreadyApproved);
    var _ :- Need(p.approvalCount + 1 <= U32_MAX, Overflow);
    Ok(s.(approvals := s.approvals + {(id, caller)},
          proposals := s.proposals[id := p.(approvalCount := p.approvalCount + 1)]))
  }

  function ExecuteAction(s: State, action: Action): Result<State, Error> {
    match action
    case DoGrantRole(user, role) => Ok(s.(roles := s.roles + {(user, role)}))
    case DoRevokeRole(user, role) => Ok(s.(roles := s.roles - {(user, role)}))
    case DoSetParameter(key, value) => WriteParam(s, key, value)
    case DoPause => Ok(s.(paused := true))
    case DoUnpause => Ok(s.(paused := false))
  }

  function Execute(s: State, caller: Address, id: nat): Result<State, Error> {
    var _ :- Need(IsAdmin(s, caller), Unauthorized);
    var p :- Get(s.proposals, id).OkOr(ProposalNotFound);
    var _ :- Need(p.status != Executed, AlreadyExecuted);
    var _ :- Need(p.approvalCount >= s.threshold, BelowThreshold);
    var done :- ExecuteAction(s, p.action);
    Ok(done.(proposals := done.proposals[id := p.(status := Executed)]))
  }

  function SetParam(s: State, caller: Address, key: ParameterKey, value: I128): Result<State, Error> {
    var _ :- Need(caller == s.admin, Unauthorized);
    WriteParam(s, key, value)
  }

  // -------------------------------------------------------------------------
  // Runs
  // -------------------------------------------------------------------------

  datatype Call =
    | CallGrantRole(caller: Address, user: Address, role: Role)
    | CallRevokeRole(caller: Address, user: Address, role: Role)
    | CallSetAdminSet(caller: Address, adminSet: seq<Address>, threshold: U32)
    | CallPropose(caller: Address, action: Action)
    | CallApprove(caller: Address, id: nat)
    | CallExecute(caller: Address, id: nat)
    | CallSetParam(caller: Address, key: ParameterKey, value: I128)

  function Apply(s: State, call: Call): Result<State, Error> {
    match call
    case CallGrantRole(caller, user, role) => GrantRole(s, caller, user, role)
    case CallRevokeRole(caller, user, role) => RevokeRole(s, caller, user, role)
    case CallSetAdminSet(caller, adminSet, threshold) => SetAdminSet(s, caller, adminSet, threshold)
    case CallPropose(caller, action) => var r :- Propose(s, caller, action); Ok(r.0)
    case CallApprove(caller, id) => Approve(s, caller, id)
    case CallExecute(caller, id) => Execute(s, caller, id)
    case CallSetParam(caller, key, value) => SetParam(s, caller, key, value)
  }

  ghost function Step(s: State, call: Call): State { After(s, Apply(s, call)) }

  ghost function Run(s: State, calls: seq<Call>): State {
    if calls == [] then s else Step(Run(s, calls[..|calls| - 1]), calls[|calls| - 1])
  }

  ghost predicate Start(s: State) {
    0 <= s.threshold <= U32_MAX && Initialize(s.admin, s.threshold, s.adminSet) == Ok(s)
  }

  // -------------------------------------------------------------------------
  // The invariant
  // -------------------------------------------------------------------------

  /** The distinct addresses on record as having approved a proposal. */
  function Approvers(s: State, id: nat): set<Address> {
    set p | p in s.approvals && p.0 == id :: p.1
  }

  ghost predicate CountsExact(s: State) {
    forall id: nat :: id in s.proposals ==> s.proposals[id].approvalCount == |Approvers(s, id)|
  }

  ghost predicate Inv(s: State) {
    && 1 <= s.threshold <= |s.adminSet|
    && (forall key: ParameterKey :: key in s.params ==> InBounds(key, s.params[key]))
    && (forall id: nat :: id in s.proposals <==> 1 <= id <= s.proposalCount)
    && (forall p: (nat, Address) :: p in s.approvals ==> p.0 in s.proposals)
    && CountsExact(s)
  }

  lemma ApproversAfter(s: State, s': State, id: nat, who: Address, other: nat)
    requires s'.approvals == s.approvals + {(id, who)}
    ensures Approvers(s', other) == if other == id then Approvers(s, id) + {who} else Approvers(s, other)
  {
  }

  lemma ApproveKeepsInv(s: State, caller: Address, id: nat)
    requires Inv(s) && Approve(s, caller, id).Ok?
    ensures Inv(Approve(s, caller, id).value)
  {
    var s' := Approve(s, caller, id).value;
    assert caller !in Approvers(s, id);
    forall k: nat | k in s'.proposals ensures s'.proposals[k].approvalCount == |Approvers(s', k)| {
      ApproversAfter(s, s', id, caller, k);
    }
  }

  lemma ProposeKeepsInv(s: State, caller: Address, action: Action)
    requires Inv(s) && Propose(s, caller, action).Ok?
    ensures Inv(Propose(s, caller, action).value.0)
  {
    var (s', id) := Propose(s, caller, action).value;
    assert Approvers(s, id) == {};
    assert forall k: nat :: Approvers(s', k) == Approvers(s, k);
  }

  lemma SameApprovalsKeepInv(s: State, s': State)
    requires Inv(s) && s'.approvals == s.approvals && s'.proposalCount == s.proposalCount
    requires s'.proposals.Keys == s.proposals.Keys
    requires forall id: nat :: id in s.proposals ==> s'.proposals[id].approvalCount == s.proposals[id].approvalCount
    requires 1 <= s'.threshold <= |s'.adminSet|
    requires forall key: ParameterKey :: key in s'.params ==> InBounds(key, s'.params[key])
    ensures Inv(s')
  {
    assert forall k: nat :: Approvers(s', k) == Approvers(s, k);
  }

  lemma ExecuteKeepsInv(s: State, caller: Address, id: nat)
    requires Inv(s) && Execute(s, caller, id).Ok?
    ensures Inv(Execute(s, caller, id).value)
  {
    var done := ExecuteAction(s, s.proposals[id].action).value;
    assert done.proposals == s.proposals && done.approvals == s.approvals && done.proposalCount == s.proposalCount;
    SameApprovalsKeepInv(s, Execute(s, caller, id).value);
  }

  lemma StepKeepsInv(s: State, call: Call)
    requires Inv(s)
    ensures Inv(Step(s, call))
  {
    if Apply(s, call).Ok? {
      if call.CallApprove? {
        ApproveKeepsInv(s, call.caller, call.id);
      } else if call.CallPropose? {
        ProposeKeepsInv(s, call.caller, call.action);
      } else if call.CallExecute? {
        ExecuteKeepsInv(s, call.caller, call.id);
      } else {
        SameApprovalsKeepInv(s, Step(s, call));
      }
    }
  }

  /** Over every run: the threshold stays between one and the size of the admin list, every stored parameter
      lies within its bounds, and each approval count is the number of distinct approvers on record. */
  lemma {:induction false} ReachableInv(start: State, calls: seq<Call>)
    requires Start(start)
    ensures Inv(Run(start, calls))
  {
    if calls != [] {
      ReachableInv(start, calls[..|calls| - 1]);
      StepKeepsInv(Run(start, calls[..|calls| - 1]), calls[|calls| - 1]);
    }
  }

  // -------------------------------------------------------------------------
  // Execution
  // -------------------------------------------------------------------------

  predicate Approves(s: State, call: Call, id: nat) {
    call.CallApprove? && call.id == id && Apply(s, call).Ok?
  }

  predicate Executes(s: State, call: Call, id: nat) {
    call.CallExecute? && call.id == id && Apply(s, call).Ok?
  }

  /** A proposal goes through exactly when an admin asks, it is still pending, enough distinct addresses have
      approved it, and a parameter it sets is within bounds. */
  lemma ExecuteSucceedsIff(s: State, caller: Address, id: nat)
    requires Inv(s)
    ensures Execute(s, caller, id).Ok? <==>
              && IsAdmin(s, caller) && id in s.proposals && s.proposals[id].status == Pending
              && |Approvers(s, id)| >= s.threshold
              && (s.proposals[id].action.DoSetParameter? ==>
                    InBounds(s.proposals[id].action.key, s.proposals[id].action.value))
  {
  }

  /** Whether an approval counts depends on the Admin role alone; the admin list does not come into it. */
  lemma ApproveSucceedsIff(s: State, caller: Address, id: nat)
    requires Inv(s)
    ensures Approve(s, caller, id).Ok? <==>
              && IsAdmin(s, caller) && id in s.proposals && s.proposals[id].status == Pending
              && caller !in Approvers(s, id) && |Approvers(s, id)| < U32_MAX
  {
    assert caller in Approvers(s, id) <==> (id, caller) in s.approvals;
  }

  /** The addresses whose approvals of a proposal went through during a run. */
  ghost function ApprovedBy(start: State, calls: seq<Call>, id: nat): set<Address> {
    if calls == [] then {}
    else
      ApprovedBy(start, calls[..|calls| - 1], id)
      + if Approves(Run(start, calls[..|calls| - 1]), calls[|calls| - 1], id) then {calls[|calls| - 1].caller} else {}
  }

  lemma StepApprovers(s: State, call: Call, id: nat)
    ensures Approvers(Step(s, call), id) == Approvers(s, id) + if Approves(s, call, id) then {call.caller} else {}
  {
    if call.CallApprove? && Apply(s, call).Ok? {
      ApproversAfter(s, Step(s, call), call.id, call.caller, id);
    }
  }

  /** The record of approvers is the history of approvals: nobody is added or removed otherwise. */
  lemma {:induction false} ApproversAreThoseWhoApproved(start: State, calls: seq<Call>, id: nat)
    requires Start(start)
    ensures Approvers(Run(start, calls), id) == ApprovedBy(start, calls, id)
  {
    if calls != [] {
      ApproversAreThoseWhoApproved(start, calls[..|calls| - 1], id);
      StepApprovers(Run(start, calls[..|calls| - 1]), calls[|calls| - 1], id);
    }
  }

  /** One approval in a run: made by this address, accepted, and while it held the Admin role. */
  ghost predicate ApprovedAsAdmin(start: State, calls: seq<Call>, i: nat, id: nat, who: Address) {
    && i < |calls| && Approves(Run(start, calls[..i]), calls[i], id)
    && calls[i].caller == who && IsAdmin(Run(start, calls[..i]), who)
  }

  lemma {:induction false} EachApprovedAsAdmin(start: State, calls: seq<Call>, id: nat, who: Address)
    requires who in ApprovedBy(start, calls, id)
    ensures exists i: nat :: ApprovedAsAdmin(start, calls, i, id, who)
  {
    var n := |calls| - 1;
    var front := calls[..n];
    if who in ApprovedBy(start, front, id) {
      EachApprovedAsAdmin(start, front, id, who);
      var i: nat :| ApprovedAsAdmin(start, front, i, id, who);
      assert front[..i] == calls[..i];
      assert ApprovedAsAdmin(start, calls, i, id, who);
    } else {
      assert ApprovedAsAdmin(start, calls, n, id, who);
    }
  }

  /** The call names a new admin list and threshold, from an admin, with a threshold between one and the list's size. */
  predicate Appoints(s: State, call: Call) {
    call.CallSetAdminSet? && IsAdmin(s, call.caller) && 1 <= call.threshold <= |call.adminSet|
  }

  /** The threshold and the admin list that were named last, at the latest by the initialization. */
  ghost function LastNamed(start: State, calls: seq<Call>): (nat, seq<Address>) {
    if calls == [] then (start.threshold, start.adminSet)
    else
      var front, last := calls[..|calls| - 1], calls[|calls| - 1];
      if Appoints(Run(start, front), last) then (last.threshold, last.adminSet) else LastNamed(start, front)
  }

  lemma StepAppoints(s: State, call: Call)
    ensures var s' := Step(s, call);
            if Appoints(s, call) then s'.threshold == call.threshold && s'.adminSet == call.adminSet
            else s'.threshold == s.threshold && s'.adminSet == s.adminSet
  {
  }

  /** Over every run threshold and admin list are those named last. */
  lemma {:induction false} ThresholdIsLastNamed(start: State, calls: seq<Call>)
    requires Start(start)
    ensures (Run(start, calls).threshold, Run(start, calls).adminSet) == LastNamed(start, calls)
  {
    if calls != [] {
      ThresholdIsLastNamed(start, calls[..|calls| - 1]);
      StepAppoints(Run(start, calls[..|calls| - 1]), calls[|calls| - 1]);
    }
  }

  /** Whenever a proposal executes, at least as many distinct addresses as the last accepted call for it named have
      approved it before, each while holding the Admin role. */
  lemma ExecutionNeedsThreshold(start: State, calls: seq<Call>, call: Call, id: nat)
    requires Start(start) && Executes(Run(start, calls), call, id)
    ensures |ApprovedBy(start, calls, id)| >= LastNamed(start, calls).0 >= 1
    ensures forall who: Address :: who in ApprovedBy(start, calls, id) ==>
              exists i: nat :: ApprovedAsAdmin(start, calls, i, id, who)
  {
    ReachableInv(start, calls);
    ThresholdIsLastNamed(start, calls);
    ExecuteSucceedsIff(Run(start, calls), call.caller, id);
    ApproversAreThoseWhoApproved(start, calls, id);
    forall who: Address | who in ApprovedBy(start, calls, id)
      ensures exists i: nat :: ApprovedAsAdmin(start, calls, i, id, who)
    {
      EachApprovedAsAdmin(start, calls, id, who);
    }
  }

  ghost function ExecutionCount(start: State, calls: seq<Call>, id: nat): nat {
    if calls == [] then 0
    else
      ExecutionCount(start, calls[..|calls| - 1], id)
      + if Executes(Run(start, calls[..|calls| - 1]), calls[|calls| - 1], id) then 1 else 0
  }

  predicate Done(s: State, id: nat) { id in s.proposals && s.proposals[id].status == Executed }

  lemma DoneAfterStep(s: State, call: Call, id: nat)
    requires Inv(s)
    ensures Executes(s, call, id) ==> !Done(s, id)
    ensures Done(Step(s, call), id) <==> Done(s, id) || Executes(s, call, id)
  {
  }

  /** Over every run a proposal has executed once if it is marked so, and not at all otherwise. */
  lemma {:induction false} ExecutesOnce(start: State, calls: seq<Call>, id: nat)
    requires Start(start)
    ensures ExecutionCount(start, calls, id) == if Done(Run(start, calls), id) then 1 else 0
  {
    if calls != [] {
      ExecutesOnce(start, calls[..|calls| - 1], id);
      ReachableInv(start, calls[..|calls| - 1]);
      DoneAfterStep(Run(start, calls[..|calls| - 1]), calls[|calls| - 1], id);
    }
  }

  // -------------------------------------------------------------------------
  // Who can change what
  // -------------------------------------------------------------------------

  /** Whether a call carries out a given action by executing a proposal for it. */
  predicate CarriesOut(s: State, call: Call, action: Action) {
    call.CallExecute? && Executes(s, call, call.id) && s.proposals[call.id].action == action
  }

  /** A role is gained in one call exactly by an admin's grant or an executed proposal for it, and lost exactly by an
      admin's revocation or an executed proposal for that. */
  lemma RolesChangeExactlyBy(s: State, call: Call, user: Address, role: Role)
    ensures (user, role) !in s.roles ==>
              ((user, role) in Step(s, call).roles <==>
                 || (call.CallGrantRole? && IsAdmin(s, call.caller) && call.user == user && call.role == role)
                 || CarriesOut(s, call, DoGrantRole(user, role)))
    ensures (user, role) in s.roles ==>
              ((user, role) !in Step(s, call).roles <==>
                 || (call.CallRevokeRole? && IsAdmin(s, call.caller) && call.user == user && call.role == role)
                 || CarriesOut(s, call, DoRevokeRole(user, role)))
  {
  }

  /** The pause flag is set and cleared by executed proposals only. */
  lemma PauseChangesExactlyBy(s: State, call: Call)
    ensures !s.paused ==> (Step(s, call).paused <==> CarriesOut(s, call, DoPause))
    ensures s.paused ==> (!Step(s, call).paused <==> CarriesOut(s, call, DoUnpause))
  {
  }

  /** A parameter takes a new value in one call exactly when the governance admin sets it within bounds or a proposal
      that sets it is executed. */
  lemma ParametersChangeExactlyBy(s: State, call: Call, key: ParameterKey, value: int)
    requires Get(s.params, key) != Some(value)
    ensures Get(Step(s, call).params, key) == Some(value) <==>
              || (call.CallSetParam? && call.caller == s.admin && call.key == key && call.value == value
                  && InBounds(key, value))
              || CarriesOut(s, call, DoSetParameter(key, value))
  {
  }

  /** A run in which the one approval that carries a proposal comes from outside the admin list: the list is
      replaced, but the role granted with the old one stays. */
  lemma ApproverOutsideAdminSet(first: Address, second: Address)
    requires first != second
    ensures var start := Initialize(first, 1, [first]).value;
            var calls := [CallSetAdminSet(first, [second], 1), CallPropose(first, DoPause), CallApprove(first, 1)];
            && Start(start) && Executes(Run(start, calls), CallExecute(first, 1), 1)
            && ApprovedBy(start, calls, 1) == {first} && first !in Run(start, calls).adminSet
  {
    var start := Initialize(first, 1, [first]).value;
    var calls := [CallSetAdminSet(first, [second], 1), CallPropose(first, DoPause), CallApprove(first, 1)];
    assert calls[..3] == calls && calls[..2][..1] == calls[..1] && calls[..1][..0] == [];
    var s1 := start.(adminSet := [second]);
    assert (first, Admin) in start.roles;
    assert Run(start, calls[..1]) == s1;
    var s2 := Propose(s1, first, DoPause).value.0;
    assert Run(start, calls[..2]) == s2;
    assert ApprovedBy(start, calls[..1], 1) == {} && ApprovedBy(start, calls[..2], 1) == {};
    assert Approve(s2, first, 1).Ok?;
  }
}

/** The governance contract's storage and entry points. */
module GovernanceContract {
  import opened Host
  import opened Errors
  import Spec = Governance

  class Governance {
    var admin: Address
    var threshold: nat
    var adminSet: seq<Address>
    var roles: set<(Address, Spec.Role)>
    var params: map<Spec.ParameterKey, int>
    var paused: bool
    var proposalCount: nat
    var proposals: map<nat, Spec.Proposal>
    var approvals: set<(nat, Address)>

    function View(): Spec.State
      reads this
    {
      Spec.State(admin, threshold, adminSet, roles, params, paused, proposalCount, proposals, approvals)
    }

    /** Grants the Admin role to each listed address in turn and seeds the parameters. */
    constructor (owner: Address, needed: U32, admins: seq<Address>)
      requires 1 <= needed <= |admins|
      ensures Spec.Initialize(owner, needed, admins) == Ok(View())
    {
      admin, threshold, adminSet := owner, needed, admins;
      roles, params, paused := {}, map[], false;
      proposalCount, proposals, approvals := 0, map[], {};
      new;
      var i := 0;
      while i < |admins|
        invariant 0 <= i <= |admins|
        invariant roles == Spec.AdminRoles(admins[..i])
        invariant admin == owner && threshold == needed && adminSet == admins && params == map[] && !paused
        invariant proposalCount == 0 && proposals == map[] && approvals == {}
      {
        assert admins[..i + 1] == admins[..i] + [admins[i]];
        roles := roles + {(admins[i], Spec.Admin)};
        i := i + 1;
      }
      assert admins[..|admins|] == admins;
      SeedDefaults();
    }

    method WriteParam(key: Spec.ParameterKey, value: int)
      modifies this`params
      ensures params == old(params)[key := value]
    {
      params := params[key := value];
    }

    method SeedDefaults()
      requires params == map[]
      modifies this`params
      ensures params == Spec.Defaults()
    {
      WriteParam(Spec.AidDefaultExpiry, 604_800);
      WriteParam(Spec.TreasuryWithdrawalLimit, 100_000_000_000);
      WriteParam(Spec.ReferralTierBps(1), 500);
      WriteParam(Spec.ReferralTierBps(2), 250);
      WriteParam(Spec.ReferralTierBps(3), 100);
      WriteParam(Spec.ReferralMaxTiers, 3);
      WriteParam(Spec.ReferralRewardCap, 10_000_000_000);
    }

    method GrantRole(caller: Address, user: Address, role: Spec.Role) returns (r: Result<(), Error>)
      modifies this
      ensures Refines(Spec.GrantRole(old(View()), caller, user, role), old(View()), r, View())
    {
      var _ :- Need((caller, Spec.Admin) in roles, Unauthorized);
      roles := roles + {(user, role)};
      return Ok(());
    }

    method RevokeRole(caller: Address, user: Address, role: Spec.Role) returns (r: Result<(), Error>)
      modifies this
      ensures Refines(Spec.RevokeRole(old(View()), caller, user, role), old(View()), r, View())
    {
      var _ :- Need((caller, Spec.Admin) in roles, Unauthorized);
      roles := roles - {(user, role)};
      return Ok(());
    }

    method SetAdminSet(caller: Address, newSet: seq<Address>, newThreshold: U32) returns (r: Result<(), Error>)
      modifies this
      ensures Refines(Spec.SetAdminSet(old(View()), caller, newSet, newThreshold), old(View()), r, View())
    {
      var _ :- Need((caller, Spec.Admin) in roles, Unauthorized);
      if newThreshold < 1 || |newSet| < newThreshold {
        return Err(InvalidArgument);
      }
      threshold := newThreshold;
      adminSet := newSet;
      return Ok(());
    }

    method Propose(caller: Address, action: Spec.Action) returns (r: Result<nat, Error>)
      modifies this
      ensures RefinesWith(Spec.Propose(old(View()), caller, action), old(View()), r, View())
    {
      var _ :- Need((caller, Spec.Admin) in roles, Unauthorized);
      if proposalCount + 1 > U64_MAX {
        return Err(Overflow);
      }
      proposalCount := proposalCount + 1;
      proposals := proposals[proposalCount := Spec.Proposal(proposalCount, caller, action, 0, Spec.Pending)];
      return Ok(proposalCount);
    }

    method Approve(caller: Address, id: nat) returns (r: Result<(), Error>)
      modifies this
      ensures Refines(Spec.Approve(old(View()), caller, id), old(View()), r, View())
    {
      var _ :- Need((caller, Spec.Admin) in roles, Unauthorized);
      var proposal :- Get(proposals, id).OkOr(ProposalNotFound);
      var _ :- Need(proposal.status == Spec.Pending, AlreadyExecuted);
      var _ :- Need((id, caller) !in approvals, AlreadyApproved);
      var before := approvals;
      approvals := approvals + {(id, caller)};
      if proposal.approvalCount + 1 > U32_MAX {
        approvals := before;
        return Err(Overflow);
      }
      proposal := proposal.(approvalCount := proposal.approvalCount + 1);
      proposals := proposals[id := proposal];
      return Ok(());
    }

    method ExecuteAction(action: Spec.Action) returns (r: Result<(), Error>)
      modifies this
      ensures Refines(Spec.ExecuteAction(old(View()), action), old(View()), r, View())
    {
      match action {
        case DoGrantRole(user, role) => roles := roles + {(user, role)};
        case DoRevokeRole(user, role) => roles := roles - {(user, role)};
        case DoSetParameter(key, value) =>
          var _ :- Need(Spec.InBounds(key, value), InvalidArgument);
          WriteParam(key, value);
        case DoPause => paused := true;
        case DoUnpause => paused := false;
      }
      return Ok(());
    }

    method Execute(caller: Address, id: nat) returns (r: Result<(), Error>)
      modifies this
      ensures Refines(Spec.Execute(old(View()), caller, id), old(View()), r, View())
    {
      var _ :- Need((caller, Spec.Admin) in roles, Unauthorized);
      var proposal :- Get(proposals, id).OkOr(ProposalNotFound);
      if proposal.status == Spec.Executed {
        return Err(AlreadyExecuted);
      }
      if proposal.approvalCount < threshold {
        return Err(BelowThreshold);
      }
      r := ExecuteAction(proposal.action);
      if r.Ok? {
        proposal := proposal.(status := Spec.Executed);
        proposals := proposals[id := proposal];
      }
    }

    method SetParam(caller: Address, key: Spec.ParameterKey, value: I128) returns (r: Result<(), Error>)
      modifies this
      ensures Refines(Spec.SetParam(old(View()), caller, key, value), old(View()), r, View())
    {
      var _ :- Need(caller == admin, Unauthorized);
      var _ :- Need(Spec.InBounds(key, value), InvalidArgument);
      WriteParam(key, value);
      return Ok(());
    }
  }
}

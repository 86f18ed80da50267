/** The upgradeability contract's storage, its entry points and its history reader. */
module UpgradeabilityContract {
  import opened Host
  import opened Upgrades
  import Spec = Upgrades

  class Upgradeability {
    var admins: set<Address>
    var upgraders: set<Address>
    var registeredCount: nat
    var registry: map<Address, Entry>
    var byName: map<Symbol, Address>
    var proposalCount: nat
    var proposals: map<nat, Proposal>
    var pending: map<Address, nat>
    var history: map<(Address, nat), Record>

    ghost function View(): State
      reads this
    {
      State(admins, upgraders, registeredCount, registry, byName, proposalCount, proposals, pending, history)
    }

    constructor (admin: Address)
      ensures View() == Initialize(admin)
    {
      admins, upgraders := {admin}, {admin};
      registeredCount, proposalCount := 0, 0;
      registry, byName, proposals, pending, history := map[], map[], map[], map[], map[];
    }

    method RegisterContract(caller: Address, target: Address, name: Symbol, version: U32, hash: Hash)
      returns (r: Result<(), UpgradeError>)
      modifies this
      ensures Refines(Spec.RegisterContract(old(View()), caller, target, name, version, hash), old(View()), r, View())
    {
      var _ :- Need(caller in admins, NotUpgrader);
      var _ :- Need(version >= 1, InvalidWasmHash);
      var _ :- Need(name !in byName, ContractAlreadyRegistered);
      var _ :- Need(registeredCount < U64_MAX, HostPanic);
      registry := registry[target := Entry(name, version, hash, None)];
      byName := byName[name := target];
      registeredCount := registeredCount + 1;
      return Ok(());
    }

    method SetMigrationHook(caller: Address, target: Address, hook: Address) returns (r: Result<(), UpgradeError>)
      modifies this
      ensures Refines(Spec.SetMigrationHook(old(View()), caller, target, hook), old(View()), r, View())
    {
      var _ :- Need(caller in admins, NotUpgrader);
      var entry :- Get(registry, target).OkOr(ContractNotRegistered);
      entry := entry.(hook := Some(hook));
      registry := registry[target := entry];
      return Ok(());
    }

    method ProposeUpgrade(caller: Address, target: Address, newHash: Hash, newVersion: U32)
      returns (r: Result<nat, UpgradeError>)
      modifies this
      ensures RefinesWith(Spec.ProposeUpgrade(old(View()), caller, target, newHash, newVersion), old(View()), r, View())
    {
      var _ :- Need(caller in upgraders, NotUpgrader);
      var entry :- Get(registry, target).OkOr(ContractNotRegistered);
      if newVersion <= entry.version {
        return Err(NoChangeDetected);
      }
      if newHash == entry.hash {
        return Err(NoChangeDetected);
      }
      if target in pending {
        return Err(AlreadyPending);
      }
      var _ :- Need(proposalCount < U64_MAX, HostPanic);
      var id := proposalCount + 1;
      proposalCount := id;
      proposals := proposals[id := Proposal(id, target, newHash, newVersion, caller, false)];
      pending := pending[target := id];
      return Ok(id);
    }

    /** The registry entry is already overwritten when the second hook runs; should that hook
        fail, the host undoes the write with the rest of the call. */
    method ExecuteUpgrade(caller: Address, id: nat, preApproves: bool, postSucceeds: bool)
      returns (r: Result<(), UpgradeError>)
      modifies this
      ensures Refines(Spec.ExecuteUpgrade(old(View()), caller, id, preApproves, postSucceeds), old(View()), r, View())
    {
      var _ :- Need(caller in upgraders, NotUpgrader);
      var proposal :- Get(proposals, id).OkOr(ProposalNotFound);
      if proposal.executed {
        return Err(AlreadyExecuted);
      }
      var entry :- Get(registry, proposal.target).OkOr(ContractNotRegistered);
      if entry.hook.Some? && !preApproves {
        return Err(MigrationHookFailed);
      }
      var oldVersion, oldHash := entry.version, entry.hash;
      entry := entry.(version := proposal.newVersion, hash := proposal.newHash);
      var saved := registry;
      registry := registry[proposal.target := entry];
      if entry.hook.Some? && !postSucceeds {
        registry := saved;
        return Err(MigrationHookFailed);
      }
      proposals := proposals[id := proposal.(executed := true)];
      pending := pending - {proposal.target};
      history := history[(proposal.target, id) :=
        Record(proposal.target, oldVersion, proposal.newVersion, oldHash, proposal.newHash, caller)];
      return Ok(());
    }

    method CancelProposal(caller: Address, id: nat) returns (r: Result<(), UpgradeError>)
      modifies this
      ensures Refines(Spec.CancelProposal(old(View()), caller, id), old(View()), r, View())
    {
      var proposal :- Get(proposals, id).OkOr(ProposalNotFound);
      if proposal.executed {
        return Err(AlreadyExecuted);
      }
      var isProposer, isAdmin := proposal.proposer == caller, caller in admins;
      if !isProposer && !isAdmin {
        return Err(NotUpgrader);
      }
      pending := pending - {proposal.target};
      proposals := proposals - {id};
      return Ok(());
    }

    /** The most recent records of a registered contract, newest first. */
    method GetUpgradeHistory(target: Address, maxResults: U32) returns (records: seq<Record>)
      ensures target !in registry ==> records == []
      ensures target in registry ==>
                var all := History(View(), target);
                && |records| == Min(maxResults, |all|)
                && forall i :: 0 <= i < |records| ==> records[i] == all[|all| - 1 - i]
    {
      records := [];
      if target !in registry {
        return;
      }
      ghost var all := History(View(), target);
      var id := proposalCount;
      while id >= 1 && |records| < maxResults
        invariant 0 <= id <= proposalCount && |records| <= maxResults
        invariant |HistoryUpTo(history, target, id)| + |records| == |all|
        invariant HistoryUpTo(history, target, id) == all[..|all| - |records|]
        invariant forall i :: 0 <= i < |records| ==> records[i] == all[|all| - 1 - i]
        decreases id
      {
        if (target, id) in history {
          records := records + [history[(target, id)]];
        }
        id := id - 1;
      }
    }
  }
}

/** Where the entries and proposals of the upgrade registry come from, and when its calls go through. */
module UpgradesOrigins {
  import opened Host
  import opened Upgrades

  // -------------------------------------------------------------------------
  // When calls go through
  // -------------------------------------------------------------------------

  /** Some proposal for this contract has neither been executed nor cancelled. */
  ghost predicate HasOpen(s: State, target: Address) {
    exists id: nat :: id in s.proposals && !s.proposals[id].executed && s.proposals[id].target == target
  }

  /** An execution goes through exactly for an upgrader, on an open proposal, and with both hooks of the target agreeing
      if it has one: a hook that refuses or fails stops it. */
  lemma ExecuteSucceedsIff(s: State, caller: Address, id: nat, pre: bool, post: bool)
    requires Inv(s)
    ensures ExecuteUpgrade(s, caller, id, pre, post).Ok? <==>
              && caller in s.upgraders && id in s.proposals && !s.proposals[id].executed
              && (s.registry[s.proposals[id].target].hook == None || (pre && post))
  {
  }

  /** A proposal goes through exactly for an upgrader, on a registered contract without an open proposal, for a later
      version and another hash. */
  lemma ProposeSucceedsIff(s: State, caller: Address, target: Address, newHash: Hash, newVersion: U32)
    requires Inv(s)
    ensures ProposeUpgrade(s, caller, target, newHash, newVersion).Ok? <==>
              && caller in s.upgraders && target in s.registry && !HasOpen(s, target)
              && newVersion > s.registry[target].version && newHash != s.registry[target].hash
              && s.proposalCount < U64_MAX
  {
    if target in s.pending {
      assert s.pending[target] in s.proposals;
    }
    if HasOpen(s, target) {
      var id: nat :| id in s.proposals && !s.proposals[id].executed && s.proposals[id].target == target;
      assert s.pending[target] == id;
    }
  }

  predicate Registers(s: State, call: Call) {
    && call.Register? && call.caller in s.admins && call.version >= 1 && call.name !in s.byName
    && s.registeredCount < U64_MAX
  }

  /** Whose registrations and hooks are accepted, and what they leave in the registry; a name is given out once. */
  lemma RegistryChangesExactlyBy(s: State, call: Call, c: Address, name: Symbol)
    requires Inv(s) && !call.Execute?
    ensures Get(Step(s, call).registry, c) ==
              if Registers(s, call) && call.target == c then Some(Entry(call.name, call.version, call.hash, None))
              else if call.SetHook? && call.target == c && call.caller in s.admins && c in s.registry
              then Some(Entry(s.registry[c].name, s.registry[c].version, s.registry[c].hash, Some(call.hook)))
              else Get(s.registry, c)
    ensures name in Step(s, call).byName <==> name in s.byName || (Registers(s, call) && call.name == name)
    ensures Step(s, call).registeredCount == s.registeredCount + if Registers(s, call) then 1 else 0
    ensures Step(s, call).admins == s.admins && Step(s, call).upgraders == s.upgraders
  {
  }

  // -------------------------------------------------------------------------
  // Proposals are what was proposed
  // -------------------------------------------------------------------------

  /** The call is an accepted proposal under this id, with what is now stored under it. */
  ghost predicate Proposes(s: State, call: Call, id: nat, p: Proposal) {
    && call.Propose? && Apply(s, call).Ok?
    && ProposeUpgrade(s, call.caller, call.target, call.newHash, call.newVersion).value.1 == id
    && p.id == id && p.target == call.target && p.newHash == call.newHash && p.newVersion == call.newVersion
    && p.proposer == call.caller
  }

  ghost predicate ProposedAt(admin: Address, calls: seq<Call>, i: nat, id: nat, p: Proposal) {
    i < |calls| && Proposes(Run(Initialize(admin), calls[..i]), calls[i], id, p)
  }

  lemma StepKeepsProposal(s: State, call: Call, id: nat)
    requires id in Step(s, call).proposals
    ensures var p := Step(s, call).proposals[id];
            || (id in s.proposals && s.proposals[id] == p.(executed := s.proposals[id].executed))
            || Proposes(s, call, id, p)
  {
  }

  /** Over every run, target, hash, version and proposer of a stored proposal are those of the accepted call that
      returned its id. */
  lemma {:induction false} ProposalIsAsProposed(admin: Address, calls: seq<Call>, id: nat)
    requires id in Run(Initialize(admin), calls).proposals
    ensures exists i: nat :: ProposedAt(admin, calls, i, id, Run(Initialize(admin), calls).proposals[id])
  {
    var n := |calls| - 1;
    var front, s := calls[..n], Run(Initialize(admin), calls[..n]);
    var p := Run(Initialize(admin), calls).proposals[id];
    StepKeepsProposal(s, calls[n], id);
    if Proposes(s, calls[n], id, p) {
      assert ProposedAt(admin, calls, n, id, p);
    } else {
      ProposalIsAsProposed(admin, front, id);
      var i: nat :| ProposedAt(admin, front, i, id, s.proposals[id]);
      assert front[..i] == calls[..i];
      assert ProposedAt(admin, calls, i, id, p);
    }
  }

  /** The call proposed this version and this hash for this contract. */
  predicate ProposesUpgradeTo(call: Call, c: Address, version: U32, hash: Hash) {
    call.Propose? && call.target == c && call.newVersion == version && call.newHash == hash
  }

  /** Over every run, what an execution installs is what an earlier accepted call proposed under the same id. */
  lemma InstalledIsAsProposed(admin: Address, calls: seq<Call>, call: Call)
    requires call.Execute? && Apply(Run(Initialize(admin), calls), call).Ok?
    ensures var s := Run(Initialize(admin), calls);
            && call.id in s.proposals
            && exists i: nat ::
                 && ProposedAt(admin, calls, i, call.id, s.proposals[call.id])
                 && calls[i].target in Step(s, call).registry
                 && ProposesUpgradeTo(calls[i], calls[i].target, Step(s, call).registry[calls[i].target].version,
                                      Step(s, call).registry[calls[i].target].hash)
  {
    var s := Run(Initialize(admin), calls);
    ReachableInv(admin, calls);
    ProposalIsAsProposed(admin, calls, call.id);
    ExecuteAppends(s, call.caller, call.id, call.preApproves, call.postSucceeds, s.proposals[call.id].target);
    var i: nat :| ProposedAt(admin, calls, i, call.id, s.proposals[call.id]);
  }
}

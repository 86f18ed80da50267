/** The upgrade registry: one open proposal per contract and a linked history of upgrades. */
module Upgrades {
  import opened Host

  datatype UpgradeError =
    | ContractNotRegistered
    | ContractAlreadyRegistered
    | NoChangeDetected
    | ProposalNotFound
    | AlreadyExecuted
    | MigrationHookFailed
    | AlreadyPending
    | NotUpgrader
    | InvalidWasmHash
    | HostPanic

  type Hash = seq<bv8>

  datatype Entry = Entry(name: Symbol, version: U32, hash: Hash, hook: Option<Address>)

  datatype Proposal = Proposal(
    id: nat, target: Address, newHash: Hash, newVersion: U32, proposer: Address, executed: bool)

  datatype Record = Record(
    target: Address, oldVersion: U32, newVersion: U32, oldHash: Hash, newHash: Hash, executor: Address)

  datatype State = State(
    admins: set<Address>,
    upgraders: set<Address>,
    registeredCount: nat,
    registry: map<Address, Entry>,
    byName: map<Symbol, Address>,
    proposalCount: nat,
    proposals: map<nat, Proposal>,
    pending: map<Address, nat>,
    history: map<(Address, nat), Record>)

  // -------------------------------------------------------------------------
  // Entry points as state changes
  // -------------------------------------------------------------------------

  function Initialize(admin: Address): State {
    State({admin}, {admin}, 0, map[], map[], 0, map[], map[], map[])
  }

  function RegisterContract(s: State, caller: Address, target: Address, name: Symbol, version: U32, hash: Hash)
    : Result<State, UpgradeError>
  {
    var _ :- Need(caller in s.admins, NotUpgrader);
    var _ :- Need(version >= 1, InvalidWasmHash);
    var _ :- Need(name !in s.byName, ContractAlreadyRegistered);
    var _ :- Need(s.registeredCount < U64_MAX, HostPanic);
    Ok(s.(registry := s.registry[target := Entry(name, version, hash, None)],
          byName := s.byName[name := target],
          registeredCount := s.registeredCount + 1))
  }

  function SetMigrationHook(s: State, caller: Address, target: Address, hook: Address): Result<State, UpgradeError> {
    var _ :- Need(caller in s.admins, NotUpgrader);
    var entry :- Get(s.registry, target).OkOr(ContractNotRegistered);
    Ok(s.(registry := s.registry[target := entry.(hook := Some(hook))]))
  }

  function ProposeUpgrade(s: State, caller: Address, target: Address, newHash: Hash, newVersion: U32)
    : Result<(State, nat), UpgradeError>
  {
    var _ :- Need(caller in s.upgraders, NotUpgrader);
    var entry :- Get(s.registry, target).OkOr(ContractNotRegistered);
    var _ :- Need(newVersion > entry.version, NoChangeDetected);
    var _ :- Need(newHash != entry.hash, NoChangeDetected);
    var _ :- Need(target !in s.pending, AlreadyPending);
    var _ :- Need(s.proposalCount < U64_MAX, HostPanic);
    var id := s.proposalCount + 1;
    Ok((s.(proposalCount := id,
           proposals := s.proposals[id := Proposal(id, target, newHash, newVersion, caller, false)],
           pending := s.pending[target := id]), id))
  }

  /** The two flags are what the migration hooks answer, should the entry have one. */
  function ExecuteUpgrade(s: State, caller: Address, id: nat, preApproves: bool, postSucceeds: bool)
    : Result<State, UpgradeError>
  {
    var _ :- Need(caller in s.upgraders, NotUpgrader);
    var p :- Get(s.proposals, id).OkOr(ProposalNotFound);
    var _ :- Need(!p.executed, AlreadyExecuted);
    var entry :- Get(s.registry, p.target).OkOr(ContractNotRegistered);
    var _ :- Need(entry.hook.Some? ==> preApproves && postSucceeds, MigrationHookFailed);
    Ok(s.(registry := s.registry[p.target := entry.(version := p.newVersion, hash := p.newHash)],
          proposals := s.proposals[id := p.(executed := true)],
          pending := s.pending - {p.target},
          history := s.history[(p.target, id) :=
            Record(p.target, entry.version, p.newVersion, entry.hash, p.newHash, caller)]))
  }

  function CancelProposal(s: State, caller: Address, id: nat): Result<State, UpgradeError> {
    var p :- Get(s.proposals, id).OkOr(ProposalNotFound);
    var _ :- Need(!p.executed, AlreadyExecuted);
    var _ :- Need(p.proposer == caller || caller in s.admins, NotUpgrader);
    Ok(s.(pending := s.pending - {p.target}, proposals := s.proposals - {id}))
  }

  function VerifyUpgradeAuthorization(s: State, target: Address, caller: Address, newHash: Hash)
    : Result<Hash, UpgradeError>
  {
    var _ :- Need(caller in s.upgraders, NotUpgrader);
    var id :- Get(s.pending, target).OkOr(ContractNotRegistered);
    var p :- Get(s.proposals, id).OkOr(ProposalNotFound);
    var _ :- Need(p.newHash == newHash, InvalidWasmHash);
    Ok(p.newHash)
  }

  // -------------------------------------------------------------------------
  // Runs
  // -------------------------------------------------------------------------

  datatype Call =
    | Register(caller: Address, target: Address, name: Symbol, version: U32, hash: Hash)
    | SetHook(caller: Address, target: Address, hook: Address)
    | Propose(caller: Address, target: Address, newHash: Hash, newVersion: U32)
    | Execute(caller: Address, id: nat, preApproves: bool, postSucceeds: bool)
    | Cancel(caller: Address, id: nat)

  function Apply(s: State, call: Call): Result<State, UpgradeError> {
    match call
    case Register(caller, target, name, version, hash) => RegisterContract(s, caller, target, name, version, hash)
    case SetHook(caller, target, hook) => SetMigrationHook(s, caller, target, hook)
    case Propose(caller, target, newHash, newVersion) =>
      var r :- ProposeUpgrade(s, caller, target, newHash, newVersion);
      Ok(r.0)
    case Execute(caller, id, pre, post) => ExecuteUpgrade(s, caller, id, pre, post)
    case Cancel(caller, id) => CancelProposal(s, caller, id)
  }

  ghost function Step(s: State, call: Call): State { After(s, Apply(s, call)) }

  ghost function Run(s: State, calls: seq<Call>): State {
    if calls == [] then s else Step(Run(s, calls[..|calls| - 1]), calls[|calls| - 1])
  }

  // -------------------------------------------------------------------------
  // The pending lock
  // -------------------------------------------------------------------------

  /** A contract's lock names exactly its open proposal. */
  ghost predicate LockInv(s: State) {
    && (forall id :: id in s.proposals ==> 1 <= id <= s.proposalCount && s.proposals[id].id == id)
    && (forall c, id :: c in s.pending && s.pending[c] == id
          <==> id in s.proposals && !s.proposals[id].executed && s.proposals[id].target == c)
  }

  /** Every record belongs to an executed proposal that came before the open one. */
  ghost predicate HistoryInv(s: State) {
    && (forall c, id :: (c, id) in s.history
          <==> id in s.proposals && s.proposals[id].executed && s.proposals[id].target == c)
    && (forall c, id :: (c, id) in s.history && c in s.pending ==> id < s.pending[c])
    && (forall id :: id in s.proposals ==> s.proposals[id].target in s.registry)
  }

  ghost predicate Inv(s: State) { LockInv(s) && HistoryInv(s) }

  lemma ExecuteKeepsInv(s: State, caller: Address, id: nat, pre: bool, post: bool)
    requires Inv(s) && ExecuteUpgrade(s, caller, id, pre, post).Ok?
    ensures Inv(ExecuteUpgrade(s, caller, id, pre, post).value)
  {
    var s' := ExecuteUpgrade(s, caller, id, pre, post).value;
    var c := s.proposals[id].target;
    assert c in s.pending && s.pending[c] == id;
    forall d, j ensures d in s'.pending && s'.pending[d] == j
      <==> j in s'.proposals && !s'.proposals[j].executed && s'.proposals[j].target == d
    {
      assert d in s.pending && s.pending[d] == j
        <==> j in s.proposals && !s.proposals[j].executed && s.proposals[j].target == d;
    }
    forall d, j ensures (d, j) in s'.history
      <==> j in s'.proposals && s'.proposals[j].executed && s'.proposals[j].target == d
    {
      assert (d, j) in s.history
        <==> j in s.proposals && s.proposals[j].executed && s.proposals[j].target == d;
    }
  }

  lemma CancelKeepsInv(s: State, caller: Address, id: nat)
    requires Inv(s) && CancelProposal(s, caller, id).Ok?
    ensures Inv(CancelProposal(s, caller, id).value)
  {
    var s' := CancelProposal(s, caller, id).value;
    var c := s.proposals[id].target;
    assert c in s.pending && s.pending[c] == id;
    forall d, j ensures d in s'.pending && s'.pending[d] == j
      <==> j in s'.proposals && !s'.proposals[j].executed && s'.proposals[j].target == d
    {
      assert d in s.pending && s.pending[d] == j
        <==> j in s.proposals && !s.proposals[j].executed && s.proposals[j].target == d;
    }
  }

  lemma ProposeKeepsInv(s: State, caller: Address, target: Address, newHash: Hash, newVersion: U32)
    requires Inv(s) && ProposeUpgrade(s, caller, target, newHash, newVersion).Ok?
    ensures Inv(ProposeUpgrade(s, caller, target, newHash, newVersion).value.0)
  {
    var (s', id) := ProposeUpgrade(s, caller, target, newHash, newVersion).value;
    forall d, j ensures d in s'.pending && s'.pending[d] == j
      <==> j in s'.proposals && !s'.proposals[j].executed && s'.proposals[j].target == d
    {
      assert d in s.pending && s.pending[d] == j
        <==> j in s.proposals && !s.proposals[j].executed && s.proposals[j].target == d;
    }
  }

  lemma StepKeepsInv(s: State, call: Call)
    requires Inv(s)
    ensures Inv(Step(s, call))
  {
    if Apply(s, call).Ok? {
      match call
      case Propose(caller, target, newHash, newVersion) => ProposeKeepsInv(s, caller, target, newHash, newVersion);
      case Execute(caller, id, pre, post) => ExecuteKeepsInv(s, caller, id, pre, post);
      case Cancel(caller, id) => CancelKeepsInv(s, caller, id);
      case _ =>
    }
  }

  /** In every reachable state a contract is locked by an id exactly when that proposal exists,
      is not executed and targets it; hence each contract has at most one open proposal. */
  lemma {:induction false} ReachableInv(admin: Address, calls: seq<Call>)
    ensures Inv(Run(Initialize(admin), calls))
  {
    if calls != [] {
      ReachableInv(admin, calls[..|calls| - 1]);
      StepKeepsInv(Run(Initialize(admin), calls[..|calls| - 1]), calls[|calls| - 1]);
    }
  }

  /** What a later state keeps of a proposal id: an executed proposal stays exactly as it is, and an id given
      out and cancelled never names a proposal again. */
  ghost predicate Keeps(s: State, s': State, id: nat) {
    && s'.proposalCount >= s.proposalCount
    && (id in s.proposals && s.proposals[id].executed ==> id in s'.proposals && s'.proposals[id] == s.proposals[id])
    && (id !in s.proposals && id <= s.proposalCount ==> id !in s'.proposals)
  }

  lemma StepKeeps(s: State, call: Call, id: nat)
    requires Inv(s)
    ensures Keeps(s, Step(s, call), id)
  {
  }

  lemma KeepsTransitive(s: State, t: State, u: State, id: nat)
    requires Keeps(s, t, id) && Keeps(t, u, id)
    ensures Keeps(s, u, id)
  {
  }

  lemma ReachableStepKeeps(admin: Address, calls: seq<Call>, call: Call, id: nat)
    ensures Keeps(Run(Initialize(admin), calls), Run(Initialize(admin), calls + [call]), id)
  {
    assert (calls + [call])[..|calls + [call]| - 1] == calls;
    ReachableInv(admin, calls);
    StepKeeps(Run(Initialize(admin), calls), call, id);
  }

  /** Over any continuation of a run: an executed proposal stays exactly as it is, and an id
      given out once and cancelled never names a proposal again. */
  lemma {:induction false} ExecutedStaysAndIdsAreNotReused(admin: Address, before: seq<Call>, more: seq<Call>, id: nat)
    ensures Keeps(Run(Initialize(admin), before), Run(Initialize(admin), before + more), id)
    decreases |more|
  {
    if more == [] {
      assert before + more == before;
    } else {
      var front, last := more[..|more| - 1], more[|more| - 1];
      ExecutedStaysAndIdsAreNotReused(admin, before, front, id);
      ReachableStepKeeps(admin, before + front, last, id);
      assert before + front + [last] == before + more;
      KeepsTransitive(Run(Initialize(admin), before), Run(Initialize(admin), before + front),
                      Run(Initialize(admin), before + more), id);
    }
  }

  // -------------------------------------------------------------------------
  // The history chain
  // -------------------------------------------------------------------------

  /** A contract's records with proposal ids up to n, oldest first. */
  ghost function HistoryUpTo(history: map<(Address, nat), Record>, c: Address, n: nat): seq<Record> {
    if n == 0 then []
    else HistoryUpTo(history, c, n - 1) + (if (c, n) in history then [history[(c, n)]] else [])
  }

  ghost function History(s: State, c: Address): seq<Record> {
    HistoryUpTo(s.history, c, s.proposalCount)
  }

  /** The records lead from one version and hash to another without a gap. */
  ghost predicate Linked(records: seq<Record>, v0: U32, h0: Hash, v: U32, h: Hash) {
    if records == [] then v == v0 && h == h0
    else
      var last := records[|records| - 1];
      && last.newVersion == v && last.newHash == h
      && last.oldVersion < last.newVersion && last.oldHash != last.newHash
      && Linked(records[..|records| - 1], v0, h0, last.oldVersion, last.oldHash)
  }

  lemma {:induction false} LinkedEnds(records: seq<Record>, v0: U32, h0: Hash, v: U32, h: Hash)
    requires Linked(records, v0, h0, v, h)
    ensures records == [] ==> v == v0 && h == h0
    ensures records != [] ==>
              && records[0].oldVersion == v0 && records[0].oldHash == h0
              && records[|records| - 1].newVersion == v && records[|records| - 1].newHash == h
    ensures forall i :: 0 <= i < |records| - 1 ==>
              records[i].newVersion == records[i + 1].oldVersion && records[i].newHash == records[i + 1].oldHash
    ensures forall i :: 0 <= i < |records| ==> v0 <= records[i].oldVersion < records[i].newVersion <= v
  {
    if records != [] {
      var front, last := records[..|records| - 1], records[|records| - 1];
      LinkedEnds(front, v0, h0, last.oldVersion, last.oldHash);
      forall i | 0 <= i < |records| - 1
        ensures records[i].newVersion == records[i + 1].oldVersion && records[i].newHash == records[i + 1].oldHash
      {
        assert front[i] == records[i];
        if i + 1 < |front| { assert front[i + 1] == records[i + 1]; }
      }
      forall i | 0 <= i < |records| ensures v0 <= records[i].oldVersion < records[i].newVersion <= v {
        if i < |front| { assert front[i] == records[i]; }
      }
      if front != [] { assert front[0] == records[0]; }
    }
  }

  lemma {:induction false} HistorySkips(history: map<(Address, nat), Record>, c: Address, m: nat, n: nat)
    requires m <= n && forall id :: m < id <= n ==> (c, id) !in history
    ensures HistoryUpTo(history, c, n) == HistoryUpTo(history, c, m)
  {
    if m < n { HistorySkips(history, c, m, n - 1); }
  }

  lemma {:induction false} HistoryFrame(history: map<(Address, nat), Record>, history': map<(Address, nat), Record>,
                                        c: Address, n: nat)
    requires forall id: nat :: 1 <= id <= n ==> Get(history, (c, id)) == Get(history', (c, id))
    ensures HistoryUpTo(history, c, n) == HistoryUpTo(history', c, n)
  {
    if n > 0 {
      HistoryFrame(history, history', c, n - 1);
      assert Get(history, (c, n)) == Get(history', (c, n));
    }
  }

  /** The entry a contract's history must lead to, and what its open proposal promises. */
  ghost predicate ChainInv(s: State, c: Address, v0: U32, h0: Hash) {
    && c in s.registry
    && Linked(History(s, c), v0, h0, s.registry[c].version, s.registry[c].hash)
    && (c in s.pending && s.pending[c] in s.proposals ==>
          && s.proposals[s.pending[c]].newVersion > s.registry[c].version
          && s.proposals[s.pending[c]].newHash != s.registry[c].hash)
  }

  /** An execution installs the version and the hash of its proposal in the entry of the target, and appends to the
      history of the target one record of that change; it touches no other entry and no other history. */
  lemma ExecuteAppends(s: State, caller: Address, id: nat, pre: bool, post: bool, c: Address)
    requires Inv(s) && ExecuteUpgrade(s, caller, id, pre, post).Ok?
    ensures var s', p := ExecuteUpgrade(s, caller, id, pre, post).value, s.proposals[id];
            && (c in s'.registry <==> c in s.registry)
            && (c in s.registry && c != p.target ==>
                  s'.registry[c] == s.registry[c] && History(s', c) == History(s, c))
            && (c == p.target ==>
                  var was := s.registry[c];
                  && s'.registry[c] == Entry(was.name, p.newVersion, p.newHash, was.hook)
                  && History(s', c)
                       == History(s, c) + [Record(c, was.version, p.newVersion, was.hash, p.newHash, caller)])
  {
    var s' := ExecuteUpgrade(s, caller, id, pre, post).value;
    var n := s.proposalCount;
    if c == s.proposals[id].target {
      assert s.pending[c] == id;
      HistoryFrame(s.history, s'.history, c, id - 1);
      HistorySkips(s.history, c, id - 1, n);
      HistorySkips(s'.history, c, id, n);
    } else {
      HistoryFrame(s.history, s'.history, c, n);
    }
  }

  lemma LinkedAppend(records: seq<Record>, last: Record, v0: U32, h0: Hash)
    requires Linked(records, v0, h0, last.oldVersion, last.oldHash)
    requires last.oldVersion < last.newVersion && last.oldHash != last.newHash
    ensures Linked(records + [last], v0, h0, last.newVersion, last.newHash)
  {
    assert (records + [last])[..|records + [last]| - 1] == records;
  }

  lemma ExecuteKeepsChain(s: State, caller: Address, id: nat, pre: bool, post: bool, c: Address, v0: U32, h0: Hash)
    requires Inv(s) && ChainInv(s, c, v0, h0) && ExecuteUpgrade(s, caller, id, pre, post).Ok?
    ensures ChainInv(ExecuteUpgrade(s, caller, id, pre, post).value, c, v0, h0)
  {
    var s' := ExecuteUpgrade(s, caller, id, pre, post).value;
    ExecuteAppends(s, caller, id, pre, post, c);
    if c == s.proposals[id].target {
      assert s.pending[c] == id;
      LinkedAppend(History(s, c), s'.history[(c, id)], v0, h0);
    } else {
      assert History(s', c) == History(s, c);
      assert c in s.pending ==> s.pending[c] in s.proposals && s.proposals[s.pending[c]].target == c;
    }
  }

  lemma CancelKeepsChain(s: State, caller: Address, id: nat, c: Address, v0: U32, h0: Hash)
    requires Inv(s) && ChainInv(s, c, v0, h0) && CancelProposal(s, caller, id).Ok?
    ensures ChainInv(CancelProposal(s, caller, id).value, c, v0, h0)
  {
    if c in s.pending {
      assert s.pending[c] in s.proposals && s.proposals[s.pending[c]].target == c;
    }
  }

  lemma ProposeKeepsChain(s: State, caller: Address, target: Address, newHash: Hash, newVersion: U32, c: Address,
                          v0: U32, h0: Hash)
    requires Inv(s) && ChainInv(s, c, v0, h0) && ProposeUpgrade(s, caller, target, newHash, newVersion).Ok?
    ensures ChainInv(ProposeUpgrade(s, caller, target, newHash, newVersion).value.0, c, v0, h0)
  {
    var next := s.proposalCount + 1;
    assert (c, next) !in s.history by {
      assert (c, next) in s.history ==> next in s.proposals;
    }
    assert HistoryUpTo(s.history, c, next) == HistoryUpTo(s.history, c, s.proposalCount);
  }

  lemma StepKeepsChain(s: State, call: Call, c: Address, v0: U32, h0: Hash)
    requires Inv(s) && ChainInv(s, c, v0, h0)
    requires call.Register? ==> call.target != c
    ensures ChainInv(Step(s, call), c, v0, h0)
  {
    if Apply(s, call).Ok? {
      match call
      case Execute(caller, id, pre, post) => ExecuteKeepsChain(s, caller, id, pre, post, c, v0, h0);
      case Propose(caller, target, newHash, newVersion) =>
        ProposeKeepsChain(s, caller, target, newHash, newVersion, c, v0, h0);
      case Cancel(caller, id) => CancelKeepsChain(s, caller, id, c, v0, h0);
      case _ =>
    }
  }

  /** The version and hash of the last accepted registration of c in a run. */
  ghost function RegisteredAs(s: State, calls: seq<Call>, c: Address): Option<(U32, Hash)> {
    if calls == [] then None
    else
      var front, last := calls[..|calls| - 1], calls[|calls| - 1];
      if last.Register? && last.target == c && Apply(Run(s, front), last).Ok? then Some((last.version, last.hash))
      else RegisteredAs(s, front, c)
  }

  /** No accepted registration names a contract that is already in the registry. */
  ghost predicate RegistersOnce(s: State, calls: seq<Call>, c: Address) {
    calls != [] ==>
      var front, last := calls[..|calls| - 1], calls[|calls| - 1];
      && RegistersOnce(s, front, c)
      && (last.Register? && last.target == c && Apply(Run(s, front), last).Ok? ==> c !in Run(s, front).registry)
  }

  /** Over every run that registers c once: the records of c form one linked chain of strictly
      rising versions from the registered version and hash to the current ones. */
  lemma {:induction false} ReachableChain(admin: Address, calls: seq<Call>, c: Address)
    requires RegistersOnce(Initialize(admin), calls, c)
    ensures var s := Run(Initialize(admin), calls);
            && (c in s.registry <==> RegisteredAs(Initialize(admin), calls, c).Some?)
            && (c in s.registry ==>
                  var (v0, h0) := RegisteredAs(Initialize(admin), calls, c).value;
                  ChainInv(s, c, v0, h0))
  {
    if calls != [] {
      var front, last := calls[..|calls| - 1], calls[|calls| - 1];
      var s0 := Initialize(admin);
      var s := Run(s0, front);
      ReachableChain(admin, front, c);
      ReachableInv(admin, front);
      if last.Register? && last.target == c && Apply(s, last).Ok? {
        FirstRegistration(s, last, c);
      } else if c in s.registry {
        var (v0, h0) := RegisteredAs(s0, front, c).value;
        if last.Register? && last.target == c {
          assert Step(s, last) == s;
        } else {
          StepKeepsChain(s, last, c, v0, h0);
        }
      } else {
        assert c !in Step(s, last).registry;
      }
    }
  }

  lemma FirstRegistration(s: State, call: Call, c: Address)
    requires Inv(s) && c !in s.registry
    requires call.Register? && call.target == c && Apply(s, call).Ok?
    ensures ChainInv(Step(s, call), c, call.version, call.hash)
  {
    forall id ensures (c, id) !in s.history {
      assert id in s.proposals ==> s.proposals[id].target in s.registry;
    }
    HistorySkips(s.history, c, 0, s.proposalCount);
  }

  /** Registration checks names, not contract ids. Registering a contract again keeps its chain
      intact exactly when it repeats the current version and hash. */
  lemma ReRegistrationKeepsChainIff(s: State, call: Call, c: Address, v0: U32, h0: Hash)
    requires Inv(s) && ChainInv(s, c, v0, h0)
    requires call.Register? && call.target == c && Apply(s, call).Ok?
    ensures ChainInv(Step(s, call), c, v0, h0)
       <==> call.version == s.registry[c].version && call.hash == s.registry[c].hash
  {
    var records, s' := History(s, c), Step(s, call);
    assert History(s', c) == records;
    if Linked(records, v0, h0, call.version, call.hash) {
      LinkedEnds(records, v0, h0, call.version, call.hash);
      LinkedEnds(records, v0, h0, s.registry[c].version, s.registry[c].hash);
    }
  }

  /** The five calls of a run that registers one contract under two names. */
  function TwoNamesRun(admin: Address, c: Address): seq<Call> {
    [Register(admin, c, "first", 1, [1]), Propose(admin, c, [2], 2), Execute(admin, 1, true, true),
     Register(admin, c, "second", 1, [1])]
  }

  /** Such a run ends with a history that does not lead to the current entry. */
  lemma TwoNamesBreakChain(admin: Address, c: Address)
    ensures var s := Run(Initialize(admin), TwoNamesRun(admin, c));
            && c in s.registry && s.registry[c].version == 1
            && History(s, c) == [Record(c, 1, 2, [1], [2], admin)]
            && forall v0: U32, h0: Hash :: !ChainInv(s, c, v0, h0)
  {
    var calls, s0 := TwoNamesRun(admin, c), Initialize(admin);
    var s1 := Step(s0, calls[0]);
    var s2 := Step(s1, calls[1]);
    var s3 := Step(s2, calls[2]);
    var s4 := Step(s3, calls[3]);
    assert Run(s0, calls[..1]) == s1 by { assert calls[..1][..0] == []; assert Run(s0, []) == s0; }
    assert Run(s0, calls[..2]) == s2 by { assert calls[..2][..1] == calls[..1]; }
    assert Run(s0, calls[..3]) == s3 by { assert calls[..3][..2] == calls[..2]; }
    assert Run(s0, calls) == s4 by { assert calls[..|calls| - 1] == calls[..3]; }
    assert s4.history == map[(c, 1) := Record(c, 1, 2, [1], [2], admin)];
    assert HistoryUpTo(s4.history, c, 0) == [];
    assert HistoryUpTo(s4.history, c, 1) == [Record(c, 1, 2, [1], [2], admin)];
  }

  // -------------------------------------------------------------------------
  // Whose word it takes
  // -------------------------------------------------------------------------

  /** The address whose signature a call asks for; a cancellation compares its caller argument and asks for none. */
  function Signer(call: Call): Option<Address> {
    if call.Cancel? then None else Some(call.caller)
  }

  /** Who signs as this address can send the call. */
  predicate Sends(who: Address, call: Call) {
    Signer(call).None? || Signer(call) == Some(who)
  }

  /** Whether this address can have the proposal cancelled. */
  ghost predicate CanCancel(s: State, who: Address, id: nat) {
    exists claimed: Address :: Sends(who, Cancel(claimed, id)) && CancelProposal(s, claimed, id).Ok?
  }

  /** Naming the proposer is enough: whoever sends the call, a proposal can be cancelled exactly while it is open, and
      its contract is then free for the next one. */
  lemma AnyoneCancelsIff(s: State, who: Address, id: nat)
    requires Inv(s)
    ensures CanCancel(s, who, id) <==> id in s.proposals && !s.proposals[id].executed
    ensures forall claimed: Address :: CancelProposal(s, claimed, id).Ok? <==>
              && id in s.proposals && !s.proposals[id].executed
              && (claimed == s.proposals[id].proposer || claimed in s.admins)
    ensures forall claimed: Address :: CancelProposal(s, claimed, id).Ok? ==>
              var s' := CancelProposal(s, claimed, id).value;
              && s' == s.(proposals := s.proposals - {id}, pending := s'.pending)
              && forall c: Address ::
                   Get(s'.pending, c) == if Get(s.pending, c) == Some(id) then None else Get(s.pending, c)
  {
    if id in s.proposals && !s.proposals[id].executed {
      var p := s.proposals[id];
      assert Sends(who, Cancel(p.proposer, id)) && CancelProposal(s, p.proposer, id).Ok?;
      assert s.pending[p.target] == id;
      forall c: Address | c in s.pending && s.pending[c] == id ensures c == p.target {
      }
    }
  }

  // -------------------------------------------------------------------------
  // Authorisation of the code replacement
  // -------------------------------------------------------------------------

  /** The target contract is authorised exactly while its proposal is still open ... */
  lemma AuthorizedIffOpen(s: State, target: Address, caller: Address, newHash: Hash)
    requires Inv(s)
    ensures VerifyUpgradeAuthorization(s, target, caller, newHash).Ok?
       <==> && caller in s.upgraders
            && exists id :: id in s.proposals && !s.proposals[id].executed
                         && s.proposals[id].target == target && s.proposals[id].newHash == newHash
  {
    if target in s.pending {
      assert s.pending[target] in s.proposals;
    }
    if id :| && id in s.proposals && !s.proposals[id].executed
             && s.proposals[id].target == target && s.proposals[id].newHash == newHash
    {
      assert s.pending[target] == id;
    }
  }

  /** ... so once the registry has executed the upgrade, the target is refused, whatever it asks. */
  lemma NotAuthorizedAfterExecute(s: State, executor: Address, id: nat, pre: bool, post: bool, caller: Address,
                                  hash: Hash)
    requires Inv(s) && ExecuteUpgrade(s, executor, id, pre, post).Ok?
    ensures VerifyUpgradeAuthorization(ExecuteUpgrade(s, executor, id, pre, post).value,
                                       s.proposals[id].target, caller, hash).Err?
  {
  }
}

/** The referral contract and the treasury together: runs, claims and conservation. */
module Rewards {
  import opened Host
  import opened Errors
  import opened Sums
  import opened Walks
  import R = Referral
  import T = Treasury
  import opened Accrual

  /** Both contracts, and what the run has moved so far. */
  datatype System = System(
    self: Address,                 // the referral contract's own address
    treasuryAt: Address,           // the address of the one treasury of a run
    referral: R.State,
    treasury: T.State,
    deposited: int,                // into the rewards category
    withdrawn: int,                // out of it by managers
    claimed: map<Address, int>,    // paid to each referrer through claims
    foreign: int)                  // paid through any other registered caller

  datatype Call =
    | SetTreasury(caller: Address)
    | SetTierConfig(caller: Address, bps: seq<I128>, maxTiers: U32, cap: I128)
    | SetReferrer(caller: Address, wallet: Address, referrer: Address)
    | Register(wallet: Address, referrer: Address)
    | Accrue(caller: Address, wallet: Address, base: I128)
    | Claim(referrer: Address)
    | OnTreasury(call: T.Call)

  /** Pays the whole accrued balance out of the treasury, then clears it. */
  function ClaimRewards(self: Address, r: R.State, t: T.State, who: Address): Result<((R.State, T.State), int), Error> {
    var amount := R.Accrued(r, who);
    if amount == 0 then Ok(((r, t), 0))
    else
      var _ :- Need(r.treasury.Some?, NotFound);
      var _ :- Need(IsI128(amount), HostPanic);
      match T.DistributeReward(t, self, amount)
      case Ok(t') => Ok(((r.(accrued := r.accrued[who := 0]), t'), amount))
      case Err(e) => Err(if e == HostPanic then InvalidArgument else e)
  }

  ghost function OnReferral(s: System, outcome: Result<R.State, Error>): System {
    s.(referral := After(s.referral, outcome))
  }

  function RewardsIn(call: T.Call): int {
    if call.CallDeposit? && call.category == T.REWARDS then call.amount else 0
  }

  function RewardsOut(call: T.Call): int {
    if call.CallWithdraw? && call.category == T.REWARDS then call.amount else 0
  }

  ghost function Step(s: System, call: Call): System {
    match call
    case SetTreasury(caller) => OnReferral(s, R.SetTreasury(s.referral, caller, s.treasuryAt))
    case SetTierConfig(caller, bps, maxTiers, cap) =>
      OnReferral(s, R.SetTierConfig(s.referral, caller, bps, maxTiers, cap))
    case SetReferrer(caller, wallet, referrer) => OnReferral(s, R.SetReferrer(s.referral, caller, wallet, referrer))
    case Register(wallet, referrer) => OnReferral(s, R.Register(s.referral, wallet, referrer))
    case Accrue(caller, wallet, base) =>
      var outcome := R.Accrue(s.referral, caller, wallet, base);
      if outcome.Ok? then s.(referral := outcome.value.0) else s
    case Claim(who) =>
      var outcome := ClaimRewards(s.self, s.referral, s.treasury, who);
      if outcome.Err? then s
      else s.(referral := outcome.value.0.0, treasury := outcome.value.0.1,
              claimed := s.claimed[who := R.Held(s.claimed, who) + outcome.value.1])
    case OnTreasury(inner) =>
      var outcome := T.Apply(s.treasury, inner);
      // The referral contract itself reaches the treasury only through claims.
      if outcome.Err? || (inner.CallDistribute? && inner.invoker == s.self) then s
      else s.(treasury := outcome.value,
              deposited := s.deposited + RewardsIn(inner),
              withdrawn := s.withdrawn + RewardsOut(inner),
              foreign := s.foreign + if inner.CallDistribute? then inner.amount else 0)
  }

  ghost function Run(s: System, calls: seq<Call>): System {
    if calls == [] then s else Step(Run(s, calls[..|calls| - 1]), calls[|calls| - 1])
  }

  ghost predicate Start(s: System) {
    && s == System(s.self, s.treasuryAt, R.Initialize(s.referral.admin), s.treasury, 0, 0, map[], 0)
    && IsI128(s.treasury.withdrawalLimit)
    && var t := T.Initialize(s.treasury.admin, s.treasury.withdrawalLimit);
       t.Ok? && s.treasury == t.value.(paused := s.treasury.paused)
  }

  /** Nothing a referrer earned is lost or paid twice, and the pool accounts for every unit. */
  ghost predicate Conserved(s: System) {
    && (s.referral.treasury == None || s.referral.treasury == Some(s.treasuryAt))
    && LedgersAgree(s.referral.lifetime, s.referral.accrued, s.claimed)
    && T.Balance(s.treasury, T.REWARDS) == s.deposited - s.withdrawn - SumValues(s.claimed) - s.foreign
    && T.Balance(s.treasury, T.REWARDS) >= 0
  }

  ghost predicate LedgersAgree(lifetime: map<Address, int>, accrued: map<Address, int>, claimed: map<Address, int>) {
    forall a: Address :: R.Held(lifetime, a) == R.Held(accrued, a) + R.Held(claimed, a)
  }

  lemma StepKeepsReferralInv(s: System, call: Call)
    requires R.Inv(s.referral)
    ensures R.Inv(Step(s, call).referral)
  {
    match call
    case SetTierConfig(caller, bps, maxTiers, cap) =>
      if R.SetTierConfig(s.referral, caller, bps, maxTiers, cap).Ok? {
        R.SetTierConfigKeepsInv(s.referral, caller, bps, maxTiers, cap);
      }
    case SetReferrer(caller, wallet, referrer) =>
      if R.SetReferrer(s.referral, caller, wallet, referrer).Ok? {
        R.NewEdgeKeepsInv(s.referral, wallet, referrer);
      }
    case Register(wallet, referrer) =>
      if R.Register(s.referral, wallet, referrer).Ok? {
        R.NewEdgeKeepsInv(s.referral, wallet, referrer);
      }
    case Accrue(caller, wallet, base) =>
      if base > 0 {
        AccrueAccounts(s.referral, wallet, base);
      }
    case Claim(who) =>
      ClaimKeepsInv(s, who);
    case _ =>
  }

  lemma ClaimKeepsInv(s: System, who: Address)
    requires R.Inv(s.referral)
    ensures R.Inv(Step(s, Claim(who)).referral)
  {
    var r, r' := s.referral, Step(s, Claim(who)).referral;
    forall a: Address ensures 0 <= R.Held(r'.accrued, a) <= R.Held(r'.lifetime, a) <= R.MAX_REWARD_CAP {
      assert 0 <= R.Held(r.accrued, a) <= R.Held(r.lifetime, a) <= R.MAX_REWARD_CAP;
    }
  }

  lemma ClaimConserves(s: System, who: Address)
    requires R.Inv(s.referral) && Conserved(s)
    ensures Conserved(Step(s, Claim(who)))
  {
    var s' := Step(s, Claim(who));
    var outcome := ClaimRewards(s.self, s.referral, s.treasury, who);
    if outcome.Ok? {
      SumValuesUpdate(s.claimed, who, R.Held(s.claimed, who) + outcome.value.1);
      forall a: Address
        ensures R.Held(s'.referral.lifetime, a) == R.Held(s'.referral.accrued, a) + R.Held(s'.claimed, a)
      {
        assert R.Held(s.referral.lifetime, a) == R.Held(s.referral.accrued, a) + R.Held(s.claimed, a);
      }
    }
  }

  lemma AccrueConserves(s: System, caller: Address, wallet: Address, base: I128)
    requires R.Inv(s.referral) && Conserved(s)
    ensures Conserved(Step(s, Accrue(caller, wallet, base)))
  {
    var r, r' := s.referral, Step(s, Accrue(caller, wallet, base)).referral;
    if base > 0 && caller == r.admin {
      AccruePaysEachTierOnce(r, wallet, base);
      AccrueAccounts(r, wallet, base);
      forall a: Address ensures R.Held(r'.lifetime, a) == R.Held(r'.accrued, a) + R.Held(s.claimed, a) {
        assert R.Held(r.lifetime, a) == R.Held(r.accrued, a) + R.Held(s.claimed, a);
        assert R.Lifetime(r', a) - R.Lifetime(r, a) == R.Accrued(r', a) - R.Accrued(r, a) by {
          if i: nat :| 1 <= i <= r.maxTiers && Reaches(r.referrer, wallet, a, i) {
          }
        }
      }
    }
  }

  lemma TreasuryCallConserves(s: System, inner: T.Call)
    requires Conserved(s)
    ensures Conserved(Step(s, OnTreasury(inner)))
  {
  }

  lemma StepConserves(s: System, call: Call)
    requires R.Inv(s.referral) && Conserved(s)
    ensures Conserved(Step(s, call))
  {
    match call
    case Claim(who) => ClaimConserves(s, who);
    case Accrue(caller, wallet, base) => AccrueConserves(s, caller, wallet, base);
    case OnTreasury(inner) => TreasuryCallConserves(s, inner);
    case _ =>
  }

  /** Over every run: the referrer graph has no cycle of ten hops or fewer, the balances respect
      the caps, lifetime = accrued + claimed for every referrer, and the rewards pool equals
      deposits minus withdrawals minus everything paid out. */
  lemma {:induction false} ReachableConserved(start: System, calls: seq<Call>)
    requires Start(start)
    ensures R.Inv(Run(start, calls).referral)
    ensures Conserved(Run(start, calls))
  {
    if calls == [] {
      NoEdges();
      assert R.TierSum(map[1 := 0], 1) == 0 by { assert R.TierSum(map[1 := 0], 0) == 0; }
    } else {
      var before := Run(start, calls[..|calls| - 1]);
      ReachableConserved(start, calls[..|calls| - 1]);
      StepKeepsReferralInv(before, calls[|calls| - 1]);
      StepConserves(before, calls[|calls| - 1]);
    }
  }

  lemma NoEdges()
    ensures NoCycleWithin<Address>(map[], R.MAX_SUPPORTED_TIERS)
  {
    forall x: Address, n: nat | 1 <= n <= R.MAX_SUPPORTED_TIERS ensures !Reaches(map[], x, x, n) {
      WalkStops(map[], x, x, 0);
    }
  }

  /** A second claim straight after a successful one pays nothing and touches nothing. */
  lemma SecondClaimIsEmpty(self: Address, r: R.State, t: T.State, who: Address)
    requires ClaimRewards(self, r, t, who).Ok?
    ensures var ((r', t'), _) := ClaimRewards(self, r, t, who).value;
            ClaimRewards(self, r', t', who) == Ok(((r', t'), 0))
  {
  }

  /** A claim of a positive balance succeeds exactly when a treasury is configured, its rewards
      pool covers the whole balance, and this contract is the registered payer. */
  lemma ClaimSucceedsIff(s: System, who: Address)
    requires R.Inv(s.referral) && R.Accrued(s.referral, who) > 0
    ensures ClaimRewards(s.self, s.referral, s.treasury, who).Ok?
       <==> && s.referral.treasury.Some?
            && R.Accrued(s.referral, who) <= T.Balance(s.treasury, T.REWARDS)
            && s.treasury.referralContract == Some(s.self)
  {
    assert 0 <= R.Held(s.referral.accrued, who) <= R.Held(s.referral.lifetime, who) <= R.MAX_REWARD_CAP;
  }

  // -------------------------------------------------------------------------
  // Longer cycles are reachable
  // -------------------------------------------------------------------------

  /** The admin links wallet i to wallet i + 1, for i below n. */
  function ChainCalls(admin: Address, n: nat): seq<Call> {
    if n == 0 then [] else ChainCalls(admin, n - 1) + [SetReferrer(admin, n - 1, n)]
  }

  ghost predicate IsChain(next: map<Address, Address>, n: nat) {
    && (forall i: Address :: i in next <==> i < n)
    && (forall i: Address :: i in next ==> next[i] == i + 1)
  }

  lemma {:induction false} ChainHop(next: map<Address, Address>, n: nat, x: Address, k: nat)
    requires IsChain(next, n)
    ensures Hop(next, x, k) == if k == 0 || x + k <= n then Some(x + k) else None
  {
    if k > 0 { ChainHop(next, n, x, k - 1); }
  }

  lemma ChainEdgeAccepted(next: map<Address, Address>, n: nat)
    requires IsChain(next, n)
    ensures !R.WouldCreateCycle(next, n, n + 1)
    ensures IsChain(next[n := n + 1], n + 1)
  {
    var top: Address := n + 1;
    forall j: nat | j < R.MAX_SUPPORTED_TIERS ensures !Reaches<Address>(next, top, n, j) {
      ChainHop(next, n, top, j);
    }
  }

  lemma {:induction false} ChainReachable(start: System, n: nat)
    requires Start(start)
    ensures var s := Run(start, ChainCalls(start.referral.admin, n));
            IsChain(s.referral.referrer, n) && s.referral.admin == start.referral.admin
  {
    if n > 0 {
      var admin := start.referral.admin;
      var calls := ChainCalls(admin, n - 1);
      ChainReachable(start, n - 1);
      var before := Run(start, calls);
      assert ChainCalls(admin, n)[..|ChainCalls(admin, n)| - 1] == calls;
      ChainEdgeAccepted(before.referral.referrer, n - 1);
    }
  }

  /** A chain of eleven wallets, closed by an edge from its last to its first, is a cycle of eleven. */
  lemma ChainCloses(next: map<Address, Address>)
    requires IsChain(next, 10)
    ensures !R.WouldCreateCycle(next, 10, 0)
    ensures Reaches(next[10 := 0], 0, 0, 11)
  {
    forall j: nat | j < 10 ensures !Reaches<Address>(next, 0, 10, j) {
      ChainHop(next, 10, 0, j);
    }
    HopUnaffected(next, 10, 0, 0, 10);
    ChainHop(next, 10, 0, 10);
    assert Hop<Address>(next[10 := 0], 0, 10) == Some(10);
  }

  /** The check looks ten wallets far and no further: a run of eleven accepted edges closes a cycle of eleven, so the
      graph as a whole need not stay acyclic. The last edge may be set by the admin or registered by the wallet. */
  lemma ElevenCycleReachable(start: System)
    requires Start(start)
    ensures var chain := ChainCalls(start.referral.admin, 10);
            && Reaches(Run(start, chain + [SetReferrer(start.referral.admin, 10, 0)]).referral.referrer, 0, 0, 11)
            && Reaches(Run(start, chain + [Register(10, 0)]).referral.referrer, 0, 0, 11)
  {
    var admin := start.referral.admin;
    var chain := ChainCalls(admin, 10);
    ChainReachable(start, 10);
    ChainCloses(Run(start, chain).referral.referrer);
    RunSnoc(start, chain, SetReferrer(admin, 10, 0));
    RunSnoc(start, chain, Register(10, 0));
  }

  lemma RunSnoc(start: System, calls: seq<Call>, call: Call)
    ensures Run(start, calls + [call]) == Step(Run(start, calls), call)
  {
    assert (calls + [call])[..|calls|] == calls;
  }
}

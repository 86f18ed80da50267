/** Who can change what in the referral programme and its treasury. */
module RewardsChanges {
  import opened Host
  import opened Walks
  import opened BpsMath
  import R = Referral
  import T = Treasury
  import opened Accrual
  import opened Rewards

  /** A run starts with nobody referred and nothing earned, one tier without a share, a cap of zero, no treasury set,
      and a treasury that is empty, answers to nobody and has its admin for its only manager. */
  lemma FirstState(start: System, who: Address, category: Symbol)
    requires Start(start)
    ensures var r := start.referral;
            && r.maxTiers == 1 && r.tierBps == map[1 := 0] && r.rewardCap == 0 && r.treasury == None
            && r.referrer == map[] && R.Accrued(r, who) == 0 && R.Lifetime(r, who) == 0
    ensures var t := start.treasury;
            && (who in t.managers <==> who == t.admin) && T.Balance(t, category) == 0 && t.referralContract == None
            && t.withdrawalLimit > 0
  {
  }

  // -------------------------------------------------------------------------
  // The referral contract
  // -------------------------------------------------------------------------

  /** No walk of fewer than ten hops leads from the new referrer to the wallet. */
  ghost predicate ClosesNoShortCycle(referrer: map<Address, Address>, wallet: Address, newReferrer: Address) {
    wallet != newReferrer && forall j: nat :: j < 10 ==> !Reaches(referrer, newReferrer, wallet, j)
  }

  /** The call sets this edge: the admin may overwrite one, a wallet registers once and under a wallet that has a
      referrer itself. */
  ghost predicate SetsEdge(s: R.State, call: Call, wallet: Address) {
    match call
    case SetReferrer(caller, w, r) => w == wallet && caller == s.admin && ClosesNoShortCycle(s.referrer, w, r)
    case Register(w, r) =>
      w == wallet && w !in s.referrer && r in s.referrer && ClosesNoShortCycle(s.referrer, w, r)
    case _ => false
  }

  lemma ReferrersChangeExactlyBy(s: System, call: Call, wallet: Address)
    ensures Get(Step(s, call).referral.referrer, wallet)
         == if SetsEdge(s.referral, call, wallet) then Some(call.referrer) else Get(s.referral.referrer, wallet)
  {
    if call.Accrue? && R.Accrue(s.referral, call.caller, call.wallet, call.base).Ok? {
      AccrualKeepsConfig(s.referral, call.caller, call.wallet, call.base);
    }
  }

  lemma AccrualKeepsConfig(s: R.State, caller: Address, wallet: Address, base: I128)
    requires R.Accrue(s, caller, wallet, base).Ok?
    ensures var s' := R.Accrue(s, caller, wallet, base).value.0;
            s' == s.(accrued := s'.accrued, lifetime := s'.lifetime)
  {
    AccrueFromKeepsConfig(s, wallet, base, 1, 0);
  }

  lemma {:induction false} AccrueFromKeepsConfig(s: R.State, wallet: Address, base: I128, tier: nat, total: int)
    requires tier >= 1 && R.TiersPresent(s) && R.AccrueFrom(s, wallet, base, tier, total).Ok?
    ensures var s' := R.AccrueFrom(s, wallet, base, tier, total).value.0;
            s' == s.(accrued := s'.accrued, lifetime := s'.lifetime)
    decreases s.maxTiers + 1 - tier
  {
    if tier <= s.maxTiers && wallet in s.referrer {
      R.AccrueTierKeepsConfig(s, s.referrer[wallet], base, tier, total);
      var (s1, total1) := R.AccrueTier(s, s.referrer[wallet], base, tier, total).value;
      AccrueFromKeepsConfig(s1, s.referrer[wallet], base, tier + 1, total1);
    }
  }

  /** The configuration is the admin's to set: as many tiers as it counts, from one to ten, shares from zero that add up
      to at most 10 000, and a cap from zero to 10^18. */
  predicate Configures(s: R.State, call: Call) {
    && call.SetTierConfig? && call.caller == s.admin && 1 <= call.maxTiers <= 10 && |call.bps| == call.maxTiers
    && (forall i :: 0 <= i < |call.bps| ==> 0 <= call.bps[i] <= 10_000) && Sum(call.bps) <= 10_000
    && 0 <= call.cap <= 1_000_000_000_000_000_000
  }

  lemma ConfigChangesExactlyBy(s: System, call: Call, tier: nat)
    requires tier >= 1
    ensures var r, r' := s.referral, Step(s, call).referral;
            && r'.maxTiers == (if Configures(r, call) then call.maxTiers else r.maxTiers)
            && r'.rewardCap == (if Configures(r, call) then call.cap else r.rewardCap)
            && Get(r'.tierBps, tier)
                 == (if Configures(r, call) && tier <= call.maxTiers then Some(call.bps[tier - 1])
                     else Get(r.tierBps, tier))
            && r'.treasury == (if call.SetTreasury? && call.caller == r.admin then Some(s.treasuryAt) else r.treasury)
            && r'.admin == r.admin
  {
    if call.Accrue? && R.Accrue(s.referral, call.caller, call.wallet, call.base).Ok? {
      AccrualKeepsConfig(s.referral, call.caller, call.wallet, call.base);
    }
  }

  /** An accrual goes through exactly for the admin and a positive amount. */
  lemma AccrueSucceedsIff(s: R.State, caller: Address, wallet: Address, base: I128)
    requires R.Inv(s)
    ensures R.Accrue(s, caller, wallet, base).Ok? <==> caller == s.admin && base > 0
  {
    if caller == s.admin && base > 0 {
      AccrueAccounts(s, wallet, base);
    }
  }

  /** What the admin's accrual adds for a wallet: the commission of the tier it is met at, as far as its cap goes. */
  ghost predicate EarnsBy(r: R.State, r': R.State, payer: Address, base: int, a: Address)
    requires R.TiersPresent(r)
  {
    && (forall i: nat :: 1 <= i <= r.maxTiers && Reaches(r.referrer, payer, a, i) ==>
          R.Lifetime(r', a) == R.Capped(R.Lifetime(r, a), Commission(r, base, i), r.rewardCap))
    && ((forall i: nat :: 1 <= i <= r.maxTiers ==> !Reaches(r.referrer, payer, a, i)) ==>
          R.Lifetime(r', a) == R.Lifetime(r, a))
  }

  /** A lifetime total changes by the admin's accruals alone, and an accrued balance by these, by as much, and by its
      owner's claim, which takes all of it. */
  lemma BalancesChangeExactlyBy(s: System, call: Call, a: Address)
    requires R.Inv(s.referral)
    ensures var r, r' := s.referral, Step(s, call).referral;
            if call.Accrue? && call.caller == r.admin && call.base > 0 then
              && EarnsBy(r, r', call.wallet, call.base, a)
              && R.Accrued(r', a) - R.Accrued(r, a) == R.Lifetime(r', a) - R.Lifetime(r, a)
            else
              && R.Lifetime(r', a) == R.Lifetime(r, a)
              && R.Accrued(r', a) == if call.Claim? && call.referrer == a && Pays(s, a) then 0 else R.Accrued(r, a)
  {
    if call.Accrue? {
      AccrueSucceedsIff(s.referral, call.caller, call.wallet, call.base);
      if call.caller == s.referral.admin && call.base > 0 {
        AccruePaysEachTierOnce(s.referral, call.wallet, call.base);
        if i: nat :| 1 <= i <= s.referral.maxTiers && Reaches(s.referral.referrer, call.wallet, a, i) {
        }
      }
    } else if call.Claim? {
      ClaimSucceedsIfFunded(s, call.referrer);
    }
  }

  /** A treasury is set, covers the balance, and takes this contract for its payer. */
  predicate Pays(s: System, who: Address) {
    && s.referral.treasury.Some? && R.Accrued(s.referral, who) <= T.Balance(s.treasury, T.REWARDS)
    && s.treasury.referralContract == Some(s.self)
  }

  lemma ClaimSucceedsIfFunded(s: System, who: Address)
    requires R.Inv(s.referral)
    ensures R.Accrued(s.referral, who) > 0 ==>
              (ClaimRewards(s.self, s.referral, s.treasury, who).Ok? <==> Pays(s, who))
  {
    if R.Accrued(s.referral, who) > 0 {
      ClaimSucceedsIff(s, who);
    }
  }

  // -------------------------------------------------------------------------
  // The treasury
  // -------------------------------------------------------------------------

  /** What a treasury call adds to, or takes from, one category if its rules are met: managers deposit, and withdraw up
      to the limit; the admin draws on the reserve while paused; the registered contract draws on the rewards. */
  function Booked(s: T.State, call: T.Call, category: Symbol): int {
    match call
    case CallDeposit(caller, c, amount) =>
      if c == category && amount > 0 && caller in s.managers && T.Balance(s, c) + amount <= I128_MAX then amount else 0
    case CallWithdraw(caller, amount, c) =>
      if c == category && 0 < amount <= s.withdrawalLimit && amount <= T.Balance(s, c) && caller in s.managers
      then -amount else 0
    case CallEmergency(caller, amount) =>
      if category == "reserve" && 0 < amount <= T.Balance(s, category) && s.paused && caller == s.admin
      then -amount else 0
    case CallDistribute(invoker, amount) =>
      if category == "rewards" && 0 < amount <= T.Balance(s, category) && s.referralContract == Some(invoker)
      then -amount else 0
    case _ => 0
  }

  lemma CategoriesChangeExactlyBy(s: T.State, call: T.Call, category: Symbol)
    requires 0 <= T.Balance(s, category) <= I128_MAX && T.Balance(s, T.RESERVE) <= I128_MAX
    ensures T.Balance(After(s, T.Apply(s, call)), category) == T.Balance(s, category) + Booked(s, call, category)
    ensures 0 <= T.Balance(After(s, T.Apply(s, call)), category) <= I128_MAX
  {
  }

  /** Managers, limit and registered contract are the admin's to change; nobody changes the admin. */
  lemma TreasuryConfigChangesExactlyBy(s: T.State, call: T.Call, who: Address)
    ensures var s' := After(s, T.Apply(s, call));
            && (who in s'.managers <==>
                  if call.CallAddManager? && call.who == who && call.caller == s.admin then true
                  else if call.CallRemoveManager? && call.who == who && call.caller == s.admin then false
                  else who in s.managers)
            && s'.withdrawalLimit
                 == (if call.CallSetLimit? && call.limit > 0 && call.caller == s.admin then call.limit
                     else s.withdrawalLimit)
            && s'.referralContract
                 == (if call.CallSetReferral? && call.caller == s.admin then Some(call.referral)
                     else s.referralContract)
            && s'.admin == s.admin && s'.paused == s.paused
  {
  }

  // -------------------------------------------------------------------------
  // Every category over whole runs
  // -------------------------------------------------------------------------

  /** The treasury call a system call makes, if it makes one. */
  ghost function TreasuryCall(s: System, call: Call): Option<T.Call> {
    match call
    case Claim(who) =>
      var amount := R.Accrued(s.referral, who);
      if amount > 0 && IsI128(amount) && s.referral.treasury.Some? then Some(T.CallDistribute(s.self, amount)) else None
    case OnTreasury(inner) => if inner.CallDistribute? && inner.invoker == s.self then None else Some(inner)
    case _ => None
  }

  ghost function History(start: System, calls: seq<Call>, category: Symbol): int {
    if calls == [] then 0
    else
      var s, last := Run(start, calls[..|calls| - 1]), calls[|calls| - 1];
      History(start, calls[..|calls| - 1], category)
      + match TreasuryCall(s, last)
        case Some(inner) => Booked(s.treasury, inner, category)
        case None => 0
  }

  lemma StepIsTreasuryCall(s: System, call: Call)
    requires R.Inv(s.referral)
    ensures Step(s, call).treasury
         == match TreasuryCall(s, call)
            case Some(inner) => After(s.treasury, T.Apply(s.treasury, inner))
            case None => s.treasury
  {
    if call.Claim? {
      assert 0 <= R.Held(s.referral.accrued, call.referrer);
    }
  }

  /** Over every run the balance of every category is what was paid into it less what was drawn from it, by the calls
      that are allowed to. */
  lemma {:induction false} CategoryIsHistory(start: System, calls: seq<Call>, category: Symbol)
    requires Start(start)
    ensures T.Balance(Run(start, calls).treasury, category) == History(start, calls, category)
    ensures 0 <= T.Balance(Run(start, calls).treasury, category) <= I128_MAX
    decreases |calls|, if category == T.RESERVE then 0 else 1
  {
    if calls != [] {
      var front, last := calls[..|calls| - 1], calls[|calls| - 1];
      var s := Run(start, front);
      CategoryIsHistory(start, front, category);
      CategoryIsHistory(start, front, T.RESERVE);
      ReachableConserved(start, front);
      StepIsTreasuryCall(s, last);
      if TreasuryCall(s, last).Some? {
        CategoriesChangeExactlyBy(s.treasury, TreasuryCall(s, last).value, category);
      }
    }
  }
}

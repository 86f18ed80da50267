/** The referral contract: the referrer graph, the tiers and the reward balances. */
module Referral {
  import opened Host
  import opened Errors
  import opened Walks
  import opened BpsMath

  const MAX_SUPPORTED_TIERS: nat := 10
  const MAX_REWARD_CAP: int := 1_000_000_000_000_000_000
  const MAX_TIER_BPS: int := 10_000

  datatype State = State(
    admin: Address,
    treasury: Option<Address>,
    maxTiers: nat,
    rewardCap: int,
    tierBps: map<nat, int>,
    referrer: map<Address, Address>,
    accrued: map<Address, int>,
    lifetime: map<Address, int>)

  /** An absent balance reads as zero. */
  function Held(balances: map<Address, int>, who: Address): int { GetOr(balances, who, 0) }

  function Accrued(s: State, who: Address): int { Held(s.accrued, who) }
  function Lifetime(s: State, who: Address): int { Held(s.lifetime, who) }

  // -------------------------------------------------------------------------
  // Entry points as state changes
  // -------------------------------------------------------------------------

  function Initialize(admin: Address): State {
    State(admin, None, 1, 0, map[1 := 0], map[], map[], map[])
  }

  function SetTreasury(s: State, caller: Address, treasury: Address): Result<State, Error> {
    var _ :- Need(caller == s.admin, Unauthorized);
    Ok(s.(treasury := Some(treasury)))
  }

  predicate ValidTierConfig(bps: seq<I128>, maxTiers: U32, cap: I128) {
    && 1 <= maxTiers <= MAX_SUPPORTED_TIERS && |bps| == maxTiers
    && 0 <= cap <= MAX_REWARD_CAP
    && (forall i :: 0 <= i < |bps| ==> 0 <= bps[i] <= MAX_TIER_BPS)
    && Sum(bps) <= MAX_TIER_BPS
  }

  /** The first n tiers of a configuration written over the stored ones; later tiers stay. */
  function WriteTiers(tiers: map<nat, int>, bps: seq<I128>, n: nat): (written: map<nat, int>)
    requires n <= |bps|
    ensures forall t: nat :: 1 <= t <= n ==> t in written && written[t] == bps[t - 1]
    ensures forall t: nat :: !(1 <= t <= n) ==> Get(written, t) == Get(tiers, t)
  {
    if n == 0 then tiers else WriteTiers(tiers, bps, n - 1)[n := bps[n - 1]]
  }

  function SetTierConfig(s: State, caller: Address, bps: seq<I128>, maxTiers: U32, cap: I128): Result<State, Error> {
    var _ :- Need(caller == s.admin, Unauthorized);
    var _ :- Need(ValidTierConfig(bps, maxTiers, cap), InvalidArgument);
    Ok(s.(maxTiers := maxTiers, rewardCap := cap, tierBps := WriteTiers(s.tierBps, bps, maxTiers)))
  }

  /** The bounded walk: the referrer or one of its nine nearest upstream referrers is the wallet. */
  ghost predicate WouldCreateCycle(referrer: map<Address, Address>, wallet: Address, newReferrer: Address) {
    exists j: nat :: j < MAX_SUPPORTED_TIERS && Reaches(referrer, newReferrer, wallet, j)
  }

  ghost function SetReferrer(s: State, caller: Address, wallet: Address, newReferrer: Address): Result<State, Error> {
    var _ :- Need(caller == s.admin, Unauthorized);
    var _ :- Need(wallet != newReferrer && !WouldCreateCycle(s.referrer, wallet, newReferrer), InvalidArgument);
    Ok(s.(referrer := s.referrer[wallet := newReferrer]))
  }

  ghost function Register(s: State, wallet: Address, newReferrer: Address): Result<State, Error> {
    var _ :- Need(wallet != newReferrer, InvalidArgument);
    var _ :- Need(wallet !in s.referrer, InvalidArgument);
    var _ :- Need(newReferrer in s.referrer, InvalidArgument);
    var _ :- Need(!WouldCreateCycle(s.referrer, wallet, newReferrer), InvalidArgument);
    Ok(s.(referrer := s.referrer[wallet := newReferrer]))
  }

  /** Credits a commission up to what the lifetime cap leaves. */
  function Credit(s: State, who: Address, commission: int): Result<(State, int), Error> {
    if Lifetime(s, who) >= s.rewardCap then Ok((s, 0))
    else
      var remaining :- CheckedSub(s.rewardCap, Lifetime(s, who)).OkOr(Overflow);
      var credited := if commission > remaining then remaining else commission;
      if credited == 0 then Ok((s, 0))
      else
        var accrued :- CheckedAdd(Accrued(s, who), credited).OkOr(Overflow);
        var lifetime :- CheckedAdd(Lifetime(s, who), credited).OkOr(Overflow);
        Ok((s.(accrued := s.accrued[who := accrued], lifetime := s.lifetime[who := lifetime]), credited))
  }

  predicate TiersPresent(s: State) {
    forall t: nat :: 1 <= t <= s.maxTiers ==> t in s.tierBps
  }

  /** One turn of the payout loop: the tier's commission, credited if there is any. */
  function AccrueTier(s: State, referrer: Address, base: I128, tier: nat, total: int): Result<(State, int), Error>
    requires tier in s.tierBps
  {
    var commission :- BpsOf(base, s.tierBps[tier]).OkOr(Overflow);
    if commission > 0 then
      var (s', credited) :- Credit(s, referrer, commission);
      var total' :- CheckedAdd(total, credited).OkOr(Overflow);
      Ok((s', total'))
    else
      Ok((s, total))
  }

  lemma AccrueTierKeepsConfig(s: State, referrer: Address, base: I128, tier: nat, total: int)
    requires tier in s.tierBps && AccrueTier(s, referrer, base, tier, total).Ok?
    ensures var s' := AccrueTier(s, referrer, base, tier, total).value.0;
            s' == s.(accrued := s'.accrued, lifetime := s'.lifetime)
  {
  }

  /** The payout walk from `tier` on: `wallet` is the node whose referrer is credited next. */
  function AccrueFrom(s: State, wallet: Address, base: I128, tier: nat, total: int): Result<(State, int), Error>
    requires tier >= 1 && TiersPresent(s)
    decreases s.maxTiers + 1 - tier
  {
    if tier > s.maxTiers || wallet !in s.referrer then Ok((s, total))
    else
      var (s', total') :- AccrueTier(s, s.referrer[wallet], base, tier, total);
      AccrueTierKeepsConfig(s, s.referrer[wallet], base, tier, total);
      AccrueFrom(s', s.referrer[wallet], base, tier + 1, total')
  }

  function Accrue(s: State, caller: Address, wallet: Address, base: I128): Result<(State, int), Error> {
    var _ :- Need(caller == s.admin, Unauthorized);
    var _ :- Need(base > 0, InvalidArgument);
    if !TiersPresent(s) then Err(NotFound) else AccrueFrom(s, wallet, base, 1, 0)
  }

  // -------------------------------------------------------------------------
  // The invariant of every run
  // -------------------------------------------------------------------------

  function TierSum(tiers: map<nat, int>, n: nat): int
    requires forall t: nat :: 1 <= t <= n ==> t in tiers
  {
    if n == 0 then 0 else TierSum(tiers, n - 1) + tiers[n]
  }

  ghost predicate TiersValid(s: State) {
    && 1 <= s.maxTiers <= MAX_SUPPORTED_TIERS
    && TiersPresent(s)
    && (forall t: nat :: 1 <= t <= s.maxTiers ==> 0 <= s.tierBps[t] <= MAX_TIER_BPS)
    && TierSum(s.tierBps, s.maxTiers) <= MAX_TIER_BPS
  }

  ghost predicate BalancesOrdered(accrued: map<Address, int>, lifetime: map<Address, int>) {
    forall a: Address :: 0 <= Held(accrued, a) <= Held(lifetime, a) <= MAX_REWARD_CAP
  }

  ghost predicate BalancesValid(s: State) {
    && 0 <= s.rewardCap <= MAX_REWARD_CAP
    && BalancesOrdered(s.accrued, s.lifetime)
  }

  ghost predicate Inv(s: State) {
    NoCycleWithin(s.referrer, MAX_SUPPORTED_TIERS) && TiersValid(s) && BalancesValid(s)
  }

  lemma {:induction false} WrittenTierSum(tiers: map<nat, int>, bps: seq<I128>, n: nat, k: nat)
    requires n <= k <= |bps|
    ensures TierSum(WriteTiers(tiers, bps, k), n) == Sum(bps[..n])
  {
    if n > 0 {
      WrittenTierSum(tiers, bps, n - 1, k);
      assert bps[..n][..n - 1] == bps[..n - 1];
    }
  }

  lemma SetTierConfigKeepsInv(s: State, caller: Address, bps: seq<I128>, maxTiers: U32, cap: I128)
    requires Inv(s) && SetTierConfig(s, caller, bps, maxTiers, cap).Ok?
    ensures Inv(SetTierConfig(s, caller, bps, maxTiers, cap).value)
  {
    WrittenTierSum(s.tierBps, bps, maxTiers, maxTiers);
    assert bps[..maxTiers] == bps;
  }

  lemma NewEdgeKeepsInv(s: State, wallet: Address, newReferrer: Address)
    requires Inv(s) && !WouldCreateCycle(s.referrer, wallet, newReferrer)
    ensures Inv(s.(referrer := s.referrer[wallet := newReferrer]))
  {
    EdgeKeepsNoCycle(s.referrer, wallet, newReferrer, MAX_SUPPORTED_TIERS);
  }

  // -------------------------------------------------------------------------
  // The bounded check is strong enough for the payout walk, and no stronger
  // -------------------------------------------------------------------------

  /** The wallets credited at tiers 1 to maxTiers are pairwise distinct, and none of them
      is the wallet whose transaction pays the commission. */
  lemma PayeesDistinct(s: State, wallet: Address, i: nat, j: nat)
    requires Inv(s) && i < j <= s.maxTiers && Hop(s.referrer, wallet, j).Some?
    ensures Hop(s.referrer, wallet, i).Some? && Hop(s.referrer, wallet, i) != Hop(s.referrer, wallet, j)
  {
    HopPrefix(s.referrer, wallet, i, j);
    if Hop(s.referrer, wallet, i) == Hop(s.referrer, wallet, j) {
      RepeatIsCycle(s.referrer, wallet, i, j);
    }
  }

  /** An edge the bounded check lets through leaves an acyclic graph acyclic exactly when the wallet is not upstream
      of its new referrer at a distance of ten hops or more, where the check does not look. */
  lemma NewEdgeAcyclicIff(referrer: map<Address, Address>, wallet: Address, newReferrer: Address)
    requires Acyclic(referrer) && !WouldCreateCycle(referrer, wallet, newReferrer)
    ensures Acyclic(referrer[wallet := newReferrer])
       <==> !exists j: nat :: j >= MAX_SUPPORTED_TIERS && Reaches(referrer, newReferrer, wallet, j)
  {
    if j: nat :| j >= MAX_SUPPORTED_TIERS && Reaches(referrer, newReferrer, wallet, j) {
      EdgeClosesCycle(referrer, wallet, newReferrer, j);
    } else {
      forall j: nat ensures !Reaches(referrer, newReferrer, wallet, j) {
        assert j >= MAX_SUPPORTED_TIERS || !Reaches(referrer, newReferrer, wallet, j);
      }
      EdgeKeepsAcyclic(referrer, wallet, newReferrer);
    }
  }

  /** So it is for an edge the admin sets ... */
  lemma AcceptedEdgeAcyclicIff(s: State, caller: Address, wallet: Address, newReferrer: Address)
    requires Acyclic(s.referrer) && SetReferrer(s, caller, wallet, newReferrer).Ok?
    ensures Acyclic(SetReferrer(s, caller, wallet, newReferrer).value.referrer)
       <==> !exists j: nat :: j >= MAX_SUPPORTED_TIERS && Reaches(s.referrer, newReferrer, wallet, j)
  {
    NewEdgeAcyclicIff(s.referrer, wallet, newReferrer);
  }

  /** ... and for one a wallet registers for itself. */
  lemma RegisteredEdgeAcyclicIff(s: State, wallet: Address, newReferrer: Address)
    requires Acyclic(s.referrer) && Register(s, wallet, newReferrer).Ok?
    ensures Acyclic(Register(s, wallet, newReferrer).value.referrer)
       <==> !exists j: nat :: j >= MAX_SUPPORTED_TIERS && Reaches(s.referrer, newReferrer, wallet, j)
  {
    NewEdgeAcyclicIff(s.referrer, wallet, newReferrer);
  }

  // -------------------------------------------------------------------------
  // The lifetime cap
  // -------------------------------------------------------------------------

  /** A lifetime total after one commission under a cap. */
  function Capped(lifetime: int, commission: int, cap: int): int {
    Max(lifetime, Min(cap, lifetime + commission))
  }

  /** What the cap leaves of a commission. */
  function Allowance(s: State, who: Address, commission: int): int {
    Capped(Lifetime(s, who), commission, s.rewardCap) - Lifetime(s, who)
  }

  /** Both balances of one wallet raised by the same amount. */
  ghost function Raise(s: State, who: Address, amount: int): State
    requires BalancesValid(s) && 0 <= amount && Lifetime(s, who) + amount <= MAX_REWARD_CAP
  {
    assert 0 <= Held(s.accrued, who) <= Held(s.lifetime, who);
    if amount == 0 then s
    else s.(accrued := s.accrued[who := Accrued(s, who) + amount],
            lifetime := s.lifetime[who := Lifetime(s, who) + amount])
  }

  lemma HeldAfterRaise(balances: map<Address, int>, who: Address, amount: int, a: Address)
    ensures Held(balances[who := Held(balances, who) + amount], a) == Held(balances, a) + if a == who then amount else 0
  {
  }

  lemma RaiseEffect(s: State, who: Address, amount: int)
    requires BalancesValid(s) && 0 <= amount && Lifetime(s, who) + amount <= MAX_REWARD_CAP
    ensures var s' := Raise(s, who, amount);
            && s' == s.(accrued := s'.accrued, lifetime := s'.lifetime)
            && (forall a: Address :: Held(s'.accrued, a) == Held(s.accrued, a) + if a == who then amount else 0)
            && (forall a: Address :: Held(s'.lifetime, a) == Held(s.lifetime, a) + if a == who then amount else 0)
            && BalancesValid(s')
  {
    var s' := Raise(s, who, amount);
    forall a: Address
      ensures Held(s'.accrued, a) == Held(s.accrued, a) + if a == who then amount else 0
      ensures Held(s'.lifetime, a) == Held(s.lifetime, a) + if a == who then amount else 0
    {
      if amount != 0 {
        HeldAfterRaise(s.accrued, who, amount, a);
        HeldAfterRaise(s.lifetime, who, amount, a);
      }
    }
  }

  /** A credit always succeeds and pays what the cap leaves, to both balances alike. */
  lemma CreditIsCappedRaise(s: State, who: Address, commission: int)
    requires BalancesValid(s) && commission >= 0
    ensures 0 <= Allowance(s, who, commission) <= commission
    ensures Lifetime(s, who) + Allowance(s, who, commission) <= MAX_REWARD_CAP
    ensures Credit(s, who, commission)
         == Ok((Raise(s, who, Allowance(s, who, commission)), Allowance(s, who, commission)))
  {
    assert 0 <= Held(s.accrued, who) <= Held(s.lifetime, who) <= MAX_REWARD_CAP;
  }

  function CappedAll(lifetime: int, commissions: seq<int>, cap: int): int {
    if commissions == [] then lifetime
    else Capped(CappedAll(lifetime, commissions[..|commissions| - 1], cap), commissions[|commissions| - 1], cap)
  }

  /** However a sum is cut into commissions, the capped lifetime comes out the same. */
  lemma {:induction false} CapIgnoresSplit(lifetime: int, commissions: seq<int>, cap: int)
    requires forall i :: 0 <= i < |commissions| ==> commissions[i] >= 0
    ensures Sum(commissions) >= 0
    ensures CappedAll(lifetime, commissions, cap) == Capped(lifetime, Sum(commissions), cap)
  {
    if commissions != [] {
      CapIgnoresSplit(lifetime, commissions[..|commissions| - 1], cap);
    }
  }

  /** Credits in order, to any wallets. */
  function CreditAll(s: State, credits: seq<(Address, int)>): Result<State, Error> {
    if credits == [] then Ok(s)
    else
      var before :- CreditAll(s, credits[..|credits| - 1]);
      var after :- Credit(before, credits[|credits| - 1].0, credits[|credits| - 1].1);
      Ok(after.0)
  }

  /** The commissions in a list of credits that are for one wallet. */
  function For(credits: seq<(Address, int)>, who: Address): seq<int> {
    if credits == [] then []
    else
      var last := credits[|credits| - 1];
      For(credits[..|credits| - 1], who) + if last.0 == who then [last.1] else []
  }

  lemma CappedAllSnoc(lifetime: int, commissions: seq<int>, last: int, cap: int)
    ensures CappedAll(lifetime, commissions + [last], cap) == Capped(CappedAll(lifetime, commissions, cap), last, cap)
  {
    assert (commissions + [last])[..|commissions|] == commissions;
  }

  /** One more credit, for the wallet it is for and for any other. */
  lemma CreditStep(s: State, credit: (Address, int), a: Address)
    requires BalancesValid(s) && credit.1 >= 0
    ensures Credit(s, credit.0, credit.1).Ok?
    ensures var s' := Credit(s, credit.0, credit.1).value.0;
            && BalancesValid(s') && s' == s.(accrued := s'.accrued, lifetime := s'.lifetime)
            && Lifetime(s', a)
                 == (if a == credit.0 then Capped(Lifetime(s, a), credit.1, s.rewardCap) else Lifetime(s, a))
            && Accrued(s', a) - Accrued(s, a) == Lifetime(s', a) - Lifetime(s, a)
  {
    CreditIsCappedRaise(s, credit.0, credit.1);
    RaiseEffect(s, credit.0, Allowance(s, credit.0, credit.1));
  }

  ghost predicate NoneNegative(credits: seq<(Address, int)>) {
    forall i :: 0 <= i < |credits| ==> credits[i].1 >= 0
  }

  lemma {:induction false} ForNonNegative(credits: seq<(Address, int)>, who: Address)
    requires NoneNegative(credits)
    ensures forall i :: 0 <= i < |For(credits, who)| ==> For(credits, who)[i] >= 0
  {
    if credits != [] {
      ForNonNegative(credits[..|credits| - 1], who);
    }
  }

  lemma {:induction false} CreditsFold(s: State, credits: seq<(Address, int)>, a: Address)
    requires BalancesValid(s) && NoneNegative(credits)
    ensures CreditAll(s, credits).Ok?
    ensures var s' := CreditAll(s, credits).value;
            && BalancesValid(s') && s' == s.(accrued := s'.accrued, lifetime := s'.lifetime)
            && Lifetime(s', a) == CappedAll(Lifetime(s, a), For(credits, a), s.rewardCap)
            && Accrued(s', a) - Accrued(s, a) == Lifetime(s', a) - Lifetime(s, a)
  {
    if credits != [] {
      var front, last := credits[..|credits| - 1], credits[|credits| - 1];
      CreditsFold(s, front, a);
      CreditStep(CreditAll(s, front).value, last, a);
      CappedAllSnoc(Lifetime(s, a), For(front, a), last.1, s.rewardCap);
      assert For(front, a) + [] == For(front, a);
    }
  }

  /** Any sequence of credits, to any wallets in any order, succeeds; each wallet's lifetime comes out as if the sum of
      its own commissions had been credited at once, and its accrued balance grows by as much. */
  lemma CreditsReachCap(s: State, credits: seq<(Address, int)>, a: Address)
    requires BalancesValid(s) && NoneNegative(credits)
    ensures CreditAll(s, credits).Ok?
    ensures var s' := CreditAll(s, credits).value;
            && BalancesValid(s')
            && Lifetime(s', a) == Capped(Lifetime(s, a), Sum(For(credits, a)), s.rewardCap)
            && Accrued(s', a) - Accrued(s, a) == Lifetime(s', a) - Lifetime(s, a)
  {
    CreditsFold(s, credits, a);
    ForNonNegative(credits, a);
    CapIgnoresSplit(Lifetime(s, a), For(credits, a), s.rewardCap);
  }
}

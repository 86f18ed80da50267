/** What one accrual pays: the total, the balances it raises, and who is paid how much. */
module Accrual {
  import opened Host
  import opened Sums
  import opened Walks
  import opened BpsMath
  import opened Referral

  lemma RaiseSums(s: State, who: Address, amount: int)
    requires BalancesValid(s) && 0 <= amount && Lifetime(s, who) + amount <= MAX_REWARD_CAP
    ensures var s' := Raise(s, who, amount);
            && SumValues(s'.accrued) == SumValues(s.accrued) + amount
            && SumValues(s'.lifetime) == SumValues(s.lifetime) + amount
  {
    SumValuesUpdate(s.accrued, who, Accrued(s, who) + amount);
    SumValuesUpdate(s.lifetime, who, Lifetime(s, who) + amount);
  }

  // -------------------------------------------------------------------------
  // The walk, without the tier arithmetic
  // -------------------------------------------------------------------------

  /** Pays one commission per hop up the referrer graph, each capped on its own. */
  ghost function PayPath(s: State, wallet: Address, commissions: seq<nat>): (s': State)
    requires BalancesValid(s)
    ensures s' == s.(accrued := s'.accrued, lifetime := s'.lifetime)
    decreases |commissions|
  {
    if commissions == [] || wallet !in s.referrer then s
    else PayPath(PayOne(s, s.referrer[wallet], commissions[0]), s.referrer[wallet], commissions[1..])
  }

  /** What such a walk pays in all. */
  ghost function PathPaid(s: State, wallet: Address, commissions: seq<nat>): int
    requires BalancesValid(s)
    decreases |commissions|
  {
    if commissions == [] || wallet !in s.referrer then 0
    else
      Allowance(s, s.referrer[wallet], commissions[0])
      + PathPaid(PayOne(s, s.referrer[wallet], commissions[0]), s.referrer[wallet], commissions[1..])
  }

  ghost function PayOne(s: State, who: Address, commission: nat): (s': State)
    requires BalancesValid(s)
    ensures BalancesValid(s') && s' == s.(accrued := s'.accrued, lifetime := s'.lifetime)
  {
    CreditIsCappedRaise(s, who, commission);
    RaiseEffect(s, who, Allowance(s, who, commission));
    Raise(s, who, Allowance(s, who, commission))
  }

  lemma PayOneEffect(s: State, who: Address, commission: nat, a: Address)
    requires BalancesValid(s)
    ensures 0 <= Allowance(s, who, commission) <= commission
    ensures var paid, s' := if a == who then Allowance(s, who, commission) else 0, PayOne(s, who, commission);
            Lifetime(s', a) == Lifetime(s, a) + paid && Accrued(s', a) == Accrued(s, a) + paid
  {
    CreditIsCappedRaise(s, who, commission);
    RaiseEffect(s, who, Allowance(s, who, commission));
  }

  function SeqSum(xs: seq<nat>): nat {
    if xs == [] then 0 else xs[0] + SeqSum(xs[1..])
  }

  lemma PayOneSums(s: State, who: Address, commission: nat)
    requires BalancesValid(s)
    ensures var s' := PayOne(s, who, commission);
            && SumValues(s'.accrued) == SumValues(s.accrued) + Allowance(s, who, commission)
            && SumValues(s'.lifetime) == SumValues(s.lifetime) + Allowance(s, who, commission)
  {
    CreditIsCappedRaise(s, who, commission);
    RaiseSums(s, who, Allowance(s, who, commission));
  }

  /** What a walk pays is what both tables grow by, and at most what was offered. */
  lemma {:induction false} PayPathAccounts(s: State, wallet: Address, cs: seq<nat>)
    requires BalancesValid(s)
    ensures BalancesValid(PayPath(s, wallet, cs))
    ensures 0 <= PathPaid(s, wallet, cs) <= SeqSum(cs)
    ensures SumValues(PayPath(s, wallet, cs).accrued) == SumValues(s.accrued) + PathPaid(s, wallet, cs)
    ensures SumValues(PayPath(s, wallet, cs).lifetime) == SumValues(s.lifetime) + PathPaid(s, wallet, cs)
    decreases |cs|
  {
    if cs != [] && wallet in s.referrer {
      PayOneSums(s, s.referrer[wallet], cs[0]);
      PayOneEffect(s, s.referrer[wallet], cs[0], s.referrer[wallet]);
      PayPathAccounts(PayOne(s, s.referrer[wallet], cs[0]), s.referrer[wallet], cs[1..]);
    }
  }

  /** No wallet is met twice within this many hops. */
  ghost predicate PathDistinct(next: map<Address, Address>, wallet: Address, hops: nat) {
    forall i: nat, j: nat :: i < j <= hops && Hop(next, wallet, j).Some?
      ==> Hop(next, wallet, i) != Hop(next, wallet, j)
  }

  lemma PathStep(next: map<Address, Address>, wallet: Address, i: nat)
    requires wallet in next
    ensures Hop(next, wallet, i + 1) == Hop(next, next[wallet], i)
  {
    HopOne(next, wallet);
    HopAdd(next, wallet, 1, i);
  }

  lemma PathTail(next: map<Address, Address>, wallet: Address, hops: nat)
    requires hops >= 1 && wallet in next && PathDistinct(next, wallet, hops)
    ensures PathDistinct(next, next[wallet], hops - 1)
    ensures forall j: nat :: 1 <= j <= hops - 1 ==> Hop(next, next[wallet], j) != Some(next[wallet])
  {
    HopOne(next, wallet);
    forall i: nat | true ensures Hop(next, wallet, i + 1) == Hop(next, next[wallet], i) {
      PathStep(next, wallet, i);
    }
    forall i: nat, j: nat | i < j <= hops - 1 && Hop(next, next[wallet], j).Some?
      ensures Hop(next, next[wallet], i) != Hop(next, next[wallet], j)
    {
      assert Hop(next, wallet, i + 1) != Hop(next, wallet, j + 1);
    }
    forall j: nat | 1 <= j <= hops - 1 ensures Hop(next, next[wallet], j) != Some(next[wallet]) {
      assert Hop(next, wallet, 1) == Some(next[wallet]);
      assert Hop(next, wallet, j + 1) == Hop(next, next[wallet], j);
    }
  }

  lemma {:induction false} PayPathPays(s: State, wallet: Address, cs: seq<nat>, i: nat, who: Address)
    requires BalancesValid(s) && PathDistinct(s.referrer, wallet, |cs|)
    requires 1 <= i <= |cs| && Hop(s.referrer, wallet, i) == Some(who)
    ensures var s' := PayPath(s, wallet, cs);
            && Lifetime(s', who) == Lifetime(s, who) + Allowance(s, who, cs[i - 1])
            && Accrued(s', who) == Accrued(s, who) + Allowance(s, who, cs[i - 1])
    decreases |cs|
  {
    HopPrefix(s.referrer, wallet, 1, i);
    HopOne(s.referrer, wallet);
    var referrer := s.referrer[wallet];
    var s1 := PayOne(s, referrer, cs[0]);
    PayOneEffect(s, referrer, cs[0], who);
    PathTail(s.referrer, wallet, |cs|);
    if i == 1 {
      PayPathSpares(s1, referrer, cs[1..], who);
    } else {
      PathStep(s.referrer, wallet, i - 1);
      assert Hop(s.referrer, wallet, 1) != Hop(s.referrer, wallet, i);
      PayPathPays(s1, referrer, cs[1..], i - 1, who);
    }
  }

  /** A wallet that the walk does not meet keeps its balances. */
  lemma {:induction false} PayPathSpares(s: State, wallet: Address, cs: seq<nat>, who: Address)
    requires BalancesValid(s)
    requires forall j: nat :: 1 <= j <= |cs| ==> Hop(s.referrer, wallet, j) != Some(who)
    ensures Lifetime(PayPath(s, wallet, cs), who) == Lifetime(s, who)
    ensures Accrued(PayPath(s, wallet, cs), who) == Accrued(s, who)
    decreases |cs|
  {
    if cs != [] && wallet in s.referrer {
      HopOne(s.referrer, wallet);
      var referrer := s.referrer[wallet];
      assert Hop(s.referrer, wallet, 1) != Some(who);
      forall j: nat | 1 <= j <= |cs| - 1 ensures Hop(s.referrer, referrer, j) != Some(who) {
        PathStep(s.referrer, wallet, j);
        assert Hop(s.referrer, wallet, j + 1) != Some(who);
      }
      PayOneEffect(s, referrer, cs[0], who);
      PayPathSpares(PayOne(s, referrer, cs[0]), referrer, cs[1..], who);
    }
  }

  // -------------------------------------------------------------------------
  // The tier arithmetic
  // -------------------------------------------------------------------------

  /** The commission one tier earns on an amount. */
  function Commission(s: State, base: int, tier: nat): int
    requires tier in s.tierBps
  {
    base * s.tierBps[tier] / 10_000
  }

  lemma CommissionFits(s: State, base: I128, tier: nat)
    requires TiersValid(s) && base > 0 && 1 <= tier <= s.maxTiers
    ensures BpsOf(base, s.tierBps[tier]) == Some(Commission(s, base, tier))
    ensures 0 <= Commission(s, base, tier) <= base
    ensures 10_000 * Commission(s, base, tier) <= base * s.tierBps[tier]
  {
    ApplyBpsExact(base, s.tierBps[tier]);
    FloorAtMost(base, s.tierBps[tier]);
  }

  /** The list holds the commissions still to be paid from one tier on. */
  ghost predicate Owed(tiers: map<nat, int>, base: int, tier: nat, cs: seq<nat>)
    decreases |cs|
  {
    cs != [] ==> tier in tiers && cs[0] == base * tiers[tier] / 10_000 && Owed(tiers, base, tier + 1, cs[1..])
  }

  ghost function CommissionsFrom(s: State, base: I128, tier: nat): (cs: seq<nat>)
    requires TiersValid(s) && base > 0 && 1 <= tier <= s.maxTiers + 1
    ensures |cs| == s.maxTiers + 1 - tier && Owed(s.tierBps, base, tier, cs)
    decreases s.maxTiers + 1 - tier
  {
    if tier > s.maxTiers then []
    else
      CommissionFits(s, base, tier);
      var rest := CommissionsFrom(s, base, tier + 1);
      var cs := [Commission(s, base, tier)] + rest;
      assert cs[1..] == rest;
      cs
  }

  lemma {:induction false} OwedAt(s: State, base: int, tier: nat, cs: seq<nat>, i: nat)
    requires Owed(s.tierBps, base, tier, cs) && i < |cs|
    ensures tier + i in s.tierBps && cs[i] == Commission(s, base, tier + i)
    decreases i
  {
    if i > 0 {
      OwedAt(s, base, tier + 1, cs[1..], i - 1);
    }
  }

  lemma OwedSumStep(base: int, first: int, rest: int, bps: int, upto: int)
    requires 10_000 * first <= base * bps && 10_000 * rest <= base * upto
    ensures 10_000 * (first + rest) <= base * (bps + upto)
  {
    assert base * (bps + upto) == base * bps + base * upto;
  }

  lemma {:induction false} OwedSum(tiers: map<nat, int>, base: int, tier: nat, cs: seq<nat>)
    requires tier >= 1 && Owed(tiers, base, tier, cs)
    requires forall t: nat :: 1 <= t < tier + |cs| ==> t in tiers
    ensures 10_000 * SeqSum(cs) <= base * (TierSum(tiers, tier + |cs| - 1) - TierSum(tiers, tier - 1))
    decreases |cs|
  {
    if cs != [] {
      OwedSum(tiers, base, tier + 1, cs[1..]);
      OwedSumStep(base, cs[0], SeqSum(cs[1..]), tiers[tier], TierSum(tiers, tier + |cs| - 1) - TierSum(tiers, tier));
    }
  }

  /** All tiers together never earn more than the amount itself. */
  lemma CommissionsWithinBase(s: State, base: I128)
    requires TiersValid(s) && base > 0
    ensures SeqSum(CommissionsFrom(s, base, 1)) <= base
  {
    OwedSum(s.tierBps, base, 1, CommissionsFrom(s, base, 1));
    MulAtMost(base, Max(0, TierSum(s.tierBps, s.maxTiers)), 10_000);
  }

  /** One turn of the accrual loop never fails and pays the tier's referrer what the cap leaves. */
  lemma AccrueTurn(s: State, referrer: Address, base: I128, tier: nat, total: int, commission: nat)
    requires TiersValid(s) && BalancesValid(s) && base > 0 && 1 <= tier <= s.maxTiers
    requires commission == Commission(s, base, tier)
    requires 0 <= total && total + commission <= I128_MAX
    ensures AccrueTier(s, referrer, base, tier, total)
         == Ok((PayOne(s, referrer, commission), total + Allowance(s, referrer, commission)))
  {
    CommissionFits(s, base, tier);
    CreditIsCappedRaise(s, referrer, commission);
    var s1, paid := PayOne(s, referrer, commission), Allowance(s, referrer, commission);
    if commission > 0 {
      assert CheckedAdd(total, paid) == Some(total + paid);
    } else {
      assert s1 == s;
    }
  }

  lemma AccrueFromUnfolds(s: State, wallet: Address, base: I128, tier: nat, total: int, s1: State, total1: int)
    requires tier >= 1 && TiersPresent(s) && TiersPresent(s1) && tier <= s.maxTiers && wallet in s.referrer
    requires AccrueTier(s, s.referrer[wallet], base, tier, total) == Ok((s1, total1))
    ensures AccrueFrom(s, wallet, base, tier, total) == AccrueFrom(s1, s.referrer[wallet], base, tier + 1, total1)
  {
  }

  lemma AccrueFromEnds(s: State, wallet: Address, base: I128, tier: nat, total: int)
    requires tier >= 1 && TiersPresent(s) && (tier > s.maxTiers || wallet !in s.referrer)
    ensures AccrueFrom(s, wallet, base, tier, total) == Ok((s, total))
  {
  }

  lemma PayPathUnfolds(s: State, wallet: Address, cs: seq<nat>)
    requires BalancesValid(s) && cs != [] && wallet in s.referrer
    ensures var s1 := PayOne(s, s.referrer[wallet], cs[0]);
            && PayPath(s, wallet, cs) == PayPath(s1, s.referrer[wallet], cs[1..])
            && PathPaid(s, wallet, cs)
                 == Allowance(s, s.referrer[wallet], cs[0]) + PathPaid(s1, s.referrer[wallet], cs[1..])
  {
  }

  /** What a turn of the loop leaves for the next: the tiers still owed, and room for them in the total. */
  lemma NextTurn(s: State, referrer: Address, base: I128, tier: nat, total: int, cs: seq<nat>)
    requires TiersValid(s) && BalancesValid(s) && base > 0 && 1 <= tier <= s.maxTiers
    requires cs != [] && Owed(s.tierBps, base, tier, cs)
    requires 0 <= total && total + SeqSum(cs) <= I128_MAX
    ensures var s1, total1 := PayOne(s, referrer, cs[0]), total + Allowance(s, referrer, cs[0]);
            && TiersValid(s1) && BalancesValid(s1) && Owed(s1.tierBps, base, tier + 1, cs[1..])
            && 0 <= total1 && total1 + SeqSum(cs[1..]) <= I128_MAX
            && AccrueTier(s, referrer, base, tier, total) == Ok((s1, total1))
  {
    PayOneEffect(s, referrer, cs[0], referrer);
    AccrueTurn(s, referrer, base, tier, total, cs[0]);
  }

  /** The accrual loop is the walk that pays the tier commissions in order. */
  lemma {:induction false} AccrueFromIsPayPath(s: State, wallet: Address, base: I128, tier: nat, total: int,
                                               cs: seq<nat>)
    requires TiersValid(s) && BalancesValid(s) && base > 0 && 1 <= tier <= s.maxTiers + 1
    requires |cs| == s.maxTiers + 1 - tier && Owed(s.tierBps, base, tier, cs)
    requires 0 <= total && total + SeqSum(cs) <= I128_MAX
    ensures AccrueFrom(s, wallet, base, tier, total)
         == Ok((PayPath(s, wallet, cs), total + PathPaid(s, wallet, cs)))
    decreases s.maxTiers + 1 - tier
  {
    if tier <= s.maxTiers && wallet in s.referrer {
      var referrer := s.referrer[wallet];
      var s1, total1 := PayOne(s, referrer, cs[0]), total + Allowance(s, referrer, cs[0]);
      NextTurn(s, referrer, base, tier, total, cs);
      AccrueFromUnfolds(s, wallet, base, tier, total, s1, total1);
      AccrueFromIsPayPath(s1, referrer, base, tier + 1, total1, cs[1..]);
      PayPathUnfolds(s, wallet, cs);
    } else {
      AccrueFromEnds(s, wallet, base, tier, total);
    }
  }

  // -------------------------------------------------------------------------
  // One accrual
  // -------------------------------------------------------------------------

  /** An admin's accrual of a positive amount always succeeds; what it returns is exactly what
      both tables of balances grew by, and never more than the amount it was computed from. */
  lemma AccrueAccounts(s: State, wallet: Address, base: I128)
    requires Inv(s) && base > 0
    ensures Accrue(s, s.admin, wallet, base).Ok?
    ensures var (s', total) := Accrue(s, s.admin, wallet, base).value;
            && 0 <= total <= base
            && SumValues(s'.accrued) == SumValues(s.accrued) + total
            && SumValues(s'.lifetime) == SumValues(s.lifetime) + total
            && s' == s.(accrued := s'.accrued, lifetime := s'.lifetime)
            && Inv(s')
  {
    CommissionsWithinBase(s, base);
    AccrueFromIsPayPath(s, wallet, base, 1, 0, CommissionsFrom(s, base, 1));
    PayPathAccounts(s, wallet, CommissionsFrom(s, base, 1));
  }

  /** Because the payees are distinct, each is paid once, from the balances before the call:
      the tier-i referrer gets the tier-i commission up to its cap, everyone else nothing. */
  lemma AccruePaysEachTierOnce(s: State, wallet: Address, base: I128)
    requires Inv(s) && base > 0
    ensures Accrue(s, s.admin, wallet, base).Ok?
    ensures var s' := Accrue(s, s.admin, wallet, base).value.0;
            && (forall i: nat, who: Address :: 1 <= i <= s.maxTiers && Reaches(s.referrer, wallet, who, i) ==>
                  && Lifetime(s', who) == Capped(Lifetime(s, who), Commission(s, base, i), s.rewardCap)
                  && Accrued(s', who) - Accrued(s, who) == Lifetime(s', who) - Lifetime(s, who))
            && (forall who: Address ::
                  (forall i: nat :: 1 <= i <= s.maxTiers ==> !Reaches(s.referrer, wallet, who, i)) ==>
                  Lifetime(s', who) == Lifetime(s, who) && Accrued(s', who) == Accrued(s, who))
  {
    CommissionsWithinBase(s, base);
    AccrueFromIsPayPath(s, wallet, base, 1, 0, CommissionsFrom(s, base, 1));
    var cs := CommissionsFrom(s, base, 1);
    var s' := PayPath(s, wallet, cs);
    forall i: nat, j: nat | i < j <= s.maxTiers && Hop(s.referrer, wallet, j).Some?
      ensures Hop(s.referrer, wallet, i) != Hop(s.referrer, wallet, j)
    {
      PayeesDistinct(s, wallet, i, j);
    }
    forall i: nat, who: Address | 1 <= i <= s.maxTiers && Reaches(s.referrer, wallet, who, i)
      ensures Lifetime(s', who) == Capped(Lifetime(s, who), Commission(s, base, i), s.rewardCap)
      ensures Accrued(s', who) - Accrued(s, who) == Lifetime(s', who) - Lifetime(s, who)
    {
      PayPathPays(s, wallet, cs, i, who);
      OwedAt(s, base, 1, cs, i - 1);
    }
    forall who: Address | forall i: nat :: 1 <= i <= s.maxTiers ==> !Reaches(s.referrer, wallet, who, i)
      ensures Lifetime(s', who) == Lifetime(s, who) && Accrued(s', who) == Accrued(s, who)
    {
      forall j: nat | 1 <= j <= s.maxTiers ensures Hop(s.referrer, wallet, j) != Some(who) {
        assert !Reaches(s.referrer, wallet, who, j);
      }
      PayPathSpares(s, wallet, cs, who);
    }
  }
}

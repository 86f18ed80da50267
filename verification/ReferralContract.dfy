/** The referral contract's storage and entry points. */
module ReferralContract {
  import opened Host
  import opened Errors
  import opened Walks
  import opened BpsMath
  import Spec = Referral
  import Rewards
  import TreasuryContract

  class Referral {
    const self: Address
    var admin: Address
    var treasury: Option<Address>
    var maxTiers: nat
    var rewardCap: int
    var tierBps: map<nat, int>
    var referrer: map<Address, Address>
    var accrued: map<Address, int>
    var lifetime: map<Address, int>

    ghost function View(): Spec.State
      reads this
    {
      Spec.State(admin, treasury, maxTiers, rewardCap, tierBps, referrer, accrued, lifetime)
    }

    constructor (address: Address, owner: Address)
      ensures View() == Spec.Initialize(owner) && self == address
    {
      self := address;
      admin := owner;
      treasury := None;
      maxTiers := 1;
      rewardCap := 0;
      tierBps := map[1 := 0];
      referrer, accrued, lifetime := map[], map[], map[];
    }

    method SetTreasury(caller: Address, address: Address) returns (r: Result<(), Error>)
      modifies this
      ensures Refines(Spec.SetTreasury(old(View()), caller, address), old(View()), r, View())
    {
      var _ :- Need(caller == admin, Unauthorized);
      treasury := Some(address);
      return Ok(());
    }

    method ValidateTierConfig(bps: seq<I128>, tiers: U32, cap: I128) returns (r: Result<(), Error>)
      ensures r == if Spec.ValidTierConfig(bps, tiers, cap) then Ok(()) else Err(InvalidArgument)
    {
      if tiers == 0 || tiers > Spec.MAX_SUPPORTED_TIERS || |bps| != tiers {
        return Err(InvalidArgument);
      }
      if !(0 <= cap <= Spec.MAX_REWARD_CAP) {
        return Err(InvalidArgument);
      }
      var total, index := 0, 0;
      while index < |bps|
        invariant 0 <= index <= |bps|
        invariant forall i :: 0 <= i < index ==> 0 <= bps[i] <= Spec.MAX_TIER_BPS
        invariant total == Sum(bps[..index]) && 0 <= total <= index * 10_000
      {
        if !(0 <= bps[index] <= Spec.MAX_TIER_BPS) {
          return Err(InvalidArgument);
        }
        assert bps[..index + 1][..index] == bps[..index];
        assert CheckedAdd(total, bps[index]).Some?;  // ten shares of at most 10 000 cannot overflow
        total := total + bps[index];
        index := index + 1;
      }
      assert bps[..index] == bps;
      if total > Spec.MAX_TIER_BPS {
        return Err(InvalidArgument);
      }
      return Ok(());
    }

    method SetTierConfig(caller: Address, bps: seq<I128>, tiers: U32, cap: I128) returns (r: Result<(), Error>)
      modifies this
      ensures Refines(Spec.SetTierConfig(old(View()), caller, bps, tiers, cap), old(View()), r, View())
    {
      var _ :- Need(caller == admin, Unauthorized);
      var valid := ValidateTierConfig(bps, tiers, cap);
      if valid.Err? {
        return valid;
      }
      maxTiers := tiers;
      rewardCap := cap;
      var tier := 1;
      while tier <= tiers
        invariant 1 <= tier <= tiers + 1
        invariant View() == old(View()).(maxTiers := tiers, rewardCap := cap,
                                         tierBps := Spec.WriteTiers(old(tierBps), bps, tier - 1))
      {
        tierBps := tierBps[tier := bps[tier - 1]];
        tier := tier + 1;
      }
      return Ok(());
    }

    /** Walks at most ten wallets up from the new referrer. */
    method WouldCreateCycle(wallet: Address, newReferrer: Address) returns (cyclic: bool)
      ensures cyclic == Spec.WouldCreateCycle(referrer, wallet, newReferrer)
    {
      var current := newReferrer;
      var depth := 0;
      while depth < Spec.MAX_SUPPORTED_TIERS
        invariant 0 <= depth <= Spec.MAX_SUPPORTED_TIERS
        invariant Reaches(referrer, newReferrer, current, depth)
        invariant forall j: nat :: j < depth ==> !Reaches(referrer, newReferrer, wallet, j)
      {
        if current == wallet {
          return true;
        }
        if current !in referrer {
          WalkStops(referrer, newReferrer, current, depth);
          return false;
        }
        assert Reaches(referrer, newReferrer, referrer[current], depth + 1);
        current := referrer[current];
        depth := depth + 1;
      }
      return false;
    }

    method SetReferrer(caller: Address, wallet: Address, newReferrer: Address) returns (r: Result<(), Error>)
      modifies this
      ensures Refines(Spec.SetReferrer(old(View()), caller, wallet, newReferrer), old(View()), r, View())
    {
      var _ :- Need(caller == admin, Unauthorized);
      var cyclic := WouldCreateCycle(wallet, newReferrer);
      if wallet == newReferrer || cyclic {
        return Err(InvalidArgument);
      }
      referrer := referrer[wallet := newReferrer];
      return Ok(());
    }

    method Register(wallet: Address, newReferrer: Address) returns (r: Result<(), Error>)
      modifies this
      ensures Refines(Spec.Register(old(View()), wallet, newReferrer), old(View()), r, View())
    {
      if wallet == newReferrer {
        return Err(InvalidArgument);
      }
      if wallet in referrer {
        return Err(InvalidArgument);
      }
      if newReferrer !in referrer {
        return Err(InvalidArgument);
      }
      var cyclic := WouldCreateCycle(wallet, newReferrer);
      if cyclic {
        return Err(InvalidArgument);
      }
      referrer := referrer[wallet := newReferrer];
      return Ok(());
    }

    method CreditReferrer(who: Address, commission: int) returns (r: Result<int, Error>)
      modifies this`accrued, this`lifetime
      ensures RefinesWith(Spec.Credit(old(View()), who, commission), old(View()), r, View())
    {
      var lifetimeAccrued := GetOr(lifetime, who, 0);
      if lifetimeAccrued >= rewardCap {
        return Ok(0);
      }
      var remainingCap :- CheckedSub(rewardCap, lifetimeAccrued).OkOr(Overflow);
      var credited := if commission > remainingCap then remainingCap else commission;
      if credited == 0 {
        return Ok(0);
      }
      var newAccrued :- CheckedAdd(GetOr(accrued, who, 0), credited).OkOr(Overflow);
      var newLifetime :- CheckedAdd(lifetimeAccrued, credited).OkOr(Overflow);
      accrued := accrued[who := newAccrued];
      lifetime := lifetime[who := newLifetime];
      return Ok(credited);
    }

    method Accrue(caller: Address, wallet: Address, base: I128) returns (r: Result<int, Error>)
      modifies this`accrued, this`lifetime
      ensures RefinesWith(Spec.Accrue(old(View()), caller, wallet, base), old(View()), r, View())
    {
      var _ :- Need(caller == admin, Unauthorized);
      var _ :- Need(base > 0, InvalidArgument);
      var cache: seq<int> := [];
      while |cache| < maxTiers
        invariant |cache| <= maxTiers
        invariant forall t: nat :: 1 <= t <= |cache| ==> t in tierBps && cache[t - 1] == tierBps[t]
      {
        if |cache| + 1 !in tierBps {
          return Err(NotFound);
        }
        cache := cache + [tierBps[|cache| + 1]];
      }

      // The host undoes every write of a call that fails.
      var savedAccrued, savedLifetime := accrued, lifetime;
      ghost var start := View();
      var tier, current, total := 1, wallet, 0;
      while tier <= maxTiers && current in referrer
        invariant 1 <= tier <= maxTiers + 1
        invariant View() == start.(accrued := accrued, lifetime := lifetime)
        invariant Spec.AccrueFrom(start, wallet, base, 1, 0) == Spec.AccrueFrom(View(), current, base, tier, total)
        decreases maxTiers + 1 - tier
      {
        var upstream := referrer[current];
        var commission := BpsOf(base, cache[tier - 1]);
        if commission.None? {
          accrued, lifetime := savedAccrued, savedLifetime;
          return Err(Overflow);
        }
        if commission.value > 0 {
          var credited := CreditReferrer(upstream, commission.value);
          if credited.Err? {
            accrued, lifetime := savedAccrued, savedLifetime;
            return credited;
          }
          var sum := CheckedAdd(total, credited.value);
          if sum.None? {
            accrued, lifetime := savedAccrued, savedLifetime;
            return Err(Overflow);
          }
          total := sum.value;
        }
        current := upstream;
        tier := tier + 1;
      }
      return Ok(total);
    }

    /** The pool is the contract at the configured address. */
    method ClaimRewards(who: Address, pool: TreasuryContract.Treasury) returns (r: Result<int, Error>)
      modifies this`accrued, pool
      ensures RefinesWith(Rewards.ClaimRewards(self, old(View()), old(pool.View()), who),
                          (old(View()), old(pool.View())), r, (View(), pool.View()))
    {
      var amount := GetOr(accrued, who, 0);
      if amount == 0 {
        return Ok(0);
      }
      var _ :- Need(treasury.Some?, NotFound);
      if !IsI128(amount) {
        return Err(HostPanic);
      }
      var paid := pool.DistributeReward(self, amount);
      if paid.Err? {
        return Err(if paid.error == HostPanic then InvalidArgument else paid.error);
      }
      accrued := accrued[who := 0];
      return Ok(amount);
    }
  }
}

/** The treasury's category balances and the guards on them. */
module Treasury {
  import opened Host
  import opened Errors

  datatype State = State(
    admin: Address,
    managers: set<Address>,
    paused: bool,
    withdrawalLimit: int,
    balances: map<Symbol, int>,
    referralContract: Option<Address>)

  const RESERVE: Symbol := "reserve"
  const REWARDS: Symbol := "rewards"

  function Balance(s: State, category: Symbol): int { GetOr(s.balances, category, 0) }

  function Initialize(admin: Address, limit: I128): Result<State, Error> {
    var _ :- Need(limit > 0, InvalidArgument);
    Ok(State(admin, {admin}, false, limit, map[], None))
  }

  function AddManager(s: State, caller: Address, who: Address): Result<State, Error> {
    var _ :- Need(caller == s.admin, Unauthorized);
    Ok(s.(managers := s.managers + {who}))
  }

  function RemoveManager(s: State, caller: Address, who: Address): Result<State, Error> {
    var _ :- Need(caller == s.admin, Unauthorized);
    Ok(s.(managers := s.managers - {who}))
  }

  function SetWithdrawalLimit(s: State, caller: Address, limit: I128): Result<State, Error> {
    var _ :- Need(caller == s.admin, Unauthorized);
    var _ :- Need(limit > 0, InvalidArgument);
    Ok(s.(withdrawalLimit := limit))
  }

  function SetReferralContract(s: State, caller: Address, referral: Address): Result<State, Error> {
    var _ :- Need(caller == s.admin, Unauthorized);
    Ok(s.(referralContract := Some(referral)))
  }

  function Deposit(s: State, caller: Address, category: Symbol, amount: I128): Result<State, Error> {
    var _ :- Need(amount > 0, InvalidArgument);
    var _ :- Need(caller in s.managers, Unauthorized);
    var balance :- CheckedAdd(Balance(s, category), amount).OkOr(Overflow);
    Ok(s.(balances := s.balances[category := balance]))
  }

  function Withdraw(s: State, caller: Address, amount: I128, category: Symbol): Result<State, Error> {
    var _ :- Need(amount > 0, InvalidArgument);
    var _ :- Need(amount <= s.withdrawalLimit, WithdrawalLimitExceeded);
    var _ :- Need(amount <= Balance(s, category), InsufficientBalance);
    var _ :- Need(caller in s.managers, Unauthorized);
    Ok(s.(balances := s.balances[category := Balance(s, category) - amount]))
  }

  function EmergencyWithdraw(s: State, caller: Address, amount: I128): Result<State, Error> {
    var _ :- Need(amount > 0, InvalidArgument);
    var _ :- Need(s.paused, NotPaused);
    var balance :- CheckedSub(Balance(s, RESERVE), amount).OkOr(InsufficientBalance);
    var _ :- Need(balance >= 0, InsufficientBalance);
    var _ :- Need(caller == s.admin, Unauthorized);
    Ok(s.(balances := s.balances[RESERVE := balance]))
  }

  /** Only the registered referral contract is authorised, by being the direct invoker. */
  function DistributeReward(s: State, invoker: Address, amount: I128): Result<State, Error> {
    var _ :- Need(amount > 0, InvalidArgument);
    var _ :- Need(amount <= Balance(s, REWARDS), InsufficientBalance);
    var referral :- s.referralContract.OkOr(Unauthorized);
    var _ :- Need(invoker == referral, HostPanic);
    Ok(s.(balances := s.balances[REWARDS := Balance(s, REWARDS) - amount]))
  }

  datatype Call =
    | CallAddManager(caller: Address, who: Address)
    | CallRemoveManager(caller: Address, who: Address)
    | CallSetLimit(caller: Address, limit: I128)
    | CallSetReferral(caller: Address, referral: Address)
    | CallDeposit(caller: Address, category: Symbol, amount: I128)
    | CallWithdraw(caller: Address, amount: I128, category: Symbol)
    | CallEmergency(caller: Address, amount: I128)
    | CallDistribute(invoker: Address, amount: I128)

  function Apply(s: State, call: Call): Result<State, Error> {
    match call
    case CallAddManager(caller, who) => AddManager(s, caller, who)
    case CallRemoveManager(caller, who) => RemoveManager(s, caller, who)
    case CallSetLimit(caller, limit) => SetWithdrawalLimit(s, caller, limit)
    case CallSetReferral(caller, referral) => SetReferralContract(s, caller, referral)
    case CallDeposit(caller, category, amount) => Deposit(s, caller, category, amount)
    case CallWithdraw(caller, amount, category) => Withdraw(s, caller, amount, category)
    case CallEmergency(caller, amount) => EmergencyWithdraw(s, caller, amount)
    case CallDistribute(invoker, amount) => DistributeReward(s, invoker, amount)
  }
}

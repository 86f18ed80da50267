/** The treasury contract's storage and entry points. */
module TreasuryContract {
  import opened Host
  import opened Errors
  import Spec = Treasury

  class Treasury {
    var admin: Address
    var managers: set<Address>
    var paused: bool
    var withdrawalLimit: int
    var balances: map<Symbol, int>
    var referralContract: Option<Address>

    ghost function View(): Spec.State
      reads this
    {
      Spec.State(admin, managers, paused, withdrawalLimit, balances, referralContract)
    }

    constructor (owner: Address, limit: I128)
      requires limit > 0
      ensures Spec.Initialize(owner, limit) == Ok(View())
    {
      admin := owner;
      managers := {owner};
      paused := false;
      withdrawalLimit := limit;
      balances := map[];
      referralContract := None;
    }

    method AddTreasuryManager(caller: Address, who: Address) returns (r: Result<(), Error>)
      modifies this
      ensures Refines(Spec.AddManager(old(View()), caller, who), old(View()), r, View())
    {
      var _ :- Need(caller == admin, Unauthorized);
      managers := managers + {who};
      return Ok(());
    }

    method RemoveTreasuryManager(caller: Address, who: Address) returns (r: Result<(), Error>)
      modifies this
      ensures Refines(Spec.RemoveManager(old(View()), caller, who), old(View()), r, View())
    {
      var _ :- Need(caller == admin, Unauthorized);
      managers := managers - {who};
      return Ok(());
    }

    method SetWithdrawalLimit(caller: Address, limit: I128) returns (r: Result<(), Error>)
      modifies this
      ensures Refines(Spec.SetWithdrawalLimit(old(View()), caller, limit), old(View()), r, View())
    {
      var _ :- Need(caller == admin, Unauthorized);
      var _ :- Need(limit > 0, InvalidArgument);
      withdrawalLimit := limit;
      return Ok(());
    }

    method SetReferralContract(caller: Address, referral: Address) returns (r: Result<(), Error>)
      modifies this
      ensures Refines(Spec.SetReferralContract(old(View()), caller, referral), old(View()), r, View())
    {
      var _ :- Need(caller == admin, Unauthorized);
      referralContract := Some(referral);
      return Ok(());
    }

    method Deposit(caller: Address, category: Symbol, amount: I128) returns (r: Result<(), Error>)
      modifies this
      ensures Refines(Spec.Deposit(old(View()), caller, category, amount), old(View()), r, View())
    {
      var _ :- Need(amount > 0, InvalidArgument);
      var _ :- Need(caller in managers, Unauthorized);
      var balance := GetOr(balances, category, 0);
      var newBalance :- CheckedAdd(balance, amount).OkOr(Overflow);
      balances := balances[category := newBalance];
      return Ok(());
    }

    method Withdraw(caller: Address, amount: I128, category: Symbol) returns (r: Result<(), Error>)
      modifies this
      ensures Refines(Spec.Withdraw(old(View()), caller, amount, category), old(View()), r, View())
    {
      var _ :- Need(amount > 0, InvalidArgument);
      var _ :- Need(amount <= withdrawalLimit, WithdrawalLimitExceeded);
      var balance := GetOr(balances, category, 0);
      var _ :- Need(amount <= balance, InsufficientBalance);
      var _ :- Need(caller in managers, Unauthorized);
      var remaining := balance - amount;
      balances := balances[category := remaining];
      return Ok(());
    }

    method EmergencyWithdraw(caller: Address, amount: I128) returns (r: Result<(), Error>)
      modifies this
      ensures Refines(Spec.EmergencyWithdraw(old(View()), caller, amount), old(View()), r, View())
    {
      var _ :- Need(amount > 0, InvalidArgument);
      var _ :- Need(paused, NotPaused);
      var balance := GetOr(balances, Spec.RESERVE, 0);
      var newBalance :- CheckedSub(balance, amount).OkOr(InsufficientBalance);
      var _ :- Need(newBalance >= 0, InsufficientBalance);
      var _ :- Need(caller == admin, Unauthorized);
      balances := balances[Spec.RESERVE := newBalance];
      return Ok(());
    }

    method DistributeReward(invoker: Address, amount: I128) returns (r: Result<(), Error>)
      modifies this
      ensures Refines(Spec.DistributeReward(old(View()), invoker, amount), old(View()), r, View())
    {
      var _ :- Need(amount > 0, InvalidArgument);
      var balance := GetOr(balances, Spec.REWARDS, 0);
      var _ :- Need(amount <= balance, InsufficientBalance);
      var referral :- referralContract.OkOr(Unauthorized);
      var _ :- Need(invoker == referral, HostPanic);
      var remaining := balance - amount;
      balances := balances[Spec.REWARDS := remaining];
      return Ok(());
    }
  }
}

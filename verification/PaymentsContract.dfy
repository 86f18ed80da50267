/** The payment gateway's storage and entry points, together with the shared escrow module. */
module PaymentsContract {
  import opened Host
  import opened Errors
  import opened Token
  import opened BpsMath
  import Spec = Payments

  class PaymentGateway {
    const self: Address
    var admin: Address
    var token: Address
    var feeRate: int
    var feeRecipient: Address
    var deposited: map<Address, int>
    var totalDeposits: int
    var escrowSeq: nat
    var escrows: map<nat, Spec.Escrow>
    var active: seq<nat>
    var ledger: Ledger

    function View(): Spec.State
      reads this
    {
      Spec.State(self, admin, token, feeRate, feeRecipient, deposited, totalDeposits, escrowSeq, escrows, active,
                 ledger)
    }

    constructor (address: Address, owner: Address, asset: Address, rate: I128, recipient: Address, balances: Ledger)
      requires 0 <= rate <= 10_000
      ensures Spec.Initialize(address, owner, asset, rate, recipient, balances) == Ok(View())
    {
      self, admin, token, feeRate, feeRecipient := address, owner, asset, rate, recipient;
      deposited, totalDeposits := map[], 0;
      escrowSeq, escrows, active := 0, map[], [];
      ledger := balances;
    }

    /** The host undoes every write of a call that fails. */
    method Rollback(saved: Spec.State)
      requires saved.self == self
      modifies this
      ensures View() == saved
    {
      admin, token, feeRate, feeRecipient := saved.admin, saved.token, saved.feeRate, saved.feeRecipient;
      deposited, totalDeposits := saved.deposited, saved.totalDeposits;
      escrowSeq, escrows, active := saved.escrowSeq, saved.escrows, saved.active;
      ledger := saved.ledger;
    }

    method TransferToken(from: Address, to: Address, amount: int) returns (r: Result<(), Error>)
      modifies this`ledger
      ensures match Spec.Move(old(ledger), token, from, to, amount)
              case Ok(l) => r == Ok(()) && ledger == l
              case Err(e) => r == Err(e) && ledger == old(ledger)
    {
      var next :- Transfer(ledger, token, from, to, amount).OkOr(HostPanic);
      ledger := next;
      return Ok(());
    }

    method SetFeeRate(caller: Address, rate: I128) returns (r: Result<(), Error>)
      modifies this
      ensures Refines(Spec.SetFeeRate(old(View()), caller, rate), old(View()), r, View())
    {
      var _ :- Need(0 <= rate <= 10_000, PaymentInvalidFeeRate);
      var _ :- Need(caller == admin, Unauthorized);
      feeRate := rate;
      return Ok(());
    }

    method Deposit(from: Address, amount: I128) returns (r: Result<(), Error>)
      modifies this
      ensures Refines(Spec.Deposit(old(View()), from, amount), old(View()), r, View())
    {
      var _ :- Need(amount > 0, PaymentInvalidAmount);
      var _ :- Need(from != self, HostPanic);
      var saved := View();
      var moved := TransferToken(from, self, amount);
      if moved.Err? {
        return moved;
      }
      var newBalance := CheckedAdd(GetOr(deposited, from, 0), amount);
      if newBalance.None? {
        Rollback(saved);
        return Err(Overflow);
      }
      deposited := deposited[from := newBalance.value];
      var newTotal := CheckedAdd(totalDeposits, amount);
      if newTotal.None? {
        Rollback(saved);
        return Err(Overflow);
      }
      totalDeposits := newTotal.value;
      return Ok(());
    }

    /** The part both withdrawals share: split, two transfers, then the internal books. */
    method TakeOut(who: Address, amount: int) returns (r: Result<int, Error>)
      modifies this
      ensures RefinesWith(Spec.TakeOut(old(View()), who, amount), old(View()), r, View())
    {
      var split :- CalculateFeeSplit(amount, feeRate);
      var (fee, net) := split;
      var saved := View();
      if fee > 0 {
        var paid := TransferToken(self, feeRecipient, fee);
        if paid.Err? {
          return Err(paid.error);
        }
      }
      if net > 0 {
        var paid := TransferToken(self, who, net);
        if paid.Err? {
          Rollback(saved);
          return Err(paid.error);
        }
      }
      deposited := deposited[who := GetOr(deposited, who, 0) - amount];
      var total := CheckedSub(totalDeposits, amount);
      totalDeposits := if total.Some? then total.value else 0;
      return Ok(net);
    }

    method Withdraw(who: Address) returns (r: Result<int, Error>)
      modifies this
      ensures RefinesWith(Spec.Withdraw(old(View()), who), old(View()), r, View())
    {
      var _ :- Need(who != self, HostPanic);
      var balance := GetOr(deposited, who, 0);
      if balance <= 0 {
        return Err(PaymentInsufficientBalance);
      }
      r := TakeOut(who, balance);
    }

    method WithdrawAmount(who: Address, amount: I128) returns (r: Result<int, Error>)
      modifies this
      ensures RefinesWith(Spec.WithdrawAmount(old(View()), who, amount), old(View()), r, View())
    {
      var _ :- Need(amount > 0, PaymentInvalidAmount);
      var _ :- Need(who != self, HostPanic);
      if amount > GetOr(deposited, who, 0) {
        return Err(PaymentInsufficientBalance);
      }
      r := TakeOut(who, amount);
    }

    method CreateEscrow(now: U32, depositor: Address, beneficiary: Address, amount: I128, expiry: U32)
      returns (r: Result<nat, Error>)
      modifies this
      ensures RefinesWith(Spec.CreateEscrow(old(View()), now, depositor, beneficiary, amount, expiry), old(View()), r,
                          View())
    {
      var _ :- Need(depositor != self, HostPanic);
      var _ :- Need(amount > 0, PaymentInvalidAmount);
      if expiry <= now {
        return Err(InvalidArgument);
      }
      var _ :- Need(escrowSeq < U64_MAX, PaymentEscrowIdOverflow);
      var saved := View();
      escrowSeq := escrowSeq + 1;
      var id := escrowSeq;
      escrows := escrows[id := Spec.Escrow(id, depositor, beneficiary, token, amount, expiry, Spec.Active)];
      active := active + [id];
      var moved := TransferToken(depositor, self, amount);
      if moved.Err? {
        Rollback(saved);
        return Err(moved.error);
      }
      return Ok(id);
    }

    /** Rebuilds the list of active ids without the given one. */
    method RemoveFromActive(id: nat)
      modifies this`active
      ensures active == Spec.Without(old(active), id)
    {
      var updated: seq<nat> := [];
      for i := 0 to |active|
        invariant active == old(active)
        invariant updated == Spec.Without(active[..i], id)
      {
        assert active[..i + 1][..i] == active[..i];
        if active[i] != id {
          updated := updated + [active[i]];
        }
      }
      assert active[..|active|] == active;
      active := updated;
    }

    method ReleaseEscrow(now: U32, caller: Address, id: nat) returns (r: Result<(), Error>)
      modifies this
      ensures Refines(Spec.ReleaseEscrow(old(View()), now, caller, id), old(View()), r, View())
    {
      var _ :- Need(caller == admin, Unauthorized);
      var record :- Get(escrows, id).OkOr(PaymentEscrowNotFound);
      if record.state == Spec.Released {
        return Err(PaymentEscrowAlreadyReleased);
      }
      if record.state == Spec.Refunded {
        return Err(PaymentEscrowAlreadyRefunded);
      }
      if now > record.expiry {
        return Err(PaymentEscrowExpired);
      }
      var saved := View();
      record := record.(state := Spec.Released);
      escrows := escrows[id := record];
      RemoveFromActive(id);
      var moved := TransferToken(self, record.beneficiary, record.amount);
      if moved.Err? {
        Rollback(saved);
      }
      return moved;
    }

    method RefundEscrow(caller: Address, id: nat) returns (r: Result<(), Error>)
      modifies this
      ensures Refines(Spec.RefundEscrow(old(View()), caller, id), old(View()), r, View())
    {
      var _ :- Need(caller == admin, Unauthorized);
      var record :- Get(escrows, id).OkOr(PaymentEscrowNotFound);
      if record.state == Spec.Released {
        return Err(PaymentEscrowAlreadyReleased);
      }
      if record.state == Spec.Refunded {
        return Err(PaymentEscrowAlreadyRefunded);
      }
      var saved := View();
      record := record.(state := Spec.Refunded);
      escrows := escrows[id := record];
      RemoveFromActive(id);
      var moved := TransferToken(self, record.depositor, record.amount);
      if moved.Err? {
        Rollback(saved);
      }
      return moved;
    }
  }
}

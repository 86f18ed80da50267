/** The payment gateway: deposits, fee-bearing withdrawals and escrow over one token. */
module Payments {
  import opened Host
  import opened Errors
  import opened Sums
  import opened Token
  import opened BpsMath

  datatype EscrowState = Active | Released | Refunded

  datatype Escrow = Escrow(
    id: nat, depositor: Address, beneficiary: Address, token: Address, amount: int, expiry: U32, state: EscrowState)

  datatype State = State(
    self: Address,
    admin: Address,
    token: Address,
    feeRate: int,
    feeRecipient: Address,
    deposited: map<Address, int>,
    totalDeposits: int,
    escrowSeq: nat,
    escrows: map<nat, Escrow>,
    active: seq<nat>,
    ledger: Ledger)

  function Deposited(s: State, who: Address): int { GetOr(s.deposited, who, 0) }

  // -------------------------------------------------------------------------
  // Entry points as state changes
  // -------------------------------------------------------------------------

  function Initialize(self: Address, admin: Address, token: Address, feeRate: I128, feeRecipient: Address,
                      ledger: Ledger)
    : Result<State, Error>
  {
    var _ :- Need(0 <= feeRate <= 10_000, PaymentInvalidFeeRate);
    Ok(State(self, admin, token, feeRate, feeRecipient, map[], 0, 0, map[], [], ledger))
  }

  function SetFeeRate(s: State, caller: Address, rate: I128): Result<State, Error> {
    var _ :- Need(0 <= rate <= 10_000, PaymentInvalidFeeRate);
    var _ :- Need(caller == s.admin, Unauthorized);
    Ok(s.(feeRate := rate))
  }

  function Move(l: Ledger, token: Address, from: Address, to: Address, amount: int): Result<Ledger, Error> {
    Transfer(l, token, from, to, amount).OkOr(HostPanic)
  }

  function Deposit(s: State, from: Address, amount: I128): Result<State, Error> {
    var _ :- Need(amount > 0, PaymentInvalidAmount);
    var _ :- Need(from != s.self, HostPanic);
    var ledger :- Move(s.ledger, s.token, from, s.self, amount);
    var balance :- CheckedAdd(Deposited(s, from), amount).OkOr(Overflow);
    var total :- CheckedAdd(s.totalDeposits, amount).OkOr(Overflow);
    Ok(s.(ledger := ledger, deposited := s.deposited[from := balance], totalDeposits := total))
  }

  /** The fee to the fee recipient, then the rest to the withdrawer; zero parts are skipped. */
  function PayOut(s: State, who: Address, fee: int, net: int): Result<Ledger, Error> {
    var afterFee :- if fee > 0 then Move(s.ledger, s.token, s.self, s.feeRecipient, fee) else Ok(s.ledger);
    if net > 0 then Move(afterFee, s.token, s.self, who, net) else Ok(afterFee)
  }

  function TakeOut(s: State, who: Address, amount: int): Result<(State, int), Error> {
    var split :- CalculateFeeSplit(amount, s.feeRate);
    var ledger :- PayOut(s, who, split.0, split.1);
    var total := CheckedSub(s.totalDeposits, amount);
    Ok((s.(ledger := ledger,
           deposited := s.deposited[who := Deposited(s, who) - amount],
           totalDeposits := if total.Some? then total.value else 0),
        split.1))
  }

  function Withdraw(s: State, who: Address): Result<(State, int), Error> {
    var _ :- Need(who != s.self, HostPanic);
    var _ :- Need(Deposited(s, who) > 0, PaymentInsufficientBalance);
    TakeOut(s, who, Deposited(s, who))
  }

  function WithdrawAmount(s: State, who: Address, amount: I128): Result<(State, int), Error> {
    var _ :- Need(amount > 0, PaymentInvalidAmount);
    var _ :- Need(who != s.self, HostPanic);
    var _ :- Need(amount <= Deposited(s, who), PaymentInsufficientBalance);
    TakeOut(s, who, amount)
  }

  function CreateEscrow(s: State, ledgerSeq: U32, depositor: Address, beneficiary: Address, amount: I128, expiry: U32)
    : Result<(State, nat), Error>
  {
    var _ :- Need(depositor != s.self, HostPanic);
    var _ :- Need(amount > 0, PaymentInvalidAmount);
    var _ :- Need(expiry > ledgerSeq, InvalidArgument);
    var _ :- Need(s.escrowSeq < U64_MAX, PaymentEscrowIdOverflow);
    var id := s.escrowSeq + 1;
    var ledger :- Move(s.ledger, s.token, depositor, s.self, amount);
    Ok((s.(escrowSeq := id,
           escrows := s.escrows[id := Escrow(id, depositor, beneficiary, s.token, amount, expiry, Active)],
           active := s.active + [id],
           ledger := ledger), id))
  }

  function Without(ids: seq<nat>, id: nat): seq<nat> {
    if ids == [] then []
    else Without(ids[..|ids| - 1], id) + if ids[|ids| - 1] != id then [ids[|ids| - 1]] else []
  }

  function ReleaseEscrow(s: State, ledgerSeq: U32, caller: Address, id: nat): Result<State, Error> {
    var _ :- Need(caller == s.admin, Unauthorized);
    var e :- Get(s.escrows, id).OkOr(PaymentEscrowNotFound);
    var _ :- Need(e.state != Released, PaymentEscrowAlreadyReleased);
    var _ :- Need(e.state != Refunded, PaymentEscrowAlreadyRefunded);
    var _ :- Need(ledgerSeq <= e.expiry, PaymentEscrowExpired);
    var ledger :- Move(s.ledger, s.token, s.self, e.beneficiary, e.amount);
    Ok(s.(escrows := s.escrows[id := e.(state := Released)], active := Without(s.active, id), ledger := ledger))
  }

  function RefundEscrow(s: State, caller: Address, id: nat): Result<State, Error> {
    var _ :- Need(caller == s.admin, Unauthorized);
    var e :- Get(s.escrows, id).OkOr(PaymentEscrowNotFound);
    var _ :- Need(e.state != Released, PaymentEscrowAlreadyReleased);
    var _ :- Need(e.state != Refunded, PaymentEscrowAlreadyRefunded);
    var ledger :- Move(s.ledger, s.token, s.self, e.depositor, e.amount);
    Ok(s.(escrows := s.escrows[id := e.(state := Refunded)], active := Without(s.active, id), ledger := ledger))
  }

  // -------------------------------------------------------------------------
  // Runs
  // -------------------------------------------------------------------------

  datatype Call =
    | CallSetFeeRate(caller: Address, rate: I128)
    | CallDeposit(from: Address, amount: I128)
    | CallWithdraw(who: Address)
    | CallWithdrawAmount(who: Address, amount: I128)
    | CallCreateEscrow(now: U32, depositor: Address, beneficiary: Address, amount: I128, expiry: U32)
    | CallRelease(now: U32, caller: Address, id: nat)
    | CallRefund(caller: Address, id: nat)
    | Elsewhere(token: Address, from: Address, to: Address, amount: I128)  // a token moves without the gateway
    | Issued(token: Address, to: Address, units: nat)

  function Apply(s: State, call: Call): Result<State, Error> {
    match call
    case CallSetFeeRate(caller, rate) => SetFeeRate(s, caller, rate)
    case CallDeposit(from, amount) => Deposit(s, from, amount)
    case CallWithdraw(who) => var r :- Withdraw(s, who); Ok(r.0)
    case CallWithdrawAmount(who, amount) => var r :- WithdrawAmount(s, who, amount); Ok(r.0)
    case CallCreateEscrow(now, depositor, beneficiary, amount, expiry) =>
      var r :- CreateEscrow(s, now, depositor, beneficiary, amount, expiry);
      Ok(r.0)
    case CallRelease(now, caller, id) => ReleaseEscrow(s, now, caller, id)
    case CallRefund(caller, id) => RefundEscrow(s, caller, id)
    case Elsewhere(token, from, to, amount) =>
      var _ :- Need(from != s.self, HostPanic);
      var ledger :- Move(s.ledger, token, from, to, amount);
      Ok(s.(ledger := ledger))
    case Issued(token, to, units) =>
      Ok(s.(ledger := s.ledger[(token, to) := Bal(s.ledger, token, to) + units]))
  }

  ghost function Step(s: State, call: Call): State { After(s, Apply(s, call)) }

  ghost predicate Start(s: State) {
    IsI128(s.feeRate) && Initialize(s.self, s.admin, s.token, s.feeRate, s.feeRecipient, s.ledger) == Ok(s)
  }

  ghost function Run(s: State, calls: seq<Call>): State {
    if calls == [] then s else Step(Run(s, calls[..|calls| - 1]), calls[|calls| - 1])
  }

  // -------------------------------------------------------------------------
  // The invariant
  // -------------------------------------------------------------------------

  ghost function Held(): (nat, Escrow) -> int {
    (id: nat, e: Escrow) => if e.state == Active then e.amount else 0
  }

  /** What active escrows hold. */
  ghost function EscrowTotal(s: State): int { SumOf(s.escrows, Held()) }

  /** The gateway owns at least what it owes. */
  ghost predicate Solvent(s: State) {
    Bal(s.ledger, s.token, s.self) >= s.totalDeposits + EscrowTotal(s)
  }

  ghost predicate NoRepeats(ids: seq<nat>) {
    forall i, j :: 0 <= i < j < |ids| ==> ids[i] != ids[j]
  }

  ghost predicate ActiveIndexed(escrows: map<nat, Escrow>, active: seq<nat>) {
    && NoRepeats(active)
    && forall id: nat :: id in active <==> id in escrows && escrows[id].state == Active
  }

  ghost predicate EscrowsOk(s: State) {
    forall id :: id in s.escrows ==>
      1 <= id <= s.escrowSeq && s.escrows[id].amount > 0 && s.escrows[id].token == s.token
  }

  ghost predicate DepositsOk(s: State) {
    && s.totalDeposits == SumValues(s.deposited)
    && IsI128(s.totalDeposits)
    && forall who: Address :: who in s.deposited ==> s.deposited[who] >= 0
  }

  ghost predicate Inv(s: State) {
    && 0 <= s.feeRate <= 10_000
    && DepositsOk(s) && EscrowsOk(s) && ActiveIndexed(s.escrows, s.active) && Solvent(s)
  }

  lemma DepositBounds(s: State, who: Address)
    requires DepositsOk(s)
    ensures 0 <= Deposited(s, who) <= s.totalDeposits
  {
    SumBounds(s.deposited, Value<Address>());
    assert who in s.deposited ==> Value<Address>()(who, s.deposited[who]) <= SumOf(s.deposited, Value<Address>());
  }

  lemma EscrowTotalBounds(s: State)
    requires EscrowsOk(s)
    ensures EscrowTotal(s) >= 0
    ensures forall id :: id in s.escrows && s.escrows[id].state == Active ==> s.escrows[id].amount <= EscrowTotal(s)
  {
    SumBounds(s.escrows, Held());
    forall id | id in s.escrows && s.escrows[id].state == Active ensures s.escrows[id].amount <= EscrowTotal(s) {
      assert Held()(id, s.escrows[id]) <= SumOf(s.escrows, Held());
    }
  }

  // -------------------------------------------------------------------------
  // The active index
  // -------------------------------------------------------------------------

  lemma {:induction false} WithoutContents(ids: seq<nat>, id: nat)
    ensures forall x: nat :: x in Without(ids, id) <==> x in ids && x != id
    ensures NoRepeats(ids) ==> NoRepeats(Without(ids, id))
  {
    if ids != [] {
      var front, last := ids[..|ids| - 1], ids[|ids| - 1];
      assert ids == front + [last];
      WithoutContents(front, id);
      if NoRepeats(ids) {
        assert last !in front;
      }
    }
  }

  lemma IndexAfterClose(escrows: map<nat, Escrow>, active: seq<nat>, id: nat, closed: Escrow)
    requires ActiveIndexed(escrows, active) && closed.state != Active
    ensures ActiveIndexed(escrows[id := closed], Without(active, id))
  {
    WithoutContents(active, id);
    forall x: nat
      ensures x in Without(active, id) <==> x in escrows[id := closed] && escrows[id := closed][x].state == Active
    {
      assert x in active <==> x in escrows && escrows[x].state == Active;
    }
  }

  lemma IndexAfterOpen(escrows: map<nat, Escrow>, active: seq<nat>, id: nat, record: Escrow)
    requires ActiveIndexed(escrows, active) && id !in escrows && record.state == Active
    ensures ActiveIndexed(escrows[id := record], active + [id])
  {
    forall x: nat
      ensures x in active + [id] <==> x in escrows[id := record] && escrows[id := record][x].state == Active
    {
      assert x in active <==> x in escrows && escrows[x].state == Active;
    }
    assert id !in active;
  }

  // -------------------------------------------------------------------------
  // Every call keeps the invariant
  // -------------------------------------------------------------------------

  lemma DepositKeepsInv(s: State, from: Address, amount: I128)
    requires Inv(s) && Deposit(s, from, amount).Ok?
    ensures Inv(Deposit(s, from, amount).value)
  {
    DepositBounds(s, from);
    SumValuesUpdate(s.deposited, from, Deposited(s, from) + amount);
  }

  /** What paying a split out of the gateway does to one balance, whoever the parties are. */
  function SplitFlow(s: State, who: Address, fee: int, net: int, t: Address, x: Address): int {
    if t != s.token then 0
    else
      (if x == s.feeRecipient then fee else 0) + (if x == who then net else 0) - (if x == s.self then fee + net else 0)
  }

  /** Paying out a split succeeds if its two parts are there, and moves exactly those, also when fee recipient,
      withdrawer and gateway coincide. */
  lemma PayOutEffect(s: State, who: Address, fee: int, net: int)
    requires fee >= 0 && net >= 0 && Bal(s.ledger, s.token, s.self) >= fee + net
    ensures PayOut(s, who, fee, net).Ok?
    ensures forall t: Address, x: Address ::
              Bal(PayOut(s, who, fee, net).value, t, x) == Bal(s.ledger, t, x) + SplitFlow(s, who, fee, net, t, x)
  {
  }

  lemma TakeOutKeepsInv(s: State, who: Address, amount: int)
    requires Inv(s) && 0 < amount <= Deposited(s, who) && TakeOut(s, who, amount).Ok?
    ensures Inv(TakeOut(s, who, amount).value.0)
  {
    DepositBounds(s, who);
    EscrowTotalBounds(s);
    FeeSplitConserves(amount, s.feeRate);
    var (fee, net) := CalculateFeeSplit(amount, s.feeRate).value;
    PayOutEffect(s, who, fee, net);
    SumValuesUpdate(s.deposited, who, Deposited(s, who) - amount);
    var s' := TakeOut(s, who, amount).value.0;
    assert s'.totalDeposits == s.totalDeposits - amount;
    assert EscrowTotal(s') == EscrowTotal(s);
  }

  lemma CreateEscrowKeepsInv(s: State, now: U32, depositor: Address, beneficiary: Address, amount: I128, expiry: U32)
    requires Inv(s) && CreateEscrow(s, now, depositor, beneficiary, amount, expiry).Ok?
    ensures Inv(CreateEscrow(s, now, depositor, beneficiary, amount, expiry).value.0)
  {
    var (s', id) := CreateEscrow(s, now, depositor, beneficiary, amount, expiry).value;
    SumUpdate(s.escrows, id, s'.escrows[id], Held());
    IndexAfterOpen(s.escrows, s.active, id, s'.escrows[id]);
  }

  lemma CloseKeepsInv(s: State, s': State, id: nat, closed: Escrow, to: Address)
    requires Inv(s) && id in s.escrows && s.escrows[id].state == Active && closed.state != Active
    requires closed == s.escrows[id].(state := closed.state)
    requires Transfer(s.ledger, s.token, s.self, to, closed.amount) == Some(s'.ledger)
    requires s' == s.(escrows := s.escrows[id := closed], active := Without(s.active, id), ledger := s'.ledger)
    ensures Inv(s')
  {
    SumUpdate(s.escrows, id, closed, Held());
    IndexAfterClose(s.escrows, s.active, id, closed);
  }

  lemma StepKeepsInv(s: State, call: Call)
    requires Inv(s)
    ensures Inv(Step(s, call))
  {
    if Apply(s, call).Ok? {
      match call
      case CallDeposit(from, amount) => DepositKeepsInv(s, from, amount);
      case CallWithdraw(who) => TakeOutKeepsInv(s, who, Deposited(s, who));
      case CallWithdrawAmount(who, amount) => TakeOutKeepsInv(s, who, amount);
      case CallCreateEscrow(now, depositor, beneficiary, amount, expiry) =>
        CreateEscrowKeepsInv(s, now, depositor, beneficiary, amount, expiry);
      case CallRelease(now, caller, id) =>
        CloseKeepsInv(s, Step(s, call), id, s.escrows[id].(state := Released), s.escrows[id].beneficiary);
      case CallRefund(caller, id) =>
        CloseKeepsInv(s, Step(s, call), id, s.escrows[id].(state := Refunded), s.escrows[id].depositor);
      case _ =>
    }
  }

  /** Over every run: the running total is the sum of the user balances, the active list holds
      each active escrow once and nothing else, and the gateway can cover all it owes. */
  lemma {:induction false} ReachableInv(start: State, calls: seq<Call>)
    requires Start(start)
    ensures Inv(Run(start, calls))
    ensures var s := Run(start, calls);
            && s.totalDeposits == SumValues(s.deposited)
            && Bal(s.ledger, s.token, s.self) >= s.totalDeposits + EscrowTotal(s)
  {
    if calls != [] {
      ReachableInv(start, calls[..|calls| - 1]);
      StepKeepsInv(Run(start, calls[..|calls| - 1]), calls[|calls| - 1]);
    }
  }

  // -------------------------------------------------------------------------
  // What solvency buys
  // -------------------------------------------------------------------------

  /** In a reachable state a withdrawal of one's own balance is refused only when the fee's
      intermediate product overflows; it is never short of tokens. */
  lemma WithdrawSucceedsIff(s: State, who: Address, amount: I128)
    requires Inv(s) && who != s.self
    ensures WithdrawAmount(s, who, amount).Ok? <==> 0 < amount <= Deposited(s, who) && amount * s.feeRate <= I128_MAX
    ensures Withdraw(s, who).Ok? <==> Deposited(s, who) > 0 && Deposited(s, who) * s.feeRate <= I128_MAX
  {
    DepositBounds(s, who);
    EscrowTotalBounds(s);
    TakeOutSucceedsIff(s, who, Deposited(s, who));
    if 0 < amount <= Deposited(s, who) {
      TakeOutSucceedsIff(s, who, amount);
    }
  }

  lemma TakeOutSucceedsIff(s: State, who: Address, amount: int)
    requires Inv(s) && 0 <= amount <= Deposited(s, who)
    ensures TakeOut(s, who, amount).Ok? <==> amount > 0 && amount * s.feeRate <= I128_MAX
  {
    DepositBounds(s, who);
    EscrowTotalBounds(s);
    FeeSplitConserves(amount, s.feeRate);
    if CalculateFeeSplit(amount, s.feeRate).Ok? {
      var (fee, net) := CalculateFeeSplit(amount, s.feeRate).value;
      PayOutEffect(s, who, fee, net);
    }
  }

  /** In a reachable state the admin, and nobody else, can always refund an active escrow, and release it until its
      expiry ledger has passed. */
  lemma CloseSucceedsIff(s: State, now: U32, caller: Address, id: nat)
    requires Inv(s)
    ensures ReleaseEscrow(s, now, caller, id).Ok? <==>
              caller == s.admin && id in s.escrows && s.escrows[id].state == Active && now <= s.escrows[id].expiry
    ensures RefundEscrow(s, caller, id).Ok? <==>
              caller == s.admin && id in s.escrows && s.escrows[id].state == Active
  {
    EscrowTotalBounds(s);
    SumBoundsDeposits(s);
  }

  lemma SumBoundsDeposits(s: State)
    requires DepositsOk(s)
    ensures s.totalDeposits >= 0
  {
    SumBounds(s.deposited, Value<Address>());
  }

  // -------------------------------------------------------------------------
  // Each escrow pays once
  // -------------------------------------------------------------------------

  predicate Pays(s: State, call: Call, id: nat) {
    (call.CallRelease? || call.CallRefund?) && call.id == id && Apply(s, call).Ok?
  }

  ghost function PayoutCount(start: State, calls: seq<Call>, id: nat): nat {
    if calls == [] then 0
    else
      PayoutCount(start, calls[..|calls| - 1], id)
      + if Pays(Run(start, calls[..|calls| - 1]), calls[|calls| - 1], id) then 1 else 0
  }

  predicate Closed(s: State, id: nat) {
    id in s.escrows && s.escrows[id].state != Active
  }

  lemma ClosedAfterStep(s: State, call: Call, id: nat)
    requires Inv(s)
    ensures Pays(s, call, id) ==> !Closed(s, id)
    ensures Closed(Step(s, call), id) <==> Closed(s, id) || Pays(s, call, id)
  {
  }

  /** Over every run an escrow has paid out once if it is closed and not at all before that. */
  lemma {:induction false} PaysOnce(start: State, calls: seq<Call>, id: nat)
    requires Start(start)
    ensures PayoutCount(start, calls, id) == if Closed(Run(start, calls), id) then 1 else 0
  {
    if calls != [] {
      PaysOnce(start, calls[..|calls| - 1], id);
      ReachableInv(start, calls[..|calls| - 1]);
      ClosedAfterStep(Run(start, calls[..|calls| - 1]), calls[|calls| - 1], id);
    }
  }

  /** The one payout moves the whole amount out of the gateway to one party, also if that is the gateway itself; no
      other balance of any token and no deposit changes. */
  lemma PayoutMovesWholeAmount(s: State, call: Call, id: nat)
    requires Inv(s) && Pays(s, call, id)
    ensures var e, s' := s.escrows[id], Step(s, call);
            var payee := if call.CallRelease? then e.beneficiary else e.depositor;
            && (forall t: Address, x: Address ::
                  Bal(s'.ledger, t, x) == Bal(s.ledger, t, x)
                    + if t != s.token then 0
                      else (if x == payee then e.amount else 0) - (if x == s.self then e.amount else 0))
            && s'.deposited == s.deposited && s'.totalDeposits == s.totalDeposits
  {
  }

  // -------------------------------------------------------------------------
  // Whose money it is
  // -------------------------------------------------------------------------

  /** What a call adds to, or takes from, one user's internal balance. */
  ghost function Booked(s: State, call: Call, who: Address): int {
    if Apply(s, call).Err? then 0
    else match call
      case CallDeposit(from, amount) => if from == who then amount else 0
      case CallWithdraw(user) => if user == who then -Deposited(s, who) else 0
      case CallWithdrawAmount(user, amount) => if user == who then -amount else 0
      case _ => 0
  }

  ghost function History(start: State, calls: seq<Call>, who: Address): int {
    if calls == [] then 0
    else History(start, calls[..|calls| - 1], who) + Booked(Run(start, calls[..|calls| - 1]), calls[|calls| - 1], who)
  }

  lemma StepBooks(s: State, call: Call, who: Address)
    ensures Deposited(Step(s, call), who) == Deposited(s, who) + Booked(s, call, who)
  {
  }

  /** Over every run each user's balance is what that user deposited less what that user withdrew; nobody else's
      call touches it. */
  lemma {:induction false} BalanceIsHistory(start: State, calls: seq<Call>, who: Address)
    requires Start(start)
    ensures Deposited(Run(start, calls), who) == History(start, calls, who)
  {
    if calls != [] {
      BalanceIsHistory(start, calls[..|calls| - 1], who);
      StepBooks(Run(start, calls[..|calls| - 1]), calls[|calls| - 1], who);
    }
  }

  /** A withdrawal takes the amount out of the gateway as the exact fee for the fee recipient and the rest for the
      user; every other balance stands. */
  lemma WithdrawalPays(s: State, who: Address, amount: I128)
    requires Inv(s) && WithdrawAmount(s, who, amount).Ok?
    ensures var (s', net) := WithdrawAmount(s, who, amount).value;
            var fee := amount - net;
            && fee >= 0 && net >= 0 && 10_000 * fee <= amount * s.feeRate < 10_000 * (fee + 1)
            && forall t: Address, x: Address ::
                 Bal(s'.ledger, t, x) == Bal(s.ledger, t, x) + SplitFlow(s, who, fee, net, t, x)
  {
    DepositBounds(s, who);
    EscrowTotalBounds(s);
    FeeSplitConserves(amount, s.feeRate);
    var (fee, net) := CalculateFeeSplit(amount, s.feeRate).value;
    PayOutEffect(s, who, fee, net);
  }
}

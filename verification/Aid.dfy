/** Aid disbursements: escrow from a donor, claimed by the recipient or refunded after expiry, listed in pages. */
module Aid {
  import opened Host
  import opened Sums
  import opened Token
  import opened Paging

  datatype AidError =
    | Unauthorized
    | NotFound
    | AlreadyClaimed
    | Expired
    | Paused
    | NotExpiredYet
    | AlreadyRefunded
    | InvalidAmount
    | InvalidArgument
    | HostPanic

  datatype Status = Pending | Settled | Refunded

  datatype Record = Record(
    id: nat, donor: Address, recipient: Address, token: Address, amount: int, expiry: U32, status: Status)

  datatype State = State(
    self: Address, admin: Address, token: Address, paused: bool,
    counter: nat, records: map<nat, Record>, ledger: Ledger)

  const MAX_QUERY_LIMIT: nat := 50

  // -------------------------------------------------------------------------
  // Entry points as state changes
  // -------------------------------------------------------------------------

  function Initialize(self: Address, admin: Address, token: Address, ledger: Ledger): State {
    State(self, admin, token, false, 0, map[], ledger)
  }

  function Move(l: Ledger, token: Address, from: Address, to: Address, amount: int): Result<Ledger, AidError> {
    Transfer(l, token, from, to, amount).OkOr(HostPanic)
  }

  /** The id counter wraps around at 64 bits. */
  function WrappingNext(id: nat): nat { (id + 1) % (U64_MAX + 1) }

  function CreateAid(s: State, now: U32, donor: Address, recipient: Address, amount: I128, expiry: U32)
    : Result<(State, nat), AidError>
  {
    var _ :- Need(donor != s.self, HostPanic);
    var _ :- Need(amount > 0, InvalidAmount);
    var _ :- Need(expiry > now, NotExpiredYet);
    var id := s.counter;
    var _ :- Need(id !in s.records, InvalidArgument);
    var ledger :- Move(s.ledger, s.token, donor, s.self, amount);
    Ok((s.(counter := WrappingNext(id), ledger := ledger,
           records := s.records[id := Record(id, donor, recipient, s.token, amount, expiry, Pending)]), id))
  }

  function ClaimAid(s: State, now: U32, id: nat, recipient: Address): Result<State, AidError> {
    var _ :- Need(!s.paused, Paused);
    var _ :- Need(recipient != s.self, HostPanic);
    var r :- Get(s.records, id).OkOr(NotFound);
    var _ :- Need(r.status == Pending, AlreadyClaimed);
    var _ :- Need(now <= r.expiry, Expired);
    var _ :- Need(recipient == r.recipient, Unauthorized);
    var ledger :- Move(s.ledger, r.token, s.self, r.recipient, r.amount);
    Ok(s.(records := s.records[id := r.(status := Settled)], ledger := ledger))
  }

  function RefundAid(s: State, now: U32, id: nat): Result<State, AidError> {
    var r :- Get(s.records, id).OkOr(NotFound);
    var _ :- Need(r.status != Settled, AlreadyClaimed);
    var _ :- Need(r.status != Refunded, AlreadyRefunded);
    var _ :- Need(now > r.expiry, NotExpiredYet);
    var ledger :- Move(s.ledger, r.token, s.self, r.donor, r.amount);
    Ok(s.(records := s.records[id := r.(status := Refunded)], ledger := ledger))
  }

  function SetPaused(s: State, caller: Address, paused: bool): Result<State, AidError> {
    var _ :- Need(caller == s.admin, Unauthorized);
    Ok(s.(paused := paused))
  }

  // -------------------------------------------------------------------------
  // Listings
  // -------------------------------------------------------------------------

  /** The record at an id, if it is there and of the wanted donor. */
  function Listed(records: map<nat, Record>, donor: Option<Address>, id: nat): Option<Record> {
    if id in records && (donor.None? || records[id].donor == donor.value) then Some(records[id]) else None
  }

  /** What a listing walks over: every id below the counter. */
  function Shelf(s: State, donor: Option<Address>): seq<Option<Record>> {
    seq(s.counter, id requires id >= 0 => Listed(s.records, donor, id))
  }

  /** Both listings; a limit of zero returns nothing and hands the cursor back. */
  function List(s: State, donor: Option<Address>, limit: U32, cursor: Option<nat>): Page<Record> {
    if limit == 0 then Page([], cursor)
    else PageAt(Shelf(s, donor), limit, if cursor.Some? then cursor.value else 0)
  }

  /** What a walk over an index of ids sees. */
  function Index(s: State, ids: seq<nat>): seq<Option<Record>> {
    seq(|ids|, i requires 0 <= i < |ids| => Listed(s.records, None, ids[i]))
  }

  function Paginate(s: State, ids: seq<nat>, cursor: U32, limit: U32): Page<Record> {
    PageAt(Index(s, ids), Min(limit, MAX_QUERY_LIMIT), cursor)
  }

  // -------------------------------------------------------------------------
  // Runs
  // -------------------------------------------------------------------------

  datatype Call =
    | CallCreate(now: U32, donor: Address, recipient: Address, amount: I128, expiry: U32)
    | CallClaim(now: U32, id: nat, recipient: Address)
    | CallRefund(now: U32, id: nat)
    | CallSetPaused(caller: Address, paused: bool)
    | Elsewhere(token: Address, from: Address, to: Address, units: I128)  // a token moves without the contract
    | Issued(token: Address, to: Address, minted: nat)

  function Apply(s: State, call: Call): Result<State, AidError> {
    match call
    case CallCreate(now, donor, recipient, amount, expiry) =>
      var r :- CreateAid(s, now, donor, recipient, amount, expiry);
      Ok(r.0)
    case CallClaim(now, id, recipient) => ClaimAid(s, now, id, recipient)
    case CallRefund(now, id) => RefundAid(s, now, id)
    case CallSetPaused(caller, paused) => SetPaused(s, caller, paused)
    case Elsewhere(token, from, to, units) =>
      var _ :- Need(from != s.self, HostPanic);
      var ledger :- Move(s.ledger, token, from, to, units);
      Ok(s.(ledger := ledger))
    case Issued(token, to, minted) => Ok(s.(ledger := s.ledger[(token, to) := Bal(s.ledger, token, to) + minted]))
  }

  ghost function Step(s: State, call: Call): State { After(s, Apply(s, call)) }

  ghost function Run(s: State, calls: seq<Call>): State {
    if calls == [] then s else Step(Run(s, calls[..|calls| - 1]), calls[|calls| - 1])
  }

  ghost predicate Start(s: State) { s == Initialize(s.self, s.admin, s.token, s.ledger) }

  // -------------------------------------------------------------------------
  // The invariant
  // -------------------------------------------------------------------------

  ghost function Held(): (nat, Record) -> int {
    (id: nat, r: Record) => if r.status == Pending then r.amount else 0
  }

  /** Ids are handed out densely from zero; once all 64-bit ids are used the counter is back at zero. */
  ghost predicate IdsDense(s: State) {
    || (s.counter <= U64_MAX && forall id: nat :: id in s.records <==> id < s.counter)
    || (s.counter == 0 && forall id: nat :: id in s.records <==> id <= U64_MAX)
  }

  ghost predicate Inv(s: State) {
    && IdsDense(s)
    && (forall id: nat :: id in s.records ==>
          s.records[id].id == id && s.records[id].amount > 0 && s.records[id].token == s.token)
    && Bal(s.ledger, s.token, s.self) >= SumOf(s.records, Held())
  }

  /** Before the counter wraps, the ids below it are exactly the stored ones. */
  ghost predicate NotWrapped(s: State) {
    s.counter == 0 ==> s.records == map[]
  }

  lemma CreateKeepsInv(s: State, now: U32, donor: Address, recipient: Address, amount: I128, expiry: U32)
    requires Inv(s) && CreateAid(s, now, donor, recipient, amount, expiry).Ok?
    ensures Inv(CreateAid(s, now, donor, recipient, amount, expiry).value.0)
  {
    var s' := CreateAid(s, now, donor, recipient, amount, expiry).value.0;
    SumUpdate(s.records, s.counter, s'.records[s.counter], Held());
    if s.counter < U64_MAX {
      assert s'.counter == s.counter + 1;
    } else {
      assert s'.counter == 0;
    }
  }

  lemma PayKeepsInv(s: State, s': State, id: nat, paid: Record, to: Address)
    requires Inv(s) && id in s.records && s.records[id].status == Pending
    requires paid == s.records[id].(status := paid.status) && paid.status != Pending
    requires Transfer(s.ledger, s.token, s.self, to, paid.amount) == Some(s'.ledger)
    requires s' == s.(records := s.records[id := paid], ledger := s'.ledger)
    ensures Inv(s')
  {
    SumUpdate(s.records, id, paid, Held());
  }

  lemma StepKeepsInv(s: State, call: Call)
    requires Inv(s)
    ensures Inv(Step(s, call))
  {
    if Apply(s, call).Ok? {
      match call
      case CallCreate(now, donor, recipient, amount, expiry) =>
        CreateKeepsInv(s, now, donor, recipient, amount, expiry);
      case CallClaim(now, id, recipient) =>
        PayKeepsInv(s, Step(s, call), id, s.records[id].(status := Settled), s.records[id].recipient);
      case CallRefund(now, id) =>
        PayKeepsInv(s, Step(s, call), id, s.records[id].(status := Refunded), s.records[id].donor);
      case _ =>
    }
  }

  /** Over every run: the stored ids are exactly those below the counter until it wraps, and all of them after;
      and the contract can pay every pending disbursement. */
  lemma {:induction false} ReachableInv(start: State, calls: seq<Call>)
    requires Start(start)
    ensures Inv(Run(start, calls))
  {
    if calls == [] {
      assert start.records == map[];
    } else {
      ReachableInv(start, calls[..|calls| - 1]);
      StepKeepsInv(Run(start, calls[..|calls| - 1]), calls[|calls| - 1]);
    }
  }

  lemma PendingIsCovered(s: State, id: nat)
    requires Inv(s) && id in s.records && s.records[id].status == Pending
    ensures Bal(s.ledger, s.token, s.self) >= s.records[id].amount
  {
    SumBounds(s.records, Held());
    assert Held()(id, s.records[id]) <= SumOf(s.records, Held());
  }

  /** In a reachable state a disbursement can be claimed by its recipient up to its expiry ledger and refunded
      after it; who asks for the refund does not matter. */
  lemma PaidOutIff(s: State, now: U32, id: nat, recipient: Address)
    requires Inv(s)
    ensures ClaimAid(s, now, id, recipient).Ok? <==>
              && !s.paused && recipient != s.self && id in s.records && s.records[id].status == Pending
              && now <= s.records[id].expiry && recipient == s.records[id].recipient
    ensures RefundAid(s, now, id).Ok? <==>
              id in s.records && s.records[id].status == Pending && now > s.records[id].expiry
  {
    if id in s.records && s.records[id].status == Pending {
      PendingIsCovered(s, id);
    }
  }

  // -------------------------------------------------------------------------
  // Each disbursement pays once
  // -------------------------------------------------------------------------

  predicate Pays(s: State, call: Call, id: nat) {
    (call.CallClaim? || call.CallRefund?) && call.id == id && Apply(s, call).Ok?
  }

  predicate Closed(s: State, id: nat) { id in s.records && s.records[id].status != Pending }

  ghost function PayoutCount(start: State, calls: seq<Call>, id: nat): nat {
    if calls == [] then 0
    else
      PayoutCount(start, calls[..|calls| - 1], id)
      + if Pays(Run(start, calls[..|calls| - 1]), calls[|calls| - 1], id) then 1 else 0
  }

  lemma ClosedAfterStep(s: State, call: Call, id: nat)
    ensures Pays(s, call, id) ==> !Closed(s, id)
    ensures Closed(Step(s, call), id) <==> Closed(s, id) || Pays(s, call, id)
  {
  }

  /** What a later state keeps of a stored record: everything but its status, and that too once it is closed. */
  ghost predicate Keeps(s: State, s': State, id: nat) {
    id in s.records ==>
      && id in s'.records
      && s'.records[id] == s.records[id].(status := s'.records[id].status)
      && (s.records[id].status != Pending ==> s'.records[id] == s.records[id])
  }

  lemma StepKeeps(s: State, call: Call, id: nat)
    ensures Keeps(s, Step(s, call), id)
  {
  }

  lemma KeepsTransitive(s: State, t: State, u: State, id: nat)
    requires Keeps(s, t, id) && Keeps(t, u, id)
    ensures Keeps(s, u, id)
  {
  }

  lemma RunSnoc(start: State, calls: seq<Call>, call: Call)
    ensures Run(start, calls + [call]) == Step(Run(start, calls), call)
  {
    assert (calls + [call])[..|calls|] == calls;
  }

  /** Over any continuation of a run, also past a wrap of the counter, a stored record is never overwritten: donor,
      recipient, token, amount and expiry stay, and a closed record stays entirely. */
  lemma {:induction false} RecordsAreKept(start: State, before: seq<Call>, more: seq<Call>, id: nat)
    ensures Keeps(Run(start, before), Run(start, before + more), id)
    decreases |more|
  {
    if more == [] {
      assert before + more == before;
    } else {
      var front, last := more[..|more| - 1], more[|more| - 1];
      RecordsAreKept(start, before, front, id);
      RunSnoc(start, before + front, last);
      assert before + front + [last] == before + more;
      StepKeeps(Run(start, before + front), last, id);
      KeepsTransitive(Run(start, before), Run(start, before + front), Run(start, before + more), id);
    }
  }

  /** Over every run a disbursement has been paid out once if it is closed, to recipient or donor, and not at
      all before that. */
  lemma {:induction false} PaysOnce(start: State, calls: seq<Call>, id: nat)
    requires Start(start)
    ensures PayoutCount(start, calls, id) == if Closed(Run(start, calls), id) then 1 else 0
  {
    if calls != [] {
      PaysOnce(start, calls[..|calls| - 1], id);
      ClosedAfterStep(Run(start, calls[..|calls| - 1]), calls[|calls| - 1], id);
    }
  }

  /** That payout moves the whole amount out of escrow: to the recipient up to the expiry ledger, to the donor after
      it, and to nobody else; no other balance of any token changes. */
  lemma PayoutGoesTo(s: State, call: Call, id: nat)
    requires Inv(s) && Pays(s, call, id)
    ensures var r, l' := s.records[id], Step(s, call).ledger;
            var payee := if call.now <= r.expiry then r.recipient else r.donor;
            && Moved(s.ledger, l', s.token, s.self, payee, r.amount)
            && forall t: Address :: Supply(l', t) == Supply(s.ledger, t)
  {
    var r := s.records[id];
    var payee := if call.CallClaim? then r.recipient else r.donor;
    assert Transfer(s.ledger, s.token, s.self, payee, r.amount) == Some(Step(s, call).ledger);
    forall t: Address {
      TransferKeepsSupply(s.ledger, s.token, s.self, payee, r.amount, t);
    }
  }
}

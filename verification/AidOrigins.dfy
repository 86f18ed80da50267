/** Where disbursements come from, and whom they pay in the end. */
module AidOrigins {
  import opened Host
  import opened Token
  import opened Aid

  /** A disbursement is accepted exactly for a positive amount that the donor holds and an expiry still to come, until
      the counter has wrapped; it takes exactly the amount from the donor. */
  lemma CreateSucceedsIff(s: State, now: U32, donor: Address, recipient: Address, amount: I128, expiry: U32)
    requires Inv(s)
    ensures CreateAid(s, now, donor, recipient, amount, expiry).Ok? <==>
              && amount > 0 && donor != s.self && Bal(s.ledger, s.token, donor) >= amount && expiry > now
              && NotWrapped(s)
    ensures CreateAid(s, now, donor, recipient, amount, expiry).Ok? ==>
              Moved(s.ledger, CreateAid(s, now, donor, recipient, amount, expiry).value.0.ledger, s.token, donor,
                    s.self, amount)
  {
    if !NotWrapped(s) {
      assert s.counter in s.records;
    }
  }

  /** A contract starts unpaused and empty, with its first id at zero. */
  lemma FirstState(start: State)
    requires Start(start)
    ensures !start.paused && start.counter == 0 && start.records == map[]
  {
  }

  /** The admin alone pauses and resumes; admin, token and the contract's address never change. */
  lemma PauseChangesExactlyBy(s: State, call: Call)
    ensures Step(s, call).paused == if call.CallSetPaused? && call.caller == s.admin then call.paused else s.paused
    ensures var s' := Step(s, call); s'.self == s.self && s'.admin == s.admin && s'.token == s.token
  {
  }

  /** The call opened this disbursement, with its parties, its amount and its expiry. */
  ghost predicate Opens(s: State, call: Call, id: nat, r: Record) {
    && call.CallCreate? && Apply(s, call).Ok?
    && CreateAid(s, call.now, call.donor, call.recipient, call.amount, call.expiry).value.1 == id
    && r.id == id && r.donor == call.donor && r.recipient == call.recipient
    && r.amount == call.amount && r.expiry == call.expiry && r.token == s.token
  }

  ghost predicate OpenedAt(start: State, calls: seq<Call>, i: nat, id: nat, r: Record) {
    i < |calls| && Opens(Run(start, calls[..i]), calls[i], id, r)
  }

  lemma StepKeepsRecord(s: State, call: Call, id: nat)
    requires id in Step(s, call).records
    ensures var r := Step(s, call).records[id];
            || (id in s.records && s.records[id] == r.(status := s.records[id].status))
            || Opens(s, call, id, r)
  {
  }

  /** Over every run, donor, recipient, amount and expiry of a stored record are those of the accepted call that
      returned its id. */
  lemma {:induction false} RecordIsAsOpened(start: State, calls: seq<Call>, id: nat)
    requires Start(start) && id in Run(start, calls).records
    ensures exists i: nat :: OpenedAt(start, calls, i, id, Run(start, calls).records[id])
  {
    var n := |calls| - 1;
    var front, s := calls[..n], Run(start, calls[..n]);
    var r := Run(start, calls).records[id];
    StepKeepsRecord(s, calls[n], id);
    if Opens(s, calls[n], id, r) {
      assert OpenedAt(start, calls, n, id, r);
    } else {
      RecordIsAsOpened(start, front, id);
      var i: nat :| OpenedAt(start, front, i, id, s.records[id]);
      assert front[..i] == calls[..i];
      assert OpenedAt(start, calls, i, id, r);
    }
  }

  /** The payout moves the whole amount the call named: to the recipient it named up to the expiry it named, and back to
      its donor after that. */
  ghost predicate PaysAsOpened(s: State, opening: Call, paying: Call)
    requires opening.CallCreate? && (paying.CallClaim? || paying.CallRefund?)
  {
    Moved(s.ledger, Step(s, paying).ledger, s.token, s.self,
          if paying.now <= opening.expiry then opening.recipient else opening.donor, opening.amount)
  }

  lemma PayingIsAsOpened(s: State, opening: Call, paying: Call, id: nat)
    requires Inv(s) && Pays(s, paying, id) && opening.CallCreate?
    requires var r := s.records[id];
             && r.donor == opening.donor && r.recipient == opening.recipient && r.amount == opening.amount
             && r.expiry == opening.expiry
    ensures PaysAsOpened(s, opening, paying)
  {
    PayoutGoesTo(s, paying, id);
  }

  /** Over every run, a payout goes in full to the party that the call which opened the disbursement named for that
      moment. */
  lemma PayoutIsAsOpened(start: State, calls: seq<Call>, call: Call, id: nat)
    requires Start(start) && Pays(Run(start, calls), call, id)
    ensures id in Run(start, calls).records
    ensures exists i: nat ::
              && OpenedAt(start, calls, i, id, Run(start, calls).records[id])
              && PaysAsOpened(Run(start, calls), calls[i], call)
  {
    var s := Run(start, calls);
    ReachableInv(start, calls);
    RecordIsAsOpened(start, calls, id);
    var i: nat :| OpenedAt(start, calls, i, id, s.records[id]);
    PayingIsAsOpened(s, calls[i], call, id);
  }

  /** The status of a disbursement; one that does not exist yet counts as pending. */
  function StatusOf(s: State, id: nat): Status {
    if id in s.records then s.records[id].status else Pending
  }

  /** A disbursement becomes settled exactly by a claim that goes through, and refunded exactly by such a refund. */
  lemma StatusChangesExactlyBy(s: State, call: Call, id: nat)
    requires Inv(s)
    ensures StatusOf(Step(s, call), id)
         == if Pays(s, call, id) then (if call.CallClaim? then Settled else Refunded) else StatusOf(s, id)
  {
  }
}

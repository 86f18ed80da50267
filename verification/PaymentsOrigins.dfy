/** Where deposits and escrows come from: what the calls that open them take, and whom an escrow pays in the end. */
module PaymentsOrigins {
  import opened Host
  import opened Token
  import opened Payments

  // -------------------------------------------------------------------------
  // Money in
  // -------------------------------------------------------------------------

  /** A deposit goes through exactly for a positive amount that its sender holds and the running total has room for, and
      takes exactly that amount from the sender. */
  lemma DepositSucceedsIff(s: State, from: Address, amount: I128)
    requires Inv(s)
    ensures Deposit(s, from, amount).Ok? <==>
              && amount > 0 && from != s.self && Bal(s.ledger, s.token, from) >= amount
              && s.totalDeposits + amount <= I128_MAX
    ensures Deposit(s, from, amount).Ok? ==>
              Moved(s.ledger, Deposit(s, from, amount).value.ledger, s.token, from, s.self, amount)
  {
    DepositBounds(s, from);
  }

  /** The same for an escrow, which must expire later than now and find a free id. */
  lemma CreateEscrowSucceedsIff(s: State, now: U32, depositor: Address, beneficiary: Address, amount: I128, expiry: U32)
    ensures CreateEscrow(s, now, depositor, beneficiary, amount, expiry).Ok? <==>
              && amount > 0 && depositor != s.self && Bal(s.ledger, s.token, depositor) >= amount
              && expiry > now && s.escrowSeq < U64_MAX
    ensures CreateEscrow(s, now, depositor, beneficiary, amount, expiry).Ok? ==>
              Moved(s.ledger, CreateEscrow(s, now, depositor, beneficiary, amount, expiry).value.0.ledger, s.token,
                    depositor, s.self, amount)
  {
  }

  /** Taking everything out is taking one's balance out. */
  lemma WithdrawIsWithdrawAmount(s: State, who: Address)
    requires Inv(s) && Deposited(s, who) > 0
    ensures IsI128(Deposited(s, who))
    ensures Withdraw(s, who) == WithdrawAmount(s, who, Deposited(s, who))
  {
    DepositBounds(s, who);
  }

  /** The fee rate is the admin's to set, within zero and 10 000; nothing else of the configuration ever changes. */
  lemma FeeRateChangesExactlyBy(s: State, call: Call)
    ensures Step(s, call).feeRate ==
              if call.CallSetFeeRate? && call.caller == s.admin && 0 <= call.rate <= 10_000 then call.rate
              else s.feeRate
    ensures var s' := Step(s, call);
            s'.self == s.self && s'.admin == s.admin && s'.token == s.token && s'.feeRecipient == s.feeRecipient
  {
  }

  // -------------------------------------------------------------------------
  // Escrows are what was opened
  // -------------------------------------------------------------------------

  /** The call opened this escrow, with its parties, its amount and its expiry. */
  ghost predicate Opens(s: State, call: Call, id: nat, e: Escrow) {
    && call.CallCreateEscrow? && Apply(s, call).Ok?
    && CreateEscrow(s, call.now, call.depositor, call.beneficiary, call.amount, call.expiry).value.1 == id
    && e.id == id && e.depositor == call.depositor && e.beneficiary == call.beneficiary
    && e.amount == call.amount && e.expiry == call.expiry && e.token == s.token
  }

  ghost predicate OpenedAt(start: State, calls: seq<Call>, i: nat, id: nat, e: Escrow) {
    i < |calls| && Opens(Run(start, calls[..i]), calls[i], id, e)
  }

  lemma StepKeepsEscrow(s: State, call: Call, id: nat)
    requires id in Step(s, call).escrows
    ensures var e := Step(s, call).escrows[id];
            || (id in s.escrows && s.escrows[id] == e.(state := s.escrows[id].state))
            || Opens(s, call, id, e)
  {
  }

  /** Over every run, depositor, beneficiary, amount and expiry of a stored escrow are those of the accepted call that
      returned its id. */
  lemma {:induction false} EscrowIsAsOpened(start: State, calls: seq<Call>, id: nat)
    requires Start(start) && id in Run(start, calls).escrows
    ensures exists i: nat :: OpenedAt(start, calls, i, id, Run(start, calls).escrows[id])
  {
    var n := |calls| - 1;
    var front, s := calls[..n], Run(start, calls[..n]);
    var e := Run(start, calls).escrows[id];
    StepKeepsEscrow(s, calls[n], id);
    if Opens(s, calls[n], id, e) {
      assert OpenedAt(start, calls, n, id, e);
    } else {
      EscrowIsAsOpened(start, front, id);
      var i: nat :| OpenedAt(start, front, i, id, s.escrows[id]);
      assert front[..i] == calls[..i];
      assert OpenedAt(start, calls, i, id, e);
    }
  }

  /** What an escrow opened by this call pays when it is released or refunded: the whole amount, to the beneficiary or
      back to the depositor it was opened with. */
  ghost predicate PaysAsOpened(s: State, opening: Call, closing: Call)
    requires opening.CallCreateEscrow?
  {
    Moved(s.ledger, Step(s, closing).ledger, s.token, s.self,
          if closing.CallRelease? then opening.beneficiary else opening.depositor, opening.amount)
  }

  lemma ClosingPaysAsOpened(s: State, opening: Call, closing: Call, id: nat)
    requires Inv(s) && Pays(s, closing, id) && opening.CallCreateEscrow?
    requires var e := s.escrows[id];
             e.depositor == opening.depositor && e.beneficiary == opening.beneficiary && e.amount == opening.amount
    ensures PaysAsOpened(s, opening, closing)
  {
    PayoutMovesWholeAmount(s, closing, id);
  }

  /** Over every run, an escrow's payout goes, in full, to a party named by the call that opened it: to the beneficiary
      on release, which comes no later than that call's expiry, and to the depositor on refund. */
  lemma PayoutIsAsOpened(start: State, calls: seq<Call>, call: Call, id: nat)
    requires Start(start) && Pays(Run(start, calls), call, id)
    ensures id in Run(start, calls).escrows
    ensures exists i: nat ::
              && OpenedAt(start, calls, i, id, Run(start, calls).escrows[id])
              && PaysAsOpened(Run(start, calls), calls[i], call)
              && (call.CallRelease? ==> call.now <= calls[i].expiry)
  {
    var s := Run(start, calls);
    ReachableInv(start, calls);
    EscrowIsAsOpened(start, calls, id);
    var i: nat :| OpenedAt(start, calls, i, id, s.escrows[id]);
    ClosingPaysAsOpened(s, calls[i], call, id);
  }

  /** The state of an escrow; one that does not exist yet counts as active. */
  function StateOf(s: State, id: nat): EscrowState {
    if id in s.escrows then s.escrows[id].state else Active
  }

  /** An escrow becomes released exactly by a release that goes through, and refunded exactly by such a refund. */
  lemma StateChangesExactlyBy(s: State, call: Call, id: nat)
    requires Inv(s)
    ensures StateOf(Step(s, call), id)
         == if Pays(s, call, id) then (if call.CallRelease? then Released else Refunded) else StateOf(s, id)
  {
  }

  // -------------------------------------------------------------------------
  // The order of the active list
  // -------------------------------------------------------------------------

  ghost predicate Rising(ids: seq<nat>) {
    forall i, j :: 0 <= i < j < |ids| ==> ids[i] < ids[j]
  }

  lemma RisingSnoc(ids: seq<nat>, last: nat)
    requires Rising(ids) && forall i :: 0 <= i < |ids| ==> ids[i] < last
    ensures Rising(ids + [last])
  {
  }

  lemma {:induction false} WithoutRises(ids: seq<nat>, id: nat)
    requires Rising(ids)
    ensures Rising(Without(ids, id))
  {
    if ids != [] {
      var front, last := ids[..|ids| - 1], ids[|ids| - 1];
      var kept := Without(front, id);
      WithoutRises(front, id);
      WithoutContents(front, id);
      forall i | 0 <= i < |kept| ensures kept[i] < last {
        assert kept[i] in front;
      }
      RisingSnoc(kept, last);
      assert kept + [] == kept;
    }
  }

  lemma StepKeepsOrder(s: State, call: Call)
    requires Inv(s) && Rising(s.active)
    ensures Rising(Step(s, call).active)
  {
    if call.CallRelease? || call.CallRefund? {
      WithoutRises(s.active, call.id);
    } else if call.CallCreateEscrow? {
      forall i | 0 <= i < |s.active| ensures s.active[i] < s.escrowSeq + 1 {
        assert s.active[i] in s.active;
      }
      RisingSnoc(s.active, s.escrowSeq + 1);
    }
  }

  /** Over every run the active escrows are listed in the order they were opened. */
  lemma {:induction false} ActiveInOrder(start: State, calls: seq<Call>)
    requires Start(start)
    ensures Rising(Run(start, calls).active)
  {
    if calls != [] {
      ActiveInOrder(start, calls[..|calls| - 1]);
      ReachableInv(start, calls[..|calls| - 1]);
      StepKeepsOrder(Run(start, calls[..|calls| - 1]), calls[|calls| - 1]);
    }
  }

  /** The gateway starts with a fee rate from zero to 10 000. */
  lemma InitializeSucceedsIff(self: Address, admin: Address, token: Address, feeRate: I128, feeRecipient: Address,
                              ledger: Ledger)
    ensures Initialize(self, admin, token, feeRate, feeRecipient, ledger).Ok? <==> 0 <= feeRate <= 10_000
  {
  }
}

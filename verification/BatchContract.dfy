/** The batch executor over a token's balances and its stored lock. */
module BatchContract {
  import opened Host
  import opened Token
  import Spec = Batch

  class BatchExecutor {
    var ledger: Ledger
    var locked: bool

    function View(): Spec.State
      reads this
    {
      Spec.State(ledger, locked)
    }

    constructor (balances: Ledger)
      ensures View() == Spec.State(balances, false)
    {
      ledger, locked := balances, false;
    }

    method AcquireGuard() returns (r: Result<(), Spec.BatchError>)
      modifies this`locked
      ensures locked
      ensures r == if old(locked) then Err(Spec.ReentrancyDetected) else Ok(())
    {
      if locked {
        return Err(Spec.ReentrancyDetected);
      }
      locked := true;
      return Ok(());
    }

    method ReleaseGuard()
      modifies this`locked
      ensures !locked
    {
      locked := false;
    }

    /** One transfer and its mark; None when its failure aborts the call. */
    method ExecuteSingleTransfer(ghost p: Spec.Progress, token: Address, caller: Address, to: Address, amount: int,
                                 mode: Spec.Mode)
      returns (mark: Option<Spec.Outcome>)
      requires p.ledger == ledger && !p.stopped
      modifies this`ledger
      ensures match Spec.One(p, token, caller, to, amount, mode)
              case None => mark == None
              case Some(p') =>
                && mark.Some?
                && p' == Spec.Progress(ledger, p.results + [mark.value], mark.value.Failure? && mode == Spec.Atomic)
    {
      if amount <= 0 {
        return Some(Spec.Failure(Spec.INVALID_OPERATION));
      }
      var moved := Transfer(ledger, token, caller, to, amount);
      if moved.Some? {
        ledger := moved.value;
        return Some(Spec.Success);
      }
      if mode == Spec.Atomic {
        return None;
      }
      return Some(Spec.Failure(Spec.INVALID_AMOUNT));
    }

    /** The loop over the transfers; None when an atomic transfer failed, with the balances left half-way. */
    method RunTransfers(caller: Address, token: Address, transfers: Payments, mode: Spec.Mode)
      returns (r: Option<Spec.BatchResult>)
      modifies this`ledger
      ensures match Spec.All(old(ledger), token, caller, transfers, mode)
              case None => r == None
              case Some(p) => ledger == p.ledger && r == Some(Spec.Summary(p, |transfers|))
    {
      var results: seq<Spec.Outcome> := [];
      var succeeded, failed, reverted := 0, 0, false;
      ghost var p := Spec.Progress(ledger, [], false);
      var i := 0;
      while i < |transfers| && !reverted
        invariant 0 <= i <= |transfers|
        invariant Spec.All(old(ledger), token, caller, transfers[..i], mode) == Some(p)
        invariant p == Spec.Progress(ledger, results, reverted)
        invariant succeeded == Spec.Successes(results) && failed == |results| - succeeded
      {
        Spec.AllStep(old(ledger), token, caller, transfers, i, mode);
        var mark := ExecuteSingleTransfer(p, token, caller, transfers[i].0, transfers[i].1, mode);
        i := i + 1;
        if mark.None? {
          Spec.AbortSticks(old(ledger), token, caller, transfers, i, mode);
          return None;
        }
        p := Spec.Progress(ledger, results + [mark.value], mark.value.Failure? && mode == Spec.Atomic);
        Spec.SuccessesSnoc(results, mark.value);
        results := results + [mark.value];
        if mark.value.Success? {
          succeeded := succeeded + 1;
        } else {
          failed := failed + 1;
          reverted := mode == Spec.Atomic;
        }
      }
      Spec.StopSticks(old(ledger), token, caller, transfers, i, mode);
      return Some(Spec.BatchResult(results, |transfers|, succeeded, failed, reverted));
    }

    method ExecuteMultiTransfer(caller: Address, token: Address, transfers: Payments, config: Spec.Config)
      returns (r: Result<Spec.BatchResult, Spec.BatchError>)
      modifies this
      ensures RefinesWith(Spec.ExecuteMultiTransfer(old(View()), caller, token, transfers, config), old(View()), r,
                          View())
    {
      if config.maxOperations == 0 || config.maxOperations > Spec.ABSOLUTE_MAX_BATCH_SIZE {
        return Err(Spec.InvalidConfig);
      }
      if |transfers| == 0 {
        return Err(Spec.EmptyBatch);
      }
      if |transfers| > config.maxOperations {
        return Err(Spec.BatchTooLarge);
      }
      var guard :- AcquireGuard();
      var saved := ledger;
      var done := RunTransfers(caller, token, transfers, config.mode);
      ReleaseGuard();
      if done.None? {
        ledger := saved;
        return Err(Spec.HostPanic);
      }
      return Ok(done.value);
    }

    /** An atomic batch of the default size. */
    method MultiTransferAll(caller: Address, token: Address, recipients: Payments)
      returns (r: Result<Spec.BatchResult, Spec.BatchError>)
      modifies this
      ensures RefinesWith(
                Spec.ExecuteMultiTransfer(old(View()), caller, token, recipients,
                                          Spec.Config(Spec.Atomic, Spec.DEFAULT_MAX_BATCH_SIZE)),
                old(View()), r, View())
    {
      r := ExecuteMultiTransfer(caller, token, recipients, Spec.Config(Spec.Atomic, Spec.DEFAULT_MAX_BATCH_SIZE));
    }
  }
}

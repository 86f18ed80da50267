/** Batches of token transfers by one caller, atomic or not. */
module Batch {
  import opened Host
  import opened Token

  const ABSOLUTE_MAX_BATCH_SIZE: nat := 100
  const DEFAULT_MAX_BATCH_SIZE: nat := 50
  const INVALID_OPERATION: nat := 803
  const INVALID_AMOUNT: nat := 3

  datatype BatchError =
    | BatchTooLarge
    | InvalidConfig
    | EmptyBatch
    | ReentrancyDetected
    | HostPanic  // an atomic transfer failed and took the whole call with it

  datatype Mode = Atomic | NonAtomic
  datatype Config = Config(mode: Mode, maxOperations: U32)
  datatype Outcome = Success | Failure(code: nat)
  datatype BatchResult = BatchResult(results: seq<Outcome>, total: nat, succeeded: nat, failed: nat, reverted: bool)

  datatype State = State(ledger: Ledger, locked: bool)

  // -------------------------------------------------------------------------
  // The batch as a state change
  // -------------------------------------------------------------------------

  /** How far a batch has come: the balances, the marks so far, and whether it has stopped early. */
  datatype Progress = Progress(ledger: Ledger, results: seq<Outcome>, stopped: bool)

  /** One transfer; None when its failure aborts the call. */
  function One(p: Progress, token: Address, caller: Address, to: Address, amount: int, mode: Mode): Option<Progress> {
    if p.stopped then Some(p)
    else if amount <= 0 then Some(p.(results := p.results + [Failure(INVALID_OPERATION)], stopped := mode == Atomic))
    else
      match Transfer(p.ledger, token, caller, to, amount)
      case Some(l) => Some(p.(ledger := l, results := p.results + [Success]))
      case None => if mode == Atomic then None else Some(p.(results := p.results + [Failure(INVALID_AMOUNT)]))
  }

  /** All transfers in order. */
  function All(l: Ledger, token: Address, caller: Address, ts: Payments, mode: Mode): Option<Progress> {
    if ts == [] then Some(Progress(l, [], false))
    else
      var p :- All(l, token, caller, ts[..|ts| - 1], mode);
      One(p, token, caller, ts[|ts| - 1].0, ts[|ts| - 1].1, mode)
  }

  lemma AllStep(l: Ledger, token: Address, caller: Address, ts: Payments, i: nat, mode: Mode)
    requires i < |ts|
    ensures All(l, token, caller, ts[..i + 1], mode)
         == match All(l, token, caller, ts[..i], mode)
            case None => None
            case Some(p) => One(p, token, caller, ts[i].0, ts[i].1, mode)
  {
    assert ts[..i + 1][..i] == ts[..i];
  }

  function Successes(results: seq<Outcome>): nat {
    if results == [] then 0 else Successes(results[..|results| - 1]) + if results[|results| - 1].Success? then 1 else 0
  }

  lemma SuccessesSnoc(results: seq<Outcome>, mark: Outcome)
    ensures Successes(results + [mark]) == Successes(results) + if mark.Success? then 1 else 0
  {
    assert (results + [mark])[..|results|] == results;
  }

  /** What a batch reports: its marks, and how many of each kind. */
  function Summary(p: Progress, total: nat): BatchResult {
    var n := Successes(p.results);
    SuccessesBound(p.results);
    BatchResult(p.results, total, n, |p.results| - n, p.stopped)
  }

  function ExecuteMultiTransfer(s: State, caller: Address, token: Address, ts: Payments, config: Config)
    : Result<(State, BatchResult), BatchError>
  {
    var _ :- Need(0 < config.maxOperations <= ABSOLUTE_MAX_BATCH_SIZE, InvalidConfig);
    var _ :- Need(ts != [], EmptyBatch);
    var _ :- Need(|ts| <= config.maxOperations, BatchTooLarge);
    var _ :- Need(!s.locked, ReentrancyDetected);
    var p :- All(s.ledger, token, caller, ts, config.mode).OkOr(HostPanic);
    Ok((s.(ledger := p.ledger), Summary(p, |ts|)))
  }

  lemma {:induction false} SuccessesBound(results: seq<Outcome>)
    ensures Successes(results) <= |results|
  {
    if results != [] {
      SuccessesBound(results[..|results| - 1]);
    }
  }

  // -------------------------------------------------------------------------
  // What the marks mean
  // -------------------------------------------------------------------------

  /** The transfers marked as successful, in order. */
  function Marked(ts: Payments, results: seq<Outcome>): Payments
    requires |results| <= |ts|
  {
    if results == [] then []
    else
      var n := |results| - 1;
      Marked(ts, results[..n]) + if results[n].Success? then [ts[n]] else []
  }

  lemma {:induction false} MarkedPrefix(ts: Payments, more: Payments, results: seq<Outcome>)
    requires |results| <= |ts|
    ensures Marked(ts + more, results) == Marked(ts, results)
  {
    if results != [] {
      MarkedPrefix(ts, more, results[..|results| - 1]);
    }
  }

  /** The balances are those of paying exactly the marked transfers, in order; a batch that ran to the end has
      one mark per transfer. */
  lemma {:induction false} MarkedAreApplied(l: Ledger, token: Address, caller: Address, ts: Payments, mode: Mode)
    requires All(l, token, caller, ts, mode).Some?
    ensures var p := All(l, token, caller, ts, mode).value;
            && |p.results| <= |ts| && (!p.stopped ==> |p.results| == |ts|)
            && PayAll(l, token, caller, Marked(ts, p.results)) == Some(p.ledger)
  {
    if ts != [] {
      var n := |ts| - 1;
      var front, last := ts[..n], ts[n];
      MarkedAreApplied(l, token, caller, front, mode);
      var p, p' := All(l, token, caller, front, mode).value, All(l, token, caller, ts, mode).value;
      assert ts == front + [last];
      if !p.stopped {
        MarkedStep(l, token, caller, front, last, p, mode);
      } else {
        MarkedPrefix(front, [last], p.results);
      }
    }
  }

  /** One more transfer keeps the balances those of the marked transfers. */
  lemma MarkedStep(l: Ledger, token: Address, caller: Address, front: Payments, last: (Address, int), p: Progress,
                   mode: Mode)
    requires |p.results| == |front| && !p.stopped
    requires PayAll(l, token, caller, Marked(front, p.results)) == Some(p.ledger)
    requires One(p, token, caller, last.0, last.1, mode).Some?
    ensures var p' := One(p, token, caller, last.0, last.1, mode).value;
            && |p'.results| == |front| + 1
            && PayAll(l, token, caller, Marked(front + [last], p'.results)) == Some(p'.ledger)
  {
    var marked := Marked(front, p.results);
    var p' := One(p, token, caller, last.0, last.1, mode).value;
    MarkedPrefix(front, [last], p.results);
    if last.1 > 0 && Transfer(p.ledger, token, caller, last.0, last.1).Some? {
      MarkedSnoc(front + [last], p.results, Success);
      PayAllSnoc(l, token, caller, marked, last.0, last.1);
      assert p'.results == p.results + [Success] && (front + [last])[|front|] == last;
    } else {
      var code := if last.1 <= 0 then INVALID_OPERATION else INVALID_AMOUNT;
      MarkedSnoc(front + [last], p.results, Failure(code));
      assert p'.results == p.results + [Failure(code)] && marked + [] == marked;
    }
  }

  lemma MarkedSnoc(ts: Payments, results: seq<Outcome>, mark: Outcome)
    requires |results| < |ts|
    ensures Marked(ts, results + [mark]) == Marked(ts, results) + if mark.Success? then [ts[|results|]] else []
  {
    assert (results + [mark])[..|results|] == results;
  }

  /** Once a batch has stopped, the remaining transfers change nothing. */
  lemma {:induction false} StopSticks(l: Ledger, token: Address, caller: Address, ts: Payments, i: nat, mode: Mode)
    requires i <= |ts| && All(l, token, caller, ts[..i], mode).Some?
    requires i == |ts| || All(l, token, caller, ts[..i], mode).value.stopped
    ensures All(l, token, caller, ts, mode) == All(l, token, caller, ts[..i], mode)
  {
    if i == |ts| {
      assert ts[..i] == ts;
    } else {
      assert ts[..|ts| - 1][..i] == ts[..i];
      StopSticks(l, token, caller, ts[..|ts| - 1], i, mode);
    }
  }

  lemma {:induction false} AbortSticks(l: Ledger, token: Address, caller: Address, ts: Payments, i: nat, mode: Mode)
    requires i <= |ts| && All(l, token, caller, ts[..i], mode).None?
    ensures All(l, token, caller, ts, mode).None?
  {
    if i == |ts| {
      assert ts[..i] == ts;
    } else {
      assert ts[..|ts| - 1][..i] == ts[..i];
      AbortSticks(l, token, caller, ts[..|ts| - 1], i, mode);
    }
  }

  /** The first transfer whose amount is not positive, or the length of the list. */
  function FirstBad(ts: Payments): (k: nat)
    ensures k <= |ts|
    ensures forall i :: 0 <= i < k ==> ts[i].1 > 0
    ensures k < |ts| ==> ts[k].1 <= 0
  {
    if ts == [] then 0
    else
      var k := FirstBad(ts[..|ts| - 1]);
      if k < |ts| - 1 || ts[|ts| - 1].1 <= 0 then k else |ts|
  }

  function Marks(n: nat): seq<Outcome> {
    seq(n, i => Success)
  }

  /** What an atomic batch does when the first amount that is not positive is at k. */
  ghost function Atomically(l: Ledger, token: Address, caller: Address, ts: Payments, k: nat): Option<Progress>
    requires k <= |ts|
  {
    match PayAll(l, token, caller, ts[..k])
    case None => None
    case Some(l') => Some(Progress(l', Marks(k) + (if k < |ts| then [Failure(803)] else []), k < |ts|))
  }

  /** An atomic batch pays the transfers before the first amount that is not positive, all or nothing: it aborts
      if one of them fails, runs to the end if there is no such amount, and otherwise stops there with a failure
      mark and keeps what it has paid. */
  lemma {:induction false} AtomicBatch(l: Ledger, token: Address, caller: Address, ts: Payments)
    ensures All(l, token, caller, ts, Atomic) == Atomically(l, token, caller, ts, FirstBad(ts))
  {
    if ts == [] {
      assert Marks(0) + [] == [];
    } else {
      var front := ts[..|ts| - 1];
      AtomicBatch(l, token, caller, front);
      AtomicStep(l, token, caller, front, ts[|ts| - 1], FirstBad(front));
      assert ts == front + [ts[|ts| - 1]];
    }
  }

  lemma AtomicStep(l: Ledger, token: Address, caller: Address, front: Payments, last: (Address, int), j: nat)
    requires j <= |front|
    ensures var before := Atomically(l, token, caller, front, j);
            Atomically(l, token, caller, front + [last], if j < |front| || last.1 <= 0 then j else j + 1)
              == if before.None? then None else One(before.value, token, caller, last.0, last.1, Atomic)
  {
    var ts := front + [last];
    assert ts[..j] == front[..j];
    if j == |front| {
      assert front[..j] == front && ts[..j + 1] == ts;
      PayAllSnoc(l, token, caller, front, last.0, last.1);
      assert Marks(j) + [] == Marks(j) && Marks(j + 1) + [] == Marks(j) + [Success];
    }
  }

  /** A batch that is not atomic never stops and never aborts. */
  lemma {:induction false} NonAtomicRunsThrough(l: Ledger, token: Address, caller: Address, ts: Payments)
    ensures All(l, token, caller, ts, NonAtomic).Some?
    ensures var p := All(l, token, caller, ts, NonAtomic).value;
            !p.stopped && |p.results| == |ts|
  {
    if ts != [] {
      NonAtomicRunsThrough(l, token, caller, ts[..|ts| - 1]);
    }
  }

  /** In a batch that is not atomic a transfer is marked successful exactly when its amount is positive and the
      caller can cover it after the marked transfers before it; the two failures have codes of their own. */
  lemma {:induction false} NonAtomicMarks(l: Ledger, token: Address, caller: Address, ts: Payments, i: nat)
    requires i < |ts|
    ensures All(l, token, caller, ts, NonAtomic).Some? && All(l, token, caller, ts[..i], NonAtomic).Some?
    ensures var p := All(l, token, caller, ts, NonAtomic).value;
            var before := All(l, token, caller, ts[..i], NonAtomic).value;
            && |p.results| == |ts|
            && p.results[i]
                 == if ts[i].1 <= 0 then Failure(803)
                    else if Bal(before.ledger, token, caller) >= ts[i].1 then Success
                    else Failure(3)
  {
    var front := ts[..|ts| - 1];
    NonAtomicRunsThrough(l, token, caller, ts);
    NonAtomicRunsThrough(l, token, caller, ts[..i]);
    NonAtomicRunsThrough(l, token, caller, front);
    if i < |ts| - 1 {
      NonAtomicMarks(l, token, caller, front, i);
      assert front[..i] == ts[..i];
    }
  }

  // -------------------------------------------------------------------------
  // The whole call
  // -------------------------------------------------------------------------

  /** On return the balances are those of exactly the transfers marked successful, no supply has changed, every
      mark is counted once, the total is that of the list, every transfer has a mark unless the batch stopped early, and
      the lock is free. */
  lemma BatchAccounts(s: State, caller: Address, token: Address, ts: Payments, config: Config)
    requires ExecuteMultiTransfer(s, caller, token, ts, config).Ok?
    ensures var (s', r) := ExecuteMultiTransfer(s, caller, token, ts, config).value;
            && |r.results| <= |ts|
            && PayAll(s.ledger, token, caller, Marked(ts, r.results)) == Some(s'.ledger)
            && (forall t: Address :: Supply(s'.ledger, t) == Supply(s.ledger, t))
            && |r.results| == r.succeeded + r.failed && r.succeeded == |Marked(ts, r.results)|
            && r.total == |ts| && (!r.reverted ==> |r.results| == |ts|)
            && !s.locked && !s'.locked
  {
    MarkedAreApplied(s.ledger, token, caller, ts, config.mode);
    var p := All(s.ledger, token, caller, ts, config.mode).value;
    PayAllEffect(s.ledger, token, caller, Marked(ts, p.results));
    MarkedCount(ts, p.results);
  }

  lemma {:induction false} MarkedCount(ts: Payments, results: seq<Outcome>)
    requires |results| <= |ts|
    ensures |Marked(ts, results)| == Successes(results)
  {
    if results != [] {
      MarkedCount(ts, results[..|results| - 1]);
    }
  }

  /** A batch is taken on exactly if it is neither empty nor longer than its own limit, which is from one to a hundred,
      while no other is running; and an atomic one if the transfers before its first bad amount can all be paid. */
  lemma BatchSucceedsIff(s: State, caller: Address, token: Address, ts: Payments, config: Config)
    ensures ExecuteMultiTransfer(s, caller, token, ts, config).Ok? <==>
              && 1 <= config.maxOperations <= 100 && 1 <= |ts| <= config.maxOperations && !s.locked
              && (config.mode == Atomic ==> PayAll(s.ledger, token, caller, ts[..FirstBad(ts)]).Some?)
  {
    if config.mode == Atomic {
      AtomicBatch(s.ledger, token, caller, ts);
    } else {
      NonAtomicRunsThrough(s.ledger, token, caller, ts);
    }
  }

  /** A batch reported as reverted has nevertheless paid the transfers before the offending one; it has paid
      nothing exactly when the first amount of the batch is the one that is not positive. */
  lemma RevertedKeepsPrefix(s: State, caller: Address, token: Address, ts: Payments, config: Config)
    requires config.mode == Atomic && ExecuteMultiTransfer(s, caller, token, ts, config).Ok?
    ensures var (s', r) := ExecuteMultiTransfer(s, caller, token, ts, config).value;
            var k := FirstBad(ts);
            && (r.reverted <==> k < |ts|)
            && PayAll(s.ledger, token, caller, ts[..k]) == Some(s'.ledger)
            && r.succeeded == k && r.failed == (if r.reverted then 1 else 0)
            && (r.succeeded == 0 <==> ts[0].1 <= 0)
  {
    var k := FirstBad(ts);
    AtomicBatch(s.ledger, token, caller, ts);
    CountMarks(k);
    assert Marks(k) + [] == Marks(k);
  }

  lemma CountMarks(k: nat)
    ensures Successes(Marks(k)) == k && Successes(Marks(k) + [Failure(INVALID_OPERATION)]) == k
  {
    MarksAllSucceed(k);
    assert (Marks(k) + [Failure(INVALID_OPERATION)])[..k] == Marks(k);
  }

  lemma {:induction false} MarksAllSucceed(n: nat)
    ensures Successes(Marks(n)) == n
  {
    if n > 0 {
      assert Marks(n)[..n - 1] == Marks(n - 1);
      MarksAllSucceed(n - 1);
    }
  }

  /** A batch that reports itself reverted and has paid: three units to one address, then an amount of zero. */
  lemma RevertedBatchPays(token: Address, payer: Address, payee: Address, other: Address)
    requires payer != payee
    ensures var s := State(map[(token, payer) := 5], false);
            var outcome := ExecuteMultiTransfer(s, payer, token, [(payee, 3), (other, 0)], Config(Atomic, 2));
            && outcome.Ok?
            && var (s', r) := outcome.value;
               && r == BatchResult([Success, Failure(INVALID_OPERATION)], 2, 1, 1, true)
               && Bal(s'.ledger, token, payee) == 3 && Bal(s'.ledger, token, payer) == 2
  {
    var l: Ledger := map[(token, payer) := 5];
    var ts: Payments := [(payee, 3), (other, 0)];
    var paid := Transfer(l, token, payer, payee, 3).value;
    assert ts[..0] == [] && ts[..2] == ts;
    AllStep(l, token, payer, ts, 0, Atomic);
    assert All(l, token, payer, ts[..0], Atomic) == Some(Progress(l, [], false));
    assert [] + [Success] == [Success];
    assert All(l, token, payer, ts[..1], Atomic) == Some(Progress(paid, [Success], false));
    AllStep(l, token, payer, ts, 1, Atomic);
    SuccessesSnoc([], Success);
    SuccessesSnoc([Success], Failure(INVALID_OPERATION));
    assert [Success] + [Failure(INVALID_OPERATION)] == [Success, Failure(INVALID_OPERATION)];
  }
}

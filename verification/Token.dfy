/** The token contracts as one ledger of non-negative balances, keyed by token and holder. */
module Token {
  import opened Host
  import opened Sums

  type Ledger = map<(Address, Address), nat>

  function Bal(l: Ledger, token: Address, who: Address): nat {
    GetOr(l, (token, who), 0)
  }

  /** A transfer; None when the amount is negative or the sender cannot cover it. */
  function Transfer(l: Ledger, token: Address, from: Address, to: Address, amount: int): Option<Ledger> {
    if amount < 0 || Bal(l, token, from) < amount then None
    else
      var debited := l[(token, from) := Bal(l, token, from) - amount];
      Some(debited[(token, to) := Bal(debited, token, to) + amount])
  }

  ghost function OfToken(token: Address): ((Address, Address), nat) -> int {
    (k: (Address, Address), v: nat) => if k.0 == token then v else 0
  }

  ghost function Supply(l: Ledger, token: Address): int {
    SumOf(l, OfToken(token))
  }

  lemma TransferKeepsSupply(l: Ledger, token: Address, from: Address, to: Address, amount: int, any: Address)
    requires Transfer(l, token, from, to, amount).Some?
    ensures Supply(Transfer(l, token, from, to, amount).value, any) == Supply(l, any)
  {
    var debited: Ledger := l[(token, from) := Bal(l, token, from) - amount];
    SumUpdate<(Address, Address), nat>(l, (token, from), Bal(l, token, from) - amount, OfToken(any));
    SumUpdate<(Address, Address), nat>(debited, (token, to), Bal(debited, token, to) + amount, OfToken(any));
  }

  /** Nothing but this amount of this token has moved, from one holder to another. */
  ghost predicate Moved(l: Ledger, l': Ledger, token: Address, from: Address, to: Address, amount: int) {
    forall t: Address, x: Address ::
      Bal(l', t, x) == Bal(l, t, x)
        + if t != token then 0 else (if x == to then amount else 0) - (if x == from then amount else 0)
  }

  // -------------------------------------------------------------------------
  // One payer, many payees
  // -------------------------------------------------------------------------

  type Payments = seq<(Address, int)>

  function Total(ps: Payments): int {
    if ps == [] then 0 else Total(ps[..|ps| - 1]) + ps[|ps| - 1].1
  }

  /** Every payment in order; None as soon as one of them fails. */
  function PayAll(l: Ledger, token: Address, from: Address, ps: Payments): Option<Ledger> {
    if ps == [] then Some(l)
    else
      var before :- PayAll(l, token, from, ps[..|ps| - 1]);
      var (to, amount) := ps[|ps| - 1];
      Transfer(before, token, from, to, amount)
  }

  /** What one address receives from a list of payments. */
  function Received(ps: Payments, who: Address): int {
    if ps == [] then 0
    else
      var (to, amount) := ps[|ps| - 1];
      Received(ps[..|ps| - 1], who) + if to == who then amount else 0
  }

  /** The exact effect of a list of payments on every balance and on every supply. */
  lemma {:induction false} PayAllEffect(l: Ledger, token: Address, from: Address, ps: Payments)
    requires PayAll(l, token, from, ps).Some?
    ensures var l' := PayAll(l, token, from, ps).value;
            forall t: Address, x: Address ::
              Bal(l', t, x) == Bal(l, t, x)
                + (if t == token then Received(ps, x) - (if x == from then Total(ps) else 0) else 0)
    ensures forall t: Address :: Supply(PayAll(l, token, from, ps).value, t) == Supply(l, t)
    ensures forall i :: 0 <= i < |ps| ==> ps[i].1 >= 0
  {
    if ps != [] {
      var front := ps[..|ps| - 1];
      PayAllEffect(l, token, from, front);
      var before := PayAll(l, token, from, front).value;
      forall t: Address {
        TransferKeepsSupply(before, token, from, ps[|ps| - 1].0, ps[|ps| - 1].1, t);
      }
      assert forall i :: 0 <= i < |front| ==> ps[i] == front[i];
    }
  }

  lemma {:induction false} ReceivedNonNegative(ps: Payments, who: Address)
    requires forall i :: 0 <= i < |ps| ==> ps[i].1 >= 0
    ensures 0 <= Received(ps, who) <= Total(ps)
  {
    if ps != [] {
      ReceivedNonNegative(ps[..|ps| - 1], who);
    }
  }

  /** Whoever holds the total can make all the payments. */
  lemma {:induction false} PayAllSucceeds(l: Ledger, token: Address, from: Address, ps: Payments)
    requires forall i :: 0 <= i < |ps| ==> ps[i].1 >= 0
    requires Bal(l, token, from) >= Total(ps)
    ensures PayAll(l, token, from, ps).Some?
  {
    if ps != [] {
      var front := ps[..|ps| - 1];
      PayAllSucceeds(l, token, from, front);
      PayAllEffect(l, token, from, front);
      ReceivedNonNegative(front, from);
    }
  }

  lemma {:induction false} TotalConcat(a: Payments, b: Payments)
    ensures Total(a + b) == Total(a) + Total(b)
  {
    if b == [] {
      assert a + b == a;
    } else {
      assert (a + b)[..|a + b| - 1] == a + b[..|b| - 1];
      TotalConcat(a, b[..|b| - 1]);
    }
  }

  lemma {:induction false} ReceivedConcat(a: Payments, b: Payments, who: Address)
    ensures Received(a + b, who) == Received(a, who) + Received(b, who)
  {
    if b == [] {
      assert a + b == a;
    } else {
      assert (a + b)[..|a + b| - 1] == a + b[..|b| - 1];
      ReceivedConcat(a, b[..|b| - 1], who);
    }
  }

  lemma PayAllSnoc(l: Ledger, token: Address, from: Address, ps: Payments, to: Address, amount: int)
    ensures PayAll(l, token, from, ps + [(to, amount)])
         == (if PayAll(l, token, from, ps).None? then None
             else Transfer(PayAll(l, token, from, ps).value, token, from, to, amount))
  {
    assert (ps + [(to, amount)])[..|ps|] == ps;
  }

  lemma {:induction false} PayAllConcat(l: Ledger, token: Address, from: Address, a: Payments, b: Payments)
    ensures PayAll(l, token, from, a + b)
         == (if PayAll(l, token, from, a).None? then None else PayAll(PayAll(l, token, from, a).value, token, from, b))
  {
    if b == [] {
      assert a + b == a;
    } else {
      assert (a + b)[..|a + b| - 1] == a + b[..|b| - 1];
      PayAllConcat(l, token, from, a, b[..|b| - 1]);
    }
  }
}

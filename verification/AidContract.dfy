/** The aid contract's storage, entry points and listings. */
module AidContract {
  import opened Host
  import opened Token
  import opened Paging
  import Spec = Aid

  class Aid {
    const self: Address
    const admin: Address
    const token: Address
    var paused: bool
    var counter: nat
    var records: map<nat, Spec.Record>
    var ledger: Ledger

    function View(): Spec.State
      reads this
    {
      Spec.State(self, admin, token, paused, counter, records, ledger)
    }

    constructor (address: Address, owner: Address, asset: Address, balances: Ledger)
      ensures View() == Spec.Initialize(address, owner, asset, balances)
    {
      self, admin, token := address, owner, asset;
      paused, counter, records, ledger := false, 0, map[], balances;
    }

    method TransferToken(asset: Address, from: Address, to: Address, amount: int) returns (r: Result<(), Spec.AidError>)
      modifies this`ledger
      ensures match Spec.Move(old(ledger), asset, from, to, amount)
              case Ok(l) => r == Ok(()) && ledger == l
              case Err(e) => r == Err(e) && ledger == old(ledger)
    {
      var next :- Transfer(ledger, asset, from, to, amount).OkOr(Spec.HostPanic);
      ledger := next;
      return Ok(());
    }

    method CreateAid(now: U32, donor: Address, recipient: Address, amount: I128, expiry: U32)
      returns (r: Result<nat, Spec.AidError>)
      modifies this
      ensures RefinesWith(Spec.CreateAid(old(View()), now, donor, recipient, amount, expiry), old(View()), r, View())
    {
      var _ :- Need(donor != self, Spec.HostPanic);
      var _ :- Need(amount > 0, Spec.InvalidAmount);
      if expiry <= now {
        return Err(Spec.NotExpiredYet);
      }
      var id := counter;
      if id in records {
        return Err(Spec.InvalidArgument);
      }
      var saved := records;
      counter := Spec.WrappingNext(id);
      records := records[id := Spec.Record(id, donor, recipient, token, amount, expiry, Spec.Pending)];
      var moved := TransferToken(token, donor, self, amount);
      if moved.Err? {
        counter, records := id, saved;
        return Err(moved.error);
      }
      return Ok(id);
    }

    method ClaimAid(now: U32, id: nat, recipient: Address) returns (r: Result<(), Spec.AidError>)
      modifies this
      ensures Refines(Spec.ClaimAid(old(View()), now, id, recipient), old(View()), r, View())
    {
      var _ :- Need(!paused, Spec.Paused);
      var _ :- Need(recipient != self, Spec.HostPanic);
      var record :- Get(records, id).OkOr(Spec.NotFound);
      if record.status == Spec.Settled || record.status == Spec.Refunded {
        return Err(Spec.AlreadyClaimed);
      }
      if now > record.expiry {
        return Err(Spec.Expired);
      }
      if recipient != record.recipient {
        return Err(Spec.Unauthorized);
      }
      var saved := records;
      record := record.(status := Spec.Settled);
      records := records[id := record];
      r := TransferToken(record.token, self, record.recipient, record.amount);
      if r.Err? {
        records := saved;
      }
    }

    method RefundAid(now: U32, id: nat) returns (r: Result<(), Spec.AidError>)
      modifies this
      ensures Refines(Spec.RefundAid(old(View()), now, id), old(View()), r, View())
    {
      var record :- Get(records, id).OkOr(Spec.NotFound);
      match record.status {
        case Settled => return Err(Spec.AlreadyClaimed);
        case Refunded => return Err(Spec.AlreadyRefunded);
        case Pending =>
      }
      if now <= record.expiry {
        return Err(Spec.NotExpiredYet);
      }
      var saved := records;
      record := record.(status := Spec.Refunded);
      records := records[id := record];
      r := TransferToken(record.token, self, record.donor, record.amount);
      if r.Err? {
        records := saved;
      }
    }

    method SetPaused(caller: Address, flag: bool) returns (r: Result<(), Spec.AidError>)
      modifies this
      ensures Refines(Spec.SetPaused(old(View()), caller, flag), old(View()), r, View())
    {
      var _ :- Need(caller == admin, Spec.Unauthorized);
      paused := flag;
      return Ok(());
    }

    // -----------------------------------------------------------------------
    // Listings
    // -----------------------------------------------------------------------

    method ListAids(limit: U32, cursor: Option<nat>) returns (page: Page<Spec.Record>)
      ensures page == Spec.List(View(), None, limit, cursor)
    {
      if limit == 0 {
        return Page([], cursor);
      }
      var aids: seq<Spec.Record> := [];
      var start := if cursor.Some? then cursor.value else 0;
      var id := start;
      ghost var items := Spec.Shelf(View(), None);
      while |aids| < limit && id < counter
        invariant start <= id && (start <= counter ==> id <= counter) && (start > counter ==> id == start)
        invariant |aids| <= limit
        invariant start <= counter ==> aids == Kept(items, start, id)
        invariant start > counter ==> aids == []
        invariant PageEnd(items, limit, start) == PageEnd(items, limit - |aids|, id)
      {
        if id in records {
          aids := aids + [records[id]];
        }
        id := id + 1;
      }
      return Page(aids, if id < counter then Some(id) else None);
    }

    method ListAidsByDonor(donor: Address, limit: U32, cursor: Option<nat>) returns (page: Page<Spec.Record>)
      ensures page == Spec.List(View(), Some(donor), limit, cursor)
    {
      if limit == 0 {
        return Page([], cursor);
      }
      var aids: seq<Spec.Record> := [];
      var start := if cursor.Some? then cursor.value else 0;
      var id := start;
      ghost var items := Spec.Shelf(View(), Some(donor));
      while |aids| < limit && id < counter
        invariant start <= id && (start <= counter ==> id <= counter) && (start > counter ==> id == start)
        invariant |aids| <= limit
        invariant start <= counter ==> aids == Kept(items, start, id)
        invariant start > counter ==> aids == []
        invariant PageEnd(items, limit, start) == PageEnd(items, limit - |aids|, id)
      {
        if id in records && records[id].donor == donor {
          aids := aids + [records[id]];
        }
        id := id + 1;
      }
      return Page(aids, if id < counter then Some(id) else None);
    }

    method Paginate(ids: seq<nat>, cursor: U32, limit: U32) returns (page: Page<Spec.Record>)
      ensures page == Spec.Paginate(View(), ids, cursor, limit)
    {
      var effective := if limit > Spec.MAX_QUERY_LIMIT then Spec.MAX_QUERY_LIMIT else limit;
      var found: seq<Spec.Record> := [];
      var index: nat := cursor;
      ghost var items := Spec.Index(View(), ids);
      while index < |ids| && |found| < effective
        invariant cursor <= index && (cursor <= |ids| ==> index <= |ids|) && (cursor > |ids| ==> index == cursor)
        invariant |found| <= effective
        invariant cursor <= |ids| ==> found == Kept(items, cursor, index)
        invariant cursor > |ids| ==> found == []
        invariant PageEnd(items, effective, cursor) == PageEnd(items, effective - |found|, index)
      {
        if ids[index] in records {
          found := found + [records[ids[index]]];
        }
        index := index + 1;
      }
      return Page(found, if index < |ids| then Some(index) else None);
    }
  }
}

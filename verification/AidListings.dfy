/** What a reader of the listings gets: a page at a time, and in all. */
module AidListings {
  import opened Host
  import opened Paging
  import opened Aid

  ghost predicate AllPositive(limits: seq<U32>) {
    forall i :: 0 <= i < |limits| ==> limits[i] > 0
  }

  /** The record is wanted: any record, or those of one donor. */
  predicate Wanted(r: Record, donor: Option<Address>) {
    donor.None? || donor == Some(r.donor)
  }

  /** The entries are the wanted records with ids from one bound up to another: only those, by rising id, and all. */
  ghost predicate ExactlyBetween(s: State, donor: Option<Address>, lo: nat, hi: nat, entries: seq<Record>) {
    && (forall i :: 0 <= i < |entries| ==>
          && lo <= entries[i].id < hi && Wanted(entries[i], donor)
          && entries[i].id in s.records && s.records[entries[i].id] == entries[i])
    && (forall i, j :: 0 <= i < j < |entries| ==> entries[i].id < entries[j].id)
    && (forall id: nat :: lo <= id < hi && id in s.records && Wanted(s.records[id], donor) ==>
          s.records[id] in entries)
  }

  lemma BetweenJoins(s: State, donor: Option<Address>, lo: nat, mid: nat, hi: nat, a: seq<Record>, b: seq<Record>)
    requires lo <= mid <= hi
    requires ExactlyBetween(s, donor, lo, mid, a) && ExactlyBetween(s, donor, mid, hi, b)
    ensures ExactlyBetween(s, donor, lo, hi, a + b)
  {
    forall id: nat | lo <= id < hi && id in s.records && Wanted(s.records[id], donor)
      ensures s.records[id] in a + b
    {
      if id < mid {
        assert s.records[id] in a;
      } else {
        assert s.records[id] in b;
      }
    }
  }

  ghost predicate IdsMatch(s: State) {
    forall id: nat :: id in s.records ==> s.records[id].id == id
  }

  /** The wanted records with ids from one bound up to another. */
  ghost function WantedBetween(s: State, donor: Option<Address>, lo: nat, hi: nat): seq<Record> {
    if hi <= lo then [] else WantedBetween(s, donor, lo, hi - 1) + WantedAt(s, donor, hi - 1)
  }

  ghost function WantedAt(s: State, donor: Option<Address>, id: nat): seq<Record> {
    if id in s.records && Wanted(s.records[id], donor) then [s.records[id]] else []
  }

  lemma OneBetween(s: State, donor: Option<Address>, id: nat)
    requires IdsMatch(s)
    ensures ExactlyBetween(s, donor, id, id + 1, WantedAt(s, donor, id))
  {
  }

  lemma {:induction false} WantedIsExact(s: State, donor: Option<Address>, lo: nat, hi: nat)
    requires IdsMatch(s) && lo <= hi
    ensures ExactlyBetween(s, donor, lo, hi, WantedBetween(s, donor, lo, hi))
    decreases hi - lo
  {
    if lo < hi {
      WantedIsExact(s, donor, lo, hi - 1);
      OneBetween(s, donor, hi - 1);
      BetweenJoins(s, donor, lo, hi - 1, hi, WantedBetween(s, donor, lo, hi - 1), WantedAt(s, donor, hi - 1));
    }
  }

  lemma {:induction false} KeptIsWanted(s: State, donor: Option<Address>, lo: nat, hi: nat)
    requires lo <= hi <= s.counter
    ensures Kept(Shelf(s, donor), lo, hi) == WantedBetween(s, donor, lo, hi)
    decreases hi - lo
  {
    if lo < hi {
      KeptIsWanted(s, donor, lo, hi - 1);
      assert Shelf(s, donor)[hi - 1] == Listed(s.records, donor, hi - 1);
    }
  }

  // -------------------------------------------------------------------------
  // One page
  // -------------------------------------------------------------------------

  /** Where a page begins, and where it ends as far as its reader is told. */
  function From(cursor: Option<nat>): nat { if cursor.Some? then cursor.value else 0 }

  function Until(s: State, page: Page<Record>): nat { if page.next.Some? then page.next.value else s.counter }

  /** A page holds exactly the wanted records between its cursor and the one it hands back, no more than its limit, and
      fewer only if it is the last; a cursor handed back lies further on. */
  lemma PageIsExact(s: State, donor: Option<Address>, limit: U32, cursor: Option<nat>)
    requires Inv(s) && limit > 0
    ensures var page := List(s, donor, limit, cursor);
            && ExactlyBetween(s, donor, From(cursor), Until(s, page), page.entries)
            && |page.entries| <= limit && (|page.entries| < limit ==> page.next.None?)
            && (page.next.Some? ==> From(cursor) < page.next.value < s.counter)
  {
    var items, at := Shelf(s, donor), From(cursor);
    if at <= s.counter {
      PageIsFull(items, limit, at);
      KeptIsWanted(s, donor, at, PageEnd(items, limit, at));
      WantedIsExact(s, donor, at, PageEnd(items, limit, at));
    }
  }

  /** A limit of zero reads nothing and moves nowhere. */
  lemma ZeroReadsNothing(s: State, donor: Option<Address>, cursor: Option<nat>)
    ensures List(s, donor, 0, cursor) == Page([], cursor)
  {
  }

  // -------------------------------------------------------------------------
  // All pages
  // -------------------------------------------------------------------------

  /** What a reader has after calling the listing with these limits, each time with the cursor it was handed. */
  ghost function ReadList(s: State, donor: Option<Address>, limits: seq<U32>, cursor: Option<nat>): Page<Record>
    decreases |limits|
  {
    if limits == [] then Page([], cursor)
    else
      var page := List(s, donor, limits[0], cursor);
      if page.next.None? then page
      else
        var rest := ReadList(s, donor, limits[1..], page.next);
        Page(page.entries + rest.entries, rest.next)
  }

  /** Reading on from a cursor ends once there are limits enough, and has then read exactly the wanted records from that
      cursor on. */
  lemma {:induction false} ReadListFrom(s: State, donor: Option<Address>, limits: seq<U32>, cursor: Option<nat>)
    requires Inv(s) && AllPositive(limits) && |limits| > 0 && |limits| >= s.counter - From(cursor)
    ensures var got := ReadList(s, donor, limits, cursor);
            got.next.None? && ExactlyBetween(s, donor, From(cursor), s.counter, got.entries)
    decreases |limits|
  {
    PageIsExact(s, donor, limits[0], cursor);
    var page := List(s, donor, limits[0], cursor);
    if page.next.Some? {
      ReadListFrom(s, donor, limits[1..], page.next);
      BetweenJoins(s, donor, From(cursor), page.next.value, s.counter, page.entries,
                   ReadList(s, donor, limits[1..], page.next).entries);
    }
  }

  /** The entries are the wanted records: only those, by rising id, and all of them. */
  ghost predicate Exactly(s: State, donor: Option<Address>, entries: seq<Record>) {
    && (forall i :: 0 <= i < |entries| ==>
          Wanted(entries[i], donor) && entries[i].id in s.records && s.records[entries[i].id] == entries[i])
    && (forall i, j :: 0 <= i < j < |entries| ==> entries[i].id < entries[j].id)
    && (forall id: nat :: id in s.records && Wanted(s.records[id], donor) ==> s.records[id] in entries)
  }

  lemma {:induction false} IdsRise(entries: seq<Record>, lo: nat, i: nat)
    requires i < |entries| && lo <= entries[0].id
    requires forall i, j :: 0 <= i < j < |entries| ==> entries[i].id < entries[j].id
    ensures entries[i].id >= lo + i
  {
    if i > 0 {
      IdsRise(entries, lo, i - 1);
      assert entries[i - 1].id < entries[i].id;
    }
  }

  /** What lies below the counter is everything before it wraps, and nothing after. */
  lemma BelowTheCounter(s: State, donor: Option<Address>, entries: seq<Record>)
    requires Inv(s) && ExactlyBetween(s, donor, 0, s.counter, entries)
    ensures NotWrapped(s) ==> Exactly(s, donor, entries)
    ensures |entries| <= s.counter
  {
    if entries != [] {
      IdsRise(entries, 0, |entries| - 1);
    }
  }

  lemma EmptyIsExactIff(s: State, donor: Option<Address>)
    ensures Exactly(s, donor, []) <==> forall id: nat :: id in s.records ==> !Wanted(s.records[id], donor)
  {
  }

  /** A reader of either listing, with any positive limits, ends and has then read exactly the wanted records, each once
      and in the order of ids, unless the counter has wrapped and there are such records; then it has read none. */
  lemma ListingIsCompleteIff(s: State, donor: Option<Address>, limits: seq<U32>)
    requires Inv(s) && AllPositive(limits) && |limits| > 0 && |limits| >= s.counter
    ensures ReadList(s, donor, limits, None).next.None?
    ensures Exactly(s, donor, ReadList(s, donor, limits, None).entries) <==>
              NotWrapped(s) || forall id: nat :: id in s.records ==> !Wanted(s.records[id], donor)
    ensures !NotWrapped(s) ==> ReadList(s, donor, limits, None).entries == []
  {
    ReadListFrom(s, donor, limits, None);
    BelowTheCounter(s, donor, ReadList(s, donor, limits, None).entries);
    EmptyIsExactIff(s, donor);
  }

  // -------------------------------------------------------------------------
  // Pages over an index
  // -------------------------------------------------------------------------

  /** The records of the ids that are stored, in the order of the index. */
  function StoredOf(s: State, ids: seq<nat>): seq<Record> {
    if ids == [] then []
    else (if ids[0] in s.records then [s.records[ids[0]]] else []) + StoredOf(s, ids[1..])
  }

  lemma {:induction false} KeptOfIndex(s: State, ids: seq<nat>, lo: nat, hi: nat)
    requires lo <= hi <= |ids|
    ensures Kept(Index(s, ids), lo, hi) == StoredOf(s, ids[lo..hi])
    decreases hi - lo
  {
    if lo < hi {
      KeptSplit(Index(s, ids), lo, lo + 1, hi);
      KeptOfIndex(s, ids, lo + 1, hi);
      assert ids[lo..hi][1..] == ids[lo + 1..hi];
      assert Kept(Index(s, ids), lo, lo) == [];
      assert Kept(Index(s, ids), lo, lo + 1) == if ids[lo] in s.records then [s.records[ids[lo]]] else [];
    }
  }

  /** What a reader of an index has after calling for pages of these limits. */
  ghost function ReadIndex(s: State, ids: seq<nat>, limits: seq<U32>, cursor: U32): Page<Record>
    requires |ids| <= U32_MAX
    decreases |limits|
  {
    if limits == [] then Page([], Some(cursor))
    else
      var page := Paginate(s, ids, cursor, limits[0]);
      if page.next.None? then page
      else
        var rest := ReadIndex(s, ids, limits[1..], page.next.value);
        Page(page.entries + rest.entries, rest.next)
  }

  /** One page over an index: the records from its cursor to the one it hands back, at most the limit and at most fifty,
      and fewer only on the last page. */
  lemma IndexPageIsExact(s: State, ids: seq<nat>, cursor: U32, limit: U32)
    requires limit > 0
    ensures var page := Paginate(s, ids, cursor, limit);
            && |page.entries| <= limit && |page.entries| <= 50
            && (|page.entries| < limit && |page.entries| < 50 ==> page.next.None?)
            && (page.next.Some? ==>
                  cursor < page.next.value < |ids| && page.entries == StoredOf(s, ids[cursor..page.next.value]))
            && (page.next.None? ==> page.entries == if cursor <= |ids| then StoredOf(s, ids[cursor..]) else [])
  {
    var items, capped := Index(s, ids), Min(limit, MAX_QUERY_LIMIT);
    if cursor <= |ids| {
      var end := PageEnd(items, capped, cursor);
      PageIsFull(items, capped, cursor);
      KeptOfIndex(s, ids, cursor, end);
      assert ids[cursor..|ids|] == ids[cursor..];
    }
  }

  lemma {:induction false} StoredOfConcat(s: State, a: seq<nat>, b: seq<nat>)
    ensures StoredOf(s, a + b) == StoredOf(s, a) + StoredOf(s, b)
  {
    if a == [] {
      assert a + b == b;
    } else {
      StoredOfConcat(s, a[1..], b);
      assert (a + b)[1..] == a[1..] + b && (a + b)[0] == a[0];
      var first := if a[0] in s.records then [s.records[a[0]]] else [];
      assert StoredOf(s, a) + StoredOf(s, b) == first + (StoredOf(s, a[1..]) + StoredOf(s, b));
    }
  }

  /** Over any index, stored or not, the reader ends and has read the record of every stored id, in order. */
  lemma {:induction false} IndexListingIsComplete(s: State, ids: seq<nat>, limits: seq<U32>, cursor: U32)
    requires |ids| <= U32_MAX && cursor <= |ids|
    requires AllPositive(limits) && |limits| > 0 && |limits| >= |ids| - cursor
    ensures ReadIndex(s, ids, limits, cursor) == Page(StoredOf(s, ids[cursor..]), None)
    decreases |limits|
  {
    IndexPageIsExact(s, ids, cursor, limits[0]);
    var page := Paginate(s, ids, cursor, limits[0]);
    if page.next.Some? {
      var end := page.next.value;
      IndexListingIsComplete(s, ids, limits[1..], end);
      StoredOfConcat(s, ids[cursor..end], ids[end..]);
      assert ids[cursor..end] + ids[end..] == ids[cursor..];
    }
  }
}

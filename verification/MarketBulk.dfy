/** The bulk calls: what becomes of every item, and what the bulk auctions do not ask for. */
module MarketBulk {
  import opened Host
  import opened Market

  // -------------------------------------------------------------------------
  // Listings
  // -------------------------------------------------------------------------

  /** The valid items, in order. */
  function ValidItems(s: State, items: seq<ListingItem>): seq<ListingItem> {
    if items == [] then [] else (if ListingItemValid(s, items[0]) then [items[0]] else []) + ValidItems(s, items[1..])
  }

  /** Validity depends on the whitelist and on which collections exist. */
  lemma {:induction false} ValidItemsSame(s: State, t: State, items: seq<ListingItem>)
    requires s.currencies == t.currencies && s.collections.Keys == t.collections.Keys
    ensures ValidItems(s, items) == ValidItems(t, items)
  {
    if items != [] {
      ValidItemsSame(s, t, items[1..]);
    }
  }

  /** The listing an item becomes. */
  function ListingOf(id: nat, seller: Address, item: ListingItem): Listing {
    Listing(id, seller, item.collection, item.tokenId, item.amount, item.price, item.currency, ListingStatus.Active)
  }

  predicate ListedAs(s: State, id: nat, seller: Address, item: ListingItem) {
    id in s.listings && s.listings[id] == ListingOf(id, seller, item)
  }

  /** Every item is listed as it stands, under the next ids in a row, nothing else is, and the earlier listings stay. */
  ghost predicate Lists(s: State, s': State, seller: Address, valid: seq<ListingItem>) {
    && s'.listingSeq == s.listingSeq + |valid|
    && (forall k: nat :: k < |valid| ==> ListedAs(s', s.listingSeq + 1 + k, seller, valid[k]))
    && (forall id: nat :: id <= s.listingSeq && id in s.listings ==>
          id in s'.listings && s'.listings[id] == s.listings[id])
    && (forall id: nat :: id in s'.listings && id !in s.listings ==> s.listingSeq < id <= s'.listingSeq)
  }

  lemma OneListing(s: State, seller: Address, item: ListingItem)
    requires OpenListing(s, seller, item.collection, item.tokenId, item.amount, item.price, item.currency).Ok?
    ensures var (s', id) :=
              OpenListing(s, seller, item.collection, item.tokenId, item.amount, item.price, item.currency).value;
            && id == s.listingSeq + 1 && Lists(s, s', seller, [item])
            && s'.currencies == s.currencies && s'.collections.Keys == s.collections.Keys
  {
  }

  lemma ListsOneMore(s: State, t: State, u: State, seller: Address, item: ListingItem, valid: seq<ListingItem>)
    requires Lists(s, t, seller, [item]) && Lists(t, u, seller, valid)
    ensures Lists(s, u, seller, [item] + valid)
  {
    var all := [item] + valid;
    forall k: nat | k < |all| ensures ListedAs(u, s.listingSeq + 1 + k, seller, all[k]) {
      if k == 0 {
        assert [item][0] == item;
      } else {
        assert all[k] == valid[k - 1];
      }
    }
    forall id: nat | id in u.listings && id !in s.listings ensures s.listingSeq < id <= u.listingSeq {
      assert id in t.listings ==> s.listingSeq < id <= t.listingSeq;
    }
  }

  /** The counts, the ids and the new listings of a bulk call. */
  ghost predicate ListingsAccount(s: State, s': State, seller: Address, n: nat, valid: seq<ListingItem>,
                                  sofar: BulkResult, r: BulkResult) {
    && r.succeeded == sofar.succeeded + |valid| && r.failed == sofar.failed + n - |valid|
    && r.ids == sofar.ids + seq(|valid|, k => s.listingSeq + 1 + k)
    && Lists(s, s', seller, valid)
  }

  lemma ListingsAccountOneMore(s: State, t: State, u: State, seller: Address, n: nat, item: ListingItem,
                               valid: seq<ListingItem>, sofar: BulkResult, r: BulkResult)
    requires Lists(s, t, seller, [item])
    requires ListingsAccount(t, u, seller, n, valid,
                             sofar.(succeeded := sofar.succeeded + 1, ids := sofar.ids + [s.listingSeq + 1]), r)
    ensures ListingsAccount(s, u, seller, n + 1, [item] + valid, sofar, r)
  {
    ListsOneMore(s, t, u, seller, item, valid);
    NextIds(s.listingSeq + 1, |valid|);
    assert sofar.ids + [s.listingSeq + 1] + seq(|valid|, k => t.listingSeq + 1 + k)
        == sofar.ids + ([s.listingSeq + 1] + seq(|valid|, k => t.listingSeq + 1 + k));
  }

  /** One item listed on its own. */
  function ListItem(s: State, seller: Address, item: ListingItem): Result<(State, nat), MarketError> {
    OpenListing(s, seller, item.collection, item.tokenId, item.amount, item.price, item.currency)
  }

  lemma BulkListNext(s: State, seller: Address, items: seq<ListingItem>, sofar: BulkResult)
    requires items != [] && ListingItemValid(s, items[0])
    ensures BulkListFrom(s, seller, items, sofar)
         == match ListItem(s, seller, items[0])
            case Ok(r) =>
              BulkListFrom(r.0, seller, items[1..],
                           sofar.(succeeded := sofar.succeeded + 1, ids := sofar.ids + [r.1]))
            case Err(e) => Err(e)
  {
  }

  /** Every item is counted once, as a success exactly if it is valid in the state before the call, and the successes
      become active listings of the seller, as they stand, under the next ids in a row. */
  lemma {:induction false} BulkListAccounts(s: State, seller: Address, items: seq<ListingItem>, sofar: BulkResult)
    requires BulkListFrom(s, seller, items, sofar).Ok?
    ensures var (s', r) := BulkListFrom(s, seller, items, sofar).value;
            ListingsAccount(s, s', seller, |items|, ValidItems(s, items), sofar, r)
    decreases |items|
  {
    if items == [] {
    } else if !ListingItemValid(s, items[0]) {
      BulkListAccounts(s, seller, items[1..], sofar.(failed := sofar.failed + 1));
      assert [] + ValidItems(s, items[1..]) == ValidItems(s, items[1..]);
    } else {
      BulkListNext(s, seller, items, sofar);
      OneListing(s, seller, items[0]);
      var (t, id) := ListItem(s, seller, items[0]).value;
      BulkListAccounts(t, seller, items[1..],
                       sofar.(succeeded := sofar.succeeded + 1, ids := sofar.ids + [id]));
      ValidItemsSame(s, t, items[1..]);
      var (s', r) := BulkListFrom(s, seller, items, sofar).value;
      ListingsAccountOneMore(s, t, s', seller, |items| - 1, items[0], ValidItems(s, items[1..]), sofar, r);
    }
  }

  // -------------------------------------------------------------------------
  // Auctions
  // -------------------------------------------------------------------------

  function ValidAuctionItems(s: State, items: seq<AuctionItem>): seq<AuctionItem> {
    if items == [] then []
    else (if AuctionItemValid(s, items[0]) then [items[0]] else []) + ValidAuctionItems(s, items[1..])
  }

  /** What the items are judged by and what their records take from the contract. */
  ghost predicate SameTerms(s: State, t: State) {
    t.self == s.self && t.autoExtension == s.autoExtension && t.collections.Keys == s.collections.Keys
  }

  lemma {:induction false} ValidAuctionItemsSame(s: State, t: State, items: seq<AuctionItem>)
    requires SameTerms(s, t)
    ensures ValidAuctionItems(s, items) == ValidAuctionItems(t, items)
  {
    if items != [] {
      ValidAuctionItemsSame(s, t, items[1..]);
    }
  }

  /** The auction an item becomes: without a bid, starting now, ending after its duration as far as 64 bits go. */
  function AuctionOf(s: State, now: nat, id: nat, seller: Address, item: AuctionItem): Auction {
    Auction(id, item.kind, seller, item.collection, item.tokenId, item.amount, item.currency, item.startPrice,
            item.floorPrice, 0, s.self, AuctionStatus.Active, now, Min(now + item.duration, U64_MAX),
            if item.kind == English then s.autoExtension else 0)
  }

  predicate AuctionedAs(s': State, id: nat, a: Auction) {
    id in s'.auctions && s'.auctions[id] == a
  }

  /** Every item is opened as it stands, under the next ids in a row, nothing else is, and the earlier auctions stay. */
  ghost predicate Opens(s: State, s': State, now: nat, seller: Address, valid: seq<AuctionItem>) {
    && SameTerms(s, s') && s'.auctionSeq == s.auctionSeq + |valid|
    && (forall k: nat :: k < |valid| ==>
          AuctionedAs(s', s.auctionSeq + 1 + k, AuctionOf(s, now, s.auctionSeq + 1 + k, seller, valid[k])))
    && (forall id: nat :: id <= s.auctionSeq && id in s.auctions ==>
          id in s'.auctions && s'.auctions[id] == s.auctions[id])
    && (forall id: nat :: id in s'.auctions && id !in s.auctions ==> s.auctionSeq < id <= s'.auctionSeq)
  }

  /** One item on its own. */
  function OpenItem(s: State, now: U64, seller: Address, item: AuctionItem): Result<(State, nat), MarketError> {
    OpenAuction(s, now, item.kind, seller, item.collection, item.tokenId, item.amount, item.startPrice,
                item.floorPrice, item.currency, Min(now + item.duration, U64_MAX))
  }

  lemma OneAuction(s: State, now: U64, seller: Address, item: AuctionItem)
    requires OpenItem(s, now, seller, item).Ok?
    ensures var (s', id) := OpenItem(s, now, seller, item).value;
            id == s.auctionSeq + 1 && Opens(s, s', now, seller, [item])
  {
  }

  lemma OpensOneMore(s: State, t: State, u: State, now: nat, seller: Address, item: AuctionItem,
                     valid: seq<AuctionItem>)
    requires Opens(s, t, now, seller, [item]) && Opens(t, u, now, seller, valid)
    ensures Opens(s, u, now, seller, [item] + valid)
  {
    var all := [item] + valid;
    forall k: nat | k < |all|
      ensures AuctionedAs(u, s.auctionSeq + 1 + k, AuctionOf(s, now, s.auctionSeq + 1 + k, seller, all[k]))
    {
      if k == 0 {
        assert [item][0] == item;
      } else {
        assert all[k] == valid[k - 1];
      }
    }
    forall id: nat | id in u.auctions && id !in s.auctions ensures s.auctionSeq < id <= u.auctionSeq {
      assert id in t.auctions ==> s.auctionSeq < id <= t.auctionSeq;
    }
  }

  /** The counts, the ids and the new auctions of a bulk call. */
  ghost predicate Accounts(s: State, s': State, now: nat, seller: Address, n: nat, valid: seq<AuctionItem>,
                           sofar: BulkResult, r: BulkResult) {
    && r.succeeded == sofar.succeeded + |valid| && r.failed == sofar.failed + n - |valid|
    && r.ids == sofar.ids + seq(|valid|, k => s.auctionSeq + 1 + k)
    && Opens(s, s', now, seller, valid)
  }

  lemma AccountsOneMore(s: State, t: State, u: State, now: nat, seller: Address, n: nat, item: AuctionItem,
                        valid: seq<AuctionItem>, sofar: BulkResult, r: BulkResult)
    requires Opens(s, t, now, seller, [item])
    requires Accounts(t, u, now, seller, n, valid,
                      sofar.(succeeded := sofar.succeeded + 1, ids := sofar.ids + [s.auctionSeq + 1]), r)
    ensures Accounts(s, u, now, seller, n + 1, [item] + valid, sofar, r)
  {
    OpensOneMore(s, t, u, now, seller, item, valid);
    NextIds(s.auctionSeq + 1, |valid|);
    assert sofar.ids + [s.auctionSeq + 1] + seq(|valid|, k => t.auctionSeq + 1 + k)
        == sofar.ids + ([s.auctionSeq + 1] + seq(|valid|, k => t.auctionSeq + 1 + k));
  }

  lemma BulkAuctionsNext(s: State, now: U64, seller: Address, items: seq<AuctionItem>, sofar: BulkResult)
    requires items != [] && AuctionItemValid(s, items[0])
    ensures BulkAuctionsFrom(s, now, seller, items, sofar)
         == match OpenItem(s, now, seller, items[0])
            case Ok(r) =>
              BulkAuctionsFrom(r.0, now, seller, items[1..],
                               sofar.(succeeded := sofar.succeeded + 1, ids := sofar.ids + [r.1]))
            case Err(e) => Err(e)
  {
  }

  /** The same for auctions: every item is counted once, as a success exactly if it is valid in the state before the
      call, and the successes become auctions as they stand, under the next ids in a row. */
  lemma {:induction false} BulkAuctionsAccounts(s: State, now: U64, seller: Address, items: seq<AuctionItem>,
                                                sofar: BulkResult)
    requires BulkAuctionsFrom(s, now, seller, items, sofar).Ok?
    ensures var (s', r) := BulkAuctionsFrom(s, now, seller, items, sofar).value;
            Accounts(s, s', now, seller, |items|, ValidAuctionItems(s, items), sofar, r)
    decreases |items|
  {
    if items == [] {
    } else if !AuctionItemValid(s, items[0]) {
      BulkAuctionsAccounts(s, now, seller, items[1..], sofar.(failed := sofar.failed + 1));
      assert [] + ValidAuctionItems(s, items[1..]) == ValidAuctionItems(s, items[1..]);
    } else {
      BulkAuctionsNext(s, now, seller, items, sofar);
      OneAuction(s, now, seller, items[0]);
      var (t, id) := OpenItem(s, now, seller, items[0]).value;
      BulkAuctionsAccounts(t, now, seller, items[1..],
                           sofar.(succeeded := sofar.succeeded + 1, ids := sofar.ids + [id]));
      ValidAuctionItemsSame(s, t, items[1..]);
      var (s', r) := BulkAuctionsFrom(s, now, seller, items, sofar).value;
      AccountsOneMore(s, t, s', now, seller, |items| - 1, items[0], ValidAuctionItems(s, items[1..]), sofar, r);
    }
  }

  lemma NextIds(first: nat, n: nat)
    ensures [first] + seq(n, k => first + 1 + k) == seq(n + 1, k => first + k)
  {
  }

  // -------------------------------------------------------------------------
  // One auction by either call
  // -------------------------------------------------------------------------

  /** The single call that opens the auction of an item. */
  function CreateOne(s: State, now: U64, seller: Address, item: AuctionItem, hash: Bytes)
    : Result<(State, nat), MarketError>
  {
    match item.kind
    case English =>
      CreateEnglish(s, now, seller, item.collection, item.tokenId, item.amount, item.startPrice, item.currency,
                    item.duration, hash)
    case Dutch =>
      CreateDutch(s, now, seller, item.collection, item.tokenId, item.amount, item.startPrice, item.floorPrice,
                  item.currency, item.duration, hash)
  }

  lemma BulkOfOne(s: State, now: U64, seller: Address, item: AuctionItem)
    requires !s.paused && Signs(s, seller)
    ensures BulkCreateAuctions(s, now, seller, [item])
         == if !AuctionItemValid(s, item) then Ok((s, BulkResult(0, 1, [])))
            else match OpenItem(s, now, seller, item)
                 case Ok(r) => Ok((r.0, BulkResult(1, 0, [r.1])))
                 case Err(e) => Err(e)
  {
    var items, start := [item], BulkResult(0, 0, []);
    assert items[0] == item && items[1..] == [] && |items| == 1;
    assert BulkCreateAuctions(s, now, seller, items) == BulkAuctionsFrom(s, now, seller, items, start);
    if !AuctionItemValid(s, item) {
      assert BulkAuctionsFrom(s, now, seller, items, start)
          == BulkAuctionsFrom(s, now, seller, items[1..], BulkResult(0, 1, []));
    } else if OpenItem(s, now, seller, item).Ok? {
      var r := OpenItem(s, now, seller, item).value;
      assert start.ids + [r.1] == [r.1];
      assert BulkAuctionsFrom(s, now, seller, items, start)
          == BulkAuctionsFrom(r.0, now, seller, items[1..], BulkResult(1, 0, [r.1]));
    }
  }

  /** What the single calls demand beyond the bulk call: a whitelisted currency, a metadata hash of full length, an end
      that fits and, of a Dutch auction, a positive floor. */
  predicate SingleCallAsks(s: State, now: U64, item: AuctionItem, hash: Bytes) {
    && Whitelisted(s, item.currency) && |hash| == METADATA_HASH_LEN && now + item.duration <= U64_MAX
    && (item.kind == Dutch ==> item.floorPrice > 0)
  }

  predicate BulkAccepts(s: State, now: U64, seller: Address, item: AuctionItem) {
    var r := BulkCreateAuctions(s, now, seller, [item]);
    r.Ok? && r.value.1.succeeded == 1
  }

  /** The bulk call opens whatever a single call opens, and the same auction; the single call accepts an item exactly
      when the bulk call does and those further demands are met. */
  lemma SingleCallIff(s: State, now: U64, seller: Address, item: AuctionItem, hash: Bytes)
    ensures CreateOne(s, now, seller, item, hash).Ok? <==>
              BulkAccepts(s, now, seller, item) && SingleCallAsks(s, now, item, hash)
    ensures CreateOne(s, now, seller, item, hash).Ok? && (item.kind == English ==> item.floorPrice == 0) ==>
              var r := CreateOne(s, now, seller, item, hash).value;
              BulkCreateAuctions(s, now, seller, [item]) == Ok((r.0, BulkResult(1, 0, [r.1])))
  {
    if !s.paused && Signs(s, seller) {
      BulkOfOne(s, now, seller, item);
    }
  }
}

/** When a bulk call goes through: all its valid parcels together must be there, and ids and counters must last. */
module MarketBulkSuccess {
  import opened Host
  import opened Token
  import opened Market
  import opened MarketBulk

  /** A parcel to be put up: so much of a collection's token. */
  datatype Lot = Lot(collection: Address, amount: nat)

  /** How much of one collection's token the lots come to, and how many lots there are of it. */
  function AmountOf(lots: seq<Lot>, c: Address): nat {
    if lots == [] then 0 else (if lots[0].collection == c then lots[0].amount else 0) + AmountOf(lots[1..], c)
  }

  function CountOf(lots: seq<Lot>, c: Address): nat {
    if lots == [] then 0 else (if lots[0].collection == c then 1 else 0) + CountOf(lots[1..], c)
  }

  /** The seller holds all the lots at once. */
  ghost predicate Covered(l: Ledger, seller: Address, lots: seq<Lot>) {
    forall c: Address :: AmountOf(lots, c) <= Bal(l, c, seller)
  }

  lemma CoveredNext(l: Ledger, l': Ledger, seller: Address, to: Address, lots: seq<Lot>)
    requires lots != [] && seller != to
    requires Transfer(l, lots[0].collection, seller, to, lots[0].amount) == Some(l')
    ensures Covered(l, seller, lots) <==> Covered(l', seller, lots[1..])
  {
    if Covered(l, seller, lots) {
      forall c: Address ensures AmountOf(lots[1..], c) <= Bal(l', c, seller) {
        assert AmountOf(lots, c) <= Bal(l, c, seller);
      }
    }
    if Covered(l', seller, lots[1..]) {
      forall c: Address ensures AmountOf(lots, c) <= Bal(l, c, seller) {
        assert AmountOf(lots[1..], c) <= Bal(l', c, seller);
      }
    }
  }

  // -------------------------------------------------------------------------
  // Listings
  // -------------------------------------------------------------------------

  /** The lots of the valid items: a positive price in a whitelisted currency, a full hash, a registered collection. */
  function ListingLots(s: State, items: seq<ListingItem>): seq<Lot> {
    if items == [] then []
    else
      var item, rest := items[0], ListingLots(s, items[1..]);
      if && item.price > 0 && item.currency in s.currencies && s.currencies[item.currency]
         && |item.hash| == 32 && item.collection in s.collections
      then [Lot(item.collection, item.amount)] + rest else rest
  }

  lemma {:induction false} ListingLotsSame(s: State, t: State, items: seq<ListingItem>)
    requires t.currencies == s.currencies && t.collections.Keys == s.collections.Keys
    ensures ListingLots(t, items) == ListingLots(s, items)
  {
    if items != [] {
      ListingLotsSame(s, t, items[1..]);
    }
  }

  ghost predicate ListingCountersLast(s: State, lots: seq<Lot>) {
    forall c: Address :: c in s.collections && CountOf(lots, c) > 0 ==>
      s.collections[c].activeListings + CountOf(lots, c) <= U32_MAX
  }

  /** Nothing stands in the way of listing all these lots. */
  ghost predicate CanList(s: State, seller: Address, lots: seq<Lot>) {
    && (lots == [] || s.listingSeq + |lots| <= U64_MAX) && Covered(s.ledger, seller, lots)
    && ListingCountersLast(s, lots)
  }

  lemma ListItemSucceedsIff(s: State, seller: Address, item: ListingItem)
    requires item.collection in s.collections && seller != s.self
    ensures ListItem(s, seller, item).Ok? <==>
              && s.listingSeq < U64_MAX && Bal(s.ledger, item.collection, seller) >= item.amount
              && s.collections[item.collection].activeListings < U32_MAX
    ensures ListItem(s, seller, item).Ok? ==>
              var t, c := ListItem(s, seller, item).value.0, item.collection;
              && t.listingSeq == s.listingSeq + 1 && t.self == s.self
              && Transfer(s.ledger, c, seller, s.self, item.amount) == Some(t.ledger)
              && t.currencies == s.currencies && t.collections.Keys == s.collections.Keys
              && forall d: Address :: d in s.collections ==>
                   t.collections[d].activeListings == s.collections[d].activeListings + if d == c then 1 else 0
  {
  }

  lemma CountersNext(s: State, t: State, lots: seq<Lot>)
    requires lots != [] && t.collections.Keys == s.collections.Keys
    requires lots[0].collection in s.collections && s.collections[lots[0].collection].activeListings < U32_MAX
    requires forall d: Address :: d in s.collections ==>
               t.collections[d].activeListings
                 == s.collections[d].activeListings + if d == lots[0].collection then 1 else 0
    ensures ListingCountersLast(s, lots) <==> ListingCountersLast(t, lots[1..])
  {
    forall c: Address | c in s.collections
      ensures s.collections[c].activeListings + CountOf(lots, c)
           == t.collections[c].activeListings + CountOf(lots[1..], c)
    {
    }
  }

  /** A first lot that cannot be put up stands in the way of them all. */
  lemma FirstLotCounts(s: State, seller: Address, lots: seq<Lot>)
    requires lots != [] && lots[0].collection in s.collections && CanList(s, seller, lots)
    ensures s.listingSeq < U64_MAX && Bal(s.ledger, lots[0].collection, seller) >= lots[0].amount
    ensures s.collections[lots[0].collection].activeListings < U32_MAX
  {
    assert AmountOf(lots, lots[0].collection) >= lots[0].amount;
    assert CountOf(lots, lots[0].collection) >= 1;
  }

  lemma {:induction false} BulkListFromSucceedsIff(s: State, seller: Address, items: seq<ListingItem>,
                                                   sofar: BulkResult)
    requires seller != s.self
    ensures BulkListFrom(s, seller, items, sofar).Ok? <==> CanList(s, seller, ListingLots(s, items))
    decreases |items|
  {
    if items == [] {
    } else if !ListingItemValid(s, items[0]) {
      BulkListFromSucceedsIff(s, seller, items[1..], sofar.(failed := sofar.failed + 1));
    } else {
      var lots := ListingLots(s, items);
      BulkListNext(s, seller, items, sofar);
      ListItemSucceedsIff(s, seller, items[0]);
      if ListItem(s, seller, items[0]).Ok? {
        var (t, id) := ListItem(s, seller, items[0]).value;
        BulkListFromSucceedsIff(t, seller, items[1..],
                                sofar.(succeeded := sofar.succeeded + 1, ids := sofar.ids + [id]));
        ListingLotsSame(s, t, items[1..]);
        CoveredNext(s.ledger, t.ledger, seller, s.self, lots);
        CountersNext(s, t, lots);
      } else if CanList(s, seller, lots) {
        FirstLotCounts(s, seller, lots);
      }
    }
  }

  /** A bulk listing goes through exactly for one to fifty items whose valid ones the seller can put up all together. */
  lemma BulkListSucceedsIff(s: State, seller: Address, items: seq<ListingItem>)
    ensures BulkList(s, seller, items).Ok? <==>
              !s.paused && seller != s.self && 1 <= |items| <= 50 && CanList(s, seller, ListingLots(s, items))
  {
    if seller != s.self {
      BulkListFromSucceedsIff(s, seller, items, BulkResult(0, 0, []));
    }
  }

  // -------------------------------------------------------------------------
  // Auctions
  // -------------------------------------------------------------------------

  /** The lots of the valid items: a duration of up to a week, a positive start, a Dutch floor below it, a registered
      collection. */
  function AuctionLots(s: State, items: seq<AuctionItem>): seq<Lot> {
    if items == [] then []
    else
      var item, rest := items[0], AuctionLots(s, items[1..]);
      if && 1 <= item.duration <= 604_800 && item.startPrice > 0
         && (item.kind == Dutch ==> item.floorPrice < item.startPrice) && item.collection in s.collections
      then [Lot(item.collection, item.amount)] + rest else rest
  }

  lemma {:induction false} AuctionLotsSame(s: State, t: State, items: seq<AuctionItem>)
    requires t.collections.Keys == s.collections.Keys
    ensures AuctionLots(t, items) == AuctionLots(s, items)
  {
    if items != [] {
      AuctionLotsSame(s, t, items[1..]);
    }
  }

  ghost predicate AuctionCountersLast(s: State, lots: seq<Lot>) {
    forall c: Address :: c in s.collections && CountOf(lots, c) > 0 ==>
      s.collections[c].activeAuctions + CountOf(lots, c) <= U32_MAX
  }

  /** Nothing stands in the way of opening auctions for all these lots. */
  ghost predicate CanAuction(s: State, seller: Address, lots: seq<Lot>) {
    && (lots == [] || s.auctionSeq + |lots| <= U64_MAX) && Covered(s.ledger, seller, lots)
    && AuctionCountersLast(s, lots)
  }

  lemma OpenItemSucceedsIff(s: State, now: U64, seller: Address, item: AuctionItem)
    requires item.collection in s.collections && seller != s.self
    ensures OpenItem(s, now, seller, item).Ok? <==>
              && s.auctionSeq < U64_MAX && Bal(s.ledger, item.collection, seller) >= item.amount
              && s.collections[item.collection].activeAuctions < U32_MAX
    ensures OpenItem(s, now, seller, item).Ok? ==>
              var t, c := OpenItem(s, now, seller, item).value.0, item.collection;
              && t.auctionSeq == s.auctionSeq + 1 && t.self == s.self
              && Transfer(s.ledger, c, seller, s.self, item.amount) == Some(t.ledger)
              && t.collections.Keys == s.collections.Keys
              && forall d: Address :: d in s.collections ==>
                   t.collections[d].activeAuctions == s.collections[d].activeAuctions + if d == c then 1 else 0
  {
  }

  lemma AuctionCountersNext(s: State, t: State, lots: seq<Lot>)
    requires lots != [] && t.collections.Keys == s.collections.Keys
    requires lots[0].collection in s.collections && s.collections[lots[0].collection].activeAuctions < U32_MAX
    requires forall d: Address :: d in s.collections ==>
               t.collections[d].activeAuctions
                 == s.collections[d].activeAuctions + if d == lots[0].collection then 1 else 0
    ensures AuctionCountersLast(s, lots) <==> AuctionCountersLast(t, lots[1..])
  {
    forall c: Address | c in s.collections
      ensures s.collections[c].activeAuctions + CountOf(lots, c)
           == t.collections[c].activeAuctions + CountOf(lots[1..], c)
    {
    }
  }

  lemma FirstAuctionLotCounts(s: State, seller: Address, lots: seq<Lot>)
    requires lots != [] && lots[0].collection in s.collections && CanAuction(s, seller, lots)
    ensures s.auctionSeq < U64_MAX && Bal(s.ledger, lots[0].collection, seller) >= lots[0].amount
    ensures s.collections[lots[0].collection].activeAuctions < U32_MAX
  {
    assert AmountOf(lots, lots[0].collection) >= lots[0].amount;
    assert CountOf(lots, lots[0].collection) >= 1;
  }

  lemma {:induction false} BulkAuctionsFromSucceedsIff(s: State, now: U64, seller: Address, items: seq<AuctionItem>,
                                                       sofar: BulkResult)
    requires seller != s.self
    ensures BulkAuctionsFrom(s, now, seller, items, sofar).Ok? <==> CanAuction(s, seller, AuctionLots(s, items))
    decreases |items|
  {
    if items == [] {
    } else if !AuctionItemValid(s, items[0]) {
      BulkAuctionsFromSucceedsIff(s, now, seller, items[1..], sofar.(failed := sofar.failed + 1));
    } else {
      var lots := AuctionLots(s, items);
      BulkAuctionsNext(s, now, seller, items, sofar);
      OpenItemSucceedsIff(s, now, seller, items[0]);
      if OpenItem(s, now, seller, items[0]).Ok? {
        var (t, id) := OpenItem(s, now, seller, items[0]).value;
        BulkAuctionsFromSucceedsIff(t, now, seller, items[1..],
                                    sofar.(succeeded := sofar.succeeded + 1, ids := sofar.ids + [id]));
        AuctionLotsSame(s, t, items[1..]);
        CoveredNext(s.ledger, t.ledger, seller, s.self, lots);
        AuctionCountersNext(s, t, lots);
      } else if CanAuction(s, seller, lots) {
        FirstAuctionLotCounts(s, seller, lots);
      }
    }
  }

  /** The same for a bulk call for auctions. */
  lemma BulkAuctionsSucceedsIff(s: State, now: U64, seller: Address, items: seq<AuctionItem>)
    ensures BulkCreateAuctions(s, now, seller, items).Ok? <==>
              !s.paused && seller != s.self && 1 <= |items| <= 50 && CanAuction(s, seller, AuctionLots(s, items))
  {
    if seller != s.self {
      BulkAuctionsFromSucceedsIff(s, now, seller, items, BulkResult(0, 0, []));
    }
  }
}

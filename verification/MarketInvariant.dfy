/** What every marketplace call keeps about its records and their cached counters. */
module MarketInvariant {
  import opened Host
  import opened Sums
  import opened Market
  import opened MarketPricing

  predicate Live(a: Auction) { a.status == AuctionStatus.Active || a.status == Ended }

  ghost function ListingUnit(c: Address): (nat, Listing) -> int {
    (id: nat, l: Listing) => if l.status == ListingStatus.Active && l.collection == c then 1 else 0
  }

  ghost function AuctionUnit(c: Address): (nat, Auction) -> int {
    (id: nat, a: Auction) => if Live(a) && a.collection == c then 1 else 0
  }

  /** How many listings of a collection are active. */
  ghost function ActiveListings(s: State, c: Address): int { SumOf(s.listings, ListingUnit(c)) }

  /** How many auctions of a collection are active or ended but not settled. */
  ghost function LiveAuctions(s: State, c: Address): int { SumOf(s.auctions, AuctionUnit(c)) }

  ghost predicate ListingsOk(s: State) {
    forall id: nat :: id in s.listings ==>
      id <= s.listingSeq && s.listings[id].collection in s.collections && 0 < s.listings[id].price <= I128_MAX
  }

  ghost predicate AuctionOk(s: State, id: nat, a: Auction) {
    && id <= s.auctionSeq && a.collection in s.collections
    && 0 < a.startPrice <= I128_MAX && IsI128(a.floorPrice)
    && 0 <= a.currentBid <= I128_MAX && (a.currentBid > 0 ==> a.kind == English && a.currentBidder != s.self)
    && a.status != Ended
    && (a.kind == English ==> a.window >= 0)
  }

  ghost predicate AuctionsOk(s: State) {
    forall id: nat :: id in s.auctions ==> AuctionOk(s, id, s.auctions[id])
  }

  ghost predicate OffersOk(s: State) {
    forall id: nat :: id in s.offers ==>
      id <= s.offerSeq && 0 < s.offers[id].offerAmount <= I128_MAX && s.offers[id].status != Expired
  }

  ghost predicate CountersExact(s: State) {
    forall c: Address :: c in s.collections ==>
      s.collections[c].activeListings == ActiveListings(s, c) && s.collections[c].activeAuctions == LiveAuctions(s, c)
  }

  ghost predicate Inv(s: State) {
    && RatesInRange(s) && 0 <= s.bidIncrementBps <= MAX_BID_INCREMENT_BPS
    && ListingsOk(s) && AuctionsOk(s) && OffersOk(s) && CountersExact(s)
  }

  // -------------------------------------------------------------------------
  // Writing one record
  // -------------------------------------------------------------------------

  /** An active listing shows in its counter, so the guard on the decrement never applies. */
  lemma CounterPositive(s: State, id: nat)
    requires CountersExact(s) && ListingsOk(s) && AuctionsOk(s)
    ensures id in s.listings && s.listings[id].status == ListingStatus.Active ==>
              s.collections[s.listings[id].collection].activeListings > 0
    ensures id in s.auctions && Live(s.auctions[id]) ==>
              s.collections[s.auctions[id].collection].activeAuctions > 0
  {
    if id in s.listings {
      var c := s.listings[id].collection;
      SumBounds(s.listings, ListingUnit(c));
      assert ListingUnit(c)(id, s.listings[id]) <= ActiveListings(s, c);
    }
    if id in s.auctions {
      var c := s.auctions[id].collection;
      SumBounds(s.auctions, AuctionUnit(c));
      assert AuctionUnit(c)(id, s.auctions[id]) <= LiveAuctions(s, c);
    }
  }

  /** How a call writes one listing: the record, the counter of its collection, the ledger, nothing else. */
  ghost predicate WritesListing(s: State, id: nat, l: Listing, delta: int, s': State) {
    && l.collection in s.collections && 0 < l.price <= I128_MAX
    && (id in s.listings ==> s.listings[id].collection == l.collection)
    && delta == ListingUnit(l.collection)(id, l) - Term(s.listings, id, ListingUnit(l.collection))
    && (delta == 1 || delta == -1)
    && UpdateStats(s.collections, l.collection, delta, 0) == Ok(s'.collections)
    && s.listingSeq <= s'.listingSeq && id <= s'.listingSeq
    && s' == s.(listings := s.listings[id := l], listingSeq := s'.listingSeq, ledger := s'.ledger,
                collections := s'.collections)
  }

  ghost predicate WritesAuction(s: State, id: nat, a: Auction, delta: int, s': State) {
    && a.collection in s.collections
    && (id in s.auctions ==> s.auctions[id].collection == a.collection)
    && delta == AuctionUnit(a.collection)(id, a) - Term(s.auctions, id, AuctionUnit(a.collection))
    && -1 <= delta <= 1
    && (if delta == 0 then s'.collections == s.collections
        else UpdateStats(s.collections, a.collection, 0, delta) == Ok(s'.collections))
    && s.auctionSeq <= s'.auctionSeq
    && s' == s.(auctions := s.auctions[id := a], auctionSeq := s'.auctionSeq, ledger := s'.ledger,
                collections := s'.collections)
  }

  lemma ListingWriteKeepsCounters(s: State, id: nat, l: Listing, delta: int, s': State)
    requires CountersExact(s) && ListingsOk(s) && AuctionsOk(s) && WritesListing(s, id, l, delta, s')
    ensures CountersExact(s')
  {
    CounterPositive(s, id);
    forall c: Address | c in s'.collections
      ensures s'.collections[c].activeListings == ActiveListings(s', c)
      ensures s'.collections[c].activeAuctions == LiveAuctions(s', c)
    {
      SumUpdate(s.listings, id, l, ListingUnit(c));
      assert s.collections[c].activeListings == ActiveListings(s, c);
    }
  }

  lemma ListingWriteKeepsInv(s: State, id: nat, l: Listing, delta: int, s': State)
    requires Inv(s) && WritesListing(s, id, l, delta, s')
    ensures Inv(s')
  {
    ListingWriteKeepsCounters(s, id, l, delta, s');
    StatsKeepRates(s, s', l.collection, delta, 0);
  }

  lemma AuctionWriteKeepsCounters(s: State, id: nat, a: Auction, delta: int, s': State)
    requires CountersExact(s) && ListingsOk(s) && AuctionsOk(s) && WritesAuction(s, id, a, delta, s')
    ensures CountersExact(s')
  {
    CounterPositive(s, id);
    forall c: Address | c in s'.collections
      ensures s'.collections[c].activeListings == ActiveListings(s', c)
      ensures s'.collections[c].activeAuctions == LiveAuctions(s', c)
    {
      SumUpdate(s.auctions, id, a, AuctionUnit(c));
      assert s.collections[c].activeAuctions == LiveAuctions(s, c);
    }
  }

  lemma AuctionWriteKeepsInv(s: State, id: nat, a: Auction, delta: int, s': State)
    requires Inv(s) && WritesAuction(s, id, a, delta, s') && AuctionOk(s', id, a)
    ensures Inv(s')
  {
    AuctionWriteKeepsCounters(s, id, a, delta, s');
    if delta != 0 {
      StatsKeepRates(s, s', a.collection, 0, delta);
    }
  }

  lemma StatsKeepRates(s: State, s': State, c: Address, listings: int, auctions: int)
    requires RatesInRange(s) && s'.feeBps == s.feeBps
    requires UpdateStats(s.collections, c, listings, auctions) == Ok(s'.collections)
    ensures RatesInRange(s') && s'.collections.Keys == s.collections.Keys
  {
  }

  // -------------------------------------------------------------------------
  // Entry points
  // -------------------------------------------------------------------------

  /** A collection nobody has listed under has nothing to count. */
  lemma NothingUnregistered(s: State, c: Address)
    requires Inv(s) && c !in s.collections
    ensures ActiveListings(s, c) == 0 && LiveAuctions(s, c) == 0
  {
    SumZero(s.listings, ListingUnit(c));
    SumZero(s.auctions, AuctionUnit(c));
  }

  lemma RegisterKeepsInv(s: State, caller: Address, c: Address, hash: Bytes, rs: seq<Recipient>)
    requires Inv(s) && RegisterCollection(s, caller, c, hash, rs).Ok?
    ensures Inv(RegisterCollection(s, caller, c, hash, rs).value)
  {
    NothingUnregistered(s, c);
    var s' := RegisterCollection(s, caller, c, hash, rs).value;
    assert forall d: Address ::
        ActiveListings(s', d) == ActiveListings(s, d) && LiveAuctions(s', d) == LiveAuctions(s, d);
  }

  lemma OpenListingKeepsInv(s: State, seller: Address, c: Address, tokenId: U64, amount: U64, price: I128,
                            currency: Address)
    requires Inv(s) && c in s.collections && price > 0
    requires OpenListing(s, seller, c, tokenId, amount, price, currency).Ok?
    ensures Inv(OpenListing(s, seller, c, tokenId, amount, price, currency).value.0)
  {
    var s' := OpenListing(s, seller, c, tokenId, amount, price, currency).value.0;
    var id := s.listingSeq + 1;
    ListingWriteKeepsInv(s, id, s'.listings[id], 1, s');
  }

  lemma OpenAuctionKeepsInv(s: State, now: U64, kind: AuctionType, seller: Address, c: Address, tokenId: U64,
                            amount: U64, startPrice: I128, floorPrice: I128, currency: Address, endTime: nat)
    requires Inv(s) && c in s.collections && startPrice > 0
    requires OpenAuction(s, now, kind, seller, c, tokenId, amount, startPrice, floorPrice, currency, endTime).Ok?
    ensures Inv(OpenAuction(s, now, kind, seller, c, tokenId, amount, startPrice, floorPrice, currency, endTime)
                .value.0)
  {
    var s' := OpenAuction(s, now, kind, seller, c, tokenId, amount, startPrice, floorPrice, currency, endTime).value.0;
    var id := s.auctionSeq + 1;
    AuctionWriteKeepsInv(s, id, s'.auctions[id], 1, s');
  }

  lemma CreateEnglishOpens(s: State, now: U64, seller: Address, c: Address, tokenId: U64, amount: U64,
    startPrice: I128, currency: Address, duration: U64, hash: Bytes)
    requires CreateEnglish(s, now, seller, c, tokenId, amount, startPrice, currency, duration, hash).Ok?
    ensures c in s.collections && seller != s.self && startPrice > 0
    ensures CreateEnglish(s, now, seller, c, tokenId, amount, startPrice, currency, duration, hash)
         == OpenAuction(s, now, English, seller, c, tokenId, amount, startPrice, 0, currency, now + duration)
  {
  }

  lemma CreateEnglishKeepsInv(s: State, now: U64, seller: Address, c: Address, tokenId: U64, amount: U64,
    startPrice: I128, currency: Address, duration: U64, hash: Bytes)
    requires Inv(s) && CreateEnglish(s, now, seller, c, tokenId, amount, startPrice, currency, duration, hash).Ok?
    ensures Inv(CreateEnglish(s, now, seller, c, tokenId, amount, startPrice, currency, duration, hash).value.0)
  {
    CreateEnglishOpens(s, now, seller, c, tokenId, amount, startPrice, currency, duration, hash);
    OpenAuctionKeepsInv(s, now, English, seller, c, tokenId, amount, startPrice, 0, currency, now + duration);
  }

  lemma CreateDutchOpens(s: State, now: U64, seller: Address, c: Address, tokenId: U64, amount: U64,
    startPrice: I128, floorPrice: I128, currency: Address, duration: U64, hash: Bytes)
    requires CreateDutch(s, now, seller, c, tokenId, amount, startPrice, floorPrice, currency, duration, hash).Ok?
    ensures c in s.collections && seller != s.self && startPrice > 0
    ensures CreateDutch(s, now, seller, c, tokenId, amount, startPrice, floorPrice, currency, duration, hash)
         == OpenAuction(s, now, Dutch, seller, c, tokenId, amount, startPrice, floorPrice, currency, now + duration)
  {
  }

  lemma CreateDutchKeepsInv(s: State, now: U64, seller: Address, c: Address, tokenId: U64, amount: U64,
    startPrice: I128, floorPrice: I128, currency: Address, duration: U64, hash: Bytes)
    requires Inv(s)
    requires CreateDutch(s, now, seller, c, tokenId, amount, startPrice, floorPrice, currency, duration, hash).Ok?
    ensures Inv(CreateDutch(s, now, seller, c, tokenId, amount, startPrice, floorPrice, currency, duration, hash)
                .value.0)
  {
    CreateDutchOpens(s, now, seller, c, tokenId, amount, startPrice, floorPrice, currency, duration, hash);
    OpenAuctionKeepsInv(s, now, Dutch, seller, c, tokenId, amount, startPrice, floorPrice, currency, now + duration);
  }

  lemma BuyNftWrites(s: State, buyer: Address, id: nat)
    requires ListingsOk(s) && BuyNft(s, buyer, id).Ok?
    ensures WritesListing(s, id, s.listings[id].(status := ListingStatus.Sold), -1, BuyNft(s, buyer, id).value)
  {
  }

  lemma CancelListingWrites(s: State, caller: Address, id: nat)
    requires ListingsOk(s) && CancelListing(s, caller, id).Ok?
    ensures WritesListing(s, id, s.listings[id].(status := ListingStatus.Cancelled), -1,
                          CancelListing(s, caller, id).value)
  {
  }

  lemma SettleEnglishWrites(s: State, now: U64, id: nat)
    requires AuctionsOk(s) && SettleEnglish(s, now, id).Ok?
    ensures WritesAuction(s, id, s.auctions[id].(status := AuctionStatus.Settled), -1, SettleEnglish(s, now, id).value)
  {
  }

  lemma BuyDutchWrites(s: State, now: U64, buyer: Address, id: nat)
    requires AuctionsOk(s) && BuyDutch(s, now, buyer, id).Ok?
    ensures WritesAuction(s, id, s.auctions[id].(status := AuctionStatus.Settled), -1,
                          BuyDutch(s, now, buyer, id).value)
  {
  }

  lemma CancelDutchWrites(s: State, caller: Address, id: nat)
    requires AuctionsOk(s) && CancelDutch(s, caller, id).Ok?
    ensures WritesAuction(s, id, s.auctions[id].(status := AuctionStatus.Cancelled), -1,
                          CancelDutch(s, caller, id).value)
  {
  }

  lemma PlaceBidWrites(s: State, now: U64, bidder: Address, id: nat, bid: I128)
    requires AuctionsOk(s) && PlaceBid(s, now, bidder, id, bid).Ok?
    ensures id in s.auctions && s.auctions[id].kind == English
    ensures var a := s.auctions[id];
            WritesAuction(s, id, a.(currentBid := bid, currentBidder := bidder, endTime := ExtendedEnd(a, now).value),
                          0, PlaceBid(s, now, bidder, id, bid).value)
  {
  }

  lemma BuyNftKeepsInv(s: State, buyer: Address, id: nat)
    requires Inv(s) && BuyNft(s, buyer, id).Ok?
    ensures Inv(BuyNft(s, buyer, id).value)
  {
    BuyNftWrites(s, buyer, id);
    var s' := BuyNft(s, buyer, id).value;
    ListingWriteKeepsInv(s, id, s'.listings[id], -1, s');
  }

  lemma CancelListingKeepsInv(s: State, caller: Address, id: nat)
    requires Inv(s) && CancelListing(s, caller, id).Ok?
    ensures Inv(CancelListing(s, caller, id).value)
  {
    CancelListingWrites(s, caller, id);
    var s' := CancelListing(s, caller, id).value;
    ListingWriteKeepsInv(s, id, s'.listings[id], -1, s');
  }

  lemma PlaceBidKeepsInv(s: State, now: U64, bidder: Address, id: nat, bid: I128)
    requires Inv(s) && PlaceBid(s, now, bidder, id, bid).Ok?
    ensures Inv(PlaceBid(s, now, bidder, id, bid).value)
  {
    PlaceBidWrites(s, now, bidder, id, bid);
    var s' := PlaceBid(s, now, bidder, id, bid).value;
    AuctionWriteKeepsInv(s, id, s'.auctions[id], 0, s');
  }

  lemma SettleEnglishKeepsInv(s: State, now: U64, id: nat)
    requires Inv(s) && SettleEnglish(s, now, id).Ok?
    ensures Inv(SettleEnglish(s, now, id).value)
  {
    SettleEnglishWrites(s, now, id);
    var s' := SettleEnglish(s, now, id).value;
    AuctionWriteKeepsInv(s, id, s'.auctions[id], -1, s');
  }

  lemma BuyDutchKeepsInv(s: State, now: U64, buyer: Address, id: nat)
    requires Inv(s) && BuyDutch(s, now, buyer, id).Ok?
    ensures Inv(BuyDutch(s, now, buyer, id).value)
  {
    BuyDutchWrites(s, now, buyer, id);
    var s' := BuyDutch(s, now, buyer, id).value;
    AuctionWriteKeepsInv(s, id, s'.auctions[id], -1, s');
  }

  lemma CancelDutchKeepsInv(s: State, caller: Address, id: nat)
    requires Inv(s) && CancelDutch(s, caller, id).Ok?
    ensures Inv(CancelDutch(s, caller, id).value)
  {
    CancelDutchWrites(s, caller, id);
    var s' := CancelDutch(s, caller, id).value;
    AuctionWriteKeepsInv(s, id, s'.auctions[id], -1, s');
  }

  lemma {:induction false} BulkListKeepsInv(s: State, seller: Address, items: seq<ListingItem>, sofar: BulkResult)
    requires Inv(s) && BulkListFrom(s, seller, items, sofar).Ok?
    ensures Inv(BulkListFrom(s, seller, items, sofar).value.0)
    decreases |items|
  {
    if items != [] {
      var item := items[0];
      if !ListingItemValid(s, item) {
        BulkListKeepsInv(s, seller, items[1..], sofar.(failed := sofar.failed + 1));
      } else {
        OpenListingKeepsInv(s, seller, item.collection, item.tokenId, item.amount, item.price, item.currency);
        var r := OpenListing(s, seller, item.collection, item.tokenId, item.amount, item.price, item.currency).value;
        BulkListKeepsInv(r.0, seller, items[1..], sofar.(succeeded := sofar.succeeded + 1, ids := sofar.ids + [r.1]));
      }
    }
  }

  lemma {:induction false} BulkAuctionsKeepInv(s: State, now: U64, seller: Address, items: seq<AuctionItem>,
                                               sofar: BulkResult)
    requires Inv(s) && BulkAuctionsFrom(s, now, seller, items, sofar).Ok?
    ensures Inv(BulkAuctionsFrom(s, now, seller, items, sofar).value.0)
    decreases |items|
  {
    if items != [] {
      var item := items[0];
      if !AuctionItemValid(s, item) {
        BulkAuctionsKeepInv(s, now, seller, items[1..], sofar.(failed := sofar.failed + 1));
      } else {
        var end := Min(now + item.duration, U64_MAX);
        OpenAuctionKeepsInv(s, now, item.kind, seller, item.collection, item.tokenId, item.amount, item.startPrice,
                            item.floorPrice, item.currency, end);
        var r := OpenAuction(s, now, item.kind, seller, item.collection, item.tokenId, item.amount, item.startPrice,
                             item.floorPrice, item.currency, end).value;
        BulkAuctionsKeepInv(r.0, now, seller, items[1..],
                            sofar.(succeeded := sofar.succeeded + 1, ids := sofar.ids + [r.1]));
      }
    }
  }

  lemma SetRoyaltiesKeepsInv(s: State, caller: Address, c: Address, rs: seq<Recipient>)
    requires Inv(s) && SetRoyalties(s, caller, c, rs).Ok?
    ensures Inv(SetRoyalties(s, caller, c, rs).value)
  {
    var s' := SetRoyalties(s, caller, c, rs).value;
    assert forall d: Address ::
        ActiveListings(s', d) == ActiveListings(s, d) && LiveAuctions(s', d) == LiveAuctions(s, d);
  }

  lemma SameRecordsKeepInv(s: State, s': State)
    requires Inv(s) && OffersOk(s') && s'.self == s.self
    requires 0 <= s'.feeBps <= MAX_FEE_BPS && 0 <= s'.bidIncrementBps <= MAX_BID_INCREMENT_BPS
    requires s'.collections == s.collections
    requires s'.listings == s.listings && s'.listingSeq == s.listingSeq
    requires s'.auctions == s.auctions && s'.auctionSeq == s.auctionSeq
    ensures Inv(s')
  {
    assert forall d: Address ::
        ActiveListings(s', d) == ActiveListings(s, d) && LiveAuctions(s', d) == LiveAuctions(s, d);
  }

  predicate OnListings(call: Call) {
    call.CallListNft? || call.CallBuyNft? || call.CallCancelListing? || call.CallBulkList?
  }

  predicate CreatesAuctions(call: Call) {
    call.CallCreateEnglish? || call.CallCreateDutch? || call.CallBulkCreateAuctions?
  }

  predicate OnOpenAuction(call: Call) {
    call.CallPlaceBid? || call.CallSettleEnglish? || call.CallBuyDutch? || call.CallCancelDutch?
  }

  lemma ListingCallKeepsInv(s: State, now: U64, call: Call)
    requires Inv(s) && OnListings(call) && Apply(s, now, call).Ok?
    ensures Inv(Apply(s, now, call).value)
  {
    match call
    case CallListNft(caller, c, tokenId, amount, price, currency, hash) =>
      OpenListingKeepsInv(s, caller, c, tokenId, amount, price, currency);
    case CallBuyNft(buyer, id) => BuyNftKeepsInv(s, buyer, id);
    case CallCancelListing(caller, id) => CancelListingKeepsInv(s, caller, id);
    case CallBulkList(seller, items) => BulkListKeepsInv(s, seller, items, BulkResult(0, 0, []));
  }

  lemma NewAuctionCallKeepsInv(s: State, now: U64, call: Call)
    requires Inv(s) && CreatesAuctions(call) && Apply(s, now, call).Ok?
    ensures Inv(Apply(s, now, call).value)
  {
    match call
    case CallCreateEnglish(caller, c, tokenId, amount, price, currency, duration, hash) =>
      CreateEnglishKeepsInv(s, now, caller, c, tokenId, amount, price, currency, duration, hash);
    case CallCreateDutch(caller, c, tokenId, amount, price, floorPrice, currency, duration, hash) =>
      CreateDutchKeepsInv(s, now, caller, c, tokenId, amount, price, floorPrice, currency, duration, hash);
    case CallBulkCreateAuctions(seller, items) => BulkAuctionsKeepInv(s, now, seller, items, BulkResult(0, 0, []));
  }

  lemma OpenAuctionCallKeepsInv(s: State, now: U64, call: Call)
    requires Inv(s) && OnOpenAuction(call) && Apply(s, now, call).Ok?
    ensures Inv(Apply(s, now, call).value)
  {
    match call
    case CallPlaceBid(bidder, id, bid) => PlaceBidKeepsInv(s, now, bidder, id, bid);
    case CallSettleEnglish(id) => SettleEnglishKeepsInv(s, now, id);
    case CallBuyDutch(buyer, id) => BuyDutchKeepsInv(s, now, buyer, id);
    case CallCancelDutch(caller, id) => CancelDutchKeepsInv(s, caller, id);
  }

  predicate OnOffers(call: Call) {
    call.CallMakeOffer? || call.CallAcceptOffer? || call.CallCancelOffer?
  }

  lemma OfferCallKeepsInv(s: State, now: U64, call: Call)
    requires Inv(s) && OnOffers(call) && Apply(s, now, call).Ok?
    ensures Inv(Apply(s, now, call).value)
  {
    var s' := Apply(s, now, call).value;
    assert s' == s.(offers := s'.offers, offerSeq := s'.offerSeq, ledger := s'.ledger);
    SameRecordsKeepInv(s, s');
  }

  predicate OnCollections(call: Call) {
    call.CallRegisterCollection? || call.CallSetRoyalties?
  }

  /** Configuration, and token moves that do not involve the marketplace. */
  predicate OnConfig(call: Call) {
    !OnListings(call) && !CreatesAuctions(call) && !OnOpenAuction(call) && !OnOffers(call) && !OnCollections(call)
  }

  lemma ConfigCallKeepsInv(s: State, now: U64, call: Call)
    requires Inv(s) && OnConfig(call) && Apply(s, now, call).Ok?
    ensures Inv(Apply(s, now, call).value)
  {
    var s' := Apply(s, now, call).value;
    assert s'.offers == s.offers && s'.offerSeq == s.offerSeq;
    SameRecordsKeepInv(s, s');
  }

  lemma StepKeepsInv(s: State, tx: Tx)
    requires Inv(s)
    ensures Inv(Step(s, tx))
  {
    if Apply(s, tx.now, tx.call).Ok? {
      if OnListings(tx.call) {
        ListingCallKeepsInv(s, tx.now, tx.call);
      } else if CreatesAuctions(tx.call) {
        NewAuctionCallKeepsInv(s, tx.now, tx.call);
      } else if OnOpenAuction(tx.call) {
        OpenAuctionCallKeepsInv(s, tx.now, tx.call);
      } else if OnOffers(tx.call) {
        OfferCallKeepsInv(s, tx.now, tx.call);
      } else if OnConfig(tx.call) {
        ConfigCallKeepsInv(s, tx.now, tx.call);
      } else {
        match tx.call
        case CallRegisterCollection(caller, c, hash, rs) => RegisterKeepsInv(s, caller, c, hash, rs);
        case CallSetRoyalties(caller, c, rs) => SetRoyaltiesKeepsInv(s, caller, c, rs);
      }
    }
  }

  /** Over every run: rates stay in range, ids stay below their counters, no record is ever left Ended or
      Expired, and each collection's cached counters equal the number of its open records. */
  lemma {:induction false} ReachableInv(start: State, txs: seq<Tx>)
    requires Start(start)
    ensures Inv(Run(start, txs))
  {
    if txs == [] {
      assert start.listings == map[] && start.auctions == map[];
    } else {
      ReachableInv(start, txs[..|txs| - 1]);
      StepKeepsInv(Run(start, txs[..|txs| - 1]), txs[|txs| - 1]);
    }
  }
}

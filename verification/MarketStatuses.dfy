/** What the status of a record tells about the run that led to it. */
module MarketStatuses {
  import opened Host
  import opened Market
  import opened MarketInvariant
  import opened MarketAuctions
  import opened MarketOrigins

  // -------------------------------------------------------------------------
  // What closes a record
  // -------------------------------------------------------------------------

  /** How a call closes a listing, if it does. */
  predicate Sells(s: State, tx: Tx, id: nat) {
    tx.call.CallBuyNft? && tx.call.id == id && Apply(s, tx.now, tx.call).Ok?
  }

  predicate Withdraws(s: State, tx: Tx, id: nat) {
    tx.call.CallCancelListing? && tx.call.id == id && Apply(s, tx.now, tx.call).Ok?
  }

  /** The status of a listing; one that does not exist yet counts as active. */
  function ListingStatusOf(s: State, id: nat): ListingStatus {
    if id in s.listings then s.listings[id].status else ListingStatus.Active
  }

  /** The status a call leaves a listing in. */
  function ListingStatusBy(s: State, tx: Tx, id: nat): ListingStatus {
    if Sells(s, tx, id) then ListingStatus.Sold
    else if Withdraws(s, tx, id) then ListingStatus.Cancelled
    else ListingStatusOf(s, id)
  }

  ghost function ListingStatusAfter(start: State, txs: seq<Tx>, n: nat, id: nat): ListingStatus
    requires n <= |txs|
  {
    if n == 0 then ListingStatus.Active
    else if Sells(At(start, txs, n - 1), txs[n - 1], id) then ListingStatus.Sold
    else if Withdraws(At(start, txs, n - 1), txs[n - 1], id) then ListingStatus.Cancelled
    else ListingStatusAfter(start, txs, n - 1, id)
  }

  lemma BuyNftStatus(s: State, buyer: Address, k: nat, id: nat)
    requires ListingsOk(s) && BuyNft(s, buyer, k).Ok?
    ensures ListingStatusOf(BuyNft(s, buyer, k).value, id)
         == if k == id then ListingStatus.Sold else ListingStatusOf(s, id)
  {
    BuyNftWrites(s, buyer, k);
  }

  lemma CancelListingStatus(s: State, caller: Address, k: nat, id: nat)
    requires ListingsOk(s) && CancelListing(s, caller, k).Ok?
    ensures ListingStatusOf(CancelListing(s, caller, k).value, id)
         == if k == id then ListingStatus.Cancelled else ListingStatusOf(s, id)
  {
    CancelListingWrites(s, caller, k);
  }

  lemma ListNftStatus(s: State, seller: Address, c: Address, tokenId: U64, amount: U64, price: I128, currency: Address,
                      hash: Bytes, id: nat)
    requires ListingsOk(s) && ListNft(s, seller, c, tokenId, amount, price, currency, hash).Ok?
    ensures ListingStatusOf(ListNft(s, seller, c, tokenId, amount, price, currency, hash).value.0, id)
         == ListingStatusOf(s, id)
  {
  }

  lemma {:induction false} BulkListStatus(s: State, seller: Address, items: seq<ListingItem>, sofar: BulkResult,
                                          id: nat)
    requires forall k: nat :: k in s.listings ==> k <= s.listingSeq
    requires BulkListFrom(s, seller, items, sofar).Ok?
    ensures ListingStatusOf(BulkListFrom(s, seller, items, sofar).value.0, id) == ListingStatusOf(s, id)
    decreases |items|
  {
    if items != [] {
      var item := items[0];
      if !ListingItemValid(s, item) {
        BulkListStatus(s, seller, items[1..], sofar.(failed := sofar.failed + 1), id);
      } else {
        var r := OpenListing(s, seller, item.collection, item.tokenId, item.amount, item.price, item.currency).value;
        BulkListStatus(r.0, seller, items[1..], sofar.(succeeded := sofar.succeeded + 1, ids := sofar.ids + [r.1]), id);
      }
    }
  }

  lemma ListingCallStatus(s: State, tx: Tx, id: nat)
    requires ListingsOk(s) && OnListings(tx.call) && Apply(s, tx.now, tx.call).Ok?
    ensures ListingStatusOf(Apply(s, tx.now, tx.call).value, id) == ListingStatusBy(s, tx, id)
  {
    match tx.call
    case CallBuyNft(buyer, k) => BuyNftStatus(s, buyer, k, id);
    case CallCancelListing(caller, k) => CancelListingStatus(s, caller, k, id);
    case CallListNft(seller, c, tokenId, amount, price, currency, hash) =>
      ListNftStatus(s, seller, c, tokenId, amount, price, currency, hash, id);
    case CallBulkList(seller, items) => BulkListStatus(s, seller, items, BulkResult(0, 0, []), id);
  }

  lemma StepListingStatus(s: State, tx: Tx, id: nat)
    requires ListingsOk(s) && AuctionsOk(s)
    ensures ListingStatusOf(Step(s, tx), id) == ListingStatusBy(s, tx, id)
  {
    if Apply(s, tx.now, tx.call).Ok? {
      if OnListings(tx.call) {
        ListingCallStatus(s, tx, id);
      } else {
        OtherCallKeepsListings(s, tx);
      }
    }
  }

  /** Over every run a listing is marked sold exactly if it was bought, and cancelled exactly if its seller took it
      back. */
  lemma {:induction false} ListingStatusTells(start: State, txs: seq<Tx>, n: nat, id: nat)
    requires Start(start) && n <= |txs|
    ensures ListingStatusOf(At(start, txs, n), id) == ListingStatusAfter(start, txs, n, id)
  {
    NothingAtStart(start, txs);
    if n > 0 {
      OneStep(start, txs, n - 1);
      ListingStatusTells(start, txs, n - 1, id);
      StepListingStatus(At(start, txs, n - 1), txs[n - 1], id);
    }
  }

  // -------------------------------------------------------------------------
  // Auctions and offers
  // -------------------------------------------------------------------------

  predicate SettlesAuction(s: State, tx: Tx, id: nat) {
    (tx.call.CallSettleEnglish? || tx.call.CallBuyDutch?) && tx.call.id == id && Apply(s, tx.now, tx.call).Ok?
  }

  predicate WithdrawsAuction(s: State, tx: Tx, id: nat) {
    tx.call.CallCancelDutch? && tx.call.id == id && Apply(s, tx.now, tx.call).Ok?
  }

  function AuctionStatusOf(s: State, id: nat): AuctionStatus {
    if id in s.auctions then s.auctions[id].status else AuctionStatus.Active
  }

  /** The status a call leaves an auction in. */
  function AuctionStatusBy(s: State, tx: Tx, id: nat): AuctionStatus {
    if SettlesAuction(s, tx, id) then Settled
    else if WithdrawsAuction(s, tx, id) then AuctionStatus.Cancelled
    else AuctionStatusOf(s, id)
  }

  lemma WrittenStatus(s: State, k: nat, a: Auction, delta: int, s': State, id: nat)
    requires WritesAuction(s, k, a, delta, s')
    ensures AuctionStatusOf(s', id) == if k == id then a.status else AuctionStatusOf(s, id)
  {
  }

  lemma PlaceBidStatus(s: State, now: U64, bidder: Address, k: nat, bid: I128, id: nat)
    requires AuctionsOk(s) && PlaceBid(s, now, bidder, k, bid).Ok?
    ensures AuctionStatusOf(PlaceBid(s, now, bidder, k, bid).value, id) == AuctionStatusOf(s, id)
  {
    PlaceBidWrites(s, now, bidder, k, bid);
    var s' := PlaceBid(s, now, bidder, k, bid).value;
    WrittenStatus(s, k, s'.auctions[k], 0, s', id);
  }

  lemma SettleEnglishStatus(s: State, now: U64, k: nat, id: nat)
    requires AuctionsOk(s) && SettleEnglish(s, now, k).Ok?
    ensures AuctionStatusOf(SettleEnglish(s, now, k).value, id) == if k == id then Settled else AuctionStatusOf(s, id)
  {
    SettleEnglishWrites(s, now, k);
    WrittenStatus(s, k, s.auctions[k].(status := Settled), -1, SettleEnglish(s, now, k).value, id);
  }

  lemma BuyDutchStatus(s: State, now: U64, buyer: Address, k: nat, id: nat)
    requires AuctionsOk(s) && BuyDutch(s, now, buyer, k).Ok?
    ensures AuctionStatusOf(BuyDutch(s, now, buyer, k).value, id) == if k == id then Settled else AuctionStatusOf(s, id)
  {
    BuyDutchWrites(s, now, buyer, k);
    WrittenStatus(s, k, s.auctions[k].(status := Settled), -1, BuyDutch(s, now, buyer, k).value, id);
  }

  lemma CancelDutchStatus(s: State, caller: Address, k: nat, id: nat)
    requires AuctionsOk(s) && CancelDutch(s, caller, k).Ok?
    ensures AuctionStatusOf(CancelDutch(s, caller, k).value, id)
         == if k == id then AuctionStatus.Cancelled else AuctionStatusOf(s, id)
  {
    CancelDutchWrites(s, caller, k);
    WrittenStatus(s, k, s.auctions[k].(status := AuctionStatus.Cancelled), -1, CancelDutch(s, caller, k).value, id);
  }

  lemma OpenAuctionCallStatus(s: State, tx: Tx, id: nat)
    requires AuctionsOk(s) && OnOpenAuction(tx.call) && Apply(s, tx.now, tx.call).Ok?
    ensures AuctionStatusOf(Apply(s, tx.now, tx.call).value, id) == AuctionStatusBy(s, tx, id)
  {
    match tx.call
    case CallPlaceBid(bidder, k, bid) => PlaceBidStatus(s, tx.now, bidder, k, bid, id);
    case CallSettleEnglish(k) => SettleEnglishStatus(s, tx.now, k, id);
    case CallBuyDutch(buyer, k) => BuyDutchStatus(s, tx.now, buyer, k, id);
    case CallCancelDutch(caller, k) => CancelDutchStatus(s, caller, k, id);
  }

  lemma NewAuctionIsActive(s: State, tx: Tx, id: nat)
    requires AuctionsOk(s) && CreatesAuctions(tx.call) && Apply(s, tx.now, tx.call).Ok?
    ensures AuctionStatusOf(Apply(s, tx.now, tx.call).value, id) == AuctionStatusOf(s, id)
  {
    NewAuctionCallExtends(s, tx.now, tx.call);
    NewAuctionCallRecords(s, tx, id);
  }

  lemma StepAuctionStatus(s: State, tx: Tx, id: nat)
    requires AuctionsOk(s)
    ensures AuctionStatusOf(Step(s, tx), id) == AuctionStatusBy(s, tx, id)
  {
    if Apply(s, tx.now, tx.call).Ok? {
      if OnOpenAuction(tx.call) {
        OpenAuctionCallStatus(s, tx, id);
      } else if CreatesAuctions(tx.call) {
        NewAuctionIsActive(s, tx, id);
      } else if OnListings(tx.call) {
        ListingCallSpares(s, tx.now, tx.call);
      } else if OnOffers(tx.call) {
        OfferCallSpares(s, tx.now, tx.call);
      } else {
        OtherCallSpares(s, tx.now, tx.call);
      }
    }
  }

  ghost function AuctionStatusAfter(start: State, txs: seq<Tx>, n: nat, id: nat): AuctionStatus
    requires n <= |txs|
  {
    if n == 0 then AuctionStatus.Active
    else if SettlesAuction(At(start, txs, n - 1), txs[n - 1], id) then Settled
    else if WithdrawsAuction(At(start, txs, n - 1), txs[n - 1], id) then AuctionStatus.Cancelled
    else AuctionStatusAfter(start, txs, n - 1, id)
  }

  /** Over every run an auction is marked settled exactly if it was settled or bought, and cancelled exactly if its
      seller took it back. */
  lemma {:induction false} AuctionStatusTells(start: State, txs: seq<Tx>, n: nat, id: nat)
    requires Start(start) && n <= |txs|
    ensures AuctionStatusOf(At(start, txs, n), id) == AuctionStatusAfter(start, txs, n, id)
  {
    NothingAtStart(start, txs);
    if n > 0 {
      OneStep(start, txs, n - 1);
      AuctionStatusTells(start, txs, n - 1, id);
      StepAuctionStatus(At(start, txs, n - 1), txs[n - 1], id);
    }
  }

  predicate Accepts(s: State, tx: Tx, id: nat) {
    tx.call.CallAcceptOffer? && tx.call.id == id && Apply(s, tx.now, tx.call).Ok?
  }

  predicate TakesBack(s: State, tx: Tx, id: nat) {
    tx.call.CallCancelOffer? && tx.call.id == id && Apply(s, tx.now, tx.call).Ok?
  }

  function OfferStatusOf(s: State, id: nat): OfferStatus {
    if id in s.offers then s.offers[id].status else Pending
  }

  function OfferStatusBy(s: State, tx: Tx, id: nat): OfferStatus {
    if Accepts(s, tx, id) then Accepted
    else if TakesBack(s, tx, id) then OfferStatus.Cancelled
    else OfferStatusOf(s, id)
  }

  lemma MakeOfferStatus(s: State, now: U64, offerer: Address, recipient: Address, c: Address, tokenId: U64, amount: U64,
                        offerAmount: I128, currency: Address, duration: U64, id: nat)
    requires OffersOk(s)
    requires MakeOffer(s, now, offerer, recipient, c, tokenId, amount, offerAmount, currency, duration).Ok?
    ensures OfferStatusOf(MakeOffer(s, now, offerer, recipient, c, tokenId, amount, offerAmount, currency, duration)
                          .value.0, id)
         == OfferStatusOf(s, id)
  {
  }

  lemma AcceptOfferStatus(s: State, now: U64, caller: Address, k: nat, id: nat)
    requires AcceptOffer(s, now, caller, k).Ok?
    ensures OfferStatusOf(AcceptOffer(s, now, caller, k).value, id)
         == if k == id then Accepted else OfferStatusOf(s, id)
  {
  }

  lemma CancelOfferStatus(s: State, caller: Address, k: nat, id: nat)
    requires CancelOffer(s, caller, k).Ok?
    ensures OfferStatusOf(CancelOffer(s, caller, k).value, id)
         == if k == id then OfferStatus.Cancelled else OfferStatusOf(s, id)
  {
  }

  lemma OfferCallStatus(s: State, tx: Tx, id: nat)
    requires OffersOk(s) && OnOffers(tx.call) && Apply(s, tx.now, tx.call).Ok?
    ensures OfferStatusOf(Apply(s, tx.now, tx.call).value, id) == OfferStatusBy(s, tx, id)
  {
    match tx.call
    case CallMakeOffer(offerer, recipient, c, tokenId, amount, offerAmount, currency, duration) =>
      MakeOfferStatus(s, tx.now, offerer, recipient, c, tokenId, amount, offerAmount, currency, duration, id);
    case CallAcceptOffer(caller, k) => AcceptOfferStatus(s, tx.now, caller, k, id);
    case CallCancelOffer(caller, k) => CancelOfferStatus(s, caller, k, id);
  }

  lemma StepOfferStatus(s: State, tx: Tx, id: nat)
    requires OffersOk(s) && AuctionsOk(s)
    ensures OfferStatusOf(Step(s, tx), id) == OfferStatusBy(s, tx, id)
  {
    if Apply(s, tx.now, tx.call).Ok? {
      if OnOffers(tx.call) {
        OfferCallStatus(s, tx, id);
      } else if OnOpenAuction(tx.call) {
        OpenAuctionCallWrites(s, tx.now, tx.call);
      } else if CreatesAuctions(tx.call) {
        NewAuctionCallExtends(s, tx.now, tx.call);
      } else if OnListings(tx.call) {
        ListingCallSpares(s, tx.now, tx.call);
      } else {
        OtherCallSpares(s, tx.now, tx.call);
      }
    }
  }

  ghost function OfferStatusAfter(start: State, txs: seq<Tx>, n: nat, id: nat): OfferStatus
    requires n <= |txs|
  {
    if n == 0 then Pending
    else if Accepts(At(start, txs, n - 1), txs[n - 1], id) then Accepted
    else if TakesBack(At(start, txs, n - 1), txs[n - 1], id) then OfferStatus.Cancelled
    else OfferStatusAfter(start, txs, n - 1, id)
  }

  /** Over every run an offer is marked accepted exactly if its recipient accepted it, and cancelled exactly if its
      offerer took it back. */
  lemma {:induction false} OfferStatusTells(start: State, txs: seq<Tx>, n: nat, id: nat)
    requires Start(start) && n <= |txs|
    ensures OfferStatusOf(At(start, txs, n), id) == OfferStatusAfter(start, txs, n, id)
  {
    NothingAtStart(start, txs);
    if n > 0 {
      OneStep(start, txs, n - 1);
      OfferStatusTells(start, txs, n - 1, id);
      StepOfferStatus(At(start, txs, n - 1), txs[n - 1], id);
    }
  }
}

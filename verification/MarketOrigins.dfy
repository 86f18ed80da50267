/** Where the records of the marketplace come from: over every run, each is as the call that opened it asked for. */
module MarketOrigins {
  import opened Host
  import opened Market
  import opened MarketPricing
  import opened MarketInvariant
  import opened MarketAuctions
  import opened MarketBulk

  // -------------------------------------------------------------------------
  // Listings
  // -------------------------------------------------------------------------

  /** The same terms, whatever has become of them. */
  predicate SameListing(l: Listing, m: Listing) { l == m.(status := l.status) }

  /** The accepted call listed this under this id, on its own or as a valid item of a bulk call. */
  ghost predicate Lists(s: State, tx: Tx, id: nat, l: Listing) {
    && Apply(s, tx.now, tx.call).Ok?
    && match tx.call
       case CallListNft(seller, c, tokenId, amount, price, currency, _) =>
         && id == s.listingSeq + 1
         && SameListing(l, Listing(id, seller, c, tokenId, amount, price, currency, ListingStatus.Active))
       case CallBulkList(seller, items) =>
         var valid := ValidItems(s, items);
         && s.listingSeq < id <= s.listingSeq + |valid|
         && SameListing(l, ListingOf(id, seller, valid[id - s.listingSeq - 1]))
       case _ => false
  }

  lemma ListNftLists(s: State, seller: Address, c: Address, tokenId: U64, amount: U64, price: I128, currency: Address,
                     hash: Bytes, id: nat)
    requires ListNft(s, seller, c, tokenId, amount, price, currency, hash).Ok?
    ensures var s' := ListNft(s, seller, c, tokenId, amount, price, currency, hash).value.0;
            id in s'.listings ==>
              || (id in s.listings && s'.listings[id] == s.listings[id])
              || (id == s.listingSeq + 1
                  && s'.listings[id] == Listing(id, seller, c, tokenId, amount, price, currency, ListingStatus.Active))
  {
  }

  lemma BulkListLists(s: State, seller: Address, items: seq<ListingItem>, id: nat)
    requires ListingsOk(s) && BulkList(s, seller, items).Ok?
    ensures var s', valid := BulkList(s, seller, items).value.0, ValidItems(s, items);
            id in s'.listings ==>
              || (id in s.listings && s'.listings[id] == s.listings[id])
              || (s.listingSeq < id <= s.listingSeq + |valid|
                  && s'.listings[id] == ListingOf(id, seller, valid[id - s.listingSeq - 1]))
  {
    BulkListAccounts(s, seller, items, BulkResult(0, 0, []));
    var s', valid := BulkList(s, seller, items).value.0, ValidItems(s, items);
    if id in s'.listings && id !in s.listings {
      var k: nat := id - s.listingSeq - 1;
      assert ListedAs(s', s.listingSeq + 1 + k, seller, valid[k]);
    }
  }

  lemma ClosingKeepsListings(s: State, tx: Tx, id: nat)
    requires ListingsOk(s) && (tx.call.CallBuyNft? || tx.call.CallCancelListing?) && Apply(s, tx.now, tx.call).Ok?
    ensures var s' := Apply(s, tx.now, tx.call).value;
            id in s'.listings ==> id in s.listings && SameListing(s'.listings[id], s.listings[id])
  {
    if tx.call.CallBuyNft? {
      BuyNftWrites(s, tx.call.caller, tx.call.id);
    } else {
      CancelListingWrites(s, tx.call.caller, tx.call.id);
    }
  }

  lemma ListingCallLists(s: State, tx: Tx, id: nat)
    requires ListingsOk(s) && OnListings(tx.call) && Apply(s, tx.now, tx.call).Ok?
    ensures var s' := Apply(s, tx.now, tx.call).value;
            id in s'.listings ==>
              (id in s.listings && SameListing(s'.listings[id], s.listings[id])) || Lists(s, tx, id, s'.listings[id])
  {
    match tx.call
    case CallListNft(seller, c, tokenId, amount, price, currency, hash) =>
      ListNftLists(s, seller, c, tokenId, amount, price, currency, hash, id);
    case CallBulkList(seller, items) => BulkListLists(s, seller, items, id);
    case _ => ClosingKeepsListings(s, tx, id);
  }

  lemma OtherCallKeepsListings(s: State, tx: Tx)
    requires AuctionsOk(s) && !OnListings(tx.call) && Apply(s, tx.now, tx.call).Ok?
    ensures Apply(s, tx.now, tx.call).value.listings == s.listings
  {
    if OnOpenAuction(tx.call) {
      OpenAuctionCallWrites(s, tx.now, tx.call);
    } else if CreatesAuctions(tx.call) {
      NewAuctionCallExtends(s, tx.now, tx.call);
    } else if OnOffers(tx.call) {
      OfferCallKeepsListings(s, tx);
    } else {
      OtherCallSpares(s, tx.now, tx.call);
    }
  }

  lemma OfferCallKeepsListings(s: State, tx: Tx)
    requires OnOffers(tx.call) && Apply(s, tx.now, tx.call).Ok?
    ensures Apply(s, tx.now, tx.call).value.listings == s.listings
  {
  }

  lemma StepLists(s: State, tx: Tx, id: nat)
    requires ListingsOk(s) && AuctionsOk(s) && id in Step(s, tx).listings
    ensures || (id in s.listings && SameListing(Step(s, tx).listings[id], s.listings[id]))
            || Lists(s, tx, id, Step(s, tx).listings[id])
  {
    if Apply(s, tx.now, tx.call).Ok? {
      if OnListings(tx.call) {
        ListingCallLists(s, tx, id);
      } else {
        OtherCallKeepsListings(s, tx);
      }
    }
  }

  ghost predicate ListedAt(start: State, txs: seq<Tx>, i: nat, id: nat, l: Listing) {
    i < |txs| && Lists(At(start, txs, i), txs[i], id, l)
  }

  /** Over every run, seller, collection, token, amount, price and currency of a stored listing are those of the
      accepted call that listed it. */
  lemma {:induction false} ListingIsAsListed(start: State, txs: seq<Tx>, n: nat, id: nat)
    requires Start(start) && n <= |txs| && id in At(start, txs, n).listings
    ensures exists i: nat :: i < n && ListedAt(start, txs, i, id, At(start, txs, n).listings[id])
  {
    NothingAtStart(start, txs);
    if n > 0 {
      OneStep(start, txs, n - 1);
      StepLists(At(start, txs, n - 1), txs[n - 1], id);
      var l := At(start, txs, n).listings[id];
      if Lists(At(start, txs, n - 1), txs[n - 1], id, l) {
        assert ListedAt(start, txs, n - 1, id, l);
      } else {
        ListingIsAsListed(start, txs, n - 1, id);
        var m := At(start, txs, n - 1).listings[id];
        var i: nat :| i < n - 1 && ListedAt(start, txs, i, id, m);
        SameLists(At(start, txs, i), txs[i], id, m, l);
        assert ListedAt(start, txs, i, id, l);
      }
    }
  }

  lemma SameLists(s: State, tx: Tx, id: nat, m: Listing, l: Listing)
    requires Lists(s, tx, id, m) && SameListing(l, m)
    ensures Lists(s, tx, id, l)
  {
  }

  lemma NothingAtStart(start: State, txs: seq<Tx>)
    requires Start(start)
    ensures At(start, txs, 0).listings == map[] && At(start, txs, 0).auctions == map[]
    ensures At(start, txs, 0).offers == map[]
  {
    assert txs[..0] == [];
  }

  lemma OneStep(start: State, txs: seq<Tx>, i: nat)
    requires Start(start) && i < |txs|
    ensures At(start, txs, i + 1) == Step(At(start, txs, i), txs[i])
    ensures ListingsOk(At(start, txs, i)) && AuctionsOk(At(start, txs, i)) && OffersOk(At(start, txs, i))
    ensures At(start, txs, i).bidIncrementBps >= 0
  {
    assert txs[..i + 1][..i] == txs[..i];
    ReachableInv(start, txs[..i]);
  }

  // -------------------------------------------------------------------------
  // Auctions
  // -------------------------------------------------------------------------

  /** The record an auction opened by a single call begins with. */
  function NewRecord(s: State, now: nat, id: nat, kind: AuctionType, seller: Address, c: Address, tokenId: U64,
                     amount: nat, startPrice: int, floorPrice: int, currency: Address, endTime: nat): Auction
  {
    Auction(id, kind, seller, c, tokenId, amount, currency, startPrice, floorPrice, 0, s.self, AuctionStatus.Active,
            now, endTime, if kind == English then s.autoExtension else 0)
  }

  /** The accepted call opened this auction under this id, on its own or as a valid item of a bulk call. */
  ghost predicate OpensAuction(s: State, tx: Tx, id: nat, a: Auction) {
    && Apply(s, tx.now, tx.call).Ok?
    && match tx.call
       case CallCreateEnglish(seller, c, tokenId, amount, price, currency, duration, _) =>
         && id == s.auctionSeq + 1
         && a == NewRecord(s, tx.now, id, English, seller, c, tokenId, amount, price, 0, currency, tx.now + duration)
       case CallCreateDutch(seller, c, tokenId, amount, price, floorPrice, currency, duration, _) =>
         && id == s.auctionSeq + 1
         && a == NewRecord(s, tx.now, id, Dutch, seller, c, tokenId, amount, price, floorPrice, currency,
                           tx.now + duration)
       case CallBulkCreateAuctions(seller, items) =>
         var valid := ValidAuctionItems(s, items);
         && s.auctionSeq < id <= s.auctionSeq + |valid|
         && a == AuctionOf(s, tx.now, id, seller, valid[id - s.auctionSeq - 1])
       case _ => false
  }

  lemma OpenAuctionRecords(s: State, now: U64, kind: AuctionType, seller: Address, c: Address, tokenId: U64,
                           amount: U64, startPrice: I128, floorPrice: I128, currency: Address, endTime: nat, id: nat)
    requires OpenAuction(s, now, kind, seller, c, tokenId, amount, startPrice, floorPrice, currency, endTime).Ok?
    ensures var s' := OpenAuction(s, now, kind, seller, c, tokenId, amount, startPrice, floorPrice, currency,
                                  endTime).value.0;
            id in s'.auctions ==>
              || (id in s.auctions && s'.auctions[id] == s.auctions[id])
              || (id == s.auctionSeq + 1
                  && s'.auctions[id] == NewRecord(s, now, id, kind, seller, c, tokenId, amount, startPrice, floorPrice,
                                                  currency, endTime))
  {
  }

  lemma BulkAuctionsRecord(s: State, now: U64, seller: Address, items: seq<AuctionItem>, id: nat)
    requires AuctionsOk(s) && BulkCreateAuctions(s, now, seller, items).Ok?
    ensures var s', valid := BulkCreateAuctions(s, now, seller, items).value.0, ValidAuctionItems(s, items);
            id in s'.auctions ==>
              || (id in s.auctions && s'.auctions[id] == s.auctions[id])
              || (s.auctionSeq < id <= s.auctionSeq + |valid|
                  && s'.auctions[id] == AuctionOf(s, now, id, seller, valid[id - s.auctionSeq - 1]))
  {
    BulkAuctionsAccounts(s, now, seller, items, BulkResult(0, 0, []));
    var s', valid := BulkCreateAuctions(s, now, seller, items).value.0, ValidAuctionItems(s, items);
    if id in s'.auctions && id !in s.auctions {
      var k: nat := id - s.auctionSeq - 1;
      assert AuctionedAs(s', s.auctionSeq + 1 + k, AuctionOf(s, now, s.auctionSeq + 1 + k, seller, valid[k]));
    }
  }

  lemma SingleAuctionRecords(s: State, tx: Tx, id: nat)
    requires (tx.call.CallCreateEnglish? || tx.call.CallCreateDutch?) && Apply(s, tx.now, tx.call).Ok?
    ensures var s', c := Apply(s, tx.now, tx.call).value, tx.call;
            var kind := if c.CallCreateDutch? then Dutch else English;
            var floor := if c.CallCreateDutch? then c.floorPrice else 0;
            id in s'.auctions ==>
              || (id in s.auctions && s'.auctions[id] == s.auctions[id])
              || (id == s.auctionSeq + 1
                  && s'.auctions[id] == NewRecord(s, tx.now, id, kind, c.caller, c.collection, c.tokenId, c.amount,
                                                  c.price, floor, c.currency, tx.now + c.duration))
  {
    var c := tx.call;
    if c.CallCreateEnglish? {
      CreateEnglishOpens(s, tx.now, c.caller, c.collection, c.tokenId, c.amount, c.price, c.currency, c.duration,
                         c.hash);
      OpenAuctionRecords(s, tx.now, English, c.caller, c.collection, c.tokenId, c.amount, c.price, 0, c.currency,
                         tx.now + c.duration, id);
    } else {
      CreateDutchOpens(s, tx.now, c.caller, c.collection, c.tokenId, c.amount, c.price, c.floorPrice, c.currency,
                       c.duration, c.hash);
      OpenAuctionRecords(s, tx.now, Dutch, c.caller, c.collection, c.tokenId, c.amount, c.price, c.floorPrice,
                         c.currency, tx.now + c.duration, id);
    }
  }

  lemma NewAuctionCallRecords(s: State, tx: Tx, id: nat)
    requires AuctionsOk(s) && CreatesAuctions(tx.call) && Apply(s, tx.now, tx.call).Ok?
    ensures var s' := Apply(s, tx.now, tx.call).value;
            id in s'.auctions ==>
              (id in s.auctions && s'.auctions[id] == s.auctions[id]) || OpensAuction(s, tx, id, s'.auctions[id])
  {
    if tx.call.CallBulkCreateAuctions? {
      BulkAuctionsRecord(s, tx.now, tx.call.caller, tx.call.auctionItems, id);
    } else {
      SingleAuctionRecords(s, tx, id);
    }
  }

  lemma StepOpensAuction(s: State, tx: Tx, id: nat)
    requires AuctionsOk(s) && s.bidIncrementBps >= 0 && id in Step(s, tx).auctions
    ensures || (id in s.auctions && Evolves(s.auctions[id], Step(s, tx).auctions[id]))
            || OpensAuction(s, tx, id, Step(s, tx).auctions[id])
  {
    if id in s.auctions {
      StepEvolves(s, tx, id);
    } else if Apply(s, tx.now, tx.call).Ok? {
      if CreatesAuctions(tx.call) {
        NewAuctionCallRecords(s, tx, id);
      } else if OnOpenAuction(tx.call) {
        OpenAuctionCallWrites(s, tx.now, tx.call);
      } else if OnListings(tx.call) {
        ListingCallSpares(s, tx.now, tx.call);
      } else if OnOffers(tx.call) {
        OfferCallSpares(s, tx.now, tx.call);
      } else {
        OtherCallSpares(s, tx.now, tx.call);
      }
    }
  }

  /** Call i opened the auction, and the record at hand is what has become of the one it began with. */
  ghost predicate AuctionedAt(start: State, txs: seq<Tx>, i: nat, id: nat, a: Auction) {
    && i < |txs| && id in At(start, txs, i + 1).auctions
    && OpensAuction(At(start, txs, i), txs[i], id, At(start, txs, i + 1).auctions[id])
    && Evolves(At(start, txs, i + 1).auctions[id], a)
  }

  lemma EvolvesFurther(a: Auction, b: Auction, c: Auction)
    requires Evolves(a, b) && Evolves(b, c)
    ensures Evolves(a, c)
  {
  }

  /** Over every run, kind, seller, collection, token, amount, prices, currency, start and extension window of a stored
      auction are those of the accepted call that opened it, and its end is that call's or, after bids, a later one. */
  lemma {:induction false} AuctionIsAsOpened(start: State, txs: seq<Tx>, n: nat, id: nat)
    requires Start(start) && n <= |txs| && id in At(start, txs, n).auctions
    ensures exists i: nat :: i < n && AuctionedAt(start, txs, i, id, At(start, txs, n).auctions[id])
  {
    NothingAtStart(start, txs);
    if n > 0 {
      OneStep(start, txs, n - 1);
      StepOpensAuction(At(start, txs, n - 1), txs[n - 1], id);
      var a := At(start, txs, n).auctions[id];
      if OpensAuction(At(start, txs, n - 1), txs[n - 1], id, a) {
        assert AuctionedAt(start, txs, n - 1, id, a);
      } else {
        AuctionIsAsOpened(start, txs, n - 1, id);
        var b := At(start, txs, n - 1).auctions[id];
        var i: nat :| i < n - 1 && AuctionedAt(start, txs, i, id, b);
        EvolvesFurther(At(start, txs, i + 1).auctions[id], b, a);
        assert AuctionedAt(start, txs, i, id, a);
      }
    }
  }

  // -------------------------------------------------------------------------
  // Offers
  // -------------------------------------------------------------------------

  predicate SameOffer(o: Offer, p: Offer) { o == p.(status := o.status) }

  /** The accepted call made this offer under this id, to expire after its duration. */
  ghost predicate Offers(s: State, tx: Tx, id: nat, o: Offer) {
    && Apply(s, tx.now, tx.call).Ok? && tx.call.CallMakeOffer? && id == s.offerSeq + 1
    && var c := tx.call;
       SameOffer(o, Offer(id, c.caller, c.recipient, c.collection, c.tokenId, c.amount, c.offerAmount, c.currency,
                          Pending, tx.now + c.duration))
  }

  lemma OfferCallOffers(s: State, tx: Tx, id: nat)
    requires OnOffers(tx.call) && Apply(s, tx.now, tx.call).Ok? && id in Apply(s, tx.now, tx.call).value.offers
    ensures var s' := Apply(s, tx.now, tx.call).value;
            (id in s.offers && SameOffer(s'.offers[id], s.offers[id])) || Offers(s, tx, id, s'.offers[id])
  {
  }

  lemma StepOffers(s: State, tx: Tx, id: nat)
    requires AuctionsOk(s) && id in Step(s, tx).offers
    ensures || (id in s.offers && SameOffer(Step(s, tx).offers[id], s.offers[id]))
            || Offers(s, tx, id, Step(s, tx).offers[id])
  {
    if Apply(s, tx.now, tx.call).Ok? {
      if OnOffers(tx.call) {
        OfferCallOffers(s, tx, id);
      } else if OnOpenAuction(tx.call) {
        OpenAuctionCallWrites(s, tx.now, tx.call);
      } else if CreatesAuctions(tx.call) {
        NewAuctionCallExtends(s, tx.now, tx.call);
      } else if OnListings(tx.call) {
        ListingCallSpares(s, tx.now, tx.call);
      } else {
        OtherCallSpares(s, tx.now, tx.call);
      }
    }
  }

  ghost predicate OfferedAt(start: State, txs: seq<Tx>, i: nat, id: nat, o: Offer) {
    i < |txs| && Offers(At(start, txs, i), txs[i], id, o)
  }

  lemma SameOffers(s: State, tx: Tx, id: nat, p: Offer, o: Offer)
    requires Offers(s, tx, id, p) && SameOffer(o, p)
    ensures Offers(s, tx, id, o)
  {
  }

  /** Over every run, offerer, recipient, parcel, offered amount, currency and expiry of a stored offer are those of the
      accepted call that made it. */
  lemma {:induction false} OfferIsAsMade(start: State, txs: seq<Tx>, n: nat, id: nat)
    requires Start(start) && n <= |txs| && id in At(start, txs, n).offers
    ensures exists i: nat :: i < n && OfferedAt(start, txs, i, id, At(start, txs, n).offers[id])
  {
    NothingAtStart(start, txs);
    if n > 0 {
      OneStep(start, txs, n - 1);
      StepOffers(At(start, txs, n - 1), txs[n - 1], id);
      var o := At(start, txs, n).offers[id];
      if Offers(At(start, txs, n - 1), txs[n - 1], id, o) {
        assert OfferedAt(start, txs, n - 1, id, o);
      } else {
        OfferIsAsMade(start, txs, n - 1, id);
        var p := At(start, txs, n - 1).offers[id];
        var i: nat :| i < n - 1 && OfferedAt(start, txs, i, id, p);
        SameOffers(At(start, txs, i), txs[i], id, p, o);
        assert OfferedAt(start, txs, i, id, o);
      }
    }
  }
}

/** The marketplace neither makes nor destroys tokens. */
module MarketSupply {
  import opened Host
  import opened Sums
  import opened Token
  import opened Market
  import opened MarketPricing
  import opened MarketInvariant

  ghost predicate SameSupply(l: Ledger, l': Ledger) {
    forall t: Address :: Supply(l', t) == Supply(l, t)
  }

  lemma MoveKeepsSupply(l: Ledger, token: Address, from: Address, to: Address, amount: int)
    requires Move(l, token, from, to, amount).Ok?
    ensures SameSupply(l, Move(l, token, from, to, amount).value)
  {
    forall t: Address {
      TransferKeepsSupply(l, token, from, to, amount, t);
    }
  }

  lemma SellKeepsSupply(s: State, currency: Address, payer: Address, c: Address, price: int, seller: Address,
                        to: Address, amount: nat)
    requires Sell(s, currency, payer, c, price, seller, to, amount).Ok?
    ensures SameSupply(s.ledger, Sell(s, currency, payer, c, price, seller, to, amount).value)
  {
    var split := SplitPrice(s, c, price).value;
    SaleEffect(s.ledger, currency, payer, SalePayments(s, split, seller), c, s.self, to, amount);
  }

  lemma OpenListingKeepsSupply(s: State, seller: Address, c: Address, tokenId: U64, amount: U64, price: I128,
                               currency: Address)
    requires OpenListing(s, seller, c, tokenId, amount, price, currency).Ok?
    ensures SameSupply(s.ledger, OpenListing(s, seller, c, tokenId, amount, price, currency).value.0.ledger)
  {
    MoveKeepsSupply(s.ledger, c, seller, s.self, amount);
  }

  lemma OpenAuctionKeepsSupply(s: State, now: U64, kind: AuctionType, seller: Address, c: Address, tokenId: U64,
                               amount: U64, startPrice: I128, floorPrice: I128, currency: Address, endTime: nat)
    requires OpenAuction(s, now, kind, seller, c, tokenId, amount, startPrice, floorPrice, currency, endTime).Ok?
    ensures SameSupply(s.ledger,
              OpenAuction(s, now, kind, seller, c, tokenId, amount, startPrice, floorPrice, currency,
                          endTime).value.0.ledger)
  {
    MoveKeepsSupply(s.ledger, c, seller, s.self, amount);
  }

  lemma {:induction false} BulkListKeepsSupply(s: State, seller: Address, items: seq<ListingItem>, sofar: BulkResult)
    requires BulkListFrom(s, seller, items, sofar).Ok?
    ensures SameSupply(s.ledger, BulkListFrom(s, seller, items, sofar).value.0.ledger)
    decreases |items|
  {
    if items != [] {
      var item := items[0];
      if !ListingItemValid(s, item) {
        BulkListKeepsSupply(s, seller, items[1..], sofar.(failed := sofar.failed + 1));
      } else {
        OpenListingKeepsSupply(s, seller, item.collection, item.tokenId, item.amount, item.price, item.currency);
        var r := OpenListing(s, seller, item.collection, item.tokenId, item.amount, item.price, item.currency).value;
        BulkListKeepsSupply(r.0, seller, items[1..],
                            sofar.(succeeded := sofar.succeeded + 1, ids := sofar.ids + [r.1]));
      }
    }
  }

  lemma {:induction false} BulkAuctionsKeepSupply(s: State, now: U64, seller: Address, items: seq<AuctionItem>,
                                                  sofar: BulkResult)
    requires BulkAuctionsFrom(s, now, seller, items, sofar).Ok?
    ensures SameSupply(s.ledger, BulkAuctionsFrom(s, now, seller, items, sofar).value.0.ledger)
    decreases |items|
  {
    if items != [] {
      var item := items[0];
      if !AuctionItemValid(s, item) {
        BulkAuctionsKeepSupply(s, now, seller, items[1..], sofar.(failed := sofar.failed + 1));
      } else {
        var end := Min(now + item.duration, U64_MAX);
        OpenAuctionKeepsSupply(s, now, item.kind, seller, item.collection, item.tokenId, item.amount, item.startPrice,
                               item.floorPrice, item.currency, end);
        var r := OpenAuction(s, now, item.kind, seller, item.collection, item.tokenId, item.amount, item.startPrice,
                             item.floorPrice, item.currency, end).value;
        BulkAuctionsKeepSupply(r.0, now, seller, items[1..],
                               sofar.(succeeded := sofar.succeeded + 1, ids := sofar.ids + [r.1]));
      }
    }
  }

  // -------------------------------------------------------------------------
  // Single calls
  // -------------------------------------------------------------------------

  lemma BuyNftKeepsSupply(s: State, buyer: Address, id: nat)
    requires BuyNft(s, buyer, id).Ok?
    ensures SameSupply(s.ledger, BuyNft(s, buyer, id).value.ledger)
  {
    var l := s.listings[id];
    SellKeepsSupply(s, l.currency, buyer, l.collection, l.price, l.seller, buyer, l.amount);
  }

  lemma PlaceBidKeepsSupply(s: State, now: U64, bidder: Address, id: nat, bid: I128)
    requires PlaceBid(s, now, bidder, id, bid).Ok?
    ensures SameSupply(s.ledger, PlaceBid(s, now, bidder, id, bid).value.ledger)
  {
    var a := s.auctions[id];
    if a.currentBid > 0 {
      MoveKeepsSupply(s.ledger, a.currency, s.self, a.currentBidder, a.currentBid);
      MoveKeepsSupply(Move(s.ledger, a.currency, s.self, a.currentBidder, a.currentBid).value, a.currency, bidder,
                      s.self, bid);
    } else {
      MoveKeepsSupply(s.ledger, a.currency, bidder, s.self, bid);
    }
  }

  lemma SettleKeepsSupply(s: State, now: U64, id: nat)
    requires SettleEnglish(s, now, id).Ok?
    ensures SameSupply(s.ledger, SettleEnglish(s, now, id).value.ledger)
  {
    var a := s.auctions[id];
    if a.currentBid == 0 {
      MoveKeepsSupply(s.ledger, a.collection, s.self, a.seller, a.amount);
    } else {
      SellKeepsSupply(s, a.currency, s.self, a.collection, a.currentBid, a.seller, a.currentBidder, a.amount);
    }
  }

  lemma BuyDutchKeepsSupply(s: State, now: U64, buyer: Address, id: nat)
    requires BuyDutch(s, now, buyer, id).Ok?
    ensures SameSupply(s.ledger, BuyDutch(s, now, buyer, id).value.ledger)
  {
    var a := s.auctions[id];
    SellKeepsSupply(s, a.currency, buyer, a.collection, DutchPrice(a, now).value, a.seller, buyer, a.amount);
  }

  lemma AcceptOfferKeepsSupply(s: State, now: U64, caller: Address, id: nat)
    requires AcceptOffer(s, now, caller, id).Ok?
    ensures SameSupply(s.ledger, AcceptOffer(s, now, caller, id).value.ledger)
  {
    var o := s.offers[id];
    var fee := PlatformFee(o.offerAmount, s.feeBps).value;
    SaleEffect(s.ledger, o.currency, s.self, SalePayments(s, Split(fee, [], o.offerAmount - fee), o.recipient),
               o.collection, caller, o.offerer, o.amount);
  }

  lemma ListingCallKeepsSupply(s: State, now: U64, call: Call)
    requires OnListings(call) && Apply(s, now, call).Ok?
    ensures SameSupply(s.ledger, Apply(s, now, call).value.ledger)
  {
    match call
    case CallListNft(caller, c, tokenId, amount, price, currency, hash) =>
      OpenListingKeepsSupply(s, caller, c, tokenId, amount, price, currency);
    case CallBuyNft(buyer, id) => BuyNftKeepsSupply(s, buyer, id);
    case CallCancelListing(caller, id) =>
      var l := s.listings[id];
      MoveKeepsSupply(s.ledger, l.collection, s.self, l.seller, l.amount);
    case CallBulkList(seller, items) => BulkListKeepsSupply(s, seller, items, BulkResult(0, 0, []));
  }

  lemma NewAuctionCallKeepsSupply(s: State, now: U64, call: Call)
    requires CreatesAuctions(call) && Apply(s, now, call).Ok?
    ensures SameSupply(s.ledger, Apply(s, now, call).value.ledger)
  {
    match call
    case CallCreateEnglish(caller, c, tokenId, amount, price, currency, duration, hash) =>
      CreateEnglishOpens(s, now, caller, c, tokenId, amount, price, currency, duration, hash);
      OpenAuctionKeepsSupply(s, now, English, caller, c, tokenId, amount, price, 0, currency, now + duration);
    case CallCreateDutch(caller, c, tokenId, amount, price, floorPrice, currency, duration, hash) =>
      CreateDutchOpens(s, now, caller, c, tokenId, amount, price, floorPrice, currency, duration, hash);
      OpenAuctionKeepsSupply(s, now, Dutch, caller, c, tokenId, amount, price, floorPrice, currency, now + duration);
    case CallBulkCreateAuctions(seller, items) => BulkAuctionsKeepSupply(s, now, seller, items, BulkResult(0, 0, []));
  }

  lemma OpenAuctionCallKeepsSupply(s: State, now: U64, call: Call)
    requires OnOpenAuction(call) && Apply(s, now, call).Ok?
    ensures SameSupply(s.ledger, Apply(s, now, call).value.ledger)
  {
    match call
    case CallPlaceBid(bidder, id, bid) => PlaceBidKeepsSupply(s, now, bidder, id, bid);
    case CallSettleEnglish(id) => SettleKeepsSupply(s, now, id);
    case CallBuyDutch(buyer, id) => BuyDutchKeepsSupply(s, now, buyer, id);
    case CallCancelDutch(caller, id) =>
      var a := s.auctions[id];
      MoveKeepsSupply(s.ledger, a.collection, s.self, a.seller, a.amount);
  }

  lemma OfferCallKeepsSupply(s: State, now: U64, call: Call)
    requires OnOffers(call) && Apply(s, now, call).Ok?
    ensures SameSupply(s.ledger, Apply(s, now, call).value.ledger)
  {
    match call
    case CallMakeOffer(caller, recipient, c, tokenId, amount, offerAmount, currency, duration) =>
      MoveKeepsSupply(s.ledger, currency, caller, s.self, offerAmount);
    case CallAcceptOffer(caller, id) => AcceptOfferKeepsSupply(s, now, caller, id);
    case CallCancelOffer(caller, id) =>
      var o := s.offers[id];
      MoveKeepsSupply(s.ledger, o.currency, s.self, o.offerer, o.offerAmount);
  }

  // -------------------------------------------------------------------------
  // Over every run
  // -------------------------------------------------------------------------

  /** What a call issues of a token. */
  function Minted(call: Call, t: Address): nat {
    if call.Issued? && call.token == t then call.minted else 0
  }

  function TotalMinted(txs: seq<Tx>, t: Address): nat {
    if txs == [] then 0 else TotalMinted(txs[..|txs| - 1], t) + Minted(txs[|txs| - 1].call, t)
  }

  lemma IssuedSupply(s: State, now: U64, token: Address, to: Address, minted: nat, t: Address)
    ensures Supply(Apply(s, now, Issued(token, to, minted)).value.ledger, t)
         == Supply(s.ledger, t) + if token == t then minted else 0
  {
    SumUpdate<(Address, Address), nat>(s.ledger, (token, to), Bal(s.ledger, token, to) + minted, OfToken(t));
  }

  lemma SetupCallKeepsLedger(s: State, now: U64, call: Call)
    requires (OnConfig(call) || OnCollections(call)) && !call.Elsewhere? && !call.Issued? && Apply(s, now, call).Ok?
    ensures Apply(s, now, call).value.ledger == s.ledger
  {
  }

  lemma ConfigCallSupply(s: State, now: U64, call: Call, t: Address)
    requires (OnConfig(call) || OnCollections(call)) && Apply(s, now, call).Ok?
    ensures Supply(Apply(s, now, call).value.ledger, t) == Supply(s.ledger, t) + Minted(call, t)
  {
    if call.Elsewhere? {
      MoveKeepsSupply(s.ledger, call.token, call.from, call.to, call.units);
    } else if call.Issued? {
      IssuedSupply(s, now, call.token, call.to, call.minted, t);
    } else {
      SetupCallKeepsLedger(s, now, call);
    }
  }

  lemma StepSupply(s: State, tx: Tx, t: Address)
    ensures Supply(Step(s, tx).ledger, t) == Supply(s.ledger, t) + Minted(tx.call, t)
  {
    if Apply(s, tx.now, tx.call).Ok? {
      if OnListings(tx.call) {
        ListingCallKeepsSupply(s, tx.now, tx.call);
      } else if CreatesAuctions(tx.call) {
        NewAuctionCallKeepsSupply(s, tx.now, tx.call);
      } else if OnOpenAuction(tx.call) {
        OpenAuctionCallKeepsSupply(s, tx.now, tx.call);
      } else if OnOffers(tx.call) {
        OfferCallKeepsSupply(s, tx.now, tx.call);
      } else {
        ConfigCallSupply(s, tx.now, tx.call, t);
      }
    }
  }

  /** Over every run the supply of each token changes by what was issued of it, and by nothing the marketplace does. */
  lemma {:induction false} SupplyIsIssued(start: State, txs: seq<Tx>, t: Address)
    ensures Supply(Run(start, txs).ledger, t) == Supply(start.ledger, t) + TotalMinted(txs, t)
  {
    if txs != [] {
      SupplyIsIssued(start, txs[..|txs| - 1], t);
      StepSupply(Run(start, txs[..|txs| - 1]), txs[|txs| - 1], t);
    }
  }
}

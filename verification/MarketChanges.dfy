/** Who can change what of the marketplace's configuration and its collections. */
module MarketChanges {
  import opened Host
  import opened Token
  import opened BpsMath
  import opened Market
  import opened MarketPricing
  import opened MarketInvariant
  import opened MarketAuctions

  /** Nothing is configured differently. */
  ghost predicate SameConfig(s: State, s': State) {
    && s'.self == s.self && s'.admin == s.admin && s'.paused == s.paused && s'.feeBps == s.feeBps
    && s'.feeRecipient == s.feeRecipient && s'.bidIncrementBps == s.bidIncrementBps
    && s'.autoExtension == s.autoExtension && s'.currencies == s.currencies
  }

  /** The terms of a collection: its admin, its recipients and the sum of their shares. */
  function Terms(cs: map<Address, Collection>, c: Address): Option<(Address, seq<Recipient>, int)> {
    if c in cs then Some((cs[c].admin, cs[c].recipients, cs[c].totalBps)) else None
  }

  ghost predicate SameTerms(s: State, s': State) {
    forall c: Address :: Terms(s'.collections, c) == Terms(s.collections, c)
  }

  ghost predicate Untouched(s: State, s': State) { SameConfig(s, s') && SameTerms(s, s') }

  // -------------------------------------------------------------------------
  // Trade leaves the terms alone
  // -------------------------------------------------------------------------

  lemma OpenListingLeaves(s: State, seller: Address, c: Address, tokenId: U64, amount: U64, price: I128,
                          currency: Address)
    requires OpenListing(s, seller, c, tokenId, amount, price, currency).Ok?
    ensures Untouched(s, OpenListing(s, seller, c, tokenId, amount, price, currency).value.0)
  {
  }

  lemma OpenAuctionLeaves(s: State, now: U64, kind: AuctionType, seller: Address, c: Address, tokenId: U64,
                          amount: U64, startPrice: I128, floorPrice: I128, currency: Address, endTime: nat)
    requires OpenAuction(s, now, kind, seller, c, tokenId, amount, startPrice, floorPrice, currency, endTime).Ok?
    ensures Untouched(s, OpenAuction(s, now, kind, seller, c, tokenId, amount, startPrice, floorPrice, currency,
                                     endTime).value.0)
  {
  }

  lemma {:induction false} BulkListLeaves(s: State, seller: Address, items: seq<ListingItem>, sofar: BulkResult)
    requires BulkListFrom(s, seller, items, sofar).Ok?
    ensures Untouched(s, BulkListFrom(s, seller, items, sofar).value.0)
    decreases |items|
  {
    if items != [] {
      var item := items[0];
      if !ListingItemValid(s, item) {
        BulkListLeaves(s, seller, items[1..], sofar.(failed := sofar.failed + 1));
      } else {
        OpenListingLeaves(s, seller, item.collection, item.tokenId, item.amount, item.price, item.currency);
        var r := OpenListing(s, seller, item.collection, item.tokenId, item.amount, item.price, item.currency).value;
        BulkListLeaves(r.0, seller, items[1..], sofar.(succeeded := sofar.succeeded + 1, ids := sofar.ids + [r.1]));
      }
    }
  }

  lemma {:induction false} BulkAuctionsLeave(s: State, now: U64, seller: Address, items: seq<AuctionItem>,
                                             sofar: BulkResult)
    requires BulkAuctionsFrom(s, now, seller, items, sofar).Ok?
    ensures Untouched(s, BulkAuctionsFrom(s, now, seller, items, sofar).value.0)
    decreases |items|
  {
    if items != [] {
      var item := items[0];
      if !AuctionItemValid(s, item) {
        BulkAuctionsLeave(s, now, seller, items[1..], sofar.(failed := sofar.failed + 1));
      } else {
        var end := Min(now + item.duration, U64_MAX);
        OpenAuctionLeaves(s, now, item.kind, seller, item.collection, item.tokenId, item.amount, item.startPrice,
                          item.floorPrice, item.currency, end);
        var r := OpenAuction(s, now, item.kind, seller, item.collection, item.tokenId, item.amount, item.startPrice,
                             item.floorPrice, item.currency, end).value;
        BulkAuctionsLeave(r.0, now, seller, items[1..],
                          sofar.(succeeded := sofar.succeeded + 1, ids := sofar.ids + [r.1]));
      }
    }
  }

  lemma WrittenListingLeaves(s: State, id: nat, l: Listing, delta: int, s': State)
    requires WritesListing(s, id, l, delta, s')
    ensures Untouched(s, s')
  {
  }

  lemma WrittenAuctionLeaves(s: State, id: nat, a: Auction, delta: int, s': State)
    requires WritesAuction(s, id, a, delta, s')
    ensures Untouched(s, s')
  {
  }

  lemma ListingCallLeaves(s: State, now: U64, call: Call)
    requires ListingsOk(s) && OnListings(call) && Apply(s, now, call).Ok?
    ensures Untouched(s, Apply(s, now, call).value)
  {
    match call
    case CallListNft(seller, c, tokenId, amount, price, currency, hash) =>
      OpenListingLeaves(s, seller, c, tokenId, amount, price, currency);
    case CallBuyNft(buyer, id) =>
      BuyNftWrites(s, buyer, id);
      WrittenListingLeaves(s, id, s.listings[id].(status := ListingStatus.Sold), -1, BuyNft(s, buyer, id).value);
    case CallCancelListing(caller, id) =>
      CancelListingWrites(s, caller, id);
      WrittenListingLeaves(s, id, s.listings[id].(status := ListingStatus.Cancelled), -1,
                           CancelListing(s, caller, id).value);
    case CallBulkList(seller, items) => BulkListLeaves(s, seller, items, BulkResult(0, 0, []));
  }

  lemma NewAuctionCallLeaves(s: State, now: U64, call: Call)
    requires CreatesAuctions(call) && Apply(s, now, call).Ok?
    ensures Untouched(s, Apply(s, now, call).value)
  {
    match call
    case CallCreateEnglish(caller, c, tokenId, amount, price, currency, duration, hash) =>
      CreateEnglishOpens(s, now, caller, c, tokenId, amount, price, currency, duration, hash);
      OpenAuctionLeaves(s, now, English, caller, c, tokenId, amount, price, 0, currency, now + duration);
    case CallCreateDutch(caller, c, tokenId, amount, price, floorPrice, currency, duration, hash) =>
      CreateDutchOpens(s, now, caller, c, tokenId, amount, price, floorPrice, currency, duration, hash);
      OpenAuctionLeaves(s, now, Dutch, caller, c, tokenId, amount, price, floorPrice, currency, now + duration);
    case CallBulkCreateAuctions(seller, items) => BulkAuctionsLeave(s, now, seller, items, BulkResult(0, 0, []));
  }

  lemma OpenAuctionCallLeaves(s: State, now: U64, call: Call)
    requires AuctionsOk(s) && OnOpenAuction(call) && Apply(s, now, call).Ok?
    ensures Untouched(s, Apply(s, now, call).value)
  {
    match call
    case CallPlaceBid(bidder, id, bid) =>
      PlaceBidWrites(s, now, bidder, id, bid);
      WrittenAuctionLeaves(s, id, PlaceBid(s, now, bidder, id, bid).value.auctions[id], 0,
                           PlaceBid(s, now, bidder, id, bid).value);
    case CallSettleEnglish(id) =>
      SettleEnglishWrites(s, now, id);
      WrittenAuctionLeaves(s, id, s.auctions[id].(status := Settled), -1, SettleEnglish(s, now, id).value);
    case CallBuyDutch(buyer, id) =>
      BuyDutchWrites(s, now, buyer, id);
      WrittenAuctionLeaves(s, id, s.auctions[id].(status := Settled), -1, BuyDutch(s, now, buyer, id).value);
    case CallCancelDutch(caller, id) =>
      CancelDutchWrites(s, caller, id);
      WrittenAuctionLeaves(s, id, s.auctions[id].(status := AuctionStatus.Cancelled), -1,
                           CancelDutch(s, caller, id).value);
  }

  lemma OfferCallLeaves(s: State, now: U64, call: Call)
    requires OnOffers(call) && Apply(s, now, call).Ok?
    ensures Untouched(s, Apply(s, now, call).value)
  {
  }

  predicate IsTrade(call: Call) {
    OnListings(call) || CreatesAuctions(call) || OnOpenAuction(call) || OnOffers(call)
  }

  lemma TradeLeaves(s: State, tx: Tx)
    requires ListingsOk(s) && AuctionsOk(s) && IsTrade(tx.call)
    ensures Untouched(s, Step(s, tx))
  {
    if Apply(s, tx.now, tx.call).Ok? {
      if OnListings(tx.call) {
        ListingCallLeaves(s, tx.now, tx.call);
      } else if CreatesAuctions(tx.call) {
        NewAuctionCallLeaves(s, tx.now, tx.call);
      } else if OnOpenAuction(tx.call) {
        OpenAuctionCallLeaves(s, tx.now, tx.call);
      } else {
        OfferCallLeaves(s, tx.now, tx.call);
      }
    }
  }

  // -------------------------------------------------------------------------
  // Who changes them
  // -------------------------------------------------------------------------

  predicate Configures(call: Call) {
    || call.CallSetPlatformFee? || call.CallSetFeeRecipient? || call.CallSetBidIncrement?
    || call.CallSetAutoExtension? || call.CallSetCurrency?
  }

  /** Each setting is the one the admin's call names, within its bounds, and otherwise the one before. */
  ghost predicate ConfiguredBy(s: State, c: Call, s': State, currency: Address) {
    && s'.feeBps == (if c.CallSetPlatformFee? && c.caller == s.admin && 0 <= c.bps <= 1_000 then c.bps else s.feeBps)
    && s'.feeRecipient == (if c.CallSetFeeRecipient? && c.caller == s.admin then c.who else s.feeRecipient)
    && s'.bidIncrementBps == (if c.CallSetBidIncrement? && c.caller == s.admin && 0 <= c.bps <= 5_000 then c.bps
                              else s.bidIncrementBps)
    && s'.autoExtension == (if c.CallSetAutoExtension? && c.caller == s.admin && c.seconds <= 3_600 then c.seconds
                            else s.autoExtension)
    && Get(s'.currencies, currency)
         == (if c.CallSetCurrency? && c.caller == s.admin && c.currency == currency then Some(c.whitelisted)
             else Get(s.currencies, currency))
    && s'.self == s.self && s'.admin == s.admin && s'.paused == s.paused
  }

  lemma FeeConfigures(s: State, caller: Address, bps: I128, currency: Address)
    ensures ConfiguredBy(s, CallSetPlatformFee(caller, bps), After(s, SetPlatformFee(s, caller, bps)), currency)
  {
  }

  lemma RecipientConfigures(s: State, caller: Address, who: Address, currency: Address)
    ensures ConfiguredBy(s, CallSetFeeRecipient(caller, who), After(s, SetFeeRecipient(s, caller, who)), currency)
  {
  }

  lemma IncrementConfigures(s: State, caller: Address, bps: I128, currency: Address)
    ensures ConfiguredBy(s, CallSetBidIncrement(caller, bps), After(s, SetBidIncrement(s, caller, bps)), currency)
  {
  }

  lemma ExtensionConfigures(s: State, caller: Address, seconds: U64, currency: Address)
    ensures ConfiguredBy(s, CallSetAutoExtension(caller, seconds), After(s, SetAutoExtension(s, caller, seconds)),
                         currency)
  {
  }

  lemma CurrencyConfigures(s: State, caller: Address, c: Address, flag: bool, currency: Address)
    ensures ConfiguredBy(s, CallSetCurrency(caller, c, flag), After(s, SetCurrency(s, caller, c, flag)), currency)
  {
  }

  lemma SettingConfigures(s: State, now: U64, call: Call, currency: Address)
    requires Configures(call)
    ensures ConfiguredBy(s, call, After(s, Apply(s, now, call)), currency)
  {
    match call
    case CallSetPlatformFee(caller, bps) => FeeConfigures(s, caller, bps, currency);
    case CallSetFeeRecipient(caller, who) => RecipientConfigures(s, caller, who, currency);
    case CallSetBidIncrement(caller, bps) => IncrementConfigures(s, caller, bps, currency);
    case CallSetAutoExtension(caller, seconds) => ExtensionConfigures(s, caller, seconds, currency);
    case CallSetCurrency(caller, c, flag) => CurrencyConfigures(s, caller, c, flag, currency);
  }

  lemma RegisterKeepsConfig(s: State, caller: Address, c: Address, hash: Bytes, rs: seq<Recipient>)
    ensures SameConfig(s, After(s, RegisterCollection(s, caller, c, hash, rs)))
  {
  }

  lemma SetRoyaltiesKeepsConfig(s: State, caller: Address, c: Address, rs: seq<Recipient>)
    ensures SameConfig(s, After(s, SetRoyalties(s, caller, c, rs)))
  {
  }

  lemma CollectionCallKeepsConfig(s: State, now: U64, call: Call)
    requires OnCollections(call)
    ensures SameConfig(s, After(s, Apply(s, now, call)))
  {
    match call
    case CallRegisterCollection(caller, c, hash, rs) => RegisterKeepsConfig(s, caller, c, hash, rs);
    case CallSetRoyalties(caller, c, rs) => SetRoyaltiesKeepsConfig(s, caller, c, rs);
  }

  lemma TokenCallLeaves(s: State, now: U64, call: Call)
    requires (call.Elsewhere? || call.Issued?) && Apply(s, now, call).Ok?
    ensures Untouched(s, Apply(s, now, call).value)
  {
    var s' := Apply(s, now, call).value;
    assert s' == s.(ledger := s'.ledger);
  }

  lemma TokenStepLeaves(s: State, tx: Tx)
    requires tx.call.Elsewhere? || tx.call.Issued?
    ensures Untouched(s, Step(s, tx))
  {
    if Apply(s, tx.now, tx.call).Ok? {
      TokenCallLeaves(s, tx.now, tx.call);
    }
  }

  lemma SettingKeepsTerms(s: State, now: U64, call: Call)
    requires Configures(call)
    ensures SameTerms(s, After(s, Apply(s, now, call)))
  {
  }

  /** Rates, recipient, window and whitelist are the admin's to set, within their bounds; nobody changes the admin or
      the pause flag. */
  lemma ConfigChangesExactlyBy(s: State, tx: Tx, currency: Address)
    requires ListingsOk(s) && AuctionsOk(s)
    ensures ConfiguredBy(s, tx.call, Step(s, tx), currency)
  {
    if Configures(tx.call) {
      SettingConfigures(s, tx.now, tx.call, currency);
    } else {
      if IsTrade(tx.call) {
        TradeLeaves(s, tx);
      } else if OnCollections(tx.call) {
        CollectionCallKeepsConfig(s, tx.now, tx.call);
      } else {
        TokenStepLeaves(s, tx);
      }
      SameIsConfigured(s, tx.call, Step(s, tx), currency);
    }
  }

  lemma SameIsConfigured(s: State, call: Call, s': State, currency: Address)
    requires !Configures(call) && SameConfig(s, s')
    ensures ConfiguredBy(s, call, s', currency)
  {
  }

  /** Shares in range, each from zero to a tenth. */
  predicate SharesFit(rs: seq<Recipient>) {
    forall i :: 0 <= i < |rs| ==> 0 <= rs[i].shareBps <= 1_000
  }

  /** The admin registers a collection once, with up to ten recipients; after that its own admin replaces them. */
  ghost predicate SetsTerms(s: State, call: Call, c: Address) {
    match call
    case CallRegisterCollection(caller, d, hash, rs) =>
      d == c && caller == s.admin && c !in s.collections && |hash| == 32 && SharesFit(rs) && |rs| <= 10
    case CallSetRoyalties(caller, d, rs) =>
      d == c && c in s.collections && caller == s.collections[c].admin && caller != s.self && SharesFit(rs)
    case _ => false
  }

  lemma RegisterSetsTerms(s: State, caller: Address, d: Address, hash: Bytes, rs: seq<Recipient>, c: Address)
    ensures var outcome := RegisterCollection(s, caller, d, hash, rs);
            Terms(After(s, outcome).collections, c)
              == if SetsTerms(s, CallRegisterCollection(caller, d, hash, rs), c)
                 then Some((caller, rs, Sum(Shares(rs)))) else Terms(s.collections, c)
  {
    TotalSharesIsSum(rs);
  }

  lemma SetRoyaltiesSetsTerms(s: State, caller: Address, d: Address, rs: seq<Recipient>, c: Address)
    ensures var outcome := SetRoyalties(s, caller, d, rs);
            Terms(After(s, outcome).collections, c)
              == if SetsTerms(s, CallSetRoyalties(caller, d, rs), c) then Some((caller, rs, Sum(Shares(rs))))
                 else Terms(s.collections, c)
  {
    TotalSharesIsSum(rs);
  }

  /** The terms of a collection change exactly by such a call, to its caller, its recipients and the sum of their
      shares. */
  lemma TermsChangeExactlyBy(s: State, tx: Tx, c: Address)
    requires ListingsOk(s) && AuctionsOk(s)
    ensures Terms(Step(s, tx).collections, c)
         == if SetsTerms(s, tx.call, c) then Some((tx.call.caller, tx.call.recipients, Sum(Shares(tx.call.recipients))))
            else Terms(s.collections, c)
  {
    if IsTrade(tx.call) {
      TradeLeaves(s, tx);
    } else if tx.call.CallRegisterCollection? {
      RegisterSetsTerms(s, tx.call.caller, tx.call.collection, tx.call.hash, tx.call.recipients, c);
    } else if tx.call.CallSetRoyalties? {
      SetRoyaltiesSetsTerms(s, tx.call.caller, tx.call.collection, tx.call.recipients, c);
    } else if Configures(tx.call) {
      SettingKeepsTerms(s, tx.now, tx.call);
    } else {
      TokenStepLeaves(s, tx);
    }
  }

  /** The marketplace starts with a fee of up to a tenth and a bid increment of up to a half. */
  lemma InitializeSucceedsIff(self: Address, admin: Address, feeBps: I128, feeRecipient: Address, bidIncrementBps: I128,
                              autoExtension: U64, paused: bool, ledger: Ledger)
    ensures Initialize(self, admin, feeBps, feeRecipient, bidIncrementBps, autoExtension, paused, ledger).Ok? <==>
              0 <= feeBps <= 1_000 && 0 <= bidIncrementBps <= 5_000
  {
  }

  // -------------------------------------------------------------------------
  // What a bid moves
  // -------------------------------------------------------------------------

  /** An accepted bid moves the new bid into escrow and the old one back to the outbid; no other balance changes. */
  lemma BidMoves(s: State, now: U64, bidder: Address, id: nat, bid: I128)
    requires AuctionsOk(s) && PlaceBid(s, now, bidder, id, bid).Ok?
    ensures id in s.auctions
    ensures var a, l' := s.auctions[id], PlaceBid(s, now, bidder, id, bid).value.ledger;
            forall t: Address, x: Address ::
              Bal(l', t, x) == Bal(s.ledger, t, x)
                + if t != a.currency then 0
                  else (if x == a.currentBidder && a.currentBid > 0 then a.currentBid else 0)
                       - (if x == bidder then bid else 0)
                       + (if x == s.self then bid - a.currentBid else 0)
  {
  }
}

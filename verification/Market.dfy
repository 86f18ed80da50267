/** The marketplace: its records, and each entry point as one state change. */
module Market {
  import opened Host
  import opened Token

  datatype MarketError =
    | ListingNotFound
    | ListingAlreadySold
    | NotOwner
    | CollectionAlreadyRegistered
    | CollectionNotFound
    | CurrencyNotWhitelisted
    | InvalidMetadataHash
    | InvalidRoyaltyRate
    | InvalidExtensionWindow
    | AuctionEnded
    | BidTooLow
    | BidderIsCurrentHighest
    | AuctionNotYetEnded
    | OfferExpired
    | OfferAlreadySettled
    | NotOfferRecipient
    | DutchAuctionPriceZero
    | InvalidDutchAuctionPrices
    | InvalidAmount
    | Overflow
    | ContractPaused
    | Unauthorized
    | InvalidArgument
    | HostPanic  // the call aborted: a failed token transfer, missing authorisation or an arithmetic trap

  const BPS_DENOM: int := 10_000
  const MAX_ROYALTY_BPS: int := 1_000
  const MAX_FEE_BPS: int := 1_000
  const MAX_BID_INCREMENT_BPS: int := 5_000
  const MAX_ROYALTY_RECIPIENTS: nat := 10
  const MAX_BULK_SIZE: nat := 50
  const METADATA_HASH_LEN: nat := 32
  const MAX_DURATION: nat := 604_800
  const MAX_EXTENSION: nat := 3_600

  type Bytes = seq<bv8>

  datatype ListingStatus = Active | Sold | Cancelled
  datatype AuctionType = English | Dutch
  datatype AuctionStatus = Active | Ended | Settled | Cancelled
  datatype OfferStatus = Pending | Accepted | Cancelled | Expired

  datatype Listing = Listing(
    id: nat, seller: Address, collection: Address, tokenId: U64, amount: nat, price: int,
    currency: Address, status: ListingStatus)

  datatype Auction = Auction(
    id: nat, kind: AuctionType, seller: Address, collection: Address, tokenId: U64, amount: nat,
    currency: Address, startPrice: int, floorPrice: int, currentBid: int, currentBidder: Address,
    status: AuctionStatus, startTime: nat, endTime: nat, window: nat)

  datatype Offer = Offer(
    id: nat, offerer: Address, recipient: Address, collection: Address, tokenId: U64, amount: nat,
    offerAmount: int, currency: Address, status: OfferStatus, expiresAt: nat)

  datatype Recipient = Recipient(who: Address, shareBps: int)

  datatype Collection = Collection(
    admin: Address, recipients: seq<Recipient>, totalBps: int, activeListings: nat, activeAuctions: nat)

  datatype ListingItem = ListingItem(
    collection: Address, tokenId: U64, amount: U64, price: I128, currency: Address, hash: Bytes)

  datatype AuctionItem = AuctionItem(
    collection: Address, tokenId: U64, amount: U64, kind: AuctionType, startPrice: I128, floorPrice: I128,
    currency: Address, duration: U64)

  datatype BulkResult = BulkResult(succeeded: nat, failed: nat, ids: seq<nat>)

  datatype State = State(
    self: Address,
    admin: Address,
    paused: bool,
    feeBps: int,
    feeRecipient: Address,
    bidIncrementBps: int,
    autoExtension: nat,
    currencies: map<Address, bool>,
    collections: map<Address, Collection>,
    listingSeq: nat,
    auctionSeq: nat,
    offerSeq: nat,
    listings: map<nat, Listing>,
    auctions: map<nat, Auction>,
    offers: map<nat, Offer>,
    ledger: Ledger)

  // -------------------------------------------------------------------------
  // Helpers the entry points share
  // -------------------------------------------------------------------------

  function Move(l: Ledger, token: Address, from: Address, to: Address, amount: int): Result<Ledger, MarketError> {
    Transfer(l, token, from, to, amount).OkOr(HostPanic)
  }

  /** The contract's own address never signs. */
  predicate Signs(s: State, who: Address) { who != s.self }

  predicate Whitelisted(s: State, currency: Address) { GetOr(s.currencies, currency, false) }

  function NextId(current: nat): Result<nat, MarketError> {
    if current + 1 <= U64_MAX then Ok(current + 1) else Err(Overflow)
  }

  /** Adjusts the cached counters of a collection; an absent collection is ignored. */
  function UpdateStats(cs: map<Address, Collection>, c: Address, listings: int, auctions: int)
    : Result<map<Address, Collection>, MarketError>
  {
    if c !in cs then Ok(cs)
    else
      var l :- Bump(cs[c].activeListings, listings);
      var a :- Bump(cs[c].activeAuctions, auctions);
      Ok(cs[c := cs[c].(activeListings := l, activeAuctions := a)])
  }

  function Bump(counter: nat, delta: int): Result<nat, MarketError> {
    if delta > 0 then (if counter + delta <= U32_MAX then Ok(counter + delta) else Err(HostPanic))
    else if delta < 0 && counter > 0 then (if counter + delta >= 0 then Ok(counter + delta) else Err(HostPanic))
    else Ok(counter)
  }

  // -------------------------------------------------------------------------
  // Prices
  // -------------------------------------------------------------------------

  /** The linear price of a Dutch auction at a time. */
  function DutchPrice(a: Auction, now: nat): Result<int, MarketError> {
    if now >= a.endTime then Ok(a.floorPrice)
    else if now <= a.startTime then Ok(a.startPrice)
    else
      var range :- CheckedSub(a.startPrice, a.floorPrice).OkOr(Overflow);
      var product :- CheckedMul(range, now - a.startTime).OkOr(Overflow);
      var decay :- CheckedDiv(product, a.endTime - a.startTime).OkOr(Overflow);
      var price :- CheckedSub(a.startPrice, decay).OkOr(Overflow);
      Ok(Max(price, 0))
  }

  function PlatformFee(price: int, feeBps: int): Result<int, MarketError> {
    var product :- CheckedMul(price, feeBps).OkOr(Overflow);
    var fee :- CheckedDiv(product, BPS_DENOM).OkOr(Overflow);
    Ok(Max(fee, 0))
  }

  /** One royalty; a product that does not fit counts as nothing. */
  function RoyaltyAmount(price: int, shareBps: int): int {
    var product := CheckedMul(price, shareBps);
    TruncDiv(if product.Some? then product.value else 0, BPS_DENOM)
  }

  /** A payment that is made only if it is positive. */
  function IfPositive(who: Address, amount: int): Payments {
    if amount > 0 then [(who, amount)] else []
  }

  /** The positive royalties of a recipient list, in order. */
  function RoyaltyAmounts(price: int, rs: seq<Recipient>): Payments {
    if rs == [] then []
    else
      var last := rs[|rs| - 1];
      var amount := RoyaltyAmount(price, last.shareBps);
      RoyaltyAmounts(price, rs[..|rs| - 1]) + IfPositive(last.who, amount)
  }

  function CollectionRoyalties(s: State, collection: Address, price: int): Payments {
    if collection in s.collections && s.collections[collection].totalBps > 0
    then RoyaltyAmounts(price, s.collections[collection].recipients)
    else []
  }

  datatype Split = Split(fee: int, royalties: Payments, proceeds: int)

  /** How a sale price is divided; the proceeds may come out negative. */
  function SplitPrice(s: State, collection: Address, price: int): Result<Split, MarketError> {
    var fee :- PlatformFee(price, s.feeBps);
    var royalties := CollectionRoyalties(s, collection, price);
    var _ :- Need(IsI128(Total(royalties)), HostPanic);
    var afterFee :- CheckedSub(price, fee).OkOr(Overflow);
    var proceeds :- CheckedSub(afterFee, Total(royalties)).OkOr(Overflow);
    Ok(Split(fee, royalties, proceeds))
  }

  /** The payments of a sale in the order they are made; parts that are not positive are skipped. */
  function SalePayments(s: State, split: Split, seller: Address): Payments {
    IfPositive(s.feeRecipient, split.fee) + split.royalties + IfPositive(seller, split.proceeds)
  }

  /** A sale: the payments of the split price, then the parcel out of escrow. */
  function Sell(s: State, currency: Address, payer: Address, collection: Address, price: int, seller: Address,
                to: Address, amount: nat): Result<Ledger, MarketError>
  {
    var split :- SplitPrice(s, collection, price);
    var paid :- PayAll(s.ledger, currency, payer, SalePayments(s, split, seller)).OkOr(HostPanic);
    Move(paid, collection, s.self, to, amount)
  }

  // -------------------------------------------------------------------------
  // Configuration and collections
  // -------------------------------------------------------------------------

  function Initialize(self: Address, admin: Address, feeBps: I128, feeRecipient: Address, bidIncrementBps: I128,
                      autoExtension: U64, paused: bool, ledger: Ledger): Result<State, MarketError>
  {
    var _ :- Need(0 <= feeBps <= MAX_FEE_BPS, InvalidArgument);
    var _ :- Need(0 <= bidIncrementBps <= MAX_BID_INCREMENT_BPS, InvalidArgument);
    Ok(State(self, admin, paused, feeBps, feeRecipient, bidIncrementBps, autoExtension,
             map[], map[], 0, 0, 0, map[], map[], map[], ledger))
  }

  function SetPlatformFee(s: State, caller: Address, bps: I128): Result<State, MarketError> {
    var _ :- Need(caller == s.admin, Unauthorized);
    var _ :- Need(0 <= bps <= MAX_FEE_BPS, InvalidArgument);
    Ok(s.(feeBps := bps))
  }

  function SetFeeRecipient(s: State, caller: Address, who: Address): Result<State, MarketError> {
    var _ :- Need(caller == s.admin, Unauthorized);
    Ok(s.(feeRecipient := who))
  }

  function SetBidIncrement(s: State, caller: Address, bps: I128): Result<State, MarketError> {
    var _ :- Need(caller == s.admin, Unauthorized);
    var _ :- Need(0 <= bps <= MAX_BID_INCREMENT_BPS, InvalidArgument);
    Ok(s.(bidIncrementBps := bps))
  }

  function SetAutoExtension(s: State, caller: Address, seconds: U64): Result<State, MarketError> {
    var _ :- Need(caller == s.admin, Unauthorized);
    var _ :- Need(seconds <= MAX_EXTENSION, InvalidExtensionWindow);
    Ok(s.(autoExtension := seconds))
  }

  function SetCurrency(s: State, caller: Address, currency: Address, whitelisted: bool): Result<State, MarketError> {
    var _ :- Need(caller == s.admin, Unauthorized);
    Ok(s.(currencies := s.currencies[currency := whitelisted]))
  }

  function TotalShares(rs: seq<Recipient>): int {
    if rs == [] then 0 else TotalShares(rs[..|rs| - 1]) + rs[|rs| - 1].shareBps
  }

  predicate SharesInRange(rs: seq<Recipient>) {
    forall i :: 0 <= i < |rs| ==> 0 <= rs[i].shareBps <= MAX_ROYALTY_BPS
  }

  function RegisterCollection(s: State, caller: Address, c: Address, hash: Bytes, rs: seq<Recipient>)
    : Result<State, MarketError>
  {
    var _ :- Need(caller == s.admin, Unauthorized);
    var _ :- Need(c !in s.collections, CollectionAlreadyRegistered);
    var _ :- Need(|hash| == METADATA_HASH_LEN, InvalidMetadataHash);
    var _ :- Need(SharesInRange(rs), InvalidRoyaltyRate);
    var _ :- Need(|rs| <= MAX_ROYALTY_RECIPIENTS, InvalidArgument);
    Ok(s.(collections := s.collections[c := Collection(caller, rs, TotalShares(rs), 0, 0)]))
  }

  /** Replaces the recipients; unlike registration, it does not limit how many there are. */
  function SetRoyalties(s: State, caller: Address, c: Address, rs: seq<Recipient>): Result<State, MarketError> {
    var _ :- Need(Signs(s, caller), HostPanic);
    var info :- Get(s.collections, c).OkOr(CollectionNotFound);
    var _ :- Need(info.admin == caller, Unauthorized);
    var _ :- Need(SharesInRange(rs), InvalidRoyaltyRate);
    Ok(s.(collections := s.collections[c := info.(recipients := rs, totalBps := TotalShares(rs))]))
  }

  // -------------------------------------------------------------------------
  // Fixed-price listings
  // -------------------------------------------------------------------------

  /** The next listing id, with the seller's tokens taken into escrow. */
  function EscrowForListing(s: State, seller: Address, collection: Address, amount: U64)
    : Result<(State, nat), MarketError>
  {
    var id :- NextId(s.listingSeq);
    var ledger :- Move(s.ledger, collection, seller, s.self, amount);
    Ok((s.(listingSeq := id, ledger := ledger), id))
  }

  /** Stores a new listing and counts it. */
  function RecordListing(s: State, l: Listing): Result<State, MarketError> {
    var cs :- UpdateStats(s.collections, l.collection, 1, 0);
    Ok(s.(collections := cs, listings := s.listings[l.id := l]))
  }

  function OpenListing(s: State, seller: Address, collection: Address, tokenId: U64, amount: U64, price: I128,
                       currency: Address)
    : Result<(State, nat), MarketError>
  {
    var (taken, id) :- EscrowForListing(s, seller, collection, amount);
    var l := Listing(id, seller, collection, tokenId, amount, price, currency, ListingStatus.Active);
    var s' :- RecordListing(taken, l);
    Ok((s', id))
  }

  function ListNft(s: State, seller: Address, collection: Address, tokenId: U64, amount: U64, price: I128,
                   currency: Address, hash: Bytes)
    : Result<(State, nat), MarketError>
  {
    var _ :- Need(!s.paused, ContractPaused);
    var _ :- Need(Signs(s, seller), HostPanic);
    var _ :- Need(price > 0, InvalidAmount);
    var _ :- Need(Whitelisted(s, currency), CurrencyNotWhitelisted);
    var _ :- Need(|hash| == METADATA_HASH_LEN, InvalidMetadataHash);
    var _ :- Need(collection in s.collections, CollectionNotFound);
    OpenListing(s, seller, collection, tokenId, amount, price, currency)
  }

  function BuyNft(s: State, buyer: Address, id: nat): Result<State, MarketError> {
    var _ :- Need(!s.paused, ContractPaused);
    var _ :- Need(Signs(s, buyer), HostPanic);
    var l :- Get(s.listings, id).OkOr(ListingNotFound);
    var _ :- Need(l.status == ListingStatus.Active, ListingAlreadySold);
    var ledger :- Sell(s, l.currency, buyer, l.collection, l.price, l.seller, buyer, l.amount);
    var cs :- UpdateStats(s.collections, l.collection, -1, 0);
    Ok(s.(listings := s.listings[id := l.(status := ListingStatus.Sold)], ledger := ledger, collections := cs))
  }

  function CancelListing(s: State, caller: Address, id: nat): Result<State, MarketError> {
    var _ :- Need(Signs(s, caller), HostPanic);
    var l :- Get(s.listings, id).OkOr(ListingNotFound);
    var _ :- Need(l.status == ListingStatus.Active, ListingAlreadySold);
    var _ :- Need(l.seller == caller, NotOwner);
    var ledger :- Move(s.ledger, l.collection, s.self, l.seller, l.amount);
    var cs :- UpdateStats(s.collections, l.collection, -1, 0);
    Ok(s.(listings := s.listings[id := l.(status := ListingStatus.Cancelled)], ledger := ledger, collections := cs))
  }

  // -------------------------------------------------------------------------
  // Auctions
  // -------------------------------------------------------------------------

  /** The next auction id, with the seller's tokens taken into escrow. */
  function EscrowForAuction(s: State, seller: Address, collection: Address, amount: U64)
    : Result<(State, nat), MarketError>
  {
    var id :- NextId(s.auctionSeq);
    var ledger :- Move(s.ledger, collection, seller, s.self, amount);
    Ok((s.(auctionSeq := id, ledger := ledger), id))
  }

  /** Stores a new auction and counts it. */
  function RecordAuction(s: State, a: Auction): Result<State, MarketError> {
    var cs :- UpdateStats(s.collections, a.collection, 0, 1);
    Ok(s.(collections := cs, auctions := s.auctions[a.id := a]))
  }

  /** An auction without a bid; an end that does not fit is noticed only after the tokens have moved. */
  function NewAuction(s: State, now: U64, kind: AuctionType, seller: Address, collection: Address, tokenId: U64,
                      amount: U64, startPrice: I128, floorPrice: I128, currency: Address, endTime: Option<nat>)
    : Result<(State, nat), MarketError>
  {
    var (taken, id) :- EscrowForAuction(s, seller, collection, amount);
    var end :- endTime.OkOr(Overflow);
    var window := if kind == English then s.autoExtension else 0;
    var a := Auction(id, kind, seller, collection, tokenId, amount, currency, startPrice, floorPrice, 0, s.self,
                     AuctionStatus.Active, now, end, window);
    var s' :- RecordAuction(taken, a);
    Ok((s', id))
  }

  /** The same with an end that fits. */
  function OpenAuction(s: State, now: U64, kind: AuctionType, seller: Address, collection: Address, tokenId: U64,
                       amount: U64, startPrice: I128, floorPrice: I128, currency: Address, endTime: nat)
    : Result<(State, nat), MarketError>
  {
    NewAuction(s, now, kind, seller, collection, tokenId, amount, startPrice, floorPrice, currency, Some(endTime))
  }

  function CreateEnglish(s: State, now: U64, seller: Address, collection: Address, tokenId: U64, amount: U64,
                         startPrice: I128, currency: Address, duration: U64, hash: Bytes)
    : Result<(State, nat), MarketError>
  {
    var _ :- Need(!s.paused, ContractPaused);
    var _ :- Need(Signs(s, seller), HostPanic);
    var _ :- Need(startPrice > 0, InvalidAmount);
    var _ :- Need(Whitelisted(s, currency), CurrencyNotWhitelisted);
    var _ :- Need(|hash| == METADATA_HASH_LEN, InvalidMetadataHash);
    var _ :- Need(collection in s.collections, CollectionNotFound);
    var _ :- Need(0 < duration <= MAX_DURATION, InvalidArgument);
    NewAuction(s, now, English, seller, collection, tokenId, amount, startPrice, 0, currency,
               CheckedAddU64(now, duration))
  }

  function CreateDutch(s: State, now: U64, seller: Address, collection: Address, tokenId: U64, amount: U64,
                       startPrice: I128, floorPrice: I128, currency: Address, duration: U64, hash: Bytes)
    : Result<(State, nat), MarketError>
  {
    var _ :- Need(!s.paused, ContractPaused);
    var _ :- Need(Signs(s, seller), HostPanic);
    var _ :- Need(startPrice > 0, InvalidAmount);
    var _ :- Need(floorPrice > 0, InvalidAmount);
    var _ :- Need(Whitelisted(s, currency), CurrencyNotWhitelisted);
    var _ :- Need(|hash| == METADATA_HASH_LEN, InvalidMetadataHash);
    var _ :- Need(collection in s.collections, CollectionNotFound);
    var _ :- Need(floorPrice < startPrice, InvalidDutchAuctionPrices);
    var _ :- Need(0 < duration <= MAX_DURATION, InvalidArgument);
    NewAuction(s, now, Dutch, seller, collection, tokenId, amount, startPrice, floorPrice, currency,
               CheckedAddU64(now, duration))
  }

  /** The least acceptable next bid. */
  function MinBid(a: Auction, incrementBps: int): Result<int, MarketError> {
    if a.currentBid == 0 then Ok(a.startPrice)
    else
      var product :- CheckedMul(a.currentBid, incrementBps).OkOr(Overflow);
      var step :- CheckedDiv(product, BPS_DENOM).OkOr(Overflow);
      CheckedAdd(a.currentBid, Max(step, 1)).OkOr(Overflow)
  }

  /** A bid close to the end moves the end to a full window from now. */
  function ExtendedEnd(a: Auction, now: U64): Result<int, MarketError> {
    if a.endTime - now <= a.window then CheckedAddU64(now, a.window).OkOr(Overflow) else Ok(a.endTime)
  }

  function PlaceBid(s: State, now: U64, bidder: Address, id: nat, bid: I128): Result<State, MarketError> {
    var _ :- Need(!s.paused, ContractPaused);
    var _ :- Need(Signs(s, bidder), HostPanic);
    var _ :- Need(bid > 0, InvalidAmount);
    var a :- Get(s.auctions, id).OkOr(ListingNotFound);
    var _ :- Need(a.status == AuctionStatus.Active, AuctionEnded);
    var _ :- Need(a.kind == English, InvalidArgument);
    var _ :- Need(now < a.endTime, AuctionEnded);
    var minBid :- MinBid(a, s.bidIncrementBps);
    var _ :- Need(bid >= minBid, BidTooLow);
    var _ :- Need(!(a.currentBid > 0 && a.currentBidder == bidder), BidderIsCurrentHighest);
    var refunded :-
      if a.currentBid > 0 then Move(s.ledger, a.currency, s.self, a.currentBidder, a.currentBid) else Ok(s.ledger);
    var ledger :- Move(refunded, a.currency, bidder, s.self, bid);
    var endTime :- ExtendedEnd(a, now);
    var _ :- Need(endTime >= 0, HostPanic);
    Ok(s.(ledger := ledger,
          auctions := s.auctions[id := a.(currentBid := bid, currentBidder := bidder, endTime := endTime)]))
  }

  function SettleEnglish(s: State, now: U64, id: nat): Result<State, MarketError> {
    var _ :- Need(!s.paused, ContractPaused);
    var a :- Get(s.auctions, id).OkOr(ListingNotFound);
    var _ :- Need(a.status != Settled, ListingAlreadySold);
    var _ :- Need(a.status == AuctionStatus.Active || a.status == Ended, AuctionEnded);
    var _ :- Need(now >= a.endTime, AuctionNotYetEnded);
    var ledger :-
      if a.currentBid == 0 then Move(s.ledger, a.collection, s.self, a.seller, a.amount)
      else Sell(s, a.currency, s.self, a.collection, a.currentBid, a.seller, a.currentBidder, a.amount);
    var cs :- UpdateStats(s.collections, a.collection, 0, -1);
    Ok(s.(auctions := s.auctions[id := a.(status := Settled)], ledger := ledger, collections := cs))
  }

  function BuyDutch(s: State, now: U64, buyer: Address, id: nat): Result<State, MarketError> {
    var _ :- Need(!s.paused, ContractPaused);
    var _ :- Need(Signs(s, buyer), HostPanic);
    var a :- Get(s.auctions, id).OkOr(ListingNotFound);
    var _ :- Need(a.status == AuctionStatus.Active, AuctionEnded);
    var _ :- Need(a.kind == Dutch, InvalidArgument);
    var price :- DutchPrice(a, now);
    var _ :- Need(price != 0, DutchAuctionPriceZero);
    var ledger :- Sell(s, a.currency, buyer, a.collection, price, a.seller, buyer, a.amount);
    var cs :- UpdateStats(s.collections, a.collection, 0, -1);
    Ok(s.(auctions := s.auctions[id := a.(status := Settled)], ledger := ledger, collections := cs))
  }

  function CancelDutch(s: State, caller: Address, id: nat): Result<State, MarketError> {
    var _ :- Need(Signs(s, caller), HostPanic);
    var a :- Get(s.auctions, id).OkOr(ListingNotFound);
    var _ :- Need(a.status == AuctionStatus.Active, AuctionEnded);
    var _ :- Need(a.kind == Dutch, InvalidArgument);
    var _ :- Need(a.seller == caller, NotOwner);
    var ledger :- Move(s.ledger, a.collection, s.self, a.seller, a.amount);
    var cs :- UpdateStats(s.collections, a.collection, 0, -1);
    Ok(s.(auctions := s.auctions[id := a.(status := AuctionStatus.Cancelled)], ledger := ledger, collections := cs))
  }

  // -------------------------------------------------------------------------
  // Offers
  // -------------------------------------------------------------------------

  function MakeOffer(s: State, now: U64, offerer: Address, recipient: Address, collection: Address, tokenId: U64,
                     amount: U64, offerAmount: I128, currency: Address, duration: U64)
    : Result<(State, nat), MarketError>
  {
    var _ :- Need(!s.paused, ContractPaused);
    var _ :- Need(Signs(s, offerer), HostPanic);
    var _ :- Need(offerAmount > 0, InvalidAmount);
    var _ :- Need(Whitelisted(s, currency), CurrencyNotWhitelisted);
    var _ :- Need(0 < duration <= MAX_DURATION, InvalidArgument);
    var id :- NextId(s.offerSeq);
    var expiresAt :- CheckedAddU64(now, duration).OkOr(Overflow);
    var ledger :- Move(s.ledger, currency, offerer, s.self, offerAmount);
    Ok((s.(offerSeq := id, ledger := ledger,
           offers := s.offers[id :=
             Offer(id, offerer, recipient, collection, tokenId, amount, offerAmount, currency, Pending,
                   now + duration)]), id))
  }

  /** Pays an accepted offer out of escrow, less the fee, and moves the parcel to the offerer. */
  function OfferLedger(s: State, o: Offer, caller: Address): Result<Ledger, MarketError> {
    var fee :- PlatformFee(o.offerAmount, s.feeBps);
    var proceeds :- CheckedSub(o.offerAmount, fee).OkOr(Overflow);
    var paid :- PayAll(s.ledger, o.currency, s.self,
                       SalePayments(s, Split(fee, [], proceeds), o.recipient)).OkOr(HostPanic);
    Move(paid, o.collection, caller, o.offerer, o.amount)
  }

  function AcceptOffer(s: State, now: U64, caller: Address, id: nat): Result<State, MarketError> {
    var _ :- Need(!s.paused, ContractPaused);
    var _ :- Need(Signs(s, caller), HostPanic);
    var o :- Get(s.offers, id).OkOr(ListingNotFound);
    var _ :- Need(o.status == Pending, OfferAlreadySettled);
    var _ :- Need(o.recipient == caller, NotOfferRecipient);
    if now > o.expiresAt then
      // The refund is made and then undone, because the call reports an error.
      var _ :- Move(s.ledger, o.currency, s.self, o.offerer, o.offerAmount);
      Err(OfferExpired)
    else
      var ledger :- OfferLedger(s, o, caller);
      Ok(s.(offers := s.offers[id := o.(status := Accepted)], ledger := ledger))
  }

  function CancelOffer(s: State, caller: Address, id: nat): Result<State, MarketError> {
    var _ :- Need(Signs(s, caller), HostPanic);
    var o :- Get(s.offers, id).OkOr(ListingNotFound);
    var _ :- Need(o.status == Pending, OfferAlreadySettled);
    var _ :- Need(o.offerer == caller, NotOwner);
    var ledger :- Move(s.ledger, o.currency, s.self, o.offerer, o.offerAmount);
    Ok(s.(offers := s.offers[id := o.(status := OfferStatus.Cancelled)], ledger := ledger))
  }

  // -------------------------------------------------------------------------
  // Bulk operations
  // -------------------------------------------------------------------------

  predicate ListingItemValid(s: State, item: ListingItem) {
    && item.price > 0 && Whitelisted(s, item.currency)
    && |item.hash| == METADATA_HASH_LEN && item.collection in s.collections
  }

  /** Invalid items are counted and skipped; a failing transfer fails the whole call. */
  function BulkListFrom(s: State, seller: Address, items: seq<ListingItem>, sofar: BulkResult)
    : Result<(State, BulkResult), MarketError>
    decreases |items|
  {
    if items == [] then Ok((s, sofar))
    else if !ListingItemValid(s, items[0]) then
      BulkListFrom(s, seller, items[1..], sofar.(failed := sofar.failed + 1))
    else
      var item := items[0];
      var r :- OpenListing(s, seller, item.collection, item.tokenId, item.amount, item.price, item.currency);
      BulkListFrom(r.0, seller, items[1..], sofar.(succeeded := sofar.succeeded + 1, ids := sofar.ids + [r.1]))
  }

  function BulkList(s: State, seller: Address, items: seq<ListingItem>): Result<(State, BulkResult), MarketError> {
    var _ :- Need(!s.paused, ContractPaused);
    var _ :- Need(Signs(s, seller), HostPanic);
    var _ :- Need(0 < |items| <= MAX_BULK_SIZE, InvalidArgument);
    BulkListFrom(s, seller, items, BulkResult(0, 0, []))
  }

  predicate AuctionItemValid(s: State, item: AuctionItem) {
    && 0 < item.duration <= MAX_DURATION && item.startPrice > 0
    && (item.kind == Dutch ==> item.floorPrice < item.startPrice)
    && item.collection in s.collections
  }

  function BulkAuctionsFrom(s: State, now: U64, seller: Address, items: seq<AuctionItem>, sofar: BulkResult)
    : Result<(State, BulkResult), MarketError>
    decreases |items|
  {
    if items == [] then Ok((s, sofar))
    else if !AuctionItemValid(s, items[0]) then
      BulkAuctionsFrom(s, now, seller, items[1..], sofar.(failed := sofar.failed + 1))
    else
      var item := items[0];
      var r :- OpenAuction(s, now, item.kind, seller, item.collection, item.tokenId, item.amount, item.startPrice,
                           item.floorPrice, item.currency, Min(now + item.duration, U64_MAX));
      BulkAuctionsFrom(r.0, now, seller, items[1..], sofar.(succeeded := sofar.succeeded + 1, ids := sofar.ids + [r.1]))
  }

  function BulkCreateAuctions(s: State, now: U64, seller: Address, items: seq<AuctionItem>)
    : Result<(State, BulkResult), MarketError>
  {
    var _ :- Need(!s.paused, ContractPaused);
    var _ :- Need(Signs(s, seller), HostPanic);
    var _ :- Need(0 < |items| <= MAX_BULK_SIZE, InvalidArgument);
    BulkAuctionsFrom(s, now, seller, items, BulkResult(0, 0, []))
  }

  // -------------------------------------------------------------------------
  // Runs
  // -------------------------------------------------------------------------

  datatype Call =
    | CallSetPlatformFee(caller: Address, bps: I128)
    | CallSetFeeRecipient(caller: Address, who: Address)
    | CallSetBidIncrement(caller: Address, bps: I128)
    | CallSetAutoExtension(caller: Address, seconds: U64)
    | CallSetCurrency(caller: Address, currency: Address, whitelisted: bool)
    | CallRegisterCollection(caller: Address, collection: Address, hash: Bytes, recipients: seq<Recipient>)
    | CallSetRoyalties(caller: Address, collection: Address, recipients: seq<Recipient>)
    | CallListNft(caller: Address, collection: Address, tokenId: U64, amount: U64, price: I128, currency: Address,
                  hash: Bytes)
    | CallBuyNft(caller: Address, id: nat)
    | CallCancelListing(caller: Address, id: nat)
    | CallCreateEnglish(caller: Address, collection: Address, tokenId: U64, amount: U64, price: I128, currency: Address,
                        duration: U64, hash: Bytes)
    | CallPlaceBid(caller: Address, id: nat, bid: I128)
    | CallSettleEnglish(id: nat)
    | CallCreateDutch(caller: Address, collection: Address, tokenId: U64, amount: U64, price: I128, floorPrice: I128,
                      currency: Address, duration: U64, hash: Bytes)
    | CallBuyDutch(caller: Address, id: nat)
    | CallCancelDutch(caller: Address, id: nat)
    | CallMakeOffer(caller: Address, recipient: Address, collection: Address, tokenId: U64, amount: U64,
                    offerAmount: I128, currency: Address, duration: U64)
    | CallAcceptOffer(caller: Address, id: nat)
    | CallCancelOffer(caller: Address, id: nat)
    | CallBulkList(caller: Address, listingItems: seq<ListingItem>)
    | CallBulkCreateAuctions(caller: Address, auctionItems: seq<AuctionItem>)
    | Elsewhere(token: Address, from: Address, to: Address, units: I128)  // a token moves without the marketplace
    | Issued(token: Address, to: Address, minted: nat)

  function First<T>(r: Result<(State, T), MarketError>): Result<State, MarketError> {
    match r
    case Ok((s, _)) => Ok(s)
    case Err(e) => Err(e)
  }

  function Apply(s: State, now: U64, call: Call): Result<State, MarketError> {
    match call
    case CallSetPlatformFee(caller, bps) => SetPlatformFee(s, caller, bps)
    case CallSetFeeRecipient(caller, who) => SetFeeRecipient(s, caller, who)
    case CallSetBidIncrement(caller, bps) => SetBidIncrement(s, caller, bps)
    case CallSetAutoExtension(caller, seconds) => SetAutoExtension(s, caller, seconds)
    case CallSetCurrency(caller, currency, whitelisted) => SetCurrency(s, caller, currency, whitelisted)
    case CallRegisterCollection(caller, c, hash, rs) => RegisterCollection(s, caller, c, hash, rs)
    case CallSetRoyalties(caller, c, rs) => SetRoyalties(s, caller, c, rs)
    case CallListNft(caller, c, tokenId, amount, price, currency, hash) =>
      First(ListNft(s, caller, c, tokenId, amount, price, currency, hash))
    case CallBuyNft(caller, id) => BuyNft(s, caller, id)
    case CallCancelListing(caller, id) => CancelListing(s, caller, id)
    case CallCreateEnglish(caller, c, tokenId, amount, price, currency, duration, hash) =>
      First(CreateEnglish(s, now, caller, c, tokenId, amount, price, currency, duration, hash))
    case CallPlaceBid(caller, id, bid) => PlaceBid(s, now, caller, id, bid)
    case CallSettleEnglish(id) => SettleEnglish(s, now, id)
    case CallCreateDutch(caller, c, tokenId, amount, price, floorPrice, currency, duration, hash) =>
      First(CreateDutch(s, now, caller, c, tokenId, amount, price, floorPrice, currency, duration, hash))
    case CallBuyDutch(caller, id) => BuyDutch(s, now, caller, id)
    case CallCancelDutch(caller, id) => CancelDutch(s, caller, id)
    case CallMakeOffer(caller, recipient, c, tokenId, amount, offerAmount, currency, duration) =>
      First(MakeOffer(s, now, caller, recipient, c, tokenId, amount, offerAmount, currency, duration))
    case CallAcceptOffer(caller, id) => AcceptOffer(s, now, caller, id)
    case CallCancelOffer(caller, id) => CancelOffer(s, caller, id)
    case CallBulkList(caller, items) => First(BulkList(s, caller, items))
    case CallBulkCreateAuctions(caller, items) => First(BulkCreateAuctions(s, now, caller, items))
    case Elsewhere(token, from, to, units) =>
      var _ :- Need(Signs(s, from), HostPanic);
      var ledger :- Move(s.ledger, token, from, to, units);
      Ok(s.(ledger := ledger))
    case Issued(token, to, minted) =>
      Ok(s.(ledger := s.ledger[(token, to) := Bal(s.ledger, token, to) + minted]))
  }

  /** A call at a ledger time. */
  datatype Tx = Tx(now: U64, call: Call)

  ghost function Step(s: State, tx: Tx): State { After(s, Apply(s, tx.now, tx.call)) }

  ghost function Run(s: State, txs: seq<Tx>): State {
    if txs == [] then s else Step(Run(s, txs[..|txs| - 1]), txs[|txs| - 1])
  }

  ghost predicate Start(s: State) {
    && 0 <= s.feeBps <= MAX_FEE_BPS && 0 <= s.bidIncrementBps <= MAX_BID_INCREMENT_BPS && s.autoExtension <= U64_MAX
    && Initialize(s.self, s.admin, s.feeBps, s.feeRecipient, s.bidIncrementBps, s.autoExtension, s.paused, s.ledger)
         == Ok(s)
  }
}

/** The marketplace can always cover what it holds for others: one escrow account, three trade machines. */
module MarketSolvency {
  import opened Host
  import opened Sums
  import opened Token
  import opened Market
  import opened MarketPricing
  import opened MarketInvariant

  ghost function ListingHold(t: Address): (nat, Listing) -> int {
    (id: nat, l: Listing) => if l.status == ListingStatus.Active && l.collection == t then l.amount else 0
  }

  ghost function AuctionHold(t: Address): (nat, Auction) -> int {
    (id: nat, a: Auction) =>
      if Live(a)
      then (if a.collection == t then a.amount else 0)
           + (if a.kind == English && a.currency == t then a.currentBid else 0)
      else 0
  }

  ghost function OfferHold(t: Address): (nat, Offer) -> int {
    (id: nat, o: Offer) => if o.status == Pending && o.currency == t then o.offerAmount else 0
  }

  /** What the marketplace holds of a token on behalf of sellers, bidders and offerers. */
  ghost function Liability(s: State, t: Address): int {
    SumOf(s.listings, ListingHold(t)) + SumOf(s.auctions, AuctionHold(t)) + SumOf(s.offers, OfferHold(t))
  }

  ghost function Surplus(s: State, t: Address): int {
    Bal(s.ledger, t, s.self) - Liability(s, t)
  }

  ghost predicate Solvent(s: State) {
    forall t: Address :: Bal(s.ledger, t, s.self) >= Liability(s, t)
  }

  /** What a settlement pays beyond the winning bid: fee and royalties have no common cap. */
  ghost function Overpaid(s: State, tx: Tx, t: Address): nat {
    match tx.call
    case CallSettleEnglish(id) =>
      if SettleEnglish(s, tx.now, id).Err? || s.auctions[id].currentBid == 0 || s.auctions[id].currency != t then 0
      else
        var a := s.auctions[id];
        Max(0, -SplitPrice(s, a.collection, a.currentBid).value.proceeds)
    case _ => 0
  }

  // -------------------------------------------------------------------------
  // The surplus under each call
  // -------------------------------------------------------------------------

  lemma ListingWriteLiability(s: State, id: nat, l: Listing, s': State, t: Address)
    requires s'.listings == s.listings[id := l] && s'.auctions == s.auctions && s'.offers == s.offers
    ensures Liability(s', t) == Liability(s, t) - Term(s.listings, id, ListingHold(t)) + ListingHold(t)(id, l)
  {
    SumUpdate(s.listings, id, l, ListingHold(t));
  }

  lemma AuctionWriteLiability(s: State, id: nat, a: Auction, s': State, t: Address)
    requires s'.auctions == s.auctions[id := a] && s'.listings == s.listings && s'.offers == s.offers
    ensures Liability(s', t) == Liability(s, t) - Term(s.auctions, id, AuctionHold(t)) + AuctionHold(t)(id, a)
  {
    SumUpdate(s.auctions, id, a, AuctionHold(t));
  }

  lemma OfferWriteLiability(s: State, id: nat, o: Offer, s': State, t: Address)
    requires s'.offers == s.offers[id := o] && s'.listings == s.listings && s'.auctions == s.auctions
    ensures Liability(s', t) == Liability(s, t) - Term(s.offers, id, OfferHold(t)) + OfferHold(t)(id, o)
  {
    SumUpdate(s.offers, id, o, OfferHold(t));
  }

  lemma OpenListingSurplus(s: State, seller: Address, c: Address, tokenId: U64, amount: U64, price: I128,
                           currency: Address, t: Address)
    requires ListingsOk(s) && seller != s.self && OpenListing(s, seller, c, tokenId, amount, price, currency).Ok?
    ensures Surplus(OpenListing(s, seller, c, tokenId, amount, price, currency).value.0, t) == Surplus(s, t)
  {
    var s' := OpenListing(s, seller, c, tokenId, amount, price, currency).value.0;
    var id := s.listingSeq + 1;
    ListingWriteLiability(s, id, s'.listings[id], s', t);
  }

  lemma OpenAuctionSurplus(s: State, now: U64, kind: AuctionType, seller: Address, c: Address, tokenId: U64,
                           amount: U64, startPrice: I128, floorPrice: I128, currency: Address, endTime: nat, t: Address)
    requires AuctionsOk(s) && seller != s.self
    requires OpenAuction(s, now, kind, seller, c, tokenId, amount, startPrice, floorPrice, currency, endTime).Ok?
    ensures Surplus(OpenAuction(s, now, kind, seller, c, tokenId, amount, startPrice, floorPrice, currency, endTime)
                    .value.0, t)
         == Surplus(s, t)
  {
    var s' := OpenAuction(s, now, kind, seller, c, tokenId, amount, startPrice, floorPrice, currency, endTime).value.0;
    var id := s.auctionSeq + 1;
    AuctionWriteLiability(s, id, s'.auctions[id], s', t);
  }

  /** A sale paid by somebody else leaves the marketplace at least as well off, apart from the parcel. */
  lemma BoughtEffect(l: Ledger, self: Address, currency: Address, buyer: Address, ps: Payments,
                     token: Address, amount: nat, t: Address)
    requires buyer != self && PayAll(l, currency, buyer, ps).Some?
    requires Transfer(PayAll(l, currency, buyer, ps).value, token, self, buyer, amount).Some?
    ensures Bal(Transfer(PayAll(l, currency, buyer, ps).value, token, self, buyer, amount).value, t, self)
         >= Bal(l, t, self) - (if t == token then amount else 0)
  {
    PayAllEffect(l, currency, buyer, ps);
    ReceivedNonNegative(ps, self);
  }

  lemma BuyNftSurplus(s: State, buyer: Address, id: nat, t: Address)
    requires ListingsOk(s) && BuyNft(s, buyer, id).Ok?
    ensures Surplus(BuyNft(s, buyer, id).value, t) >= Surplus(s, t)
  {
    var l, s' := s.listings[id], BuyNft(s, buyer, id).value;
    var split := SplitPrice(s, l.collection, l.price).value;
    BoughtEffect(s.ledger, s.self, l.currency, buyer, SalePayments(s, split, l.seller), l.collection, l.amount, t);
    ListingWriteLiability(s, id, s'.listings[id], s', t);
  }

  lemma BuyDutchSurplus(s: State, now: U64, buyer: Address, id: nat, t: Address)
    requires AuctionsOk(s) && BuyDutch(s, now, buyer, id).Ok?
    ensures Surplus(BuyDutch(s, now, buyer, id).value, t) >= Surplus(s, t)
  {
    var a, s' := s.auctions[id], BuyDutch(s, now, buyer, id).value;
    var split := SplitPrice(s, a.collection, DutchPrice(a, now).value).value;
    BoughtEffect(s.ledger, s.self, a.currency, buyer, SalePayments(s, split, a.seller), a.collection, a.amount, t);
    AuctionWriteLiability(s, id, s'.auctions[id], s', t);
  }

  lemma CancelListingSurplus(s: State, caller: Address, id: nat, t: Address)
    requires ListingsOk(s) && CancelListing(s, caller, id).Ok?
    ensures Surplus(CancelListing(s, caller, id).value, t) == Surplus(s, t)
  {
    var s' := CancelListing(s, caller, id).value;
    ListingWriteLiability(s, id, s'.listings[id], s', t);
  }

  lemma CancelDutchSurplus(s: State, caller: Address, id: nat, t: Address)
    requires AuctionsOk(s) && CancelDutch(s, caller, id).Ok?
    ensures Surplus(CancelDutch(s, caller, id).value, t) == Surplus(s, t)
  {
    var s' := CancelDutch(s, caller, id).value;
    AuctionWriteLiability(s, id, s'.auctions[id], s', t);
  }

  lemma PlaceBidLedger(s: State, now: U64, bidder: Address, id: nat, bid: I128, t: Address)
    requires AuctionsOk(s) && PlaceBid(s, now, bidder, id, bid).Ok?
    ensures var a := s.auctions[id];
            Bal(PlaceBid(s, now, bidder, id, bid).value.ledger, t, s.self)
              == Bal(s.ledger, t, s.self) + if t == a.currency then bid - a.currentBid else 0
  {
  }

  /** The new bid comes in and the old one goes out: escrow and obligation move together. */
  lemma PlaceBidSurplus(s: State, now: U64, bidder: Address, id: nat, bid: I128, t: Address)
    requires AuctionsOk(s) && PlaceBid(s, now, bidder, id, bid).Ok?
    ensures Surplus(PlaceBid(s, now, bidder, id, bid).value, t) == Surplus(s, t)
  {
    PlaceBidWrites(s, now, bidder, id, bid);
    PlaceBidLedger(s, now, bidder, id, bid, t);
    var s' := PlaceBid(s, now, bidder, id, bid).value;
    AuctionWriteLiability(s, id, s'.auctions[id], s', t);
  }

  lemma PositiveReceived(ps: Payments, who: Address)
    requires AllPositive(ps)
    ensures 0 <= Received(ps, who) <= Total(ps)
  {
    assert forall i :: 0 <= i < |ps| ==> ps[i] in ps;
    ReceivedNonNegative(ps, who);
  }

  /** What a settlement pays for its winning bid. */
  function WinningPayments(s: State, a: Auction): Payments
    requires SplitPrice(s, a.collection, a.currentBid).Ok?
  {
    SalePayments(s, SplitPrice(s, a.collection, a.currentBid).value, a.seller)
  }

  lemma WinningTotal(s: State, a: Auction)
    requires SplitPrice(s, a.collection, a.currentBid).Ok?
    ensures var split := SplitPrice(s, a.collection, a.currentBid).value;
            && AllPositive(WinningPayments(s, a))
            && Total(WinningPayments(s, a)) == a.currentBid + Max(0, -split.proceeds)
            && split.fee + Total(split.royalties) + split.proceeds == a.currentBid
  {
    SplitAddsUp(s, a.collection, a.currentBid);
    SalePaymentsTotal(s, SplitPrice(s, a.collection, a.currentBid).value, a.seller);
  }

  /** What a settlement takes out of the marketplace of a token: the parcel and the payments to others. */
  function NoLongerThere(s: State, a: Auction, t: Address): int
    requires SplitPrice(s, a.collection, a.currentBid).Ok?
  {
    (if t == a.collection then a.amount else 0)
    + (if t == a.currency then Total(WinningPayments(s, a)) - Received(WinningPayments(s, a), s.self) else 0)
  }

  /** The payments of a settlement, against the bid that was escrowed for them. */
  lemma SettlementLedger(s: State, now: U64, id: nat, t: Address)
    requires AuctionsOk(s) && SettleEnglish(s, now, id).Ok? && s.auctions[id].currentBid > 0
    ensures SplitPrice(s, s.auctions[id].collection, s.auctions[id].currentBid).Ok?
    ensures Bal(SettleEnglish(s, now, id).value.ledger, t, s.self)
         == Bal(s.ledger, t, s.self) - NoLongerThere(s, s.auctions[id], t)
  {
    var a := s.auctions[id];
    SaleEffect(s.ledger, a.currency, s.self, WinningPayments(s, a), a.collection, s.self, a.currentBidder, a.amount);
  }

  /** What a settlement no longer owes of a token: the parcel and the standing bid. */
  function NoLongerOwed(a: Auction, t: Address): int {
    (if t == a.collection then a.amount else 0) + (if a.kind == English && t == a.currency then a.currentBid else 0)
  }

  lemma SettleLiability(s: State, now: U64, id: nat, t: Address)
    requires AuctionsOk(s) && SettleEnglish(s, now, id).Ok?
    ensures id in s.auctions && Live(s.auctions[id]) && SettleEnglish(s, now, id).value.self == s.self
    ensures Liability(SettleEnglish(s, now, id).value, t) == Liability(s, t) - NoLongerOwed(s.auctions[id], t)
  {
    SettleEnglishWrites(s, now, id);
    AuctionWriteLiability(s, id, s.auctions[id].(status := Settled), SettleEnglish(s, now, id).value, t);
  }

  /** A settlement changes the surplus by the bid, less what is paid for it to others. */
  lemma SettlementSurplus(s: State, now: U64, id: nat, t: Address)
    requires AuctionsOk(s) && SettleEnglish(s, now, id).Ok? && s.auctions[id].currentBid > 0
    ensures var a := s.auctions[id];
            Surplus(SettleEnglish(s, now, id).value, t) == Surplus(s, t)
              + (if t == a.currency
                 then a.currentBid - Total(WinningPayments(s, a)) + Received(WinningPayments(s, a), s.self)
                 else 0)
  {
    var a := s.auctions[id];
    SettleLiability(s, now, id, t);
    SettlementLedger(s, now, id, t);
    SurplusMoves(s, SettleEnglish(s, now, id).value, t, NoLongerOwed(a, t), NoLongerThere(s, a, t));
  }

  /** What is no longer owed, less what is no longer there. */
  lemma SurplusMoves(s: State, s': State, t: Address, settled: int, gone: int)
    requires s'.self == s.self
    requires Liability(s', t) == Liability(s, t) - settled
    requires Bal(s'.ledger, t, s.self) == Bal(s.ledger, t, s.self) - gone
    ensures Surplus(s', t) == Surplus(s, t) + settled - gone
  {
  }

  lemma UnsoldSurplus(s: State, now: U64, id: nat, t: Address)
    requires AuctionsOk(s) && SettleEnglish(s, now, id).Ok? && s.auctions[id].currentBid == 0
    ensures Surplus(SettleEnglish(s, now, id).value, t) >= Surplus(s, t)
  {
    SettleLiability(s, now, id, t);
  }

  lemma SettleEnglishSurplus(s: State, now: U64, id: nat, t: Address)
    requires AuctionsOk(s) && SettleEnglish(s, now, id).Ok?
    ensures Surplus(SettleEnglish(s, now, id).value, t)
         >= Surplus(s, t) - Overpaid(s, Tx(now, CallSettleEnglish(id)), t)
  {
    if s.auctions[id].currentBid > 0 {
      SettlementSurplus(s, now, id, t);
      WinningTotal(s, s.auctions[id]);
      PositiveReceived(WinningPayments(s, s.auctions[id]), s.self);
    } else {
      UnsoldSurplus(s, now, id, t);
    }
  }

  lemma MakeOfferSurplus(s: State, now: U64, offerer: Address, recipient: Address, c: Address, tokenId: U64,
                         amount: U64, offerAmount: I128, currency: Address, duration: U64, t: Address)
    requires OffersOk(s)
    requires MakeOffer(s, now, offerer, recipient, c, tokenId, amount, offerAmount, currency, duration).Ok?
    ensures Surplus(MakeOffer(s, now, offerer, recipient, c, tokenId, amount, offerAmount, currency, duration).value.0,
                    t)
         == Surplus(s, t)
  {
    var s' := MakeOffer(s, now, offerer, recipient, c, tokenId, amount, offerAmount, currency, duration).value.0;
    var id := s.offerSeq + 1;
    OfferWriteLiability(s, id, s'.offers[id], s', t);
  }

  lemma OfferSplit(s: State, id: nat)
    requires OffersOk(s) && id in s.offers && 0 <= s.feeBps <= MAX_FEE_BPS
    requires PlatformFee(s.offers[id].offerAmount, s.feeBps).Ok?
    ensures var o, fee := s.offers[id], PlatformFee(s.offers[id].offerAmount, s.feeBps).value;
            var ps := SalePayments(s, Split(fee, [], o.offerAmount - fee), o.recipient);
            0 <= fee <= o.offerAmount && AllPositive(ps) && Total(ps) == o.offerAmount
  {
    var o, fee := s.offers[id], PlatformFee(s.offers[id].offerAmount, s.feeBps).value;
    FeeWithinRate(o.offerAmount, s.feeBps);
    RatesTogether(o.offerAmount, s.feeBps, 0);
    SalePaymentsTotal(s, Split(fee, [], o.offerAmount - fee), o.recipient);
  }

  /** What an accepted offer does to one balance. */
  ghost function OfferFlow(s: State, o: Offer, fee: int, t: Address, x: Address): int {
    (if t == o.currency
     then (if x == s.feeRecipient then fee else 0) + (if x == o.recipient then o.offerAmount - fee else 0)
          - (if x == s.self then o.offerAmount else 0)
     else 0)
    + (if t != o.collection then 0
       else (if x == o.offerer then o.amount else 0) - (if x == o.recipient then o.amount else 0))
  }

  /** An accepted offer pays its recipient the offered amount less the fee, exactly what was held for it, and the
      parcel goes from the recipient to the offerer. */
  lemma AcceptedOfferPays(s: State, now: U64, caller: Address, id: nat)
    requires OffersOk(s) && 0 <= s.feeBps <= MAX_FEE_BPS && AcceptOffer(s, now, caller, id).Ok?
    ensures var o, l' := s.offers[id], AcceptOffer(s, now, caller, id).value.ledger;
            var fee := PlatformFee(o.offerAmount, s.feeBps).value;
            && caller == o.recipient && 0 <= fee <= o.offerAmount
            && forall t: Address, x: Address :: Bal(l', t, x) == Bal(s.ledger, t, x) + OfferFlow(s, o, fee, t, x)
  {
    OfferSplit(s, id);
    OfferLedgerEffect(s, s.offers[id], caller);
  }

  lemma OfferLedgerEffect(s: State, o: Offer, caller: Address)
    requires OfferLedger(s, o, caller).Ok? && caller == o.recipient
    requires 0 <= PlatformFee(o.offerAmount, s.feeBps).value <= o.offerAmount
    ensures var fee := PlatformFee(o.offerAmount, s.feeBps).value;
            forall t: Address, x: Address ::
              Bal(OfferLedger(s, o, caller).value, t, x) == Bal(s.ledger, t, x) + OfferFlow(s, o, fee, t, x)
  {
    var fee := PlatformFee(o.offerAmount, s.feeBps).value;
    var ps := SalePayments(s, Split(fee, [], o.offerAmount - fee), o.recipient);
    OfferPayments(s, o, fee);
    SaleEffect(s.ledger, o.currency, s.self, ps, o.collection, caller, o.offerer, o.amount);
    OfferFlows(s, o, fee, ps, OfferLedger(s, o, caller).value);
  }

  /** The effect of a sale with the payments of an offer is the flow of the offer. */
  lemma OfferFlows(s: State, o: Offer, fee: int, ps: Payments, l': Ledger)
    requires Total(ps) == o.offerAmount
    requires forall x: Address :: Received(ps, x) ==
               (if x == s.feeRecipient then fee else 0) + (if x == o.recipient then o.offerAmount - fee else 0)
    requires forall t: Address, x: Address ::
               Bal(l', t, x) == Bal(s.ledger, t, x)
                 + (if t == o.currency then Received(ps, x) - (if x == s.self then Total(ps) else 0) else 0)
                 + (if t != o.collection then 0
                    else (if x == o.offerer then o.amount else 0) - (if x == o.recipient then o.amount else 0))
    ensures forall t: Address, x: Address :: Bal(l', t, x) == Bal(s.ledger, t, x) + OfferFlow(s, o, fee, t, x)
  {
    forall t: Address, x: Address ensures Bal(l', t, x) == Bal(s.ledger, t, x) + OfferFlow(s, o, fee, t, x) {
      assert Received(ps, x) ==
               (if x == s.feeRecipient then fee else 0) + (if x == o.recipient then o.offerAmount - fee else 0);
    }
  }

  lemma OfferPayments(s: State, o: Offer, fee: int)
    requires 0 <= fee <= o.offerAmount
    ensures var ps := SalePayments(s, Split(fee, [], o.offerAmount - fee), o.recipient);
            && Total(ps) == o.offerAmount
            && forall x: Address :: Received(ps, x) ==
                 (if x == s.feeRecipient then fee else 0) + (if x == o.recipient then o.offerAmount - fee else 0)
  {
    var split := Split(fee, [], o.offerAmount - fee);
    SalePaymentsTotal(s, split, o.recipient);
    forall x: Address {
      TwoPayments(s, split, o.recipient, x);
    }
  }

  lemma TwoPayments(s: State, split: Split, seller: Address, x: Address)
    requires split.fee >= 0 && split.royalties == [] && split.proceeds >= 0
    ensures Received(SalePayments(s, split, seller), x)
         == (if x == s.feeRecipient then split.fee else 0) + (if x == seller then split.proceeds else 0)
  {
    var head, tail := IfPositive(s.feeRecipient, split.fee), IfPositive(seller, split.proceeds);
    IfPositiveTotal(s.feeRecipient, split.fee);
    IfPositiveTotal(seller, split.proceeds);
    assert head + [] == head;
    ReceivedConcat(head, tail, x);
  }

  /** An accepted offer pays out exactly what was escrowed: the fee alone never exceeds a tenth of it. */
  lemma AcceptOfferSurplus(s: State, now: U64, caller: Address, id: nat, t: Address)
    requires OffersOk(s) && 0 <= s.feeBps <= MAX_FEE_BPS && AcceptOffer(s, now, caller, id).Ok?
    ensures Surplus(AcceptOffer(s, now, caller, id).value, t) >= Surplus(s, t)
  {
    AcceptedOfferPays(s, now, caller, id);
    var s' := AcceptOffer(s, now, caller, id).value;
    OfferWriteLiability(s, id, s'.offers[id], s', t);
  }

  lemma CancelOfferSurplus(s: State, caller: Address, id: nat, t: Address)
    requires OffersOk(s) && CancelOffer(s, caller, id).Ok?
    ensures Surplus(CancelOffer(s, caller, id).value, t) >= Surplus(s, t)
  {
    var s' := CancelOffer(s, caller, id).value;
    OfferWriteLiability(s, id, s'.offers[id], s', t);
  }

  /** Opening a listing keeps the records in order and the surplus as it was. */
  lemma OpenListingKeeps(s: State, seller: Address, item: ListingItem, t: Address)
    requires Inv(s) && seller != s.self && item.collection in s.collections && item.price > 0
    requires OpenListing(s, seller, item.collection, item.tokenId, item.amount, item.price, item.currency).Ok?
    ensures var s' := OpenListing(s, seller, item.collection, item.tokenId, item.amount, item.price,
                                  item.currency).value.0;
            Inv(s') && s'.self == s.self && Surplus(s', t) == Surplus(s, t)
  {
    OpenListingKeepsInv(s, seller, item.collection, item.tokenId, item.amount, item.price, item.currency);
    OpenListingSurplus(s, seller, item.collection, item.tokenId, item.amount, item.price, item.currency, t);
  }

  lemma OpenAuctionKeeps(s: State, now: U64, seller: Address, item: AuctionItem, end: nat, t: Address)
    requires Inv(s) && seller != s.self && item.collection in s.collections && item.startPrice > 0
    requires OpenAuction(s, now, item.kind, seller, item.collection, item.tokenId, item.amount, item.startPrice,
                         item.floorPrice, item.currency, end).Ok?
    ensures var s' := OpenAuction(s, now, item.kind, seller, item.collection, item.tokenId, item.amount,
                                  item.startPrice, item.floorPrice, item.currency, end).value.0;
            Inv(s') && s'.self == s.self && Surplus(s', t) == Surplus(s, t)
  {
    OpenAuctionKeepsInv(s, now, item.kind, seller, item.collection, item.tokenId, item.amount, item.startPrice,
                        item.floorPrice, item.currency, end);
    OpenAuctionSurplus(s, now, item.kind, seller, item.collection, item.tokenId, item.amount, item.startPrice,
                       item.floorPrice, item.currency, end, t);
  }

  lemma {:induction false} BulkListSurplus(s: State, seller: Address, items: seq<ListingItem>, sofar: BulkResult,
                                           t: Address)
    requires Inv(s) && seller != s.self && BulkListFrom(s, seller, items, sofar).Ok?
    ensures Surplus(BulkListFrom(s, seller, items, sofar).value.0, t) == Surplus(s, t)
    decreases |items|
  {
    if items != [] {
      var item := items[0];
      if !ListingItemValid(s, item) {
        BulkListSurplus(s, seller, items[1..], sofar.(failed := sofar.failed + 1), t);
      } else {
        OpenListingKeeps(s, seller, item, t);
        var r := OpenListing(s, seller, item.collection, item.tokenId, item.amount, item.price, item.currency).value;
        BulkListSurplus(r.0, seller, items[1..], sofar.(succeeded := sofar.succeeded + 1, ids := sofar.ids + [r.1]), t);
      }
    }
  }

  lemma {:induction false} BulkAuctionsSurplus(s: State, now: U64, seller: Address, items: seq<AuctionItem>,
                                               sofar: BulkResult, t: Address)
    requires Inv(s) && seller != s.self && BulkAuctionsFrom(s, now, seller, items, sofar).Ok?
    ensures Surplus(BulkAuctionsFrom(s, now, seller, items, sofar).value.0, t) == Surplus(s, t)
    decreases |items|
  {
    if items != [] {
      var item := items[0];
      if !AuctionItemValid(s, item) {
        BulkAuctionsSurplus(s, now, seller, items[1..], sofar.(failed := sofar.failed + 1), t);
      } else {
        var end := Min(now + item.duration, U64_MAX);
        OpenAuctionKeeps(s, now, seller, item, end, t);
        var r := OpenAuction(s, now, item.kind, seller, item.collection, item.tokenId, item.amount, item.startPrice,
                             item.floorPrice, item.currency, end).value;
        BulkAuctionsSurplus(r.0, now, seller, items[1..],
                            sofar.(succeeded := sofar.succeeded + 1, ids := sofar.ids + [r.1]), t);
      }
    }
  }

  lemma OtherCallSurplus(s: State, now: U64, call: Call, t: Address)
    requires (OnCollections(call) || OnConfig(call)) && Apply(s, now, call).Ok?
    ensures Surplus(Apply(s, now, call).value, t) >= Surplus(s, t)
  {
    var s' := Apply(s, now, call).value;
    assert s'.listings == s.listings && s'.auctions == s.auctions && s'.offers == s.offers && s'.self == s.self;
  }

  lemma ListingCallSurplus(s: State, now: U64, call: Call, t: Address)
    requires Inv(s) && OnListings(call) && Apply(s, now, call).Ok?
    ensures Surplus(Apply(s, now, call).value, t) >= Surplus(s, t)
  {
    match call
    case CallListNft(caller, c, tokenId, amount, price, currency, hash) =>
      OpenListingSurplus(s, caller, c, tokenId, amount, price, currency, t);
    case CallBuyNft(buyer, id) => BuyNftSurplus(s, buyer, id, t);
    case CallCancelListing(caller, id) => CancelListingSurplus(s, caller, id, t);
    case CallBulkList(seller, items) => BulkListSurplus(s, seller, items, BulkResult(0, 0, []), t);
  }

  lemma NewAuctionCallSurplus(s: State, now: U64, call: Call, t: Address)
    requires Inv(s) && CreatesAuctions(call) && Apply(s, now, call).Ok?
    ensures Surplus(Apply(s, now, call).value, t) >= Surplus(s, t)
  {
    match call
    case CallCreateEnglish(caller, c, tokenId, amount, price, currency, duration, hash) =>
      CreateEnglishOpens(s, now, caller, c, tokenId, amount, price, currency, duration, hash);
      OpenAuctionSurplus(s, now, English, caller, c, tokenId, amount, price, 0, currency, now + duration, t);
    case CallCreateDutch(caller, c, tokenId, amount, price, floorPrice, currency, duration, hash) =>
      CreateDutchOpens(s, now, caller, c, tokenId, amount, price, floorPrice, currency, duration, hash);
      OpenAuctionSurplus(s, now, Dutch, caller, c, tokenId, amount, price, floorPrice, currency, now + duration, t);
    case CallBulkCreateAuctions(seller, items) => BulkAuctionsSurplus(s, now, seller, items, BulkResult(0, 0, []), t);
  }

  lemma OpenAuctionCallSurplus(s: State, tx: Tx, t: Address)
    requires Inv(s) && OnOpenAuction(tx.call) && Apply(s, tx.now, tx.call).Ok?
    ensures Surplus(Apply(s, tx.now, tx.call).value, t) >= Surplus(s, t) - Overpaid(s, tx, t)
  {
    match tx.call
    case CallPlaceBid(bidder, id, bid) => PlaceBidSurplus(s, tx.now, bidder, id, bid, t);
    case CallSettleEnglish(id) => SettleEnglishSurplus(s, tx.now, id, t);
    case CallBuyDutch(buyer, id) => BuyDutchSurplus(s, tx.now, buyer, id, t);
    case CallCancelDutch(caller, id) => CancelDutchSurplus(s, caller, id, t);
  }

  lemma OfferCallSurplus(s: State, now: U64, call: Call, t: Address)
    requires Inv(s) && OnOffers(call) && Apply(s, now, call).Ok?
    ensures Surplus(Apply(s, now, call).value, t) >= Surplus(s, t)
  {
    match call
    case CallMakeOffer(caller, recipient, c, tokenId, amount, offerAmount, currency, duration) =>
      MakeOfferSurplus(s, now, caller, recipient, c, tokenId, amount, offerAmount, currency, duration, t);
    case CallAcceptOffer(caller, id) => AcceptOfferSurplus(s, now, caller, id, t);
    case CallCancelOffer(caller, id) => CancelOfferSurplus(s, caller, id, t);
  }

  /** No call lowers the surplus of any token, except a settlement by what it overpays. */
  lemma StepKeepsSurplus(s: State, tx: Tx, t: Address)
    requires Inv(s)
    ensures Surplus(Step(s, tx), t) >= Surplus(s, t) - Overpaid(s, tx, t)
  {
    if Apply(s, tx.now, tx.call).Ok? {
      if OnListings(tx.call) {
        ListingCallSurplus(s, tx.now, tx.call, t);
      } else if CreatesAuctions(tx.call) {
        NewAuctionCallSurplus(s, tx.now, tx.call, t);
      } else if OnOpenAuction(tx.call) {
        OpenAuctionCallSurplus(s, tx, t);
      } else if OnOffers(tx.call) {
        OfferCallSurplus(s, tx.now, tx.call, t);
      } else {
        OtherCallSurplus(s, tx.now, tx.call, t);
      }
    }
  }

  // -------------------------------------------------------------------------
  // Over every run
  // -------------------------------------------------------------------------

  ghost function TotalOverpaid(start: State, txs: seq<Tx>, t: Address): nat {
    if txs == [] then 0
    else
      TotalOverpaid(start, txs[..|txs| - 1], t) + Overpaid(Run(start, txs[..|txs| - 1]), txs[|txs| - 1], t)
  }

  /** Over every run, whatever the rates: the marketplace is short of a token by no more than the
      settlements in that token have overpaid. */
  lemma {:induction false} ShortfallIsOverpaid(start: State, txs: seq<Tx>, t: Address)
    requires Start(start)
    ensures var s := Run(start, txs);
            Bal(s.ledger, t, s.self) + TotalOverpaid(start, txs, t) >= Liability(s, t)
  {
    if txs == [] {
      assert start.listings == map[] && start.auctions == map[] && start.offers == map[];
    } else {
      var front, last := txs[..|txs| - 1], txs[|txs| - 1];
      ShortfallIsOverpaid(start, front, t);
      ReachableInv(start, front);
      StepKeepsSurplus(Run(start, front), last, t);
    }
  }

  /** The combined rate in force for an auction is at most 10_000. */
  predicate RatesCover(s: State, id: nat) {
    id in s.auctions ==> s.feeBps + RoyaltyRate(s, s.auctions[id].collection) <= BPS_DENOM
  }

  /** A settlement that goes through and pays out a bid does so under covering rates. */
  ghost predicate Covered(s: State, tx: Tx) {
    tx.call.CallSettleEnglish? && SettleEnglish(s, tx.now, tx.call.id).Ok? && s.auctions[tx.call.id].currentBid > 0 ==>
      RatesCover(s, tx.call.id)
  }

  ghost predicate AllCovered(start: State, txs: seq<Tx>) {
    txs == [] || (AllCovered(start, txs[..|txs| - 1]) && Covered(Run(start, txs[..|txs| - 1]), txs[|txs| - 1]))
  }

  lemma CoveredNeverOverpays(s: State, tx: Tx, t: Address)
    requires Inv(s) && Covered(s, tx)
    ensures Overpaid(s, tx, t) == 0
  {
    if tx.call.CallSettleEnglish? && SettleEnglish(s, tx.now, tx.call.id).Ok? && s.auctions[tx.call.id].currentBid > 0 {
      var a := s.auctions[tx.call.id];
      SplitFits(s, a.collection, a.currentBid);
    }
  }

  lemma {:induction false} NothingOverpaid(start: State, txs: seq<Tx>, t: Address)
    requires Start(start) && AllCovered(start, txs)
    ensures TotalOverpaid(start, txs, t) == 0
  {
    if txs != [] {
      var front, last := txs[..|txs| - 1], txs[|txs| - 1];
      NothingOverpaid(start, front, t);
      ReachableInv(start, front);
      CoveredNeverOverpays(Run(start, front), last, t);
    }
  }

  /** Over every run whose settlements happen under a combined rate of at most 10_000, the marketplace owns of
      every token at least what it holds for sellers, bidders and offerers. */
  lemma ReachableSolvent(start: State, txs: seq<Tx>)
    requires Start(start) && AllCovered(start, txs)
    ensures Solvent(Run(start, txs))
  {
    var s := Run(start, txs);
    forall t: Address ensures Bal(s.ledger, t, s.self) >= Liability(s, t) {
      ShortfallIsOverpaid(start, txs, t);
      NothingOverpaid(start, txs, t);
    }
  }

  /** What fee and royalties exceed the winning bid by. */
  function Excess(s: State, a: Auction): nat
    requires SplitPrice(s, a.collection, a.currentBid).Ok?
  {
    var split := SplitPrice(s, a.collection, a.currentBid).value;
    Max(0, split.fee + Total(split.royalties) - a.currentBid)
  }

  lemma WinningExcess(s: State, a: Auction)
    requires SplitPrice(s, a.collection, a.currentBid).Ok?
    ensures Total(WinningPayments(s, a)) == a.currentBid + Excess(s, a)
  {
    WinningTotal(s, a);
  }

  /** The surplus a settlement costs, exactly: the excess, less what the marketplace itself receives of the
      payments. So it keeps the surplus if and only if the excess comes back. */
  lemma SettlementCostsExactly(s: State, now: U64, id: nat)
    requires AuctionsOk(s) && SettleEnglish(s, now, id).Ok? && s.auctions[id].currentBid > 0
    ensures var a := s.auctions[id];
            var before, after := Surplus(s, a.currency), Surplus(SettleEnglish(s, now, id).value, a.currency);
            var back := Received(WinningPayments(s, a), s.self);
            after == before - Excess(s, a) + back && (after >= before <==> Excess(s, a) <= back)
  {
    SettlementSurplus(s, now, id, s.auctions[id].currency);
    WinningExcess(s, s.auctions[id]);
  }
}

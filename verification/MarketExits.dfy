/** What solvency buys: whatever the marketplace holds can be taken back out, and leaves exactly once. */
module MarketExits {
  import opened Host
  import opened Sums
  import opened Token
  import opened Market
  import opened MarketPricing
  import opened MarketInvariant
  import opened MarketSolvency
  import opened MarketAuctions

  // -------------------------------------------------------------------------
  // Exits never run dry
  // -------------------------------------------------------------------------

  lemma LiabilityParts(s: State, t: Address)
    requires Inv(s)
    ensures SumOf(s.listings, ListingHold(t)) >= 0 && SumOf(s.auctions, AuctionHold(t)) >= 0
    ensures SumOf(s.offers, OfferHold(t)) >= 0
    ensures forall id: nat :: id in s.listings ==> ListingHold(t)(id, s.listings[id]) <= Liability(s, t)
    ensures forall id: nat :: id in s.auctions ==> AuctionHold(t)(id, s.auctions[id]) <= Liability(s, t)
    ensures forall id: nat :: id in s.offers ==> OfferHold(t)(id, s.offers[id]) <= Liability(s, t)
  {
    SumBounds(s.listings, ListingHold(t));
    SumBounds(s.auctions, AuctionHold(t));
    SumBounds(s.offers, OfferHold(t));
  }

  /** In a solvent state the seller of an active listing, and nobody else, can take the parcel back. */
  lemma CancelListingSucceedsIff(s: State, caller: Address, id: nat)
    requires Inv(s) && Solvent(s)
    ensures CancelListing(s, caller, id).Ok? <==>
              && id in s.listings && s.listings[id].status == ListingStatus.Active
              && s.listings[id].seller == caller && Signs(s, caller)
  {
    if id in s.listings {
      var l := s.listings[id];
      LiabilityParts(s, l.collection);
      assert ListingHold(l.collection)(id, l) <= Liability(s, l.collection);
    }
  }

  lemma CancelDutchSucceedsIff(s: State, caller: Address, id: nat)
    requires Inv(s) && Solvent(s)
    ensures CancelDutch(s, caller, id).Ok? <==>
              && id in s.auctions && s.auctions[id].status == AuctionStatus.Active && s.auctions[id].kind == Dutch
              && s.auctions[id].seller == caller && Signs(s, caller)
  {
    if id in s.auctions {
      var a := s.auctions[id];
      LiabilityParts(s, a.collection);
      assert AuctionHold(a.collection)(id, a) <= Liability(s, a.collection);
    }
  }

  /** In a solvent state the offerer can take a pending offer back, also after it has expired. */
  lemma CancelOfferSucceedsIff(s: State, caller: Address, id: nat)
    requires Inv(s) && Solvent(s)
    ensures CancelOffer(s, caller, id).Ok? <==>
              id in s.offers && s.offers[id].status == Pending && s.offers[id].offerer == caller && Signs(s, caller)
  {
    if id in s.offers {
      var o := s.offers[id];
      LiabilityParts(s, o.currency);
      assert OfferHold(o.currency)(id, o) <= Liability(s, o.currency);
    }
  }

  /** After its expiry an offer cannot be accepted and the attempt changes nothing: the record stays pending. */
  lemma ExpiredOfferStaysPending(s: State, now: U64, caller: Address, id: nat)
    requires id in s.offers && now > s.offers[id].expiresAt
    ensures Step(s, Tx(now, CallAcceptOffer(caller, id))) == s
    ensures Inv(s) && Solvent(s) && Signs(s, caller) && !s.paused && s.offers[id].recipient == caller ==>
              AcceptOffer(s, now, caller, id)
                == Err(if s.offers[id].status == Pending then OfferExpired else OfferAlreadySettled)
  {
    if Inv(s) {
      var o := s.offers[id];
      LiabilityParts(s, o.currency);
      assert OfferHold(o.currency)(id, o) <= Liability(s, o.currency);
    }
  }

  /** The fee of an offered amount is computed exactly when the product fits, and is then its floored share. */
  lemma OfferFeeIff(amount: int, feeBps: int)
    requires 0 < amount <= I128_MAX && 0 <= feeBps <= MAX_FEE_BPS
    ensures PlatformFee(amount, feeBps)
         == if amount * feeBps <= I128_MAX then Ok(amount * feeBps / 10_000) else Err(Overflow)
  {
    var product := amount * feeBps;
    assert product >= 0;
  }

  /** What the recipient of an offer holds of the parcel's token once paid for it. */
  function HeldOncePaid(s: State, o: Offer, fee: int): int {
    Bal(s.ledger, o.collection, o.recipient)
    + if o.collection != o.currency then 0
      else o.offerAmount - fee + if o.recipient == s.feeRecipient then fee else 0
  }

  lemma EscrowCoversOffer(s: State, id: nat)
    requires Inv(s) && Solvent(s) && id in s.offers && s.offers[id].status == Pending
    ensures Bal(s.ledger, s.offers[id].currency, s.self) >= s.offers[id].offerAmount
  {
    LiabilityParts(s, s.offers[id].currency);
    assert OfferHold(s.offers[id].currency)(id, s.offers[id]) <= Liability(s, s.offers[id].currency);
  }

  /** The payments of an offer can be made, and leave its recipient with the parcel's token as stated. */
  lemma OfferIsPaid(s: State, o: Offer, fee: int)
    requires 0 <= fee <= o.offerAmount
    requires o.recipient != s.self && Bal(s.ledger, o.currency, s.self) >= o.offerAmount
    ensures var ps := SalePayments(s, Split(fee, [], o.offerAmount - fee), o.recipient);
            var paid := PayAll(s.ledger, o.currency, s.self, ps);
            paid.Some? && Bal(paid.value, o.collection, o.recipient) == HeldOncePaid(s, o, fee)
  {
    var ps := SalePayments(s, Split(fee, [], o.offerAmount - fee), o.recipient);
    OfferPayments(s, o, fee);
    SalePaymentsTotal(s, Split(fee, [], o.offerAmount - fee), o.recipient);
    assert forall i :: 0 <= i < |ps| ==> ps[i] in ps;
    PayAllSucceeds(s.ledger, o.currency, s.self, ps);
    PayAllEffect(s.ledger, o.currency, s.self, ps);
  }

  /** The payments of an offer come out of escrow, so its parcel alone decides whether it changes hands. */
  lemma OfferLedgerIff(s: State, o: Offer, fee: int)
    requires PlatformFee(o.offerAmount, s.feeBps) == Ok(fee) && 0 <= fee <= o.offerAmount <= I128_MAX
    requires o.recipient != s.self && Bal(s.ledger, o.currency, s.self) >= o.offerAmount
    ensures OfferLedger(s, o, o.recipient).Ok? <==> HeldOncePaid(s, o, fee) >= o.amount
  {
    OfferIsPaid(s, o, fee);
  }

  /** In a solvent state accepting an offer depends on its terms, on the product of the fee and on the parcel, which the
      recipient may take from the proceeds where collection and currency are one token. */
  lemma AcceptOfferSucceedsIff(s: State, now: U64, caller: Address, id: nat)
    requires Inv(s) && Solvent(s)
    ensures AcceptOffer(s, now, caller, id).Ok? <==>
              && !s.paused && Signs(s, caller) && id in s.offers
              && var o := s.offers[id];
                 && o.status == Pending && o.recipient == caller && now <= o.expiresAt
                 && o.offerAmount * s.feeBps <= I128_MAX
                 && HeldOncePaid(s, o, o.offerAmount * s.feeBps / 10_000) >= o.amount
  {
    if id in s.offers && s.offers[id].status == Pending && s.offers[id].recipient == caller && Signs(s, caller) {
      var o := s.offers[id];
      OfferFeeIff(o.offerAmount, s.feeBps);
      if PlatformFee(o.offerAmount, s.feeBps).Ok? {
        OfferSplit(s, id);
        EscrowCoversOffer(s, id);
        OfferLedgerIff(s, o, PlatformFee(o.offerAmount, s.feeBps).value);
      }
    }
  }

  lemma EscrowCoversAuction(s: State, id: nat)
    requires Inv(s) && Solvent(s) && id in s.auctions && Live(s.auctions[id])
    ensures var a := s.auctions[id];
            && (a.kind == English ==>
                  Bal(s.ledger, a.currency, s.self)
                    >= a.currentBid + if a.collection == a.currency then a.amount else 0)
            && Bal(s.ledger, a.collection, s.self) >= a.amount
  {
    var a := s.auctions[id];
    LiabilityParts(s, a.currency);
    LiabilityParts(s, a.collection);
    assert AuctionHold(a.currency)(id, a) <= Liability(s, a.currency);
    assert AuctionHold(a.collection)(id, a) <= Liability(s, a.collection);
  }

  /** What the rules of an auction ask of a bid; the product is the one the least raise is computed from. */
  predicate BidMeetsRules(a: Auction, incrementBps: int, now: U64, bidder: Address, bid: int) {
    && a.status == AuctionStatus.Active && a.kind == English && now < a.endTime
    && (if a.currentBid == 0 then bid >= a.startPrice
        else && a.currentBidder != bidder && a.currentBid * incrementBps <= I128_MAX
             && bid >= a.currentBid + LeastRaise(a.currentBid, incrementBps))
    && (a.endTime - now <= a.window ==> now + a.window <= U64_MAX)
  }

  lemma MinBidComputesIff(a: Auction, incrementBps: int, bid: I128)
    requires a.currentBid > 0 && incrementBps >= 0
    ensures MinBid(a, incrementBps).Ok? && bid >= MinBid(a, incrementBps).value
       <==> a.currentBid * incrementBps <= I128_MAX && bid >= a.currentBid + LeastRaise(a.currentBid, incrementBps)
  {
    var product := a.currentBid * incrementBps;
    assert product >= 0;
  }

  /** Refunding the outbid bidder succeeds and leaves the new bidder's own funds alone. */
  lemma RefundSucceeds(s: State, id: nat, bidder: Address)
    requires Inv(s) && Solvent(s) && id in s.auctions && Live(s.auctions[id])
    requires s.auctions[id].currentBid > 0 && bidder != s.self && s.auctions[id].currentBidder != bidder
    ensures var a := s.auctions[id];
            var refunded := Move(s.ledger, a.currency, s.self, a.currentBidder, a.currentBid);
            refunded.Ok? && Bal(refunded.value, a.currency, bidder) == Bal(s.ledger, a.currency, bidder)
  {
    EscrowCoversAuction(s, id);
  }

  /** In a solvent state the bidder being outbid is refunded: a new bid depends on the rules and on the new bidder's
      funds only. */
  lemma PlaceBidSucceedsIff(s: State, now: U64, bidder: Address, id: nat, bid: I128)
    requires Inv(s) && Solvent(s)
    ensures PlaceBid(s, now, bidder, id, bid).Ok? <==>
              && !s.paused && Signs(s, bidder) && bid > 0 && id in s.auctions
              && BidMeetsRules(s.auctions[id], s.bidIncrementBps, now, bidder, bid)
              && Bal(s.ledger, s.auctions[id].currency, bidder) >= bid
  {
    if id in s.auctions && Live(s.auctions[id]) && s.auctions[id].currentBid > 0 {
      MinBidComputesIff(s.auctions[id], s.bidIncrementBps, bid);
      if bidder != s.self && s.auctions[id].currentBidder != bidder {
        RefundSucceeds(s, id, bidder);
      }
    }
  }

  /** In a solvent state and under a combined rate of at most 10_000 the payments and the parcel of a settlement are
      there. */
  lemma SettlementFunded(s: State, id: nat)
    requires Inv(s) && Solvent(s) && id in s.auctions && Live(s.auctions[id]) && s.auctions[id].currentBid > 0
    requires s.feeBps + RoyaltyRate(s, s.auctions[id].collection) <= BPS_DENOM
    requires SplitPrice(s, s.auctions[id].collection, s.auctions[id].currentBid).Ok?
    ensures var a := s.auctions[id];
            var paid := PayAll(s.ledger, a.currency, s.self, WinningPayments(s, a));
            paid.Some? && Bal(paid.value, a.collection, s.self) >= a.amount
  {
    var a := s.auctions[id];
    var ps := WinningPayments(s, a);
    EscrowCoversAuction(s, id);
    WinningTotal(s, a);
    SplitFits(s, a.collection, a.currentBid);
    assert forall i :: 0 <= i < |ps| ==> ps[i] in ps;
    PayAllSucceeds(s.ledger, a.currency, s.self, ps);
    PayAllEffect(s.ledger, a.currency, s.self, ps);
    PositiveReceived(ps, s.self);
  }

  /** Selling for the winning bid out of escrow works exactly when the product of the fee fits. */
  lemma WinningSaleIff(s: State, id: nat)
    requires Inv(s) && Solvent(s) && RatesCover(s, id)
    requires id in s.auctions && Live(s.auctions[id]) && s.auctions[id].currentBid > 0
    ensures var a := s.auctions[id];
            a.currentBid * s.feeBps <= I128_MAX <==>
              Sell(s, a.currency, s.self, a.collection, a.currentBid, a.seller, a.currentBidder, a.amount).Ok?
  {
    SplitComputesIff(s, s.auctions[id].collection, s.auctions[id].currentBid);
    if SplitPrice(s, s.auctions[id].collection, s.auctions[id].currentBid).Ok? {
      SettlementFunded(s, id);
    }
  }

  lemma SettleSoldIff(s: State, now: U64, id: nat)
    requires !s.paused && id in s.auctions && Live(s.auctions[id])
    requires now >= s.auctions[id].endTime && s.auctions[id].currentBid > 0
    ensures var a := s.auctions[id];
            SettleEnglish(s, now, id).Ok? <==>
              Sell(s, a.currency, s.self, a.collection, a.currentBid, a.seller, a.currentBidder, a.amount).Ok?
  {
  }

  lemma SettleUnsold(s: State, now: U64, id: nat)
    requires Inv(s) && Solvent(s) && !s.paused
    requires id in s.auctions && Live(s.auctions[id]) && now >= s.auctions[id].endTime && s.auctions[id].currentBid == 0
    ensures SettleEnglish(s, now, id).Ok?
  {
    EscrowCoversAuction(s, id);
  }

  /** Under covering rates an auction whose time is over can be settled by anybody, once, unless the marketplace is
      paused or the product of the winning bid and the fee rate does not fit in 128 bits. */
  lemma SettleSucceedsIff(s: State, now: U64, id: nat)
    requires Inv(s) && Solvent(s) && RatesCover(s, id)
    ensures SettleEnglish(s, now, id).Ok? <==>
              && !s.paused && id in s.auctions
              && var a := s.auctions[id];
                 Live(a) && now >= a.endTime && a.currentBid * s.feeBps <= I128_MAX
  {
    if !s.paused && id in s.auctions && Live(s.auctions[id]) && now >= s.auctions[id].endTime {
      if s.auctions[id].currentBid > 0 {
        SettleSoldIff(s, now, id);
        WinningSaleIff(s, id);
      } else {
        SettleUnsold(s, now, id);
      }
    }
  }

  // -------------------------------------------------------------------------
  // Each parcel and each payment held leaves once
  // -------------------------------------------------------------------------

  datatype Slot = ListingSlot(id: nat) | AuctionSlot(id: nat) | OfferSlot(id: nat)

  predicate Closed(s: State, slot: Slot) {
    match slot
    case ListingSlot(id) => id in s.listings && s.listings[id].status != ListingStatus.Active
    case AuctionSlot(id) => id in s.auctions && !Live(s.auctions[id])
    case OfferSlot(id) => id in s.offers && s.offers[id].status != Pending
  }

  /** The calls that hand out what a record holds. */
  predicate HandsOut(call: Call, slot: Slot) {
    match slot
    case ListingSlot(id) => (call.CallBuyNft? || call.CallCancelListing?) && call.id == id
    case AuctionSlot(id) => (call.CallSettleEnglish? || call.CallBuyDutch? || call.CallCancelDutch?) && call.id == id
    case OfferSlot(id) => (call.CallAcceptOffer? || call.CallCancelOffer?) && call.id == id
  }

  predicate Leaves(s: State, tx: Tx, slot: Slot) {
    Apply(s, tx.now, tx.call).Ok? && HandsOut(tx.call, slot)
  }

  /** A slot that is handed out was not closed before; nothing else closes one, and none reopens. */
  ghost predicate SlotMoves(s: State, s': State, slot: Slot, out: bool) {
    && (out ==> !Closed(s, slot))
    && (Closed(s', slot) <==> Closed(s, slot) || out)
  }

  lemma {:induction false} BulkListOpens(s: State, seller: Address, items: seq<ListingItem>, sofar: BulkResult, id: nat)
    requires forall k: nat :: k in s.listings ==> k <= s.listingSeq
    requires BulkListFrom(s, seller, items, sofar).Ok?
    ensures Closed(BulkListFrom(s, seller, items, sofar).value.0, ListingSlot(id)) <==> Closed(s, ListingSlot(id))
    decreases |items|
  {
    if items != [] {
      var item := items[0];
      if !ListingItemValid(s, item) {
        BulkListOpens(s, seller, items[1..], sofar.(failed := sofar.failed + 1), id);
      } else {
        var r := OpenListing(s, seller, item.collection, item.tokenId, item.amount, item.price, item.currency).value;
        BulkListOpens(r.0, seller, items[1..], sofar.(succeeded := sofar.succeeded + 1, ids := sofar.ids + [r.1]), id);
      }
    }
  }

  lemma ClosedListingMoves(s: State, id: nat, l: Listing, s': State, slot: Slot)
    requires WritesListing(s, id, l, -1, s')
    ensures SlotMoves(s, s', slot, slot == ListingSlot(id))
  {
  }

  lemma WrittenAuctionMoves(s: State, id: nat, a: Auction, delta: int, s': State, slot: Slot)
    requires id in s.auctions && Live(s.auctions[id]) && delta <= 0 && WritesAuction(s, id, a, delta, s')
    ensures SlotMoves(s, s', slot, delta == -1 && slot == AuctionSlot(id))
  {
  }

  lemma BuyNftMoves(s: State, buyer: Address, id: nat, slot: Slot)
    requires ListingsOk(s) && BuyNft(s, buyer, id).Ok?
    ensures SlotMoves(s, BuyNft(s, buyer, id).value, slot, slot == ListingSlot(id))
  {
    BuyNftWrites(s, buyer, id);
    ClosedListingMoves(s, id, s.listings[id].(status := ListingStatus.Sold), BuyNft(s, buyer, id).value, slot);
  }

  lemma CancelListingMoves(s: State, caller: Address, id: nat, slot: Slot)
    requires ListingsOk(s) && CancelListing(s, caller, id).Ok?
    ensures SlotMoves(s, CancelListing(s, caller, id).value, slot, slot == ListingSlot(id))
  {
    CancelListingWrites(s, caller, id);
    ClosedListingMoves(s, id, s.listings[id].(status := ListingStatus.Cancelled), CancelListing(s, caller, id).value,
                       slot);
  }

  lemma SettleEnglishMoves(s: State, now: U64, id: nat, slot: Slot)
    requires AuctionsOk(s) && SettleEnglish(s, now, id).Ok?
    ensures SlotMoves(s, SettleEnglish(s, now, id).value, slot, slot == AuctionSlot(id))
  {
    SettleEnglishWrites(s, now, id);
    WrittenAuctionMoves(s, id, s.auctions[id].(status := AuctionStatus.Settled), -1, SettleEnglish(s, now, id).value,
                        slot);
  }

  lemma BuyDutchMoves(s: State, now: U64, buyer: Address, id: nat, slot: Slot)
    requires AuctionsOk(s) && BuyDutch(s, now, buyer, id).Ok?
    ensures SlotMoves(s, BuyDutch(s, now, buyer, id).value, slot, slot == AuctionSlot(id))
  {
    BuyDutchWrites(s, now, buyer, id);
    WrittenAuctionMoves(s, id, s.auctions[id].(status := AuctionStatus.Settled), -1, BuyDutch(s, now, buyer, id).value,
                        slot);
  }

  lemma CancelDutchMoves(s: State, caller: Address, id: nat, slot: Slot)
    requires AuctionsOk(s) && CancelDutch(s, caller, id).Ok?
    ensures SlotMoves(s, CancelDutch(s, caller, id).value, slot, slot == AuctionSlot(id))
  {
    CancelDutchWrites(s, caller, id);
    WrittenAuctionMoves(s, id, s.auctions[id].(status := AuctionStatus.Cancelled), -1, CancelDutch(s, caller, id).value,
                        slot);
  }

  lemma PlaceBidMoves(s: State, now: U64, bidder: Address, id: nat, bid: I128, slot: Slot)
    requires AuctionsOk(s) && PlaceBid(s, now, bidder, id, bid).Ok?
    ensures SlotMoves(s, PlaceBid(s, now, bidder, id, bid).value, slot, false)
  {
    PlaceBidWrites(s, now, bidder, id, bid);
    var s' := PlaceBid(s, now, bidder, id, bid).value;
    WrittenAuctionMoves(s, id, s'.auctions[id], 0, s', slot);
  }

  lemma ListingCallMoves(s: State, now: U64, call: Call, slot: Slot)
    requires ListingsOk(s) && OnListings(call) && Apply(s, now, call).Ok?
    ensures SlotMoves(s, Apply(s, now, call).value, slot, HandsOut(call, slot))
  {
    match call
    case CallListNft(_, _, _, _, _, _, _) =>
    case CallBuyNft(buyer, id) => BuyNftMoves(s, buyer, id, slot);
    case CallCancelListing(caller, id) => CancelListingMoves(s, caller, id, slot);
    case CallBulkList(seller, items) =>
      BulkListSparesAuctions(s, seller, items, BulkResult(0, 0, []));
      BulkListOpens(s, seller, items, BulkResult(0, 0, []), slot.id);
  }

  lemma OpenAuctionCallMoves(s: State, now: U64, call: Call, slot: Slot)
    requires AuctionsOk(s) && OnOpenAuction(call) && Apply(s, now, call).Ok?
    ensures SlotMoves(s, Apply(s, now, call).value, slot, HandsOut(call, slot))
  {
    match call
    case CallPlaceBid(bidder, id, bid) => PlaceBidMoves(s, now, bidder, id, bid, slot);
    case CallSettleEnglish(id) => SettleEnglishMoves(s, now, id, slot);
    case CallBuyDutch(buyer, id) => BuyDutchMoves(s, now, buyer, id, slot);
    case CallCancelDutch(caller, id) => CancelDutchMoves(s, caller, id, slot);
  }

  lemma OfferCallMoves(s: State, now: U64, call: Call, slot: Slot)
    requires OffersOk(s) && OnOffers(call) && Apply(s, now, call).Ok?
    ensures SlotMoves(s, Apply(s, now, call).value, slot, HandsOut(call, slot))
  {
    var s' := Apply(s, now, call).value;
    assert s'.listings == s.listings && s'.auctions == s.auctions;
  }

  lemma StepMovesSlot(s: State, tx: Tx, slot: Slot)
    requires Inv(s)
    ensures SlotMoves(s, Step(s, tx), slot, Leaves(s, tx, slot))
  {
    if Apply(s, tx.now, tx.call).Ok? {
      if OnListings(tx.call) {
        ListingCallMoves(s, tx.now, tx.call, slot);
      } else if CreatesAuctions(tx.call) {
        NewAuctionCallExtends(s, tx.now, tx.call);
      } else if OnOpenAuction(tx.call) {
        OpenAuctionCallMoves(s, tx.now, tx.call, slot);
      } else if OnOffers(tx.call) {
        OfferCallMoves(s, tx.now, tx.call, slot);
      } else {
        OtherCallSpares(s, tx.now, tx.call);
      }
    }
  }

  ghost function ExitCount(start: State, txs: seq<Tx>, slot: Slot): nat {
    if txs == [] then 0
    else
      ExitCount(start, txs[..|txs| - 1], slot)
      + if Leaves(Run(start, txs[..|txs| - 1]), txs[|txs| - 1], slot) then 1 else 0
  }

  /** Over every run, what a listing, an auction or an offer holds has been handed out once if its record is
      closed, and not at all before that. */
  lemma {:induction false} LeavesOnce(start: State, txs: seq<Tx>, slot: Slot)
    requires Start(start)
    ensures ExitCount(start, txs, slot) == if Closed(Run(start, txs), slot) then 1 else 0
  {
    if txs != [] {
      var front := txs[..|txs| - 1];
      LeavesOnce(start, front, slot);
      ReachableInv(start, front);
      StepMovesSlot(Run(start, front), txs[|txs| - 1], slot);
    }
  }

  // -------------------------------------------------------------------------
  // Who gives and who gets
  // -------------------------------------------------------------------------

  /** One movement of tokens. */
  datatype Parcel = Parcel(token: Address, from: Address, to: Address, amount: int)

  /** The calls that move one parcel: into escrow from the caller, or back to whom it came from. */
  function OneParcel(s: State, call: Call): Option<Parcel> {
    match call
    case CallListNft(seller, c, _, amount, _, _, _) => Some(Parcel(c, seller, s.self, amount))
    case CallCreateEnglish(seller, c, _, amount, _, _, _, _) => Some(Parcel(c, seller, s.self, amount))
    case CallCreateDutch(seller, c, _, amount, _, _, _, _, _) => Some(Parcel(c, seller, s.self, amount))
    case CallMakeOffer(offerer, _, _, _, _, offerAmount, currency, _) =>
      Some(Parcel(currency, offerer, s.self, offerAmount))
    case CallCancelListing(_, id) =>
      var l :- Get(s.listings, id);
      Some(Parcel(l.collection, s.self, l.seller, l.amount))
    case CallCancelDutch(_, id) =>
      var a :- Get(s.auctions, id);
      Some(Parcel(a.collection, s.self, a.seller, a.amount))
    case CallSettleEnglish(id) =>
      var a :- Get(s.auctions, id);
      if a.currentBid == 0 then Some(Parcel(a.collection, s.self, a.seller, a.amount)) else None
    case CallCancelOffer(_, id) =>
      var o :- Get(s.offers, id);
      Some(Parcel(o.currency, s.self, o.offerer, o.offerAmount))
    case _ => None
  }

  predicate IsTransfer(l: Ledger, k: Parcel, l': Ledger) {
    Transfer(l, k.token, k.from, k.to, k.amount) == Some(l')
  }

  lemma EscrowingIsTransfer(s: State, now: U64, call: Call)
    requires call.CallListNft? || call.CallCreateEnglish? || call.CallCreateDutch? || call.CallMakeOffer?
    requires Apply(s, now, call).Ok?
    ensures IsTransfer(s.ledger, OneParcel(s, call).value, Apply(s, now, call).value.ledger)
  {
  }

  lemma ReturningIsTransfer(s: State, now: U64, call: Call)
    requires call.CallCancelListing? || call.CallCancelDutch? || call.CallSettleEnglish? || call.CallCancelOffer?
    requires OneParcel(s, call).Some? && Apply(s, now, call).Ok?
    ensures IsTransfer(s.ledger, OneParcel(s, call).value, Apply(s, now, call).value.ledger)
  {
  }

  /** Such a call, when it goes through, changes every balance by that one parcel and no supply. */
  lemma MovesOneParcel(s: State, now: U64, call: Call)
    requires OneParcel(s, call).Some? && Apply(s, now, call).Ok?
    ensures var k, l' := OneParcel(s, call).value, Apply(s, now, call).value.ledger;
            && (forall t: Address, x: Address ::
                  Bal(l', t, x) == Bal(s.ledger, t, x)
                    + if t != k.token then 0
                      else (if x == k.to then k.amount else 0) - (if x == k.from then k.amount else 0))
            && forall t: Address :: Supply(l', t) == Supply(s.ledger, t)
  {
    if call.CallListNft? || call.CallCreateEnglish? || call.CallCreateDutch? || call.CallMakeOffer? {
      EscrowingIsTransfer(s, now, call);
    } else {
      ReturningIsTransfer(s, now, call);
    }
    ParcelEffect(s.ledger, OneParcel(s, call).value, Apply(s, now, call).value.ledger);
  }

  lemma ParcelEffect(l: Ledger, k: Parcel, l': Ledger)
    requires IsTransfer(l, k, l')
    ensures forall t: Address, x: Address ::
              Bal(l', t, x) == Bal(l, t, x)
                + if t != k.token then 0
                  else (if x == k.to then k.amount else 0) - (if x == k.from then k.amount else 0)
    ensures forall t: Address :: Supply(l', t) == Supply(l, t)
  {
    forall t: Address {
      TransferKeepsSupply(l, k.token, k.from, k.to, k.amount, t);
    }
  }
}

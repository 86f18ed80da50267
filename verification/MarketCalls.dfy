/** When listing, opening, offering and buying go through. */
module MarketCalls {
  import opened Host
  import opened Token
  import opened Market
  import opened MarketPricing
  import opened MarketInvariant
  import opened MarketSolvency
  import opened MarketExits
  import opened MarketDutch

  // -------------------------------------------------------------------------
  // Putting something up
  // -------------------------------------------------------------------------

  /** What every call asks that puts something up: a running marketplace, a signature and a whitelisted currency. */
  predicate MayOpen(s: State, who: Address, currency: Address) {
    !s.paused && who != s.self && currency in s.currencies && s.currencies[currency]
  }

  /** The seller holds the parcel of a registered collection. */
  predicate HoldsParcel(s: State, seller: Address, c: Address, amount: nat) {
    c in s.collections && Bal(s.ledger, c, seller) >= amount
  }

  /** A listing goes through exactly for a positive price in a whitelisted currency, a metadata hash of 32 bytes and a
      parcel the seller holds, while ids and counters last; it returns the next id. */
  lemma ListNftSucceedsIff(s: State, seller: Address, c: Address, tokenId: U64, amount: U64, price: I128,
                           currency: Address, hash: Bytes)
    ensures ListNft(s, seller, c, tokenId, amount, price, currency, hash).Ok? <==>
              && MayOpen(s, seller, currency) && price > 0 && |hash| == 32 && HoldsParcel(s, seller, c, amount)
              && s.listingSeq < U64_MAX && s.collections[c].activeListings < U32_MAX
    ensures var r := ListNft(s, seller, c, tokenId, amount, price, currency, hash);
            r.Ok? ==> r.value.1 == s.listingSeq + 1
  {
  }

  /** The same for an English auction, with a duration of up to a week that ends within 64 bits. */
  lemma CreateEnglishSucceedsIff(s: State, now: U64, seller: Address, c: Address, tokenId: U64, amount: U64,
                                 startPrice: I128, currency: Address, duration: U64, hash: Bytes)
    ensures CreateEnglish(s, now, seller, c, tokenId, amount, startPrice, currency, duration, hash).Ok? <==>
              && MayOpen(s, seller, currency) && startPrice > 0 && |hash| == 32 && HoldsParcel(s, seller, c, amount)
              && 0 < duration <= 604_800 && now + duration <= U64_MAX
              && s.auctionSeq < U64_MAX && s.collections[c].activeAuctions < U32_MAX
    ensures var r := CreateEnglish(s, now, seller, c, tokenId, amount, startPrice, currency, duration, hash);
            r.Ok? ==> r.value.1 == s.auctionSeq + 1
  {
  }

  /** The same for a Dutch auction, with a positive floor below the start. */
  lemma CreateDutchSucceedsIff(s: State, now: U64, seller: Address, c: Address, tokenId: U64, amount: U64,
                               startPrice: I128, floorPrice: I128, currency: Address, duration: U64, hash: Bytes)
    ensures CreateDutch(s, now, seller, c, tokenId, amount, startPrice, floorPrice, currency, duration, hash).Ok? <==>
              && MayOpen(s, seller, currency) && 0 < floorPrice < startPrice && |hash| == 32
              && HoldsParcel(s, seller, c, amount) && 0 < duration <= 604_800 && now + duration <= U64_MAX
              && s.auctionSeq < U64_MAX && s.collections[c].activeAuctions < U32_MAX
    ensures var r := CreateDutch(s, now, seller, c, tokenId, amount, startPrice, floorPrice, currency, duration, hash);
            r.Ok? ==> r.value.1 == s.auctionSeq + 1
  {
  }

  /** An offer goes through exactly for a positive amount that the offerer holds. */
  lemma MakeOfferSucceedsIff(s: State, now: U64, offerer: Address, recipient: Address, c: Address, tokenId: U64,
                             amount: U64, offerAmount: I128, currency: Address, duration: U64)
    ensures MakeOffer(s, now, offerer, recipient, c, tokenId, amount, offerAmount, currency, duration).Ok? <==>
              && MayOpen(s, offerer, currency) && offerAmount > 0 && Bal(s.ledger, currency, offerer) >= offerAmount
              && 0 < duration <= 604_800 && now + duration <= U64_MAX && s.offerSeq < U64_MAX
    ensures var r := MakeOffer(s, now, offerer, recipient, c, tokenId, amount, offerAmount, currency, duration);
            r.Ok? ==> r.value.1 == s.offerSeq + 1
  {
  }

  // -------------------------------------------------------------------------
  // What a payer must have
  // -------------------------------------------------------------------------

  /** What one payer must hold to make these payments in order; what it pays to itself it has again for the next. */
  function Needed(ps: Payments, payer: Address): int {
    if ps == [] then 0
    else
      var front, amount := ps[..|ps| - 1], ps[|ps| - 1].1;
      Max(Needed(front, payer), Total(front) - Received(front, payer) + amount)
  }

  lemma {:induction false} PayAllSucceedsIff(l: Ledger, token: Address, payer: Address, ps: Payments)
    requires forall i :: 0 <= i < |ps| ==> ps[i].1 >= 0
    ensures PayAll(l, token, payer, ps).Some? <==> Bal(l, token, payer) >= Needed(ps, payer)
  {
    if ps != [] {
      var front := ps[..|ps| - 1];
      PayAllSucceedsIff(l, token, payer, front);
      if PayAll(l, token, payer, front).Some? {
        PayAllEffect(l, token, payer, front);
      }
    }
  }

  /** That is at most the total, and the total for a payer who receives none of it. */
  lemma {:induction false} NeededBounds(ps: Payments, payer: Address)
    requires forall i :: 0 <= i < |ps| ==> ps[i].1 >= 0
    ensures 0 <= Needed(ps, payer) <= Total(ps)
    ensures Received(ps, payer) == 0 ==> Needed(ps, payer) == Total(ps)
  {
    if ps != [] {
      NeededBounds(ps[..|ps| - 1], payer);
      ReceivedNonNegative(ps[..|ps| - 1], payer);
    }
  }

  // -------------------------------------------------------------------------
  // Splitting a price, whatever the rates
  // -------------------------------------------------------------------------

  /** A positive price can be split exactly when the product of the fee fits in 128 bits and the royalties together
      do. */
  predicate Splittable(s: State, collection: Address, price: int) {
    price * s.feeBps <= I128_MAX && DueInAll(price, PaidRecipients(s, collection)) <= I128_MAX
  }

  lemma SplitSucceedsIff(s: State, collection: Address, price: I128)
    requires 0 <= s.feeBps <= MAX_FEE_BPS && price >= 0
    ensures SplitPrice(s, collection, price).Ok? <==> Splittable(s, collection, price)
  {
    CollectionRoyaltiesReach(s, collection, price, s.self);
    FloorAtMostPrice(price, s.feeBps);
    var product := price * s.feeBps;
    assert product >= 0;
    if product <= I128_MAX {
      assert PlatformFee(price, s.feeBps) == Ok(product / 10_000);
    }
  }

  lemma FloorAtMostPrice(price: int, bps: int)
    requires price >= 0 && 0 <= bps <= MAX_FEE_BPS
    ensures 0 <= price * bps / 10_000 <= price
  {
    assert 0 <= price * bps <= price * 10_000;
  }

  /** What this payer must hold to pay this price. */
  function FundsNeeded(s: State, collection: Address, price: int, seller: Address, payer: Address): int
    requires SplitPrice(s, collection, price).Ok?
  {
    Needed(SalePayments(s, SplitPrice(s, collection, price).value, seller), payer)
  }

  /** Whether anything of the price would come back to the payer. */
  predicate IsPaid(s: State, collection: Address, price: int, seller: Address, payer: Address) {
    payer == s.feeRecipient || payer == seller || DueTo(price, PaidRecipients(s, collection), payer) > 0
  }

  /** Who is not paid by the sale needs its full cost, and nobody needs more. */
  lemma FundsNeededIs(s: State, collection: Address, price: int, seller: Address, payer: Address)
    requires SplitPrice(s, collection, price).Ok?
    ensures 0 <= FundsNeeded(s, collection, price, seller, payer) <= PayersCost(s, collection, price)
    ensures !IsPaid(s, collection, price, seller, payer) ==>
              FundsNeeded(s, collection, price, seller, payer) == PayersCost(s, collection, price)
  {
    var ps := SalePayments(s, SplitPrice(s, collection, price).value, seller);
    SplitReaches(s, collection, price, seller, payer);
    PaymentsMatchPriceIff(s, collection, price, seller);
    assert forall i :: 0 <= i < |ps| ==> ps[i] in ps;
    NeededBounds(ps, payer);
  }

  /** Selling for a price succeeds exactly when it can be split and the payer has the funds, if the parcel is there. */
  lemma SellSucceedsIff(s: State, currency: Address, payer: Address, c: Address, price: I128, seller: Address,
                        to: Address, amount: nat)
    requires payer != s.self && Bal(s.ledger, c, s.self) >= amount
    ensures Sell(s, currency, payer, c, price, seller, to, amount).Ok? <==>
              SplitPrice(s, c, price).Ok? && Bal(s.ledger, currency, payer) >= FundsNeeded(s, c, price, seller, payer)
  {
    if SplitPrice(s, c, price).Ok? {
      var ps := SalePayments(s, SplitPrice(s, c, price).value, seller);
      PaymentsMatchPriceIff(s, c, price, seller);
      assert forall i :: 0 <= i < |ps| ==> ps[i] in ps;
      PayAllSucceedsIff(s.ledger, currency, payer, ps);
      if PayAll(s.ledger, currency, payer, ps).Some? {
        PayAllEffect(s.ledger, currency, payer, ps);
        ReceivedNonNegative(ps, s.self);
      }
    }
  }

  // -------------------------------------------------------------------------
  // Buying
  // -------------------------------------------------------------------------

  lemma EscrowCoversListing(s: State, id: nat)
    requires Inv(s) && Solvent(s) && id in s.listings && s.listings[id].status == ListingStatus.Active
    ensures Bal(s.ledger, s.listings[id].collection, s.self) >= s.listings[id].amount
  {
    var l := s.listings[id];
    LiabilityParts(s, l.collection);
    assert ListingHold(l.collection)(id, l) <= Liability(s, l.collection);
  }

  /** The payer holds what the sale needs. */
  predicate Affords(s: State, currency: Address, c: Address, price: int, seller: Address, payer: Address) {
    SplitPrice(s, c, price).Ok? && Bal(s.ledger, currency, payer) >= FundsNeeded(s, c, price, seller, payer)
  }

  lemma BuyNftIsSale(s: State, buyer: Address, id: nat)
    requires Inv(s) && !s.paused && buyer != s.self
    requires id in s.listings && s.listings[id].status == ListingStatus.Active
    ensures var l := s.listings[id];
            BuyNft(s, buyer, id).Ok? <==>
              Sell(s, l.currency, buyer, l.collection, l.price, l.seller, buyer, l.amount).Ok?
  {
  }

  /** In a solvent state a listing is bought exactly if it is active, its price can be split, and the buyer has the
      funds: the full cost, unless part of it comes back to the buyer. */
  lemma BuyNftSucceedsIff(s: State, buyer: Address, id: nat)
    requires Inv(s) && Solvent(s)
    ensures BuyNft(s, buyer, id).Ok? <==>
              && !s.paused && buyer != s.self && id in s.listings && s.listings[id].status == ListingStatus.Active
              && var l := s.listings[id];
                 Splittable(s, l.collection, l.price) && Affords(s, l.currency, l.collection, l.price, l.seller, buyer)
  {
    if !s.paused && buyer != s.self && id in s.listings && s.listings[id].status == ListingStatus.Active {
      var l := s.listings[id];
      EscrowCoversListing(s, id);
      BuyNftIsSale(s, buyer, id);
      SplitSucceedsIff(s, l.collection, l.price);
      SellSucceedsIff(s, l.currency, buyer, l.collection, l.price, l.seller, buyer, l.amount);
    }
  }

  lemma BuyDutchIsSale(s: State, now: U64, buyer: Address, id: nat)
    requires Inv(s) && !s.paused && buyer != s.self && id in s.auctions
    requires s.auctions[id].status == AuctionStatus.Active && s.auctions[id].kind == Dutch
    ensures var a := s.auctions[id];
            BuyDutch(s, now, buyer, id).Ok? <==>
              && DutchPrice(a, now).Ok? && DutchPrice(a, now).value != 0
              && Sell(s, a.currency, buyer, a.collection, DutchPrice(a, now).value, a.seller, buyer, a.amount).Ok?
  {
  }

  /** A sale below zero asks for nothing. */
  lemma NothingNeeded(s: State, c: Address, price: I128, seller: Address, payer: Address)
    requires RatesInRange(s) && price < 0
    ensures SplitPrice(s, c, price).Ok? <==> price * s.feeBps >= I128_MIN
    ensures SplitPrice(s, c, price).Ok? ==> FundsNeeded(s, c, price, seller, payer) == 0
  {
    NegativeSplit(s, c, price);
    assert SalePayments(s, Split(0, [], price), seller) == [];
  }

  /** In a solvent state a Dutch auction is bought exactly if it is active, its price is computed, is not zero and can
      be split, and the buyer has the funds; below zero the product of the fee alone matters. */
  lemma BuyDutchSucceedsIff(s: State, now: U64, buyer: Address, id: nat)
    requires Inv(s) && Solvent(s)
    ensures BuyDutch(s, now, buyer, id).Ok? <==>
              && !s.paused && buyer != s.self && id in s.auctions && s.auctions[id].status == AuctionStatus.Active
              && s.auctions[id].kind == Dutch && DutchPrice(s.auctions[id], now).Ok?
              && var a, price := s.auctions[id], DutchPrice(s.auctions[id], now).value;
                 && price != 0
                 && if price < 0 then price * s.feeBps >= I128_MIN
                    else && Splittable(s, a.collection, price)
                         && Affords(s, a.currency, a.collection, price, a.seller, buyer)
  {
    if !s.paused && buyer != s.self && id in s.auctions && s.auctions[id].status == AuctionStatus.Active
       && s.auctions[id].kind == Dutch
    {
      var a := s.auctions[id];
      EscrowCoversAuction(s, id);
      BuyDutchIsSale(s, now, buyer, id);
      if DutchPrice(a, now).Ok? {
        DutchPriceIsI128(a, now);
        SaleAtIff(s, a, DutchPrice(a, now).value, buyer);
      }
    }
  }

  lemma SaleAtIff(s: State, a: Auction, price: I128, buyer: Address)
    requires RatesInRange(s) && buyer != s.self && Bal(s.ledger, a.collection, s.self) >= a.amount
    ensures Sell(s, a.currency, buyer, a.collection, price, a.seller, buyer, a.amount).Ok? <==>
              if price < 0 then price * s.feeBps >= I128_MIN
              else Splittable(s, a.collection, price) && Affords(s, a.currency, a.collection, price, a.seller, buyer)
  {
    SellSucceedsIff(s, a.currency, buyer, a.collection, price, a.seller, buyer, a.amount);
    if price < 0 {
      NothingNeeded(s, a.collection, price, a.seller, buyer);
    } else {
      SplitSucceedsIff(s, a.collection, price);
    }
  }
}

/** Dutch auctions over whole runs: what a buyer of one pays. */
module MarketDutch {
  import opened Host
  import opened Token
  import opened Market
  import opened MarketPricing
  import opened MarketInvariant
  import opened MarketAuctions
  import opened MarketBulk

  // -------------------------------------------------------------------------
  // What a purchase costs
  // -------------------------------------------------------------------------

  /** The auction quotes a price and the price can be split. */
  predicate Charges(s: State, id: nat, now: nat) {
    && id in s.auctions && DutchPrice(s.auctions[id], now).Ok?
    && SplitPrice(s, s.auctions[id].collection, DutchPrice(s.auctions[id], now).value).Ok?
  }

  /** What the buyer of a Dutch auction pays. */
  function DutchPayments(s: State, a: Auction, now: nat): Payments
    requires DutchPrice(a, now).Ok? && SplitPrice(s, a.collection, DutchPrice(a, now).value).Ok?
  {
    SalePayments(s, SplitPrice(s, a.collection, DutchPrice(a, now).value).value, a.seller)
  }

  lemma BoughtSplit(s: State, now: U64, buyer: Address, id: nat)
    requires AuctionsOk(s) && BuyDutch(s, now, buyer, id).Ok?
    ensures Charges(s, id, now) && AuctionOk(s, id, s.auctions[id]) && DutchPrice(s.auctions[id], now).value != 0
  {
  }

  // -------------------------------------------------------------------------
  // Auctions opened one by one
  // -------------------------------------------------------------------------

  /** The call opens a Dutch auction under this id. */
  predicate Creates(s: State, tx: Tx, id: nat) {
    && tx.call.CallCreateDutch?
    && var r := CreateDutch(s, tx.now, tx.call.caller, tx.call.collection, tx.call.tokenId, tx.call.amount,
                            tx.call.price, tx.call.floorPrice, tx.call.currency, tx.call.duration, tx.call.hash);
       r.Ok? && r.value.1 == id
  }

  /** The record has the shape the price bounds need, with the prices of the call. */
  ghost predicate ShapedBy(auctions: map<nat, Auction>, id: nat, call: Call)
    requires call.CallCreateDutch?
  {
    && id in auctions && DutchShape(auctions[id])
    && auctions[id].startPrice == call.price && auctions[id].floorPrice == call.floorPrice
  }

  lemma CreatedShape(s: State, tx: Tx, id: nat)
    requires Creates(s, tx, id)
    ensures ShapedBy(Step(s, tx).auctions, id, tx.call)
  {
    var c := tx.call;
    CreateDutchOpens(s, tx.now, c.caller, c.collection, c.tokenId, c.amount, c.price, c.floorPrice, c.currency,
                     c.duration, c.hash);
  }

  lemma EvolvingShape(before: map<nat, Auction>, after: map<nat, Auction>, id: nat, call: Call)
    requires call.CallCreateDutch? && ShapedBy(before, id, call) && EvolvesIn(before, after, id)
    ensures ShapedBy(after, id, call)
  {
  }

  /** Over every run an auction opened by create_dutch_auction keeps the prices of that call and a start before its
      end. */
  lemma CreatedStaysShaped(start: State, txs: seq<Tx>, i: nat, j: nat, id: nat)
    requires Start(start) && i < j <= |txs| && Creates(At(start, txs, i), txs[i], id)
    ensures ShapedBy(At(start, txs, j).auctions, id, txs[i].call)
  {
    OneStepEvolves(start, txs, i, id);
    CreatedShape(At(start, txs, i), txs[i], id);
    RunEvolves(start, txs, i + 1, j, id);
    EvolvingShape(At(start, txs, i + 1).auctions, At(start, txs, j).auctions, id, txs[i].call);
  }

  predicate Buys(s: State, tx: Tx, id: nat) {
    tx.call.CallBuyDutch? && tx.call.id == id && BuyDutch(s, tx.now, tx.call.caller, id).Ok?
  }

  /** The sale is one of this auction, to the caller, at the quoted price. */
  ghost predicate SoldAsQuoted(s: State, tx: Tx, id: nat) {
    && id in s.auctions && DutchPrice(s.auctions[id], tx.now).Ok? && tx.call.CallBuyDutch?
    && var a, buyer := s.auctions[id], tx.call.caller;
       TermsOf(s, tx.now, tx.call)
         == Some(Terms(a.currency, buyer, DutchPrice(a, tx.now).value, a.collection, a.seller, buyer, a.amount))
  }

  /** The price lies between floor and start, and what is paid is that price, or the fee and royalties on it where these
      are more: at least the floor, and at most the start if the rates cover. */
  predicate PaidWithin(s: State, collection: Address, price: int, paid: int, floorPrice: int, startPrice: int) {
    && SplitPrice(s, collection, price).Ok?
    && var split := SplitPrice(s, collection, price).value;
    && floorPrice <= price <= startPrice
    && paid == Max(price, split.fee + Total(split.royalties)) && floorPrice <= paid
    && (s.feeBps + RoyaltyRate(s, collection) <= BPS_DENOM ==> paid == price && paid <= startPrice)
  }

  /** What the buyer of this auction pays at this time. */
  predicate PaysWithin(s: State, now: nat, id: nat, floorPrice: int, startPrice: int) {
    && Charges(s, id, now)
    && var a := s.auctions[id];
       PaidWithin(s, a.collection, DutchPrice(a, now).value, Total(DutchPayments(s, a, now)), floorPrice, startPrice)
  }

  lemma PriceIsPaidWithin(s: State, collection: Address, price: int, seller: Address, floorPrice: int, startPrice: int)
    requires RatesInRange(s) && SplitPrice(s, collection, price).Ok? && 0 <= floorPrice <= price <= startPrice
    ensures PaidWithin(s, collection, price,
                       Total(SalePayments(s, SplitPrice(s, collection, price).value, seller)), floorPrice, startPrice)
  {
    PaymentsMatchPriceIff(s, collection, price, seller);
    SplitAddsUp(s, collection, price);
    if s.feeBps + RoyaltyRate(s, collection) <= BPS_DENOM {
      SplitFits(s, collection, price);
    }
  }

  lemma ChargedWithin(s: State, now: nat, id: nat)
    requires RatesInRange(s) && Charges(s, id, now) && DutchShape(s.auctions[id])
    ensures PaysWithin(s, now, id, s.auctions[id].floorPrice, s.auctions[id].startPrice)
  {
    var a := s.auctions[id];
    DutchPriceInRange(a, now);
    PriceIsPaidWithin(s, a.collection, DutchPrice(a, now).value, a.seller, a.floorPrice, a.startPrice);
  }

  lemma BoughtAsQuoted(s: State, tx: Tx, id: nat)
    requires Buys(s, tx, id)
    ensures SoldAsQuoted(s, tx, id)
  {
  }

  /** Over every run, whoever buys such an auction, whenever, pays within the prices of the call that opened it. */
  lemma BuyersPayWithinBounds(start: State, txs: seq<Tx>, i: nat, j: nat, id: nat)
    requires Start(start) && i < j < |txs|
    requires Creates(At(start, txs, i), txs[i], id) && Buys(At(start, txs, j), txs[j], id)
    ensures SoldAsQuoted(At(start, txs, j), txs[j], id)
    ensures PaysWithin(At(start, txs, j), txs[j].now, id, txs[i].call.floorPrice, txs[i].call.price)
  {
    CreatedStaysShaped(start, txs, i, j, id);
    ReachableInv(start, txs[..j]);
    BoughtAsQuoted(At(start, txs, j), txs[j], id);
    BoughtSplit(At(start, txs, j), txs[j].now, txs[j].call.caller, id);
    ChargedWithin(At(start, txs, j), txs[j].now, id);
  }

  // -------------------------------------------------------------------------
  // Auctions opened in bulk
  // -------------------------------------------------------------------------

  lemma RoyaltyOfNegative(price: int, shareBps: int)
    requires price < 0 && shareBps >= 0
    ensures RoyaltyAmount(price, shareBps) <= 0
  {
    assert price * shareBps <= 0;
  }

  lemma {:induction false} NoRoyaltiesOfNegative(price: int, rs: seq<Recipient>)
    requires price < 0 && SharesInRange(rs)
    ensures RoyaltyAmounts(price, rs) == []
  {
    if rs != [] {
      NoRoyaltiesOfNegative(price, rs[..|rs| - 1]);
      RoyaltyOfNegative(price, rs[|rs| - 1].shareBps);
    }
  }

  lemma FeeOfNegative(price: I128, feeBps: int)
    requires price < 0 && 0 <= feeBps <= MAX_FEE_BPS
    ensures PlatformFee(price, feeBps) == if price * feeBps >= I128_MIN then Ok(0) else Err(Overflow)
  {
    NotPositive(price, feeBps);
    FeeOfProduct(price, feeBps, price * feeBps);
  }

  lemma NotPositive(price: int, feeBps: int)
    requires price < 0 && 0 <= feeBps
    ensures price * feeBps <= 0
  {
  }

  lemma FeeOfProduct(price: int, feeBps: int, product: int)
    requires price * feeBps == product && product <= 0
    ensures PlatformFee(price, feeBps) == if product >= I128_MIN then Ok(0) else Err(Overflow)
  {
    assert CheckedMul(price, feeBps) == if product >= I128_MIN then Some(product) else None;
    if product >= I128_MIN {
      assert CheckedDiv(product, BPS_DENOM) == Some(-((-product) / 10_000));
    }
  }

  lemma RoyaltiesOfNegative(s: State, collection: Address, price: int)
    requires RatesInRange(s) && price < 0
    ensures CollectionRoyalties(s, collection, price) == []
  {
    if collection in s.collections {
      NoRoyaltiesOfNegative(price, s.collections[collection].recipients);
    }
  }

  /** A negative price splits into nothing to pay, unless the product of the fee does not fit. */
  lemma NegativeSplit(s: State, collection: Address, price: I128)
    requires RatesInRange(s) && price < 0
    ensures SplitPrice(s, collection, price)
         == if price * s.feeBps >= I128_MIN then Ok(Split(0, [], price)) else Err(Overflow)
  {
    FeeOfNegative(price, s.feeBps);
    RoyaltiesOfNegative(s, collection, price);
  }

  /** A sale pays nothing at all exactly when its price is not positive. */
  lemma NothingPaidIff(s: State, collection: Address, price: I128, seller: Address)
    requires RatesInRange(s) && SplitPrice(s, collection, price).Ok?
    ensures SalePayments(s, SplitPrice(s, collection, price).value, seller) == [] <==> price <= 0
  {
    PaymentsMatchPriceIff(s, collection, price, seller);
    if price < 0 {
      NegativeSplit(s, collection, price);
    }
    if price == 0 {
      RoyaltiesOfZero(s, collection);
    }
  }

  lemma RoyaltiesOfZero(s: State, collection: Address)
    requires RatesInRange(s)
    ensures SplitPrice(s, collection, 0) == Ok(Split(0, [], 0))
  {
    if collection in s.collections {
      NoRoyaltiesOfNothing(s.collections[collection].recipients);
    }
  }

  lemma {:induction false} NoRoyaltiesOfNothing(rs: seq<Recipient>)
    ensures RoyaltyAmounts(0, rs) == []
  {
    if rs != [] {
      NoRoyaltiesOfNothing(rs[..|rs| - 1]);
    }
  }

  /** The price of a Dutch auction is negative exactly when its time is over and its floor is negative. */
  lemma NegativePriceIff(a: Auction, now: nat)
    requires a.startPrice > 0 && DutchPrice(a, now).Ok?
    ensures DutchPrice(a, now).value < 0 <==> now >= a.endTime && a.floorPrice < 0
  {
  }

  lemma DutchPriceIsI128(a: Auction, now: nat)
    requires IsI128(a.startPrice) && IsI128(a.floorPrice) && DutchPrice(a, now).Ok?
    ensures IsI128(DutchPrice(a, now).value)
  {
  }

  /** Buying a Dutch auction costs nothing exactly when its time is over and its floor, which only the bulk call leaves
      unguarded, is negative. */
  lemma BoughtForNothingIff(s: State, now: U64, buyer: Address, id: nat)
    requires Inv(s) && BuyDutch(s, now, buyer, id).Ok?
    ensures Charges(s, id, now)
    ensures DutchPayments(s, s.auctions[id], now) == [] <==>
              now >= s.auctions[id].endTime && s.auctions[id].floorPrice < 0
  {
    BoughtSplit(s, now, buyer, id);
    var a := s.auctions[id];
    DutchPriceIsI128(a, now);
    NothingPaidIff(s, a.collection, DutchPrice(a, now).value, a.seller);
    NegativePriceIff(a, now);
  }

  /** One unit, from one down to a floor of minus one, over one second. */
  function NegativeItem(c: Address, currency: Address): AuctionItem {
    AuctionItem(c, 0, 1, Dutch, 1, -1, currency, 1)
  }

  /** The seller has the unit and the counters have room. */
  ghost predicate CanOpen(s: State, seller: Address, c: Address) {
    && RatesInRange(s) && !s.paused && Signs(s, seller) && c in s.collections
    && Bal(s.ledger, c, seller) >= 1 && s.auctionSeq < U64_MAX && s.collections[c].activeAuctions < U32_MAX
  }

  /** The marketplace holds the unit of an auction with a negative floor that ends at one. */
  ghost predicate OnOffer(s: State, id: nat, c: Address) {
    && RatesInRange(s) && !s.paused && id in s.auctions
    && s.auctions[id].status == AuctionStatus.Active && s.auctions[id].kind == Dutch && s.auctions[id].floorPrice == -1
    && s.auctions[id].endTime == 1 && s.auctions[id].collection == c && s.auctions[id].amount == 1
    && Bal(s.ledger, c, s.self) >= 1
  }

  lemma OpensBelowZero(s: State, seller: Address, c: Address, currency: Address)
    requires CanOpen(s, seller, c)
    ensures AuctionItemValid(s, NegativeItem(c, currency))
    ensures var r := OpenItem(s, 0, seller, NegativeItem(c, currency));
            && r.Ok? && r.value.1 == s.auctionSeq + 1 && r.value.0.self == s.self
            && OnOffer(r.value.0, s.auctionSeq + 1, c)
  {
  }

  lemma BoughtBelowZero(s: State, buyer: Address, id: nat, c: Address)
    requires OnOffer(s, id, c) && Signs(s, buyer)
    ensures BuyDutch(s, 1, buyer, id).Ok?
    ensures Move(s.ledger, c, s.self, buyer, 1) == Ok(BuyDutch(s, 1, buyer, id).value.ledger)
  {
    NegativeSplit(s, c, -1);
    assert SalePayments(s, Split(0, [], -1), s.auctions[id].seller) == [];
  }

  /** The bulk call opens such an auction, and whoever asks after its end is handed the parcel while no payment
      moves. */
  lemma NegativeFloorSale(s: State, seller: Address, buyer: Address, c: Address, currency: Address)
    requires CanOpen(s, seller, c) && Signs(s, buyer)
    ensures var listed := BulkCreateAuctions(s, 0, seller, [NegativeItem(c, currency)]);
            && listed.Ok? && listed.value.1 == BulkResult(1, 0, [s.auctionSeq + 1])
            && var sold := BuyDutch(listed.value.0, 1, buyer, s.auctionSeq + 1);
               sold.Ok? && Move(listed.value.0.ledger, c, s.self, buyer, 1) == Ok(sold.value.ledger)
  {
    BulkOfOne(s, 0, seller, NegativeItem(c, currency));
    OpensBelowZero(s, seller, c, currency);
    BoughtBelowZero(OpenItem(s, 0, seller, NegativeItem(c, currency)).value.0, buyer, s.auctionSeq + 1, c);
  }
}

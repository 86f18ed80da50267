/** How sale prices split and how Dutch prices fall. */
module MarketPricing {
  import opened Host
  import opened Token
  import opened BpsMath
  import opened Market

  // -------------------------------------------------------------------------
  // Dividing a sale price
  // -------------------------------------------------------------------------

  function Shares(rs: seq<Recipient>): seq<int> {
    seq(|rs|, i requires 0 <= i < |rs| => rs[i].shareBps)
  }

  ghost predicate AllPositive(ps: Payments) {
    forall p :: p in ps ==> p.1 > 0
  }

  lemma IfPositiveTotal(who: Address, amount: int)
    ensures AllPositive(IfPositive(who, amount)) && Total(IfPositive(who, amount)) == Max(amount, 0)
    ensures forall x: Address :: Received(IfPositive(who, amount), x) == if x == who then Max(amount, 0) else 0
  {
    if amount > 0 {
      assert [(who, amount)][..0] == [];
    }
  }

  lemma PositiveConcat(a: Payments, b: Payments)
    requires AllPositive(a) && AllPositive(b)
    ensures AllPositive(a + b) && Total(a + b) == Total(a) + Total(b)
  {
    TotalConcat(a, b);
  }

  lemma SharesPrefix(rs: seq<Recipient>)
    requires rs != []
    ensures Shares(rs)[..|rs| - 1] == Shares(rs[..|rs| - 1])
    ensures Shares(rs)[|rs| - 1] == rs[|rs| - 1].shareBps
  {
  }

  lemma {:induction false} TotalSharesIsSum(rs: seq<Recipient>)
    ensures TotalShares(rs) == Sum(Shares(rs))
  {
    if rs != [] {
      SharesPrefix(rs);
      TotalSharesIsSum(rs[..|rs| - 1]);
    }
  }

  /** One royalty is the floor of its share, or nothing where the product does not fit. */
  lemma RoyaltyIsFloor(price: int, shareBps: int)
    requires price >= 0 && 0 <= shareBps <= MAX_ROYALTY_BPS
    ensures 0 <= RoyaltyAmount(price, shareBps) <= price * shareBps / 10_000
    ensures price * MAX_ROYALTY_BPS <= I128_MAX ==> RoyaltyAmount(price, shareBps) == price * shareBps / 10_000
  {
    MulAtMost(price, shareBps, MAX_ROYALTY_BPS);
  }

  /** The royalties of a recipient list never exceed the floored shares, and reach them when nothing overflows. */
  lemma {:induction false} RoyaltiesAreFloors(price: int, rs: seq<Recipient>)
    requires price >= 0 && SharesInRange(rs)
    ensures AllPositive(RoyaltyAmounts(price, rs))
    ensures 0 <= Total(RoyaltyAmounts(price, rs)) <= FloorSum(price, Shares(rs))
    ensures price * MAX_ROYALTY_BPS <= I128_MAX ==> Total(RoyaltyAmounts(price, rs)) == FloorSum(price, Shares(rs))
  {
    if rs != [] {
      var front, last := rs[..|rs| - 1], rs[|rs| - 1];
      RoyaltiesAreFloors(price, front);
      RoyaltyIsFloor(price, last.shareBps);
      SharesPrefix(rs);
      var amount := RoyaltyAmount(price, last.shareBps);
      IfPositiveTotal(last.who, amount);
      PositiveConcat(RoyaltyAmounts(price, front), IfPositive(last.who, amount));
    }
  }

  lemma {:induction false} RoyaltiesPositive(price: int, rs: seq<Recipient>)
    ensures AllPositive(RoyaltyAmounts(price, rs)) && Total(RoyaltyAmounts(price, rs)) >= 0
  {
    if rs != [] {
      var front, last := rs[..|rs| - 1], rs[|rs| - 1];
      RoyaltiesPositive(price, front);
      var amount := RoyaltyAmount(price, last.shareBps);
      IfPositiveTotal(last.who, amount);
      PositiveConcat(RoyaltyAmounts(price, front), IfPositive(last.who, amount));
    }
  }

  lemma SplitAddsUp(s: State, collection: Address, price: int)
    requires SplitPrice(s, collection, price).Ok?
    ensures var split := SplitPrice(s, collection, price).value;
            && split.fee == PlatformFee(price, s.feeBps).value && split.fee >= 0
            && split.royalties == CollectionRoyalties(s, collection, price)
            && AllPositive(split.royalties) && Total(split.royalties) >= 0
            && split.fee + Total(split.royalties) + split.proceeds == price
  {
    if collection in s.collections {
      RoyaltiesPositive(price, s.collections[collection].recipients);
    }
  }

  /** The list of payments skips the parts that are not positive. */
  lemma SalePaymentsTotal(s: State, split: Split, seller: Address)
    requires split.fee >= 0 && AllPositive(split.royalties)
    ensures AllPositive(SalePayments(s, split, seller))
    ensures Total(SalePayments(s, split, seller)) == split.fee + Total(split.royalties) + Max(split.proceeds, 0)
  {
    var head, tail := IfPositive(s.feeRecipient, split.fee), IfPositive(seller, split.proceeds);
    IfPositiveTotal(s.feeRecipient, split.fee);
    IfPositiveTotal(seller, split.proceeds);
    PositiveConcat(head, split.royalties);
    PositiveConcat(head + split.royalties, tail);
  }

  /** Whatever the configuration: the parts add up to the price before payment, every payment made is
      positive, and the payments add up to the price exactly when fee and royalties do not exceed it. */
  lemma PaymentsMatchPriceIff(s: State, collection: Address, price: int, seller: Address)
    requires SplitPrice(s, collection, price).Ok?
    ensures var split := SplitPrice(s, collection, price).value;
            var ps := SalePayments(s, split, seller);
            && AllPositive(ps)
            && Total(ps) == Max(price, split.fee + Total(split.royalties))
            && (Total(ps) == price <==> split.fee + Total(split.royalties) <= price)
  {
    SplitAddsUp(s, collection, price);
    SalePaymentsTotal(s, SplitPrice(s, collection, price).value, seller);
  }

  ghost predicate RatesInRange(s: State) {
    && 0 <= s.feeBps <= MAX_FEE_BPS
    && forall c: Address :: c in s.collections ==>
         && SharesInRange(s.collections[c].recipients)
         && s.collections[c].totalBps == TotalShares(s.collections[c].recipients)
  }

  /** The royalty rate of a collection; an unregistered one pays none. */
  function RoyaltyRate(s: State, collection: Address): int {
    if collection in s.collections then s.collections[collection].totalBps else 0
  }

  lemma RoyaltyRateNonNegative(s: State, collection: Address)
    requires RatesInRange(s)
    ensures RoyaltyRate(s, collection) >= 0
  {
    if collection in s.collections {
      var rs := s.collections[collection].recipients;
      TotalSharesIsSum(rs);
      FloorSumNonNegative(0, Shares(rs));
    }
  }

  lemma RoyaltiesWithinRate(s: State, collection: Address, price: int)
    requires RatesInRange(s) && price >= 0
    ensures 10_000 * Total(CollectionRoyalties(s, collection, price)) <= price * RoyaltyRate(s, collection)
  {
    RoyaltyRateNonNegative(s, collection);
    if collection in s.collections {
      var rs := s.collections[collection].recipients;
      RoyaltiesAreFloors(price, rs);
      FloorSumBound(price, Shares(rs));
      TotalSharesIsSum(rs);
      assert price * RoyaltyRate(s, collection) >= 0;
    }
  }

  /** Within a combined rate of 10_000 the floored fee and the floored royalties never exceed the price,
      for any recipient list. */
  lemma SplitFits(s: State, collection: Address, price: int)
    requires RatesInRange(s) && price >= 0
    requires s.feeBps + RoyaltyRate(s, collection) <= BPS_DENOM
    requires SplitPrice(s, collection, price).Ok?
    ensures 0 <= SplitPrice(s, collection, price).value.proceeds <= price
  {
    SplitAddsUp(s, collection, price);
    RoyaltiesWithinRate(s, collection, price);
    FeeWithinRate(price, s.feeBps);
    RatesTogether(price, s.feeBps, RoyaltyRate(s, collection));
  }

  lemma FeeWithinRate(price: int, feeBps: int)
    requires price >= 0 && feeBps >= 0 && PlatformFee(price, feeBps).Ok?
    ensures 0 <= 10_000 * PlatformFee(price, feeBps).value <= price * feeBps
  {
    var product := price * feeBps;
    assert product >= 0;
  }

  lemma RatesTogether(price: int, feeBps: int, rate: int)
    requires price >= 0 && feeBps + rate <= 10_000
    ensures price * feeBps + price * rate <= 10_000 * price
  {
    assert price * (feeBps + rate) == price * feeBps + price * rate;
  }

  /** Royalties within a rate of 10_000 never exceed the price. */
  lemma RoyaltiesAtMostPrice(s: State, collection: Address, price: int)
    requires RatesInRange(s) && price >= 0 && RoyaltyRate(s, collection) <= BPS_DENOM
    ensures 0 <= Total(CollectionRoyalties(s, collection, price)) <= price
  {
    RoyaltiesWithinRate(s, collection, price);
    RatesTogether(price, 0, RoyaltyRate(s, collection));
    if collection in s.collections {
      RoyaltiesPositive(price, s.collections[collection].recipients);
    }
  }

  /** Within that rate the one thing that can stop the split of a price is the product of the fee. */
  lemma SplitComputesIff(s: State, collection: Address, price: I128)
    requires RatesInRange(s) && price >= 0
    requires s.feeBps + RoyaltyRate(s, collection) <= BPS_DENOM
    ensures SplitPrice(s, collection, price).Ok? <==> price * s.feeBps <= I128_MAX
  {
    RoyaltiesAtMostPrice(s, collection, price);
    FloorAtMost(price, s.feeBps);
    var product, royalties := price * s.feeBps, Total(CollectionRoyalties(s, collection, price));
    assert product >= 0;
    if product <= I128_MAX {
      assert PlatformFee(price, s.feeBps) == Ok(product / 10_000);
    }
  }

  ghost predicate EverySplitFits(s: State, collection: Address) {
    forall price: int :: price >= 0 && SplitPrice(s, collection, price).Ok? ==>
      SplitPrice(s, collection, price).value.proceeds >= 0
  }

  lemma RoyaltiesAtWholeUnit(rs: seq<Recipient>)
    requires SharesInRange(rs)
    ensures Total(RoyaltyAmounts(10_000, rs)) == TotalShares(rs)
  {
    RoyaltiesAreFloors(10_000, rs);
    FloorSumExact(1, Shares(rs));
    TotalSharesIsSum(rs);
  }

  /** At a price of 10_000 nothing is rounded: the parts are the rates themselves. */
  lemma SplitAtWholeUnit(s: State, collection: Address)
    requires RatesInRange(s)
    requires collection in s.collections ==> |s.collections[collection].recipients| <= U32_MAX
    ensures SplitPrice(s, collection, 10_000).Ok?
    ensures SplitPrice(s, collection, 10_000).value.proceeds == 10_000 - s.feeBps - RoyaltyRate(s, collection)
  {
    assert PlatformFee(10_000, s.feeBps) == Ok(s.feeBps);
    if collection in s.collections {
      var rs := s.collections[collection].recipients;
      RoyaltiesAtWholeUnit(rs);
      TotalSharesAtMost(rs);
    }
    assert Total(CollectionRoyalties(s, collection, 10_000)) == RoyaltyRate(s, collection);
  }

  lemma {:induction false} TotalSharesAtMost(rs: seq<Recipient>)
    requires SharesInRange(rs)
    ensures 0 <= TotalShares(rs) <= MAX_ROYALTY_BPS * |rs|
  {
    if rs != [] {
      TotalSharesAtMost(rs[..|rs| - 1]);
    }
  }

  /** The combined rate is the exact condition: the proceeds are non-negative at every price if and only
      if fee and royalty rates add up to at most 10_000. Each is capped on its own; the sum is not. */
  lemma EverySplitFitsIff(s: State, collection: Address)
    requires RatesInRange(s)
    requires collection in s.collections ==> |s.collections[collection].recipients| <= U32_MAX
    ensures EverySplitFits(s, collection) <==> s.feeBps + RoyaltyRate(s, collection) <= BPS_DENOM
  {
    SplitAtWholeUnit(s, collection);
    if s.feeBps + RoyaltyRate(s, collection) <= BPS_DENOM {
      forall price: int | price >= 0 && SplitPrice(s, collection, price).Ok?
        ensures SplitPrice(s, collection, price).value.proceeds >= 0
      {
        SplitFits(s, collection, price);
      }
    }
  }

  // -------------------------------------------------------------------------
  // Who gets which part
  // -------------------------------------------------------------------------

  /** The floored share of a price in basis points; nothing where the product does not fit or is negative. */
  function FlooredShare(price: int, bps: int): nat {
    if IsI128(price * bps) then Max(0, price * bps / 10_000) else 0
  }

  /** What one address is due: its floored share for every entry of the list that names it. */
  function DueTo(price: int, rs: seq<Recipient>, x: Address): nat {
    if rs == [] then 0
    else (if rs[0].who == x then FlooredShare(price, rs[0].shareBps) else 0) + DueTo(price, rs[1..], x)
  }

  /** What all the entries are due. */
  function DueInAll(price: int, rs: seq<Recipient>): nat {
    if rs == [] then 0 else FlooredShare(price, rs[0].shareBps) + DueInAll(price, rs[1..])
  }

  lemma {:induction false} DueSnoc(price: int, rs: seq<Recipient>, x: Address)
    requires rs != []
    ensures var front, last := rs[..|rs| - 1], rs[|rs| - 1];
            && DueTo(price, rs, x)
                 == DueTo(price, front, x) + (if last.who == x then FlooredShare(price, last.shareBps) else 0)
            && DueInAll(price, rs) == DueInAll(price, front) + FlooredShare(price, last.shareBps)
  {
    if |rs| > 1 {
      DueSnoc(price, rs[1..], x);
      assert rs[1..][..|rs| - 2] == rs[..|rs| - 1][1..];
    }
  }

  lemma RoyaltyIsFlooredShare(price: int, shareBps: int)
    ensures Max(RoyaltyAmount(price, shareBps), 0) == FlooredShare(price, shareBps)
  {
    var product := price * shareBps;
    assert CheckedMul(price, shareBps) == if IsI128(product) then Some(product) else None;
    TruncatedOrFloored(product);
  }

  lemma TruncatedOrFloored(product: int)
    ensures Max(TruncDiv(product, 10_000), 0) == Max(0, product / 10_000)
  {
  }

  /** Every address receives its own floored shares, and nobody anything else. */
  lemma {:induction false} RoyaltiesReach(price: int, rs: seq<Recipient>, x: Address)
    ensures Received(RoyaltyAmounts(price, rs), x) == DueTo(price, rs, x)
    ensures Total(RoyaltyAmounts(price, rs)) == DueInAll(price, rs)
  {
    if rs != [] {
      var front, last := rs[..|rs| - 1], rs[|rs| - 1];
      RoyaltiesReach(price, front, x);
      DueSnoc(price, rs, x);
      RoyaltyIsFlooredShare(price, last.shareBps);
      var amount := RoyaltyAmount(price, last.shareBps);
      IfPositiveTotal(last.who, amount);
      ReceivedConcat(RoyaltyAmounts(price, front), IfPositive(last.who, amount), x);
      TotalConcat(RoyaltyAmounts(price, front), IfPositive(last.who, amount));
    }
  }

  /** The recipients a sale pays; a collection whose shares add up to nothing pays none. */
  function PaidRecipients(s: State, collection: Address): seq<Recipient> {
    if collection in s.collections && s.collections[collection].totalBps > 0
    then s.collections[collection].recipients else []
  }

  lemma CollectionRoyaltiesReach(s: State, collection: Address, price: int, x: Address)
    ensures Received(CollectionRoyalties(s, collection, price), x) == DueTo(price, PaidRecipients(s, collection), x)
    ensures Total(CollectionRoyalties(s, collection, price)) == DueInAll(price, PaidRecipients(s, collection))
  {
    RoyaltiesReach(price, PaidRecipients(s, collection), x);
  }

  lemma FeeIsFlooredShare(price: int, feeBps: int)
    requires PlatformFee(price, feeBps).Ok?
    ensures PlatformFee(price, feeBps).value == FlooredShare(price, feeBps)
  {
    var product := price * feeBps;
    assert CheckedMul(price, feeBps) == Some(product);
    TruncatedOrFloored(product);
  }

  /** What the seller keeps of a price, and what the payer gives up: the price, or what is due to others if that is
      more. */
  function SellersRest(s: State, collection: Address, price: int): nat {
    Max(0, price - FlooredShare(price, s.feeBps) - DueInAll(price, PaidRecipients(s, collection)))
  }

  function PayersCost(s: State, collection: Address, price: int): int {
    Max(price, FlooredShare(price, s.feeBps) + DueInAll(price, PaidRecipients(s, collection)))
  }

  /** Every address receives its part of a split price: the fee, its shares, and the seller the rest. */
  lemma SplitReaches(s: State, collection: Address, price: int, seller: Address, x: Address)
    requires SplitPrice(s, collection, price).Ok?
    ensures var ps := SalePayments(s, SplitPrice(s, collection, price).value, seller);
            && Received(ps, x)
                 == (if x == s.feeRecipient then FlooredShare(price, s.feeBps) else 0)
                    + DueTo(price, PaidRecipients(s, collection), x)
                    + (if x == seller then SellersRest(s, collection, price) else 0)
            && Total(ps) == PayersCost(s, collection, price)
  {
    var split := SplitPrice(s, collection, price).value;
    SplitAddsUp(s, collection, price);
    FeeIsFlooredShare(price, s.feeBps);
    CollectionRoyaltiesReach(s, collection, price, x);
    PaymentsReach(s, split, seller, x);
  }

  lemma PaymentsReach(s: State, split: Split, seller: Address, x: Address)
    requires split.fee >= 0 && AllPositive(split.royalties)
    ensures var ps := SalePayments(s, split, seller);
            && Received(ps, x)
                 == (if x == s.feeRecipient then split.fee else 0) + Received(split.royalties, x)
                    + (if x == seller then Max(split.proceeds, 0) else 0)
            && Total(ps) == split.fee + Total(split.royalties) + Max(split.proceeds, 0)
  {
    var head, tail := IfPositive(s.feeRecipient, split.fee), IfPositive(seller, split.proceeds);
    SalePaymentsTotal(s, split, seller);
    IfPositiveTotal(s.feeRecipient, split.fee);
    IfPositiveTotal(seller, split.proceeds);
    ReceivedConcat(head, split.royalties, x);
    ReceivedConcat(head + split.royalties, tail, x);
  }

  // -------------------------------------------------------------------------
  // The three sale paths
  // -------------------------------------------------------------------------

  /** A sale moves its payments and one parcel of tokens, exactly, and no supply changes. */
  lemma SaleEffect(l: Ledger, currency: Address, payer: Address, ps: Payments,
                   token: Address, from: Address, to: Address, amount: int)
    requires PayAll(l, currency, payer, ps).Some?
    requires Transfer(PayAll(l, currency, payer, ps).value, token, from, to, amount).Some?
    ensures var l' := Transfer(PayAll(l, currency, payer, ps).value, token, from, to, amount).value;
            && (forall t: Address, x: Address ::
                  Bal(l', t, x) == Bal(l, t, x)
                    + (if t == currency then Received(ps, x) - (if x == payer then Total(ps) else 0) else 0)
                    + (if t == token then (if x == to then amount else 0) - (if x == from then amount else 0) else 0))
            && forall t: Address :: Supply(l', t) == Supply(l, t)
  {
    PayAllEffect(l, currency, payer, ps);
    forall t: Address {
      TransferKeepsSupply(PayAll(l, currency, payer, ps).value, token, from, to, amount, t);
    }
  }

  /** The terms of a sale: who pays what to whom, and which parcel changes hands. */
  datatype Terms = Terms(
    currency: Address, payer: Address, price: int, collection: Address, seller: Address, to: Address, amount: int)

  /** What the successful sale paths do. */
  ghost function TermsOf(s: State, now: U64, call: Call): Option<Terms> {
    if Apply(s, now, call).Err? then None
    else match call
      case CallBuyNft(buyer, id) =>
        var l := s.listings[id];
        Some(Terms(l.currency, buyer, l.price, l.collection, l.seller, buyer, l.amount))
      case CallSettleEnglish(id) =>
        var a := s.auctions[id];
        if a.currentBid == 0 then None
        else Some(Terms(a.currency, s.self, a.currentBid, a.collection, a.seller, a.currentBidder, a.amount))
      case CallBuyDutch(buyer, id) =>
        var a := s.auctions[id];
        Some(Terms(a.currency, buyer, DutchPrice(a, now).value, a.collection, a.seller, buyer, a.amount))
      case _ => None
  }

  /** What a sale does to one balance: the floored fee, the floored shares and the rest for the seller come from the
      payer, the parcel from the marketplace. */
  function SaleFlow(s: State, k: Terms, t: Address, x: Address): int {
    (if t != k.currency then 0
     else (if x == s.feeRecipient then FlooredShare(k.price, s.feeBps) else 0)
          + DueTo(k.price, PaidRecipients(s, k.collection), x)
          + (if x == k.seller then SellersRest(s, k.collection, k.price) else 0)
          - (if x == k.payer then PayersCost(s, k.collection, k.price) else 0))
    + (if t != k.collection then 0
       else (if x == k.to then k.amount else 0) - (if x == s.self then k.amount else 0))
  }

  /** In all three sale paths every balance changes by its part of the split price and by the parcel, exactly, and no
      supply changes. */
  lemma SaleConserves(s: State, now: U64, call: Call)
    requires TermsOf(s, now, call).Some?
    ensures var k, l' := TermsOf(s, now, call).value, Apply(s, now, call).value.ledger;
            && (forall t: Address, x: Address :: Bal(l', t, x) == Bal(s.ledger, t, x) + SaleFlow(s, k, t, x))
            && forall t: Address :: Supply(l', t) == Supply(s.ledger, t)
  {
    var k, l' := TermsOf(s, now, call).value, Apply(s, now, call).value.ledger;
    SoldOnTerms(s, now, call);
    SaleOnTerms(s, k, l');
  }

  /** The ledger is the one a sale on these terms leaves. */
  predicate IsSale(s: State, k: Terms, l': Ledger) {
    && SplitPrice(s, k.collection, k.price).Ok?
    && var paid :=
         PayAll(s.ledger, k.currency, k.payer,
                SalePayments(s, SplitPrice(s, k.collection, k.price).value, k.seller));
       paid.Some? && Transfer(paid.value, k.collection, s.self, k.to, k.amount) == Some(l')
  }

  lemma SoldOnTerms(s: State, now: U64, call: Call)
    requires TermsOf(s, now, call).Some?
    ensures IsSale(s, TermsOf(s, now, call).value, Apply(s, now, call).value.ledger)
  {
  }

  lemma SaleOnTerms(s: State, k: Terms, l': Ledger)
    requires IsSale(s, k, l')
    ensures forall t: Address, x: Address :: Bal(l', t, x) == Bal(s.ledger, t, x) + SaleFlow(s, k, t, x)
    ensures forall t: Address :: Supply(l', t) == Supply(s.ledger, t)
  {
    var ps := SalePayments(s, SplitPrice(s, k.collection, k.price).value, k.seller);
    SaleEffect(s.ledger, k.currency, k.payer, ps, k.collection, s.self, k.to, k.amount);
    forall t: Address, x: Address ensures Bal(l', t, x) == Bal(s.ledger, t, x) + SaleFlow(s, k, t, x) {
      FlowOfPayments(s, k, ps, t, x);
    }
  }

  lemma FlowOfPayments(s: State, k: Terms, ps: Payments, t: Address, x: Address)
    requires SplitPrice(s, k.collection, k.price).Ok?
    requires ps == SalePayments(s, SplitPrice(s, k.collection, k.price).value, k.seller)
    ensures SaleFlow(s, k, t, x)
         == (if t == k.currency then Received(ps, x) - (if x == k.payer then Total(ps) else 0) else 0)
            + (if t == k.collection
               then (if x == k.to then k.amount else 0) - (if x == s.self then k.amount else 0) else 0)
  {
    SplitReaches(s, k.collection, k.price, k.seller, x);
  }

  // -------------------------------------------------------------------------
  // Dutch prices
  // -------------------------------------------------------------------------

  ghost predicate DutchShape(a: Auction) {
    0 < a.floorPrice < a.startPrice <= I128_MAX && a.startTime < a.endTime
  }

  /** The line the price follows, scaled by the duration: how much of the range is still to fall. */
  function Fall(a: Auction, now: int): int {
    (a.startPrice - a.floorPrice) * (now - a.startTime)
  }

  lemma DecayWithin(range: int, elapsed: int, duration: int)
    requires range > 0 && 0 <= elapsed <= duration && duration > 0
    ensures 0 <= range * elapsed / duration <= range
  {
    MulAtMost(range, elapsed, duration);
    var product := range * elapsed;
    assert product / duration <= range by {
      if product / duration > range {
        DivTooBig(product, duration, range);
        assert false;
      }
    }
  }

  lemma DivTooBig(x: int, d: int, q: int)
    requires d > 0 && x / d > q
    ensures x > q * d
  {
    assert x / d * d <= x;
    assert x / d * d >= (q + 1) * d;
  }

  /** What both calls that open Dutch auctions demand of prices and times; the bulk call lets the floor be negative. */
  ghost predicate DutchLine(a: Auction) {
    && a.floorPrice < a.startPrice && 0 < a.startPrice <= I128_MAX && IsI128(a.floorPrice)
    && a.startTime < a.endTime
  }

  /** Between start and end a price is computed exactly when the product fits in 128 bits; it is the line rounded up,
      but never below zero. At the start and before it is the start price, from the end on the floor. */
  lemma DutchPriceOnLine(a: Auction, now: nat)
    requires DutchLine(a)
    ensures a.startTime < now < a.endTime ==>
              && (DutchPrice(a, now).Ok? <==> Fall(a, now) <= I128_MAX)
              && (DutchPrice(a, now).Ok? ==>
                    var price := DutchPrice(a, now).value;
                    && price == Max(a.startPrice - Fall(a, now) / (a.endTime - a.startTime), 0)
                    && Max(a.floorPrice, 0) <= price <= a.startPrice)
    ensures now <= a.startTime ==> DutchPrice(a, now) == Ok(a.startPrice)
    ensures now >= a.endTime ==> DutchPrice(a, now) == Ok(a.floorPrice)
  {
    if a.startTime < now < a.endTime {
      var range, elapsed, duration := a.startPrice - a.floorPrice, now - a.startTime, a.endTime - a.startTime;
      DecayWithin(range, elapsed, duration);
      FallAtLeast(range, elapsed);
      var product := range * elapsed;
      assert product == Fall(a, now);
      if product <= I128_MAX {
        assert CheckedSub(a.startPrice, a.floorPrice) == Some(range);
        assert CheckedMul(range, elapsed) == Some(product);
        assert CheckedDiv(product, duration) == Some(product / duration);
      } else {
        assert CheckedMul(range, elapsed).None?;
      }
    }
  }

  lemma FallAtLeast(range: int, elapsed: int)
    requires range > 0 && elapsed >= 1
    ensures range * elapsed >= range
  {
    assert range * (elapsed - 1) >= 0;
  }

  /** Every price a Dutch auction quotes lies between its floor and its start. */
  lemma DutchPriceInRange(a: Auction, now: nat)
    requires DutchShape(a) && DutchPrice(a, now).Ok?
    ensures a.floorPrice <= DutchPrice(a, now).value <= a.startPrice
  {
    if a.startTime < now < a.endTime {
      DutchPriceOnLine(a, now);
    }
  }

  /** The quoted price is the exact line rounded up to the next unit. */
  lemma DutchPriceWithinOne(a: Auction, now: nat)
    requires DutchShape(a) && a.startTime <= now <= a.endTime && DutchPrice(a, now).Ok?
    ensures var duration, price := a.endTime - a.startTime, DutchPrice(a, now).value;
            0 <= duration * (price - a.startPrice) + Fall(a, now) < duration
  {
    var duration, fall := a.endTime - a.startTime, Fall(a, now);
    if a.startTime < now < a.endTime {
      DutchPriceOnLine(a, now);
      QuotientLeaves(fall, duration);
    } else if now == a.endTime {
      assert duration * (a.floorPrice - a.startPrice) == -((a.startPrice - a.floorPrice) * duration);
    }
  }

  lemma QuotientLeaves(x: int, d: int)
    requires d > 0
    ensures d * (-(x / d)) + x == x % d
  {
  }

  /** The price never rises, also across the start and the end. */
  lemma DutchPriceFalls(a: Auction, early: nat, late: nat)
    requires DutchShape(a) && early <= late
    requires DutchPrice(a, early).Ok? && DutchPrice(a, late).Ok?
    ensures DutchPrice(a, late).value <= DutchPrice(a, early).value
  {
    DutchPriceInRange(a, early);
    DutchPriceInRange(a, late);
    if a.startTime < early && late < a.endTime {
      DutchPriceOnLine(a, early);
      DutchPriceOnLine(a, late);
      MulAtMost(a.startPrice - a.floorPrice, early - a.startTime, late - a.startTime);
      DivMonotone(Fall(a, early), Fall(a, late), a.endTime - a.startTime);
    }
  }

  lemma DivMonotone(x: int, y: int, d: int)
    requires x <= y && d > 0
    ensures x / d <= y / d
  {
    var p, q := x / d, y / d;
    if p > q {
      MulGap(p, q, d);
      assert false;
    }
  }

  lemma MulGap(p: int, q: int, d: int)
    requires p > q && d > 0
    ensures p * d >= q * d + d
  {
    assert (p - q - 1) * d >= 0;
  }
}

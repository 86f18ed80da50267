/** A run in which a buyer pays more than the start price: fee and royalties on a Dutch price have no common cap. */
module MarketOvercharge {
  import opened Host
  import opened Token
  import opened Market
  import opened MarketPricing
  import opened MarketAuctions
  import opened MarketDutch
  import opened MarketShortfall

  /** A fee of 1_000, ten royalties of 1_000 and an auction from 10_000 down to 1, bought as it starts. */
  function DutchCalls(hash: Bytes): seq<Tx> {
    [Tx(0, CallSetCurrency(ADMIN, COIN, true)),
     Tx(0, CallRegisterCollection(ADMIN, ART, hash, Artists(10))),
     Tx(0, Issued(COIN, BIDDER, 1_000)),
     Tx(0, CallCreateDutch(SELLER, ART, 7, 1, 10_000, 1, COIN, 10, hash)),
     Tx(0, CallBuyDutch(BIDDER, 1))]
  }

  function TheDutchAuction(): Auction {
    Auction(1, Dutch, SELLER, ART, 7, 1, COIN, 10_000, 1, 0, SELF, AuctionStatus.Active, 0, 10, 0)
  }

  /** The state before the purchase: the buyer holds 11_000 and the marketplace the parcel. */
  ghost predicate BeforePurchase(s: State) {
    && Configured(s) && s.collections == map[ART := Collection(ADMIN, Artists(10), 10_000, 0, 1)]
    && s.auctions == map[1 := TheDutchAuction()]
    && Bal(s.ledger, COIN, BIDDER) == 11_000 && Bal(s.ledger, ART, SELF) == 1
  }

  lemma StepIssues(s: State, now: U64, token: Address, to: Address, minted: nat)
    ensures Step(s, Tx(now, Issued(token, to, minted)))
         == s.(ledger := s.ledger[(token, to) := Bal(s.ledger, token, to) + minted])
  {
  }

  lemma Registered(hash: Bytes)
    requires |hash| == METADATA_HASH_LEN
    ensures var s := At(Opening(), DutchCalls(hash), 3);
            && Configured(s) && s.collections == map[ART := Collection(ADMIN, Artists(10), 10_000, 0, 0)]
            && s.auctionSeq == 0 && s.auctions == map[]
            && Bal(s.ledger, COIN, BIDDER) == 11_000 && Bal(s.ledger, ART, SELF) == 0 && Bal(s.ledger, ART, SELLER) == 1
  {
    FirstTwoCalls(hash);
    assert DutchCalls(hash)[..3][..2] == Calls(hash)[..2];
    StepIssues(Run(Opening(), Calls(hash)[..2]), 0, COIN, BIDDER, 1_000);
  }

  lemma OpenedAtStart(hash: Bytes)
    requires |hash| == METADATA_HASH_LEN
    ensures Creates(At(Opening(), DutchCalls(hash), 3), DutchCalls(hash)[3], 1)
    ensures BeforePurchase(At(Opening(), DutchCalls(hash), 4))
  {
    Registered(hash);
    assert DutchCalls(hash)[..4][..3] == DutchCalls(hash)[..3];
  }

  lemma PurchasePayments(s: State)
    requires BeforePurchase(s)
    ensures Charges(s, 1, 0) && DutchPrice(s.auctions[1], 0) == Ok(10_000)
    ensures var ps := DutchPayments(s, s.auctions[1], 0);
            AllPositive(ps) && Total(ps) == 11_000 && Received(ps, BIDDER) == 0
  {
    ArtistsShares(10);
    RoyaltiesAtWholeUnit(Artists(10));
    assert PlatformFee(10_000, 1_000) == Ok(1_000);
    assert SplitPrice(s, ART, 10_000) == Ok(Split(1_000, RoyaltyAmounts(10_000, Artists(10)), -1_000));
    PaymentsMatchPriceIff(s, ART, 10_000, SELLER);
    OnlyRecipientsReceive(10_000, Artists(10), BIDDER);
    ReceivedConcat([(FEES, 1_000)], RoyaltyAmounts(10_000, Artists(10)), BIDDER);
    assert DutchPayments(s, s.auctions[1], 0) == [(FEES, 1_000)] + RoyaltyAmounts(10_000, Artists(10));
  }

  lemma PurchaseIsPaid(s: State)
    requires BeforePurchase(s)
    ensures Charges(s, 1, 0)
    ensures var paid := PayAll(s.ledger, COIN, BIDDER, DutchPayments(s, s.auctions[1], 0));
            paid.Some? && Bal(paid.value, COIN, BIDDER) == 0 && Bal(paid.value, ART, SELF) == 1
  {
    PurchasePayments(s);
    var ps := DutchPayments(s, s.auctions[1], 0);
    assert forall i :: 0 <= i < |ps| ==> ps[i] in ps;
    PayAllSucceeds(s.ledger, COIN, BIDDER, ps);
    PayAllEffect(s.ledger, COIN, BIDDER, ps);
  }

  lemma PurchaseGoesThrough(s: State)
    requires BeforePurchase(s)
    ensures BuyDutch(s, 0, BIDDER, 1).Ok? && Bal(BuyDutch(s, 0, BIDDER, 1).value.ledger, COIN, BIDDER) == 0
  {
    PurchaseIsPaid(s);
    assert DutchPrice(TheDutchAuction(), 0) == Ok(10_000);
  }

  /** Without covering rates the start price is no bound: an auction opened at 10_000 costs its buyer 11_000. */
  lemma BuyerPaysMoreThanStart(hash: Bytes)
    requires |hash| == METADATA_HASH_LEN
    ensures var txs := DutchCalls(hash);
            && Start(Opening()) && Creates(At(Opening(), txs, 3), txs[3], 1) && txs[3].call.price == 10_000
            && var s := At(Opening(), txs, 4);
            && Buys(s, txs[4], 1) && Charges(s, 1, txs[4].now)
            && Total(DutchPayments(s, s.auctions[1], txs[4].now)) == 11_000
            && Bal(s.ledger, COIN, BIDDER) == 11_000
            && Bal(BuyDutch(s, 0, BIDDER, 1).value.ledger, COIN, BIDDER) == 0
  {
    OpeningStarts();
    OpenedAtStart(hash);
    PurchasePayments(At(Opening(), DutchCalls(hash), 4));
    PurchaseGoesThrough(At(Opening(), DutchCalls(hash), 4));
  }
}

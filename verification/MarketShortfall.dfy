/** A run that leaves the marketplace short: the combined-rate condition on settlements cannot be dropped. */
module MarketShortfall {
  import opened Host
  import opened Sums
  import opened Token
  import opened Market
  import opened MarketPricing
  import opened MarketInvariant
  import opened MarketSolvency

  const SELF: Address := 0
  const ADMIN: Address := 1
  const SELLER: Address := 2
  const BIDDER: Address := 3
  const OFFERER: Address := 4
  const FEES: Address := 5
  const ARTIST: Address := 6
  const COIN: Address := 100
  const ART: Address := 200

  function Artists(n: nat): seq<Recipient> {
    if n == 0 then [] else Artists(n - 1) + [Recipient(ARTIST, MAX_ROYALTY_BPS)]
  }

  lemma {:induction false} ArtistsShares(n: nat)
    ensures |Artists(n)| == n && SharesInRange(Artists(n)) && TotalShares(Artists(n)) == MAX_ROYALTY_BPS * n
    ensures forall i :: 0 <= i < n ==> Artists(n)[i].who == ARTIST
  {
    if n > 0 {
      ArtistsShares(n - 1);
      assert Artists(n)[..n - 1] == Artists(n - 1);
    }
  }

  /** An address that is no recipient receives no royalty. */
  lemma {:induction false} OnlyRecipientsReceive(price: int, rs: seq<Recipient>, who: Address)
    requires forall i :: 0 <= i < |rs| ==> rs[i].who != who
    ensures Received(RoyaltyAmounts(price, rs), who) == 0
  {
    if rs != [] {
      var front := rs[..|rs| - 1];
      OnlyRecipientsReceive(price, front, who);
      var amount := RoyaltyAmount(price, rs[|rs| - 1].shareBps);
      IfPositiveTotal(rs[|rs| - 1].who, amount);
      ReceivedConcat(RoyaltyAmounts(price, front), IfPositive(rs[|rs| - 1].who, amount), who);
    }
  }

  function Opening(): State {
    State(SELF, ADMIN, false, 1_000, FEES, 100, 0, map[], map[], 0, 0, 0, map[], map[], map[],
          map[(ART, SELLER) := 1, (COIN, BIDDER) := 10_000, (COIN, OFFERER) := 1_000])
  }

  function Calls(hash: Bytes): seq<Tx> {
    [Tx(0, CallSetCurrency(ADMIN, COIN, true)),
     Tx(0, CallRegisterCollection(ADMIN, ART, hash, Artists(10))),
     Tx(0, CallMakeOffer(OFFERER, SELLER, ART, 7, 1, 1_000, COIN, 100)),
     Tx(0, CallCreateEnglish(SELLER, ART, 7, 1, 10_000, COIN, 10, hash)),
     Tx(1, CallPlaceBid(BIDDER, 1, 10_000)),
     Tx(10, CallSettleEnglish(1))]
  }

  function TheOffer(): Offer { Offer(1, OFFERER, SELLER, ART, 7, 1, 1_000, COIN, Pending, 100) }

  function TheAuction(bid: int, bidder: Address): Auction {
    Auction(1, English, SELLER, ART, 7, 1, COIN, 10_000, 0, bid, bidder, AuctionStatus.Active, 0, 10, 0)
  }

  /** The state before the settlement: a bid of 10_000 and an offer of 1_000 in escrow, and nothing to spare. */
  ghost predicate BeforeSettlement(s: State) {
    && Configured(s) && s.collections == map[ART := Collection(ADMIN, Artists(10), 10_000, 0, 1)]
    && s.auctions == map[1 := TheAuction(10_000, BIDDER)] && s.offers == map[1 := TheOffer()]
    && Bal(s.ledger, COIN, SELF) == 11_000 && Bal(s.ledger, ART, SELF) == 1
  }

  lemma FirstTwoCalls(hash: Bytes)
    requires |hash| == METADATA_HASH_LEN
    ensures Run(Opening(), Calls(hash)[..2]).collections == map[ART := Collection(ADMIN, Artists(10), 10_000, 0, 0)]
    ensures Run(Opening(), Calls(hash)[..2])
         == Opening().(currencies := map[COIN := true], collections := Run(Opening(), Calls(hash)[..2]).collections)
  {
    ArtistsShares(10);
    var s1 := Opening().(currencies := map[COIN := true]);
    assert Calls(hash)[..1][..0] == [];
    assert Run(Opening(), Calls(hash)[..1]) == s1;
    assert Calls(hash)[..2][..1] == Calls(hash)[..1];
  }

  ghost predicate Configured(s: State) {
    && s.self == SELF && !s.paused && s.feeBps == 1_000 && s.feeRecipient == FEES && s.bidIncrementBps == 100
    && s.autoExtension == 0 && s.currencies == map[COIN := true] && s.listings == map[]
  }

  lemma ThirdCall(hash: Bytes)
    requires |hash| == METADATA_HASH_LEN
    ensures var s := Run(Opening(), Calls(hash)[..3]);
            && Configured(s) && s.collections == map[ART := Collection(ADMIN, Artists(10), 10_000, 0, 0)]
            && s.auctionSeq == 0 && s.auctions == map[] && s.offerSeq == 1 && s.offers == map[1 := TheOffer()]
            && Bal(s.ledger, COIN, SELF) == 1_000 && Bal(s.ledger, COIN, BIDDER) == 10_000
            && Bal(s.ledger, ART, SELF) == 0 && Bal(s.ledger, ART, SELLER) == 1
  {
    FirstTwoCalls(hash);
    assert Calls(hash)[..3][..2] == Calls(hash)[..2];
    assert MakeOffer(Run(Opening(), Calls(hash)[..2]), 0, OFFERER, SELLER, ART, 7, 1, 1_000, COIN, 100).Ok?;
  }

  lemma FourthCall(hash: Bytes)
    requires |hash| == METADATA_HASH_LEN
    ensures var s := Run(Opening(), Calls(hash)[..4]);
            && Configured(s) && s.collections == map[ART := Collection(ADMIN, Artists(10), 10_000, 0, 1)]
            && s.auctionSeq == 1 && s.auctions == map[1 := TheAuction(0, SELF)] && s.offerSeq == 1
            && s.offers == map[1 := TheOffer()]
            && Bal(s.ledger, COIN, SELF) == 1_000 && Bal(s.ledger, COIN, BIDDER) == 10_000
            && Bal(s.ledger, ART, SELF) == 1
  {
    ThirdCall(hash);
    assert Calls(hash)[..4][..3] == Calls(hash)[..3];
    assert CreateEnglish(Run(Opening(), Calls(hash)[..3]), 0, SELLER, ART, 7, 1, 10_000, COIN, 10, hash).Ok?;
  }

  lemma ReachesSettlement(hash: Bytes)
    requires |hash| == METADATA_HASH_LEN
    ensures BeforeSettlement(Run(Opening(), Calls(hash)[..5]))
  {
    FourthCall(hash);
    var s4 := Run(Opening(), Calls(hash)[..4]);
    assert Calls(hash)[..5][..4] == Calls(hash)[..4];
    assert PlaceBid(s4, 1, BIDDER, 1, 10_000).Ok?;
  }

  lemma SettlementSplit(s: State)
    requires BeforeSettlement(s)
    ensures SplitPrice(s, ART, 10_000) == Ok(Split(1_000, RoyaltyAmounts(10_000, Artists(10)), -1_000))
  {
    ArtistsShares(10);
    RoyaltiesAtWholeUnit(Artists(10));
    assert PlatformFee(10_000, 1_000) == Ok(1_000);
  }

  lemma SettlementPayments(s: State)
    requires BeforeSettlement(s)
    ensures SplitPrice(s, ART, 10_000).Ok?
    ensures var ps := WinningPayments(s, TheAuction(10_000, BIDDER));
            AllPositive(ps) && Total(ps) == 11_000 && Received(ps, SELF) == 0
  {
    SettlementSplit(s);
    WinningTotal(s, TheAuction(10_000, BIDDER));
    NoRoyaltyToSelf();
    assert WinningPayments(s, TheAuction(10_000, BIDDER)) == [(FEES, 1_000)] + RoyaltyAmounts(10_000, Artists(10));
  }

  lemma NoRoyaltyToSelf()
    ensures Received([(FEES, 1_000)] + RoyaltyAmounts(10_000, Artists(10)), SELF) == 0
  {
    ArtistsShares(10);
    OnlyRecipientsReceive(10_000, Artists(10), SELF);
    ReceivedConcat([(FEES, 1_000)], RoyaltyAmounts(10_000, Artists(10)), SELF);
  }

  lemma SettlementIsPaid(s: State)
    requires BeforeSettlement(s)
    ensures SplitPrice(s, ART, 10_000).Ok?
    ensures var paid := PayAll(s.ledger, COIN, SELF, WinningPayments(s, TheAuction(10_000, BIDDER)));
            paid.Some? && Bal(paid.value, COIN, SELF) == 0 && Bal(paid.value, ART, SELF) == 1
  {
    SettlementPayments(s);
    var ps := WinningPayments(s, TheAuction(10_000, BIDDER));
    assert forall i :: 0 <= i < |ps| ==> ps[i] in ps;
    PayAllSucceeds(s.ledger, COIN, SELF, ps);
    PayAllEffect(s.ledger, COIN, SELF, ps);
  }

  lemma SettlementGoesThrough(s: State)
    requires BeforeSettlement(s)
    ensures SettleEnglish(s, 10, 1).Ok?
    ensures Bal(SettleEnglish(s, 10, 1).value.ledger, COIN, SELF) == 0
    ensures SettleEnglish(s, 10, 1).value.offers == map[1 := TheOffer()] && SettleEnglish(s, 10, 1).value.self == SELF
  {
    SettlementIsPaid(s);
    assert s.auctions[1] == TheAuction(10_000, BIDDER);
  }

  lemma OfferIsOwed(s: State)
    requires Inv(s) && s.offers == map[1 := TheOffer()]
    ensures Liability(s, COIN) >= 1_000
  {
    SumBounds(s.listings, ListingHold(COIN));
    SumBounds(s.auctions, AuctionHold(COIN));
    SumBounds(s.offers, OfferHold(COIN));
    assert OfferHold(COIN)(1, s.offers[1]) <= SumOf(s.offers, OfferHold(COIN));
  }

  lemma StepSettles(s: State, now: U64, id: nat)
    ensures Step(s, Tx(now, CallSettleEnglish(id))) == After(s, SettleEnglish(s, now, id))
  {
  }

  lemma AfterSettlement(hash: Bytes)
    requires |hash| == METADATA_HASH_LEN
    ensures var s := Run(Opening(), Calls(hash));
            s.self == SELF && Bal(s.ledger, COIN, SELF) == 0 && s.offers == map[1 := TheOffer()]
  {
    ReachesSettlement(hash);
    SettlementGoesThrough(Run(Opening(), Calls(hash)[..5]));
    StepSettles(Run(Opening(), Calls(hash)[..5]), 10, 1);
    assert Calls(hash)[..|Calls(hash)| - 1] == Calls(hash)[..5];
  }

  lemma OpeningStarts()
    ensures Start(Opening())
  {
  }

  /** Ten royalties of 1_000 and a fee of 1_000 pay 11_000 for a bid of 10_000; the offer still on the books
      is then no longer covered. */
  lemma UncoveredRunFallsShort(hash: Bytes)
    requires |hash| == METADATA_HASH_LEN
    ensures Start(Opening()) && !Solvent(Run(Opening(), Calls(hash)))
  {
    OpeningStarts();
    AfterSettlement(hash);
    ReachableInv(Opening(), Calls(hash));
    OfferIsOwed(Run(Opening(), Calls(hash)));
  }
}

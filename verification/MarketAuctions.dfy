/** English auctions over whole runs: rising bids, moving ends, and refunds. */
module MarketAuctions {
  import opened Host
  import opened Token
  import opened Market
  import opened MarketInvariant

  predicate AcceptedBid(s: State, tx: Tx, id: nat) {
    tx.call.CallPlaceBid? && tx.call.id == id && PlaceBid(s, tx.now, tx.call.caller, id, tx.call.bid).Ok?
  }

  predicate Settles(s: State, tx: Tx, id: nat) {
    tx.call.CallSettleEnglish? && tx.call.id == id && SettleEnglish(s, tx.now, id).Ok?
  }

  /** The least raise over a standing bid. */
  function LeastRaise(bid: int, incrementBps: int): int { Max(1, bid * incrementBps / 10_000) }

  lemma MinBidIsRaise(a: Auction, incrementBps: int)
    requires a.currentBid > 0 && incrementBps >= 0 && MinBid(a, incrementBps).Ok?
    ensures MinBid(a, incrementBps).value == a.currentBid + LeastRaise(a.currentBid, incrementBps)
  {
    var product := a.currentBid * incrementBps;
    assert product >= 0;
  }

  /** An accepted bid comes before the end, raises the standing bid enough, and leaves the later of the old
      end and a full window from now. */
  lemma BidRaises(s: State, now: U64, bidder: Address, id: nat, bid: I128)
    requires PlaceBid(s, now, bidder, id, bid).Ok?
    requires s.bidIncrementBps >= 0 && (id in s.auctions ==> s.auctions[id].currentBid >= 0)
    ensures id in s.auctions && id in PlaceBid(s, now, bidder, id, bid).value.auctions
    ensures var a, a' := s.auctions[id], PlaceBid(s, now, bidder, id, bid).value.auctions[id];
            && now < a.endTime
            && bid >= (if a.currentBid == 0 then a.startPrice
                       else a.currentBid + LeastRaise(a.currentBid, s.bidIncrementBps))
            && a' == a.(currentBid := bid, currentBidder := bidder, endTime := Max(a.endTime, now + a.window))
  {
    if s.auctions[id].currentBid > 0 {
      MinBidIsRaise(s.auctions[id], s.bidIncrementBps);
    }
  }

  // -------------------------------------------------------------------------
  // How an auction record moves
  // -------------------------------------------------------------------------

  /** What every later record of the same auction keeps. */
  ghost predicate Evolves(a: Auction, a': Auction) {
    && a' == a.(currentBid := a'.currentBid, currentBidder := a'.currentBidder, status := a'.status,
                endTime := a'.endTime)
    && a'.endTime >= a.endTime && a'.currentBid >= a.currentBid
    && (!Live(a) ==> a' == a)
  }

  /** Without a bid on it, a record keeps its leader and its end, and a new record has no leader yet. */
  ghost predicate Unbid(before: map<nat, Auction>, after: map<nat, Auction>, id: nat) {
    && (id in before ==>
          && id in after && after[id] == before[id].(status := after[id].status)
          && (!Live(before[id]) ==> after[id] == before[id]))
    && (id !in before && id in after ==> Live(after[id]) && after[id].currentBid == 0)
  }

  /** A call on auctions leaves listings, offers and the marketplace's own address alone. */
  ghost predicate OnlyAuctions(s: State, s': State) {
    s'.self == s.self && s'.listings == s.listings && s'.offers == s.offers
  }

  /** New records join the old ones, live and without a bid. */
  ghost predicate Extends(before: map<nat, Auction>, after: map<nat, Auction>) {
    && (forall id: nat :: id in before ==> id in after && after[id] == before[id])
    && (forall id: nat :: id !in before && id in after ==> Live(after[id]) && after[id].currentBid == 0)
  }

  lemma OpenAuctionExtends(s: State, now: U64, kind: AuctionType, seller: Address, c: Address, tokenId: U64,
                           amount: U64, startPrice: I128, floorPrice: I128, currency: Address, endTime: nat)
    requires forall id: nat :: id in s.auctions ==> id <= s.auctionSeq
    requires OpenAuction(s, now, kind, seller, c, tokenId, amount, startPrice, floorPrice, currency, endTime).Ok?
    ensures var s' := OpenAuction(s, now, kind, seller, c, tokenId, amount, startPrice, floorPrice, currency,
                                  endTime).value.0;
            && Extends(s.auctions, s'.auctions) && OnlyAuctions(s, s')
            && forall id: nat :: id in s'.auctions ==> id <= s'.auctionSeq
  {
  }

  lemma {:induction false} BulkAuctionsExtend(s: State, now: U64, seller: Address, items: seq<AuctionItem>,
                                              sofar: BulkResult)
    requires forall id: nat :: id in s.auctions ==> id <= s.auctionSeq
    requires BulkAuctionsFrom(s, now, seller, items, sofar).Ok?
    ensures Extends(s.auctions, BulkAuctionsFrom(s, now, seller, items, sofar).value.0.auctions)
    ensures OnlyAuctions(s, BulkAuctionsFrom(s, now, seller, items, sofar).value.0)
    decreases |items|
  {
    if items != [] {
      var item := items[0];
      if !AuctionItemValid(s, item) {
        BulkAuctionsExtend(s, now, seller, items[1..], sofar.(failed := sofar.failed + 1));
      } else {
        var end := Min(now + item.duration, U64_MAX);
        OpenAuctionExtends(s, now, item.kind, seller, item.collection, item.tokenId, item.amount, item.startPrice,
                           item.floorPrice, item.currency, end);
        var r := OpenAuction(s, now, item.kind, seller, item.collection, item.tokenId, item.amount, item.startPrice,
                             item.floorPrice, item.currency, end).value;
        BulkAuctionsExtend(r.0, now, seller, items[1..],
                           sofar.(succeeded := sofar.succeeded + 1, ids := sofar.ids + [r.1]));
      }
    }
  }

  lemma {:induction false} BulkListSparesAuctions(s: State, seller: Address, items: seq<ListingItem>, sofar: BulkResult)
    requires BulkListFrom(s, seller, items, sofar).Ok?
    ensures BulkListFrom(s, seller, items, sofar).value.0.auctions == s.auctions
    ensures BulkListFrom(s, seller, items, sofar).value.0.offers == s.offers
    ensures BulkListFrom(s, seller, items, sofar).value.0.self == s.self
    decreases |items|
  {
    if items != [] {
      var item := items[0];
      if !ListingItemValid(s, item) {
        BulkListSparesAuctions(s, seller, items[1..], sofar.(failed := sofar.failed + 1));
      } else {
        var r := OpenListing(s, seller, item.collection, item.tokenId, item.amount, item.price, item.currency).value;
        BulkListSparesAuctions(r.0, seller, items[1..],
                               sofar.(succeeded := sofar.succeeded + 1, ids := sofar.ids + [r.1]));
      }
    }
  }

  lemma NewAuctionCallExtends(s: State, now: U64, call: Call)
    requires AuctionsOk(s) && CreatesAuctions(call) && Apply(s, now, call).Ok?
    ensures Extends(s.auctions, Apply(s, now, call).value.auctions) && OnlyAuctions(s, Apply(s, now, call).value)
  {
    match call
    case CallCreateEnglish(caller, c, tokenId, amount, price, currency, duration, hash) =>
      CreateEnglishOpens(s, now, caller, c, tokenId, amount, price, currency, duration, hash);
    case CallCreateDutch(caller, c, tokenId, amount, price, floorPrice, currency, duration, hash) =>
      CreateDutchOpens(s, now, caller, c, tokenId, amount, price, floorPrice, currency, duration, hash);
    case CallBulkCreateAuctions(seller, items) => BulkAuctionsExtend(s, now, seller, items, BulkResult(0, 0, []));
  }

  /** A call on one open auction rewrites that record and no other. */
  lemma OpenAuctionCallWrites(s: State, now: U64, call: Call)
    requires AuctionsOk(s) && OnOpenAuction(call) && Apply(s, now, call).Ok?
    ensures call.id in s.auctions && Live(s.auctions[call.id])
    ensures var s' := Apply(s, now, call).value;
            && OnlyAuctions(s, s') && call.id in s'.auctions
            && s'.auctions == s.auctions[call.id := s'.auctions[call.id]]
            && (!call.CallPlaceBid? ==>
                  s'.auctions[call.id] == s.auctions[call.id].(status := s'.auctions[call.id].status))
  {
    match call
    case CallPlaceBid(bidder, id, bid) => PlaceBidWrites(s, now, bidder, id, bid);
    case CallSettleEnglish(id) => SettleEnglishWrites(s, now, id);
    case CallBuyDutch(buyer, id) => BuyDutchWrites(s, now, buyer, id);
    case CallCancelDutch(caller, id) => CancelDutchWrites(s, caller, id);
  }

  lemma ListingCallSpares(s: State, now: U64, call: Call)
    requires OnListings(call) && Apply(s, now, call).Ok?
    ensures Apply(s, now, call).value.auctions == s.auctions && Apply(s, now, call).value.offers == s.offers
    ensures Apply(s, now, call).value.self == s.self
  {
    if call.CallBulkList? {
      BulkListSparesAuctions(s, call.caller, call.listingItems, BulkResult(0, 0, []));
    }
  }

  lemma OfferCallSpares(s: State, now: U64, call: Call)
    requires OnOffers(call) && Apply(s, now, call).Ok?
    ensures Apply(s, now, call).value.auctions == s.auctions && Apply(s, now, call).value.self == s.self
  {
  }

  lemma OtherCallSpares(s: State, now: U64, call: Call)
    requires (OnCollections(call) || OnConfig(call)) && Apply(s, now, call).Ok?
    ensures Apply(s, now, call).value.auctions == s.auctions && OnlyAuctions(s, Apply(s, now, call).value)
  {
  }

  /** Only an accepted bid moves the leader or the end of an auction; and the marketplace keeps its address. */
  lemma OnlyBidsMove(s: State, tx: Tx, id: nat)
    requires AuctionsOk(s)
    ensures Step(s, tx).self == s.self
    ensures !AcceptedBid(s, tx, id) ==> Unbid(s.auctions, Step(s, tx).auctions, id)
  {
    if Apply(s, tx.now, tx.call).Ok? {
      if OnOpenAuction(tx.call) {
        OpenAuctionCallWrites(s, tx.now, tx.call);
      } else if CreatesAuctions(tx.call) {
        NewAuctionCallExtends(s, tx.now, tx.call);
      } else if OnListings(tx.call) {
        ListingCallSpares(s, tx.now, tx.call);
      } else if OnOffers(tx.call) {
        OfferCallSpares(s, tx.now, tx.call);
      } else {
        OtherCallSpares(s, tx.now, tx.call);
      }
    }
  }

  lemma StepEvolves(s: State, tx: Tx, id: nat)
    requires AuctionsOk(s) && s.bidIncrementBps >= 0 && id in s.auctions
    ensures id in Step(s, tx).auctions && Evolves(s.auctions[id], Step(s, tx).auctions[id])
  {
    OnlyBidsMove(s, tx, id);
    if AcceptedBid(s, tx, id) {
      BidRaises(s, tx.now, tx.call.caller, id, tx.call.bid);
    }
  }

  // -------------------------------------------------------------------------
  // Over whole runs
  // -------------------------------------------------------------------------

  /** The state a run is in before its call number i. */
  ghost function At(start: State, txs: seq<Tx>, i: nat): State
    requires i <= |txs|
  {
    Run(start, txs[..i])
  }

  lemma OneStepEvolves(start: State, txs: seq<Tx>, i: nat, id: nat)
    requires Start(start) && i < |txs|
    ensures At(start, txs, i + 1) == Step(At(start, txs, i), txs[i])
    ensures id in At(start, txs, i).auctions ==>
              && id in At(start, txs, i + 1).auctions
              && Evolves(At(start, txs, i).auctions[id], At(start, txs, i + 1).auctions[id])
  {
    assert txs[..i + 1][..i] == txs[..i];
    ReachableInv(start, txs[..i]);
    if id in At(start, txs, i).auctions {
      StepEvolves(At(start, txs, i), txs[i], id);
    }
  }

  ghost predicate EvolvesIn(before: map<nat, Auction>, after: map<nat, Auction>, id: nat) {
    id in before ==> id in after && Evolves(before[id], after[id])
  }

  lemma {:induction false} RunEvolves(start: State, txs: seq<Tx>, i: nat, j: nat, id: nat)
    requires Start(start) && i <= j <= |txs|
    ensures EvolvesIn(At(start, txs, i).auctions, At(start, txs, j).auctions, id)
    decreases j - i
  {
    if i < j {
      RunEvolves(start, txs, i, j - 1, id);
      OneStepEvolves(start, txs, j - 1, id);
      EvolvesTransitive(At(start, txs, i).auctions, At(start, txs, j - 1).auctions, At(start, txs, j).auctions, id);
    }
  }

  lemma EvolvesTransitive(x: map<nat, Auction>, y: map<nat, Auction>, z: map<nat, Auction>, id: nat)
    requires EvolvesIn(x, y, id) && EvolvesIn(y, z, id)
    ensures EvolvesIn(x, z, id)
  {
  }

  /** Of two accepted bids on one auction the later is higher, by at least the increment then in force; and
      nobody settles an auction sooner than a full extension window after any accepted bid on it. */
  lemma AfterAnAcceptedBid(start: State, txs: seq<Tx>, i: nat, j: nat, id: nat)
    requires Start(start) && i < j < |txs| && AcceptedBid(At(start, txs, i), txs[i], id)
    ensures AcceptedBid(At(start, txs, j), txs[j], id) ==>
              txs[j].call.bid >= txs[i].call.bid + LeastRaise(txs[i].call.bid, At(start, txs, j).bidIncrementBps)
    ensures Settles(At(start, txs, j), txs[j], id) ==>
              id in At(start, txs, i).auctions && txs[j].now >= txs[i].now + At(start, txs, i).auctions[id].window
  {
    BidSticks(start, txs, i, id);
    RunEvolves(start, txs, i + 1, j, id);
    ReachableRates(start, txs, j, id);
    LaterCall(At(start, txs, i + 1).auctions, At(start, txs, j), txs[j], id);
  }

  /** What an accepted bid leaves in the record. */
  lemma BidSticks(start: State, txs: seq<Tx>, i: nat, id: nat)
    requires Start(start) && i < |txs| && AcceptedBid(At(start, txs, i), txs[i], id)
    ensures id in At(start, txs, i).auctions && id in At(start, txs, i + 1).auctions
    ensures var a, a' := At(start, txs, i).auctions[id], At(start, txs, i + 1).auctions[id];
            a'.currentBid == txs[i].call.bid > 0 && a'.endTime >= txs[i].now + a.window && a'.window == a.window
  {
    OneStepEvolves(start, txs, i, id);
    ReachableRates(start, txs, i, id);
    BidRaises(At(start, txs, i), txs[i].now, txs[i].call.caller, id, txs[i].call.bid);
  }

  lemma ReachableRates(start: State, txs: seq<Tx>, i: nat, id: nat)
    requires Start(start) && i <= |txs|
    ensures At(start, txs, i).bidIncrementBps >= 0
    ensures id in At(start, txs, i).auctions ==> At(start, txs, i).auctions[id].currentBid >= 0
  {
    ReachableInv(start, txs[..i]);
  }

  lemma LaterCall(earlier: map<nat, Auction>, s: State, tx: Tx, id: nat)
    requires id in earlier && earlier[id].currentBid > 0 && EvolvesIn(earlier, s.auctions, id) && s.bidIncrementBps >= 0
    ensures AcceptedBid(s, tx, id) ==>
              tx.call.bid >= earlier[id].currentBid + LeastRaise(earlier[id].currentBid, s.bidIncrementBps)
    ensures Settles(s, tx, id) ==> tx.now >= earlier[id].endTime
  {
    if AcceptedBid(s, tx, id) {
      BidRaises(s, tx.now, tx.call.caller, id, tx.call.bid);
      RaiseMonotone(earlier[id].currentBid, s.auctions[id].currentBid, s.bidIncrementBps);
    }
  }

  lemma RaiseMonotone(low: int, high: int, incrementBps: int)
    requires 0 <= low <= high && incrementBps >= 0
    ensures low + LeastRaise(low, incrementBps) <= high + LeastRaise(high, incrementBps)
  {
    assert (high - low) * incrementBps >= 0;
    assert low * incrementBps <= high * incrementBps;
  }

  // -------------------------------------------------------------------------
  // Refunds
  // -------------------------------------------------------------------------

  /** What an address has put into an auction's bids, less what came back, read off the token ledger. */
  ghost function NetPaid(start: State, txs: seq<Tx>, id: nat, who: Address): int {
    if txs == [] then 0
    else
      var s, tx := Run(start, txs[..|txs| - 1]), txs[|txs| - 1];
      NetPaid(start, txs[..|txs| - 1], id, who)
      + if AcceptedBid(s, tx, id) && id in s.auctions
        then Bal(s.ledger, s.auctions[id].currency, who) - Bal(Step(s, tx).ledger, s.auctions[id].currency, who)
        else 0
  }

  /** What the leader of an auction has at stake; nothing for everybody else. */
  ghost function Stake(s: State, id: nat, who: Address): int {
    if id in s.auctions && s.auctions[id].currentBid > 0 && s.auctions[id].currentBidder == who
    then s.auctions[id].currentBid else 0
  }

  lemma BidMovesStake(s: State, now: U64, bidder: Address, id: nat, bid: I128, who: Address)
    requires AuctionsOk(s) && PlaceBid(s, now, bidder, id, bid).Ok? && who != s.self
    ensures id in s.auctions
    ensures var s' := PlaceBid(s, now, bidder, id, bid).value;
            Bal(s.ledger, s.auctions[id].currency, who) - Bal(s'.ledger, s.auctions[id].currency, who)
              == Stake(s', id, who) - Stake(s, id, who)
  {
  }

  lemma StepMovesStake(s: State, tx: Tx, id: nat, who: Address)
    requires AuctionsOk(s) && who != s.self
    ensures Stake(Step(s, tx), id, who) == Stake(s, id, who)
              + if AcceptedBid(s, tx, id) && id in s.auctions
                then Bal(s.ledger, s.auctions[id].currency, who) - Bal(Step(s, tx).ledger, s.auctions[id].currency, who)
                else 0
  {
    if AcceptedBid(s, tx, id) {
      BidMovesStake(s, tx.now, tx.call.caller, id, tx.call.bid, who);
    } else {
      OnlyBidsMove(s, tx, id);
    }
  }

  lemma {:induction false} SelfStays(start: State, txs: seq<Tx>)
    requires Start(start)
    ensures Run(start, txs).self == start.self
  {
    if txs != [] {
      SelfStays(start, txs[..|txs| - 1]);
      ReachableInv(start, txs[..|txs| - 1]);
      OnlyBidsMove(Run(start, txs[..|txs| - 1]), txs[|txs| - 1], 0);
    }
  }

  /** At every moment of every run the leader of an auction has paid in exactly the standing bid, and every
      other bidder has been refunded in full. */
  lemma {:induction false} OnlyTheLeaderHasPaid(start: State, txs: seq<Tx>, id: nat, who: Address)
    requires Start(start) && who != start.self
    ensures NetPaid(start, txs, id, who) == Stake(Run(start, txs), id, who)
  {
    if txs == [] {
      assert start.auctions == map[];
    } else {
      var front, tx := txs[..|txs| - 1], txs[|txs| - 1];
      OnlyTheLeaderHasPaid(start, front, id, who);
      ReachableInv(start, front);
      SelfStays(start, front);
      StepMovesStake(Run(start, front), tx, id, who);
    }
  }
}

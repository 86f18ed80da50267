/** The marketplace's storage and entry points. */
module MarketplaceContract {
  import opened Host
  import opened Token
  import Spec = Market
  import Pricing = MarketPricing

  class NftMarketplace {
    const self: Address
    var admin: Address
    var paused: bool
    var feeBps: int
    var feeRecipient: Address
    var bidIncrementBps: int
    var autoExtension: nat
    var currencies: map<Address, bool>
    var collections: map<Address, Spec.Collection>
    var listingSeq: nat
    var auctionSeq: nat
    var offerSeq: nat
    var listings: map<nat, Spec.Listing>
    var auctions: map<nat, Spec.Auction>
    var offers: map<nat, Spec.Offer>
    var ledger: Ledger

    function View(): Spec.State
      reads this
    {
      Spec.State(self, admin, paused, feeBps, feeRecipient, bidIncrementBps, autoExtension, currencies, collections,
                 listingSeq, auctionSeq, offerSeq, listings, auctions, offers, ledger)
    }

    constructor (address: Address, owner: Address, fee: I128, recipient: Address, increment: I128, extension: U64,
                 isPaused: bool, balances: Ledger)
      requires 0 <= fee <= Spec.MAX_FEE_BPS && 0 <= increment <= Spec.MAX_BID_INCREMENT_BPS
      ensures Spec.Initialize(address, owner, fee, recipient, increment, extension, isPaused, balances) == Ok(View())
    {
      self, admin, paused, feeBps, feeRecipient := address, owner, isPaused, fee, recipient;
      bidIncrementBps, autoExtension := increment, extension;
      currencies, collections := map[], map[];
      listingSeq, auctionSeq, offerSeq := 0, 0, 0;
      listings, auctions, offers := map[], map[], map[];
      ledger := balances;
    }

    /** Whether only records, counters and balances differ from a saved state. */
    ghost predicate SameConfig(saved: Spec.State)
      reads this
    {
      saved == View().(collections := saved.collections, listingSeq := saved.listingSeq, auctionSeq := saved.auctionSeq,
                       offerSeq := saved.offerSeq, listings := saved.listings, auctions := saved.auctions,
                       offers := saved.offers, ledger := saved.ledger)
    }

    /** The host undoes every write of a call that fails. */
    method Rollback(saved: Spec.State)
      requires SameConfig(saved)
      modifies this
      ensures View() == saved
    {
      RestoreRecords(saved);
      collections, ledger := saved.collections, saved.ledger;
      listingSeq, auctionSeq, offerSeq := saved.listingSeq, saved.auctionSeq, saved.offerSeq;
    }

    method RestoreRecords(saved: Spec.State)
      modifies this`listings, this`auctions, this`offers
      ensures listings == saved.listings && auctions == saved.auctions && offers == saved.offers
    {
      listings, auctions, offers := saved.listings, saved.auctions, saved.offers;
    }

    // -----------------------------------------------------------------------
    // Helpers
    // -----------------------------------------------------------------------

    method TransferToken(token: Address, from: Address, to: Address, amount: int)
      returns (r: Result<(), Spec.MarketError>)
      modifies this`ledger
      ensures match Spec.Move(old(ledger), token, from, to, amount)
              case Ok(l) => r == Ok(()) && ledger == l
              case Err(e) => r == Err(e) && ledger == old(ledger)
    {
      var next :- Transfer(ledger, token, from, to, amount).OkOr(Spec.HostPanic);
      ledger := next;
      return Ok(());
    }

    method UpdateCollectionStats(collection: Address, listingDelta: int, auctionDelta: int)
      returns (r: Result<(), Spec.MarketError>)
      modifies this`collections
      ensures match Spec.UpdateStats(old(collections), collection, listingDelta, auctionDelta)
              case Ok(cs) => r == Ok(()) && collections == cs
              case Err(e) => r == Err(e) && collections == old(collections)
    {
      if collection in collections {
        var info := collections[collection];
        if listingDelta > 0 {
          if info.activeListings + listingDelta > U32_MAX {
            return Err(Spec.HostPanic);
          }
          info := info.(activeListings := info.activeListings + listingDelta);
        } else if listingDelta < 0 && info.activeListings > 0 {
          if info.activeListings + listingDelta < 0 {
            return Err(Spec.HostPanic);
          }
          info := info.(activeListings := info.activeListings + listingDelta);
        }
        if auctionDelta > 0 {
          if info.activeAuctions + auctionDelta > U32_MAX {
            return Err(Spec.HostPanic);
          }
          info := info.(activeAuctions := info.activeAuctions + auctionDelta);
        } else if auctionDelta < 0 && info.activeAuctions > 0 {
          if info.activeAuctions + auctionDelta < 0 {
            return Err(Spec.HostPanic);
          }
          info := info.(activeAuctions := info.activeAuctions + auctionDelta);
        }
        collections := collections[collection := info];
      }
      return Ok(());
    }

    method ComputeRoyaltyAmounts(price: int, info: Spec.Collection) returns (amounts: Payments)
      ensures amounts == if info.totalBps > 0 then Spec.RoyaltyAmounts(price, info.recipients) else []
    {
      amounts := [];
      if info.totalBps <= 0 {
        return;
      }
      var rs := info.recipients;
      for i := 0 to |rs|
        invariant amounts == Spec.RoyaltyAmounts(price, rs[..i])
      {
        assert rs[..i + 1][..i] == rs[..i];
        var product := CheckedMul(price, rs[i].shareBps);
        var amount := TruncDiv(if product.Some? then product.value else 0, Spec.BPS_DENOM);
        if amount > 0 {
          amounts := amounts + [(rs[i].who, amount)];
        }
      }
      assert rs[..|rs|] == rs;
    }

    /** Adds the royalties up; positive amounts overflow part-way exactly when their total does. */
    method SumRoyalties(amounts: Payments) returns (r: Result<int, Spec.MarketError>)
      requires Pricing.AllPositive(amounts)
      ensures r == if IsI128(Total(amounts)) then Ok(Total(amounts)) else Err(Spec.HostPanic)
    {
      var total := 0;
      for i := 0 to |amounts|
        invariant total == Total(amounts[..i]) && 0 <= total <= I128_MAX
      {
        assert amounts[..i + 1][..i] == amounts[..i];
        assert amounts[i] in amounts;
        total := total + amounts[i].1;
        if !IsI128(total) {
          assert amounts == amounts[..i + 1] + amounts[i + 1..];
          TotalConcat(amounts[..i + 1], amounts[i + 1..]);
          PositiveTotal(amounts[i + 1..]);
          return Err(Spec.HostPanic);
        }
      }
      assert amounts[..|amounts|] == amounts;
      return Ok(total);
    }

    static lemma {:induction false} PositiveTotal(ps: Payments)
      requires Pricing.AllPositive(ps)
      ensures Total(ps) >= 0
    {
      if ps != [] {
        assert ps[|ps| - 1] in ps;
        PositiveTotal(ps[..|ps| - 1]);
      }
    }

    /** Pays each royalty in turn; may stop half-way. */
    method DistributeRoyalties(token: Address, from: Address, amounts: Payments)
      returns (r: Result<(), Spec.MarketError>)
      requires Pricing.AllPositive(amounts)
      modifies this`ledger
      ensures r == if PayAll(old(ledger), token, from, amounts).Some? then Ok(()) else Err(Spec.HostPanic)
      ensures r.Ok? ==> ledger == PayAll(old(ledger), token, from, amounts).value
    {
      for i := 0 to |amounts|
        invariant PayAll(old(ledger), token, from, amounts[..i]) == Some(ledger)
      {
        assert amounts[..i + 1][..i] == amounts[..i];
        assert amounts[i] in amounts;
        var (who, amount) := amounts[i];
        if amount > 0 {
          var paid := TransferToken(token, from, who, amount);
          if paid.Err? {
            assert amounts == amounts[..i + 1] + amounts[i + 1..];
            PayAllConcat(old(ledger), token, from, amounts[..i + 1], amounts[i + 1..]);
            return paid;
          }
        }
      }
      assert amounts[..|amounts|] == amounts;
      return Ok(());
    }

    /** Divides a price into fee, royalties and proceeds. */
    method ComputeSplit(collection: Address, price: int) returns (r: Result<Spec.Split, Spec.MarketError>)
      ensures r == Spec.SplitPrice(View(), collection, price)
      ensures r.Ok? ==> Pricing.AllPositive(r.value.royalties)
    {
      var fee :- Spec.PlatformFee(price, feeBps);
      var royalties: Payments := [];
      if collection in collections {
        royalties := ComputeRoyaltyAmounts(price, collections[collection]);
        Pricing.RoyaltiesPositive(price, collections[collection].recipients);
      }
      var totalRoyalties :- SumRoyalties(royalties);
      var afterFee :- CheckedSub(price, fee).OkOr(Spec.Overflow);
      var proceeds :- CheckedSub(afterFee, totalRoyalties).OkOr(Spec.Overflow);
      return Ok(Spec.Split(fee, royalties, proceeds));
    }

    /** Pays fee, royalties and proceeds, each only if positive; may stop half-way. */
    method PaySplit(currency: Address, payer: Address, split: Spec.Split, seller: Address)
      returns (r: Result<(), Spec.MarketError>)
      requires Pricing.AllPositive(split.royalties)
      modifies this`ledger
      ensures var l := PayAll(old(ledger), currency, payer, Spec.SalePayments(View(), split, seller));
              if l.Some? then r == Ok(()) && ledger == l.value else r == Err(Spec.HostPanic)
    {
      ghost var head, tail := Spec.IfPositive(feeRecipient, split.fee), Spec.IfPositive(seller, split.proceeds);
      PayAllConcat(ledger, currency, payer, head, split.royalties);
      PayAllConcat(ledger, currency, payer, head + split.royalties, tail);
      if split.fee > 0 {
        OnePayment(ledger, currency, payer, feeRecipient, split.fee);
        var paid :- TransferToken(currency, payer, feeRecipient, split.fee);
      }
      assert PayAll(old(ledger), currency, payer, head) == Some(ledger);
      var paid :- DistributeRoyalties(currency, payer, split.royalties);
      if split.proceeds > 0 {
        OnePayment(ledger, currency, payer, seller, split.proceeds);
        var rest :- TransferToken(currency, payer, seller, split.proceeds);
      }
      return Ok(());
    }

    static lemma OnePayment(l: Ledger, token: Address, from: Address, to: Address, amount: int)
      ensures PayAll(l, token, from, [(to, amount)]) == Transfer(l, token, from, to, amount)
    {
      PayAllSnoc(l, token, from, [], to, amount);
      assert [] + [(to, amount)] == [(to, amount)];
    }

    /** Sends a parcel out of escrow and adjusts the counters of its collection; may stop half-way. */
    method HandOver(c: Address, to: Address, amount: nat, listingDelta: int, auctionDelta: int)
      returns (r: Result<(), Spec.MarketError>)
      modifies this`ledger, this`collections
      ensures match Spec.Move(old(ledger), c, self, to, amount)
              case Err(e) => r == Err(e)
              case Ok(l) =>
                match Spec.UpdateStats(old(collections), c, listingDelta, auctionDelta)
                case Err(e) => r == Err(e)
                case Ok(cs) => r == Ok(()) && ledger == l && collections == cs
    {
      var moved :- TransferToken(c, self, to, amount);
      r := UpdateCollectionStats(c, listingDelta, auctionDelta);
    }

    static lemma SamePayments(s: Spec.State, t: Spec.State, split: Spec.Split, seller: Address)
      requires s.feeRecipient == t.feeRecipient
      ensures Spec.SalePayments(s, split, seller) == Spec.SalePayments(t, split, seller)
    {
    }

    /** The part the three sale paths share, after the record is marked: split the price, pay, hand the parcel
        over, adjust the counters; may stop half-way. */
    method CompleteSale(ghost saved: Spec.State, currency: Address, payer: Address, c: Address, price: int,
                        seller: Address, to: Address, amount: nat, listingDelta: int, auctionDelta: int)
      returns (r: Result<(), Spec.MarketError>)
      requires SameConfig(saved) && saved.collections == collections && saved.ledger == ledger
      modifies this`ledger, this`collections
      ensures match Spec.Sell(saved, currency, payer, c, price, seller, to, amount)
              case Err(e) => r == Err(e)
              case Ok(l) =>
                match Spec.UpdateStats(saved.collections, c, listingDelta, auctionDelta)
                case Err(e) => r == Err(e)
                case Ok(cs) => r == Ok(()) && ledger == l && collections == cs
    {
      var split :- ComputeSplit(c, price);
      assert Spec.SplitPrice(saved, c, price) == Ok(split);
      SamePayments(saved, View(), split, seller);
      var paid :- PaySplit(currency, payer, split, seller);
      r := HandOver(c, to, amount, listingDelta, auctionDelta);
    }

    // -----------------------------------------------------------------------
    // Configuration and collections
    // -----------------------------------------------------------------------

    method SetPlatformFee(caller: Address, bps: I128) returns (r: Result<(), Spec.MarketError>)
      modifies this
      ensures Refines(Spec.SetPlatformFee(old(View()), caller, bps), old(View()), r, View())
    {
      var _ :- Need(caller == admin, Spec.Unauthorized);
      var _ :- Need(0 <= bps <= Spec.MAX_FEE_BPS, Spec.InvalidArgument);
      feeBps := bps;
      return Ok(());
    }

    method SetFeeRecipient(caller: Address, who: Address) returns (r: Result<(), Spec.MarketError>)
      modifies this
      ensures Refines(Spec.SetFeeRecipient(old(View()), caller, who), old(View()), r, View())
    {
      var _ :- Need(caller == admin, Spec.Unauthorized);
      feeRecipient := who;
      return Ok(());
    }

    method SetBidIncrement(caller: Address, bps: I128) returns (r: Result<(), Spec.MarketError>)
      modifies this
      ensures Refines(Spec.SetBidIncrement(old(View()), caller, bps), old(View()), r, View())
    {
      var _ :- Need(caller == admin, Spec.Unauthorized);
      var _ :- Need(0 <= bps <= Spec.MAX_BID_INCREMENT_BPS, Spec.InvalidArgument);
      bidIncrementBps := bps;
      return Ok(());
    }

    method SetAutoExtension(caller: Address, seconds: U64) returns (r: Result<(), Spec.MarketError>)
      modifies this
      ensures Refines(Spec.SetAutoExtension(old(View()), caller, seconds), old(View()), r, View())
    {
      var _ :- Need(caller == admin, Spec.Unauthorized);
      if seconds > Spec.MAX_EXTENSION {
        return Err(Spec.InvalidExtensionWindow);
      }
      autoExtension := seconds;
      return Ok(());
    }

    method SetCurrency(caller: Address, currency: Address, whitelisted: bool) returns (r: Result<(), Spec.MarketError>)
      modifies this
      ensures Refines(Spec.SetCurrency(old(View()), caller, currency, whitelisted), old(View()), r, View())
    {
      var _ :- Need(caller == admin, Spec.Unauthorized);
      currencies := currencies[currency := whitelisted];
      return Ok(());
    }

    /** The loop both royalty setters run: reject a share out of range, add up the rest. */
    method AddShares(rs: seq<Spec.Recipient>) returns (r: Result<int, Spec.MarketError>)
      ensures r == if Spec.SharesInRange(rs) then Ok(Spec.TotalShares(rs)) else Err(Spec.InvalidRoyaltyRate)
    {
      var total := 0;
      for i := 0 to |rs|
        invariant Spec.SharesInRange(rs[..i]) && total == Spec.TotalShares(rs[..i])
      {
        if rs[i].shareBps < 0 || rs[i].shareBps > Spec.MAX_ROYALTY_BPS {
          return Err(Spec.InvalidRoyaltyRate);
        }
        assert rs[..i + 1][..i] == rs[..i];
        total := total + rs[i].shareBps;
      }
      assert rs[..|rs|] == rs;
      return Ok(total);
    }

    method RegisterCollection(caller: Address, c: Address, hash: Spec.Bytes, rs: seq<Spec.Recipient>)
      returns (r: Result<(), Spec.MarketError>)
      modifies this
      ensures Refines(Spec.RegisterCollection(old(View()), caller, c, hash, rs), old(View()), r, View())
    {
      var _ :- Need(caller == admin, Spec.Unauthorized);
      var _ :- Need(c !in collections, Spec.CollectionAlreadyRegistered);
      var _ :- Need(|hash| == Spec.METADATA_HASH_LEN, Spec.InvalidMetadataHash);
      var totalBps :- AddShares(rs);
      if |rs| > Spec.MAX_ROYALTY_RECIPIENTS {
        return Err(Spec.InvalidArgument);
      }
      collections := collections[c := Spec.Collection(caller, rs, totalBps, 0, 0)];
      return Ok(());
    }

    method SetCollectionRoyalties(caller: Address, c: Address, rs: seq<Spec.Recipient>)
      returns (r: Result<(), Spec.MarketError>)
      modifies this
      ensures Refines(Spec.SetRoyalties(old(View()), caller, c, rs), old(View()), r, View())
    {
      var _ :- Need(caller != self, Spec.HostPanic);
      var info :- Get(collections, c).OkOr(Spec.CollectionNotFound);
      var _ :- Need(info.admin == caller, Spec.Unauthorized);
      var totalBps :- AddShares(rs);
      info := info.(recipients := rs, totalBps := totalBps);
      collections := collections[c := info];
      return Ok(());
    }

    // -----------------------------------------------------------------------
    // Fixed-price listings
    // -----------------------------------------------------------------------

    /** An entry point before the host undoes a failure. */
    ghost predicate Reaches(spec: Result<(Spec.State, nat), Spec.MarketError>, r: Result<nat, Spec.MarketError>)
      reads this
    {
      match spec
      case Ok((s, v)) => r == Ok(v) && View() == s
      case Err(e) => r == Err(e)
    }

    ghost predicate ReachesState(spec: Result<Spec.State, Spec.MarketError>, r: Result<(), Spec.MarketError>)
      reads this
    {
      match spec
      case Ok(s) => r == Ok(()) && View() == s
      case Err(e) => r == Err(e)
    }

    /** Allots the next id and takes the parcel; may stop half-way. */
    method EscrowForListing(seller: Address, c: Address, amount: U64) returns (r: Result<nat, Spec.MarketError>)
      modifies this`listingSeq, this`ledger
      ensures Reaches(Spec.EscrowForListing(old(View()), seller, c, amount), r)
    {
      var id :- Spec.NextId(listingSeq);
      listingSeq := id;
      var taken :- TransferToken(c, seller, self, amount);
      return Ok(id);
    }

    /** Stores a listing and counts it; may stop half-way. */
    method RecordListing(listing: Spec.Listing) returns (r: Result<(), Spec.MarketError>)
      modifies this`listings, this`collections
      ensures ReachesState(Spec.RecordListing(old(View()), listing), r)
    {
      listings := listings[listing.id := listing];
      r := UpdateCollectionStats(listing.collection, 1, 0);
    }

    /** Takes the parcel, then writes the record and its counter; may stop half-way. */
    method WriteListing(seller: Address, c: Address, tokenId: U64, amount: U64, price: I128, currency: Address)
      returns (r: Result<nat, Spec.MarketError>)
      modifies this`listingSeq, this`ledger, this`listings, this`collections
      ensures Reaches(Spec.OpenListing(old(View()), seller, c, tokenId, amount, price, currency), r)
    {
      var id :- EscrowForListing(seller, c, amount);
      var listing := Spec.Listing(id, seller, c, tokenId, amount, price, currency, Spec.ListingStatus.Active);
      var recorded :- RecordListing(listing);
      return Ok(id);
    }

    method OpenListing(seller: Address, c: Address, tokenId: U64, amount: U64, price: I128, currency: Address)
      returns (r: Result<nat, Spec.MarketError>)
      modifies this
      ensures RefinesWith(Spec.OpenListing(old(View()), seller, c, tokenId, amount, price, currency), old(View()), r,
                          View())
    {
      var saved := View();
      r := WriteListing(seller, c, tokenId, amount, price, currency);
      if r.Err? {
        Rollback(saved);
      }
    }

    method ListNft(seller: Address, c: Address, tokenId: U64, amount: U64, price: I128, currency: Address,
                   hash: Spec.Bytes)
      returns (r: Result<nat, Spec.MarketError>)
      modifies this
      ensures RefinesWith(Spec.ListNft(old(View()), seller, c, tokenId, amount, price, currency, hash), old(View()), r,
                          View())
    {
      var _ :- Need(!paused, Spec.ContractPaused);
      var _ :- Need(seller != self, Spec.HostPanic);
      var _ :- Need(price > 0, Spec.InvalidAmount);
      var _ :- Need(GetOr(currencies, currency, false), Spec.CurrencyNotWhitelisted);
      var _ :- Need(|hash| == Spec.METADATA_HASH_LEN, Spec.InvalidMetadataHash);
      var _ :- Need(c in collections, Spec.CollectionNotFound);
      r := OpenListing(seller, c, tokenId, amount, price, currency);
    }

    method BuyNft(buyer: Address, id: nat) returns (r: Result<(), Spec.MarketError>)
      modifies this
      ensures Refines(Spec.BuyNft(old(View()), buyer, id), old(View()), r, View())
    {
      var _ :- Need(!paused, Spec.ContractPaused);
      var _ :- Need(buyer != self, Spec.HostPanic);
      var listing :- Get(listings, id).OkOr(Spec.ListingNotFound);
      var _ :- Need(listing.status == Spec.ListingStatus.Active, Spec.ListingAlreadySold);
      var saved := View();
      listing := listing.(status := Spec.ListingStatus.Sold);
      listings := listings[id := listing];
      r := CompleteSale(saved, listing.currency, buyer, listing.collection, listing.price, listing.seller, buyer,
                        listing.amount, -1, 0);
      if r.Err? {
        Rollback(saved);
      }
    }

    method CancelListing(caller: Address, id: nat) returns (r: Result<(), Spec.MarketError>)
      modifies this
      ensures Refines(Spec.CancelListing(old(View()), caller, id), old(View()), r, View())
    {
      var _ :- Need(caller != self, Spec.HostPanic);
      var listing :- Get(listings, id).OkOr(Spec.ListingNotFound);
      var _ :- Need(listing.status == Spec.ListingStatus.Active, Spec.ListingAlreadySold);
      var _ :- Need(listing.seller == caller, Spec.NotOwner);
      var saved := View();
      listing := listing.(status := Spec.ListingStatus.Cancelled);
      listings := listings[id := listing];
      r := HandOver(listing.collection, listing.seller, listing.amount, -1, 0);
      if r.Err? {
        Rollback(saved);
      }
    }

    // -----------------------------------------------------------------------
    // Auctions
    // -----------------------------------------------------------------------

    /** Allots the next id and takes the parcel; may stop half-way. */
    method EscrowForAuction(seller: Address, c: Address, amount: U64) returns (r: Result<nat, Spec.MarketError>)
      modifies this`auctionSeq, this`ledger
      ensures Reaches(Spec.EscrowForAuction(old(View()), seller, c, amount), r)
    {
      var id :- Spec.NextId(auctionSeq);
      auctionSeq := id;
      var taken :- TransferToken(c, seller, self, amount);
      return Ok(id);
    }

    /** Stores an auction and counts it; may stop half-way. */
    method RecordAuction(auction: Spec.Auction) returns (r: Result<(), Spec.MarketError>)
      modifies this`auctions, this`collections
      ensures ReachesState(Spec.RecordAuction(old(View()), auction), r)
    {
      auctions := auctions[auction.id := auction];
      r := UpdateCollectionStats(auction.collection, 0, 1);
    }

    /** Takes the parcel, then writes the record and its counter; may stop half-way. */
    method WriteAuction(now: U64, kind: Spec.AuctionType, seller: Address, c: Address, tokenId: U64, amount: U64,
                        startPrice: I128, floorPrice: I128, currency: Address, endTime: Option<nat>)
      returns (r: Result<nat, Spec.MarketError>)
      modifies this`auctionSeq, this`ledger, this`auctions, this`collections
      ensures Reaches(
                Spec.NewAuction(old(View()), now, kind, seller, c, tokenId, amount, startPrice, floorPrice, currency,
                                endTime), r)
    {
      var id :- EscrowForAuction(seller, c, amount);
      var end :- endTime.OkOr(Spec.Overflow);
      var window := if kind == Spec.English then autoExtension else 0;
      var auction := Spec.Auction(id, kind, seller, c, tokenId, amount, currency, startPrice, floorPrice, 0, self,
                                  Spec.AuctionStatus.Active, now, end, window);
      var recorded :- RecordAuction(auction);
      return Ok(id);
    }

    /** Opens an auction; the parcel is taken before an end that does not fit is noticed. */
    method NewAuction(now: U64, kind: Spec.AuctionType, seller: Address, c: Address, tokenId: U64, amount: U64,
                      startPrice: I128, floorPrice: I128, currency: Address, endTime: Option<nat>)
      returns (r: Result<nat, Spec.MarketError>)
      modifies this
      ensures RefinesWith(
                Spec.NewAuction(old(View()), now, kind, seller, c, tokenId, amount, startPrice, floorPrice, currency,
                                endTime),
                old(View()), r, View())
    {
      var saved := View();
      r := WriteAuction(now, kind, seller, c, tokenId, amount, startPrice, floorPrice, currency, endTime);
      if r.Err? {
        Rollback(saved);
      }
    }

    method CreateEnglishAuction(now: U64, seller: Address, c: Address, tokenId: U64, amount: U64, startPrice: I128,
                                currency: Address, duration: U64, hash: Spec.Bytes)
      returns (r: Result<nat, Spec.MarketError>)
      modifies this
      ensures RefinesWith(
                Spec.CreateEnglish(old(View()), now, seller, c, tokenId, amount, startPrice, currency, duration, hash),
                old(View()), r, View())
    {
      var _ :- Need(!paused, Spec.ContractPaused);
      var _ :- Need(seller != self, Spec.HostPanic);
      var _ :- Need(startPrice > 0, Spec.InvalidAmount);
      var _ :- Need(GetOr(currencies, currency, false), Spec.CurrencyNotWhitelisted);
      var _ :- Need(|hash| == Spec.METADATA_HASH_LEN, Spec.InvalidMetadataHash);
      var _ :- Need(c in collections, Spec.CollectionNotFound);
      if duration == 0 || duration > Spec.MAX_DURATION {
        return Err(Spec.InvalidArgument);
      }
      r := NewAuction(now, Spec.English, seller, c, tokenId, amount, startPrice, 0, currency,
                      CheckedAddU64(now, duration));
    }

    method CreateDutchAuction(now: U64, seller: Address, c: Address, tokenId: U64, amount: U64, startPrice: I128,
                              floorPrice: I128, currency: Address, duration: U64, hash: Spec.Bytes)
      returns (r: Result<nat, Spec.MarketError>)
      modifies this
      ensures RefinesWith(
                Spec.CreateDutch(old(View()), now, seller, c, tokenId, amount, startPrice, floorPrice, currency,
                                 duration, hash),
                old(View()), r, View())
    {
      var _ :- Need(!paused, Spec.ContractPaused);
      var _ :- Need(seller != self, Spec.HostPanic);
      var _ :- Need(startPrice > 0, Spec.InvalidAmount);
      var _ :- Need(floorPrice > 0, Spec.InvalidAmount);
      var _ :- Need(GetOr(currencies, currency, false), Spec.CurrencyNotWhitelisted);
      var _ :- Need(|hash| == Spec.METADATA_HASH_LEN, Spec.InvalidMetadataHash);
      var _ :- Need(c in collections, Spec.CollectionNotFound);
      if floorPrice >= startPrice {
        return Err(Spec.InvalidDutchAuctionPrices);
      }
      if duration == 0 || duration > Spec.MAX_DURATION {
        return Err(Spec.InvalidArgument);
      }
      r := NewAuction(now, Spec.Dutch, seller, c, tokenId, amount, startPrice, floorPrice, currency,
                      CheckedAddU64(now, duration));
    }

    method PlaceBid(now: U64, bidder: Address, id: nat, bid: I128) returns (r: Result<(), Spec.MarketError>)
      modifies this
      ensures Refines(Spec.PlaceBid(old(View()), now, bidder, id, bid), old(View()), r, View())
    {
      var _ :- Need(!paused, Spec.ContractPaused);
      var _ :- Need(bidder != self, Spec.HostPanic);
      var _ :- Need(bid > 0, Spec.InvalidAmount);
      var auction :- Get(auctions, id).OkOr(Spec.ListingNotFound);
      var _ :- Need(auction.status == Spec.AuctionStatus.Active, Spec.AuctionEnded);
      var _ :- Need(auction.kind == Spec.English, Spec.InvalidArgument);
      var saved := View();
      if now >= auction.endTime {
        auctions := auctions[id := auction.(status := Spec.Ended)];
        Rollback(saved);
        return Err(Spec.AuctionEnded);
      }
      var minBid :- Spec.MinBid(auction, bidIncrementBps);
      if bid < minBid {
        return Err(Spec.BidTooLow);
      }
      if auction.currentBid > 0 && auction.currentBidder == bidder {
        return Err(Spec.BidderIsCurrentHighest);
      }
      r := SwapEscrow(auction, bidder, bid);
      if r.Err? {
        Rollback(saved);
        return;
      }
      var newEnd := Spec.ExtendedEnd(auction, now);
      if newEnd.Err? {
        Rollback(saved);
        return Err(newEnd.error);
      }
      auction := auction.(currentBid := bid, currentBidder := bidder, endTime := newEnd.value);
      auctions := auctions[id := auction];
    }

    /** Refunds the standing bid, then takes the new one; may stop half-way. */
    method SwapEscrow(auction: Spec.Auction, bidder: Address, bid: int) returns (r: Result<(), Spec.MarketError>)
      modifies this`ledger
      ensures var refunded := if auction.currentBid > 0
                              then Spec.Move(old(ledger), auction.currency, self, auction.currentBidder,
                                             auction.currentBid)
                              else Ok(old(ledger));
              match refunded
              case Err(e) => r == Err(e)
              case Ok(l) =>
                match Spec.Move(l, auction.currency, bidder, self, bid)
                case Err(e) => r == Err(e)
                case Ok(l') => r == Ok(()) && ledger == l'
    {
      if auction.currentBid > 0 {
        var refunded :- TransferToken(auction.currency, self, auction.currentBidder, auction.currentBid);
      }
      r := TransferToken(auction.currency, bidder, self, bid);
    }

    method SettleEnglishAuction(now: U64, id: nat) returns (r: Result<(), Spec.MarketError>)
      modifies this
      ensures Refines(Spec.SettleEnglish(old(View()), now, id), old(View()), r, View())
    {
      var _ :- Need(!paused, Spec.ContractPaused);
      var auction :- Get(auctions, id).OkOr(Spec.ListingNotFound);
      if auction.status == Spec.Settled {
        return Err(Spec.ListingAlreadySold);
      }
      if auction.status != Spec.AuctionStatus.Active && auction.status != Spec.Ended {
        return Err(Spec.AuctionEnded);
      }
      if now < auction.endTime {
        return Err(Spec.AuctionNotYetEnded);
      }
      var saved := View();
      auction := auction.(status := Spec.Settled);
      auctions := auctions[id := auction];
      if auction.currentBid == 0 {
        r := HandOver(auction.collection, auction.seller, auction.amount, 0, -1);
      } else {
        r := CompleteSale(saved, auction.currency, self, auction.collection, auction.currentBid, auction.seller,
                          auction.currentBidder, auction.amount, 0, -1);
      }
      if r.Err? {
        Rollback(saved);
      }
    }

    method BuyDutchAuction(now: U64, buyer: Address, id: nat) returns (r: Result<(), Spec.MarketError>)
      modifies this
      ensures Refines(Spec.BuyDutch(old(View()), now, buyer, id), old(View()), r, View())
    {
      var _ :- Need(!paused, Spec.ContractPaused);
      var _ :- Need(buyer != self, Spec.HostPanic);
      var auction :- Get(auctions, id).OkOr(Spec.ListingNotFound);
      var _ :- Need(auction.status == Spec.AuctionStatus.Active, Spec.AuctionEnded);
      var _ :- Need(auction.kind == Spec.Dutch, Spec.InvalidArgument);
      var price :- Spec.DutchPrice(auction, now);
      if price == 0 {
        return Err(Spec.DutchAuctionPriceZero);
      }
      var saved := View();
      auction := auction.(status := Spec.Settled);
      auctions := auctions[id := auction];
      r := CompleteSale(saved, auction.currency, buyer, auction.collection, price, auction.seller, buyer,
                        auction.amount, 0, -1);
      if r.Err? {
        Rollback(saved);
      }
    }

    method CancelDutchAuction(caller: Address, id: nat) returns (r: Result<(), Spec.MarketError>)
      modifies this
      ensures Refines(Spec.CancelDutch(old(View()), caller, id), old(View()), r, View())
    {
      var _ :- Need(caller != self, Spec.HostPanic);
      var auction :- Get(auctions, id).OkOr(Spec.ListingNotFound);
      var _ :- Need(auction.status == Spec.AuctionStatus.Active, Spec.AuctionEnded);
      var _ :- Need(auction.kind == Spec.Dutch, Spec.InvalidArgument);
      var _ :- Need(auction.seller == caller, Spec.NotOwner);
      var saved := View();
      auction := auction.(status := Spec.AuctionStatus.Cancelled);
      auctions := auctions[id := auction];
      r := HandOver(auction.collection, auction.seller, auction.amount, 0, -1);
      if r.Err? {
        Rollback(saved);
      }
    }

    // -----------------------------------------------------------------------
    // Offers
    // -----------------------------------------------------------------------

    method MakeOffer(now: U64, offerer: Address, recipient: Address, c: Address, tokenId: U64, amount: U64,
                     offerAmount: I128, currency: Address, duration: U64) returns (r: Result<nat, Spec.MarketError>)
      modifies this
      ensures RefinesWith(
                Spec.MakeOffer(old(View()), now, offerer, recipient, c, tokenId, amount, offerAmount, currency,
                               duration),
                old(View()), r, View())
    {
      var _ :- Need(!paused, Spec.ContractPaused);
      var _ :- Need(offerer != self, Spec.HostPanic);
      var _ :- Need(offerAmount > 0, Spec.InvalidAmount);
      var _ :- Need(GetOr(currencies, currency, false), Spec.CurrencyNotWhitelisted);
      if duration == 0 || duration > Spec.MAX_DURATION {
        return Err(Spec.InvalidArgument);
      }
      var id :- Spec.NextId(offerSeq);
      var saved := View();
      offerSeq := id;
      var expiresAt := CheckedAddU64(now, duration);
      if expiresAt.None? {
        Rollback(saved);
        return Err(Spec.Overflow);
      }
      var moved := TransferToken(currency, offerer, self, offerAmount);
      if moved.Err? {
        Rollback(saved);
        return Err(moved.error);
      }
      offers := offers[id :=
        Spec.Offer(id, offerer, recipient, c, tokenId, amount, offerAmount, currency, Spec.Pending, now + duration)];
      return Ok(id);
    }

    method AcceptOffer(now: U64, caller: Address, id: nat) returns (r: Result<(), Spec.MarketError>)
      modifies this
      ensures Refines(Spec.AcceptOffer(old(View()), now, caller, id), old(View()), r, View())
    {
      var _ :- Need(!paused, Spec.ContractPaused);
      var _ :- Need(caller != self, Spec.HostPanic);
      var offer :- Get(offers, id).OkOr(Spec.ListingNotFound);
      var _ :- Need(offer.status == Spec.Pending, Spec.OfferAlreadySettled);
      var _ :- Need(offer.recipient == caller, Spec.NotOfferRecipient);
      if now > offer.expiresAt {
        var e := ExpireOffer(offer, id);
        return Err(e);
      }
      var saved := View();
      offers := offers[id := offer.(status := Spec.Accepted)];
      r := PayOffer(saved, offer, caller);
      if r.Err? {
        Rollback(saved);
      }
    }

    /** Pays an accepted offer to its recipient, less the fee, and moves the parcel; may stop half-way. */
    method PayOffer(ghost saved: Spec.State, offer: Spec.Offer, caller: Address)
      returns (r: Result<(), Spec.MarketError>)
      requires SameConfig(saved) && saved.ledger == ledger
      modifies this`ledger
      ensures match Spec.OfferLedger(saved, offer, caller)
              case Ok(l) => r == Ok(()) && ledger == l
              case Err(e) => r == Err(e)
    {
      var fee :- Spec.PlatformFee(offer.offerAmount, feeBps);
      var proceeds :- CheckedSub(offer.offerAmount, fee).OkOr(Spec.Overflow);
      var split := Spec.Split(fee, [], proceeds);
      SamePayments(saved, View(), split, offer.recipient);
      var paid :- PaySplit(offer.currency, self, split, offer.recipient);
      r := TransferToken(offer.collection, caller, offer.offerer, offer.amount);
    }

    /** An expired offer is marked and refunded, and then both are undone because the call reports an error. */
    method ExpireOffer(offer: Spec.Offer, id: nat) returns (e: Spec.MarketError)
      modifies this
      ensures e == match Spec.Move(old(ledger), offer.currency, self, offer.offerer, offer.offerAmount)
                   case Ok(_) => Spec.OfferExpired
                   case Err(failed) => failed
      ensures View() == old(View())
    {
      var saved := View();
      offers := offers[id := offer.(status := Spec.Expired)];
      var refunded := TransferToken(offer.currency, self, offer.offerer, offer.offerAmount);
      Rollback(saved);
      return if refunded.Err? then refunded.error else Spec.OfferExpired;
    }

    method CancelOffer(caller: Address, id: nat) returns (r: Result<(), Spec.MarketError>)
      modifies this
      ensures Refines(Spec.CancelOffer(old(View()), caller, id), old(View()), r, View())
    {
      var _ :- Need(caller != self, Spec.HostPanic);
      var offer :- Get(offers, id).OkOr(Spec.ListingNotFound);
      var _ :- Need(offer.status == Spec.Pending, Spec.OfferAlreadySettled);
      var _ :- Need(offer.offerer == caller, Spec.NotOwner);
      var saved := View();
      offer := offer.(status := Spec.OfferStatus.Cancelled);
      offers := offers[id := offer];
      r := TransferToken(offer.currency, self, offer.offerer, offer.offerAmount);
      if r.Err? {
        Rollback(saved);
      }
    }

    // -----------------------------------------------------------------------
    // Bulk operations
    // -----------------------------------------------------------------------

    method BulkList(seller: Address, items: seq<Spec.ListingItem>) returns (r: Result<Spec.BulkResult,
                                                                            Spec.MarketError>)
      modifies this
      ensures RefinesWith(Spec.BulkList(old(View()), seller, items), old(View()), r, View())
    {
      var _ :- Need(!paused, Spec.ContractPaused);
      var _ :- Need(seller != self, Spec.HostPanic);
      var _ :- Need(0 < |items| <= Spec.MAX_BULK_SIZE, Spec.InvalidArgument);
      var saved := View();
      var result := Spec.BulkResult(0, 0, []);
      for i := 0 to |items|
        invariant SameConfig(saved)
        invariant Spec.BulkListFrom(old(View()), seller, items, Spec.BulkResult(0, 0, []))
               == Spec.BulkListFrom(View(), seller, items[i..], result)
      {
        var item := items[i];
        assert items[i..][1..] == items[i + 1..];
        if item.price <= 0 || !GetOr(currencies, item.currency, false)
           || |item.hash| != Spec.METADATA_HASH_LEN || item.collection !in collections {
          result := result.(failed := result.failed + 1);
          continue;
        }
        var id := OpenListing(seller, item.collection, item.tokenId, item.amount, item.price, item.currency);
        if id.Err? {
          Rollback(saved);
          return Err(id.error);
        }
        result := result.(succeeded := result.succeeded + 1, ids := result.ids + [id.value]);
      }
      return Ok(result);
    }

    method BulkCreateAuctions(now: U64, seller: Address, items: seq<Spec.AuctionItem>)
      returns (r: Result<Spec.BulkResult, Spec.MarketError>)
      modifies this
      ensures RefinesWith(Spec.BulkCreateAuctions(old(View()), now, seller, items), old(View()), r, View())
    {
      var _ :- Need(!paused, Spec.ContractPaused);
      var _ :- Need(seller != self, Spec.HostPanic);
      var _ :- Need(0 < |items| <= Spec.MAX_BULK_SIZE, Spec.InvalidArgument);
      var saved := View();
      var result := Spec.BulkResult(0, 0, []);
      for i := 0 to |items|
        invariant SameConfig(saved)
        invariant Spec.BulkAuctionsFrom(old(View()), now, seller, items, Spec.BulkResult(0, 0, []))
               == Spec.BulkAuctionsFrom(View(), now, seller, items[i..], result)
      {
        var item := items[i];
        assert items[i..][1..] == items[i + 1..];
        if item.duration == 0 || item.duration > Spec.MAX_DURATION || item.startPrice <= 0
           || (item.kind == Spec.Dutch && item.floorPrice >= item.startPrice) || item.collection !in collections {
          result := result.(failed := result.failed + 1);
          continue;
        }
        var end := CheckedAddU64(now, item.duration);
        var id := NewAuction(now, item.kind, seller, item.collection, item.tokenId, item.amount, item.startPrice,
                             item.floorPrice, item.currency, Some(if end.Some? then end.value else U64_MAX));
        if id.Err? {
          Rollback(saved);
          return Err(id.error);
        }
        result := result.(succeeded := result.succeeded + 1, ids := result.ids + [id.value]);
      }
      return Ok(result);
    }
  }
}

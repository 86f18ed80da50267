# A Dafny model of the contract suite

The suite is a set of Soroban smart contracts: an NFT marketplace, a referral programme with its
treasury, a role hierarchy, an upgrade registry, a payment gateway with escrow, multi-signature governance,
batched token transfers and aid disbursements. The contracts are written in Rust; this project restates what
their entry points do and proves what they keep over whole runs.

## How the model is built

Each contract is modelled in three layers:

1. **A state and its entry points as functions** (`Market`, `Referral`, `Treasury`, `Roles`, `Upgrades`,
   `Payments`, `Governance`, `Batch`, `Aid`). A state is a datatype of the contract's stored maps and counters
   together with the token balances; an entry point maps a state to a new state or to the error the code
   returns, in the order in which the code looks for errors. Runs are sequences of calls from any caller in any
   order, mixed with token transfers that do not involve the contract.
2. **The contract as a class** (`MarketplaceContract`, `ReferralContract`, ...) with the stored values as fields
   and the entry points as methods that update them step by step, loops included. Every method refines its
   function: same result, same new state, and after an error the old state, because the host undoes the writes of
   a failed call.
3. **Theorems about the functions and their runs**: invariants, solvency, conservation, exact conditions.

Shared parts: `Host` (addresses, integer widths, checked arithmetic, results), `Token` (all token contracts as
one ledger of non-negative balances; a transfer fails when the sender cannot cover it), `Sums` (sums over maps),
`BpsMath` (basis points and sums of floors), `Walks` (following successor edges in a graph; why a bounded
check rules out short cycles and an exact check all of them), `Paging` (reading a list by cursor).

Integers are unbounded in Dafny, so widths are written out: the checked operations return nothing outside 128
bits, counters fail or wrap at their 32 or 64 bits as the code has it, and division truncates towards zero.

| file | contents |
|---|---|
| `Market`, `MarketPricing`, `MarketInvariant`, `MarketSolvency`, `MarketExits`, `MarketAuctions`, `MarketDutch`, `MarketBulk`, `MarketBulkSuccess`, `MarketCalls`, `MarketOrigins`, `MarketStatuses`, `MarketChanges`, `MarketSupply`, `MarketShortfall`, `MarketOvercharge`, `MarketplaceContract` | marketplace: listings, English and Dutch auctions, offers, bulk calls |
| `Referral`, `Accrual`, `Rewards`, `RewardsChanges`, `ReferralContract`, `Treasury`, `TreasuryContract` | referral graph, commissions, the reward pool and claims across both contracts |
| `Walks`, `Roles`, `AccessControl` | role hierarchy |
| `Upgrades`, `UpgradesOrigins`, `UpgradeabilityContract` | upgrade registry |
| `BpsMath`, `Payments`, `PaymentsOrigins`, `PaymentsContract` | fees, deposits, escrow |
| `Governance`, `GovernanceOrigins`, `GovernanceContract` | proposals, roles, parameters |
| `Batch`, `BatchContract` | batched transfers |
| `Paging`, `Aid`, `AidListings`, `AidOrigins`, `AidContract` | disbursements and their listings |
| `Host`, `Errors`, `Token`, `Sums` | shared parts |

## Conventions

- A signature is a caller argument; `Upgrades.Signer` marks the call whose argument is compared and not signed for. A
  contract's own address never signs as a user, but it may be a payee, so solvency is stated with `>=`. Admin-only
  calls compare the caller with the stored admin.
- A run starts from one initialization. Time and ledger sequence are arguments of the call.
- Upgrade hooks are two boolean outcomes. A run has one treasury, and the address the referral contract stores is its.
- Names such as `SetTierConfigKeepsInv` state that one call keeps the invariant; `Reachable...` that every run does.
  `...SucceedsIff` is the exact condition for a call to go through, `...ChangesExactlyBy` says which calls, by whom,
  change a stored value and to what, and `...IsAs...` ties a stored record to the call of the run that it comes from.

## Where the code and its documentation or naming differ

The model follows the code. Each point is a lemma.

- **Royalties and fee have no common cap.** Each share is at most 1 000 and the fee at most 1 000, and
  registration takes at most ten recipients (`contracts/nft-marketplace/src/lib.rs:636-690`), but neither that
  nor `set_collection_royalties` (692-725) limits the sum. A sale paid by a buyer then simply costs more than the
  price; a settled auction pays the excess out of what the marketplace holds for others.
  `MarketPricing.EverySplitFitsIff` gives the exact condition, `MarketSolvency.ShortfallIsOverpaid` the bound
  for all runs, `MarketShortfall.UncoveredRunFallsShort` a run. `MarketDutch.BuyersPayWithinBounds` and
  `MarketOvercharge.BuyerPaysMoreThanStart` say the same of Dutch purchases.
- **The Ended and Expired marks never survive.** `place_bid` after the end (984-988) and `accept_offer` after the
  expiry (1393-1403) write the mark, refund in the second case, and then report an error, which undoes both. An
  expired offer is refunded by `cancel_offer` only (`MarketExits.ExpiredOfferStaysPending`).
- **A bulk-created Dutch auction may have a negative floor.** `create_dutch_auction` demands a positive one
  (`contracts/nft-marketplace/src/lib.rs:1154`), `bulk_create_auctions` only one below the start (1570-1573);
  the guard against a zero price (1224-1226) does not meet a negative one, and such a sale pays nothing
  (`MarketDutch.BoughtForNothingIff`, `MarketDutch.NegativeFloorSale`).
- **Bulk auctions ask for less than single ones.** `bulk_create_auctions`
  (`contracts/nft-marketplace/src/lib.rs:1561-1576`) checks neither the currency whitelist nor the metadata hash, as
  both single calls and `bulk_list` do (`MarketBulk.SingleCallIff` gives the whole difference).
- **Referrer cycles of eleven or more are possible** (`contracts/referral-contract/src/lib.rs:435-449`); payouts
  do not notice, because at most ten tiers are paid (`Rewards.ElevenCycleReachable`,
  `Referral.NewEdgeAcyclicIff`, `Referral.PayeesDistinct`).
- **The super role can be revoked from the super-admin**, although the comment at
  `contracts/access-control/src/lib.rs:99-100` says it cannot (`Roles.SuperMembershipLostOnlyByRevoke`).
- **An executed upgrade is no longer authorised.** `UPGRADEABILITY.md:116` has the target ask
  `verify_upgrade_authorization`, which answers only while the proposal is open
  (`Upgrades.NotAuthorizedAfterExecute`).
- **One contract id can be registered under two names**, which breaks its history chain
  (`Upgrades.ReRegistrationKeepsChainIff`, `Upgrades.TwoNamesBreakChain`).
- **Cancelling an upgrade proposal asks for no signature.** The comment at
  `contracts/upgradeability/src/lib.rs:587-589` reserves it to proposer and admins; the code compares the address it
  is given and never has it sign (`Upgrades.AnyoneCancelsIff`).
- **An atomic batch with an amount that is not positive returns normally** with `reverted` set and keeps the
  transfers before it, although `shared/src/batch.rs:10` promises that the entire batch reverts
  (`Batch.RevertedKeepsPrefix`, `Batch.RevertedBatchPays`). Transfers that fail do abort the call.
- **Approvals are not limited to the admin list.** `contracts/governance-contract/src/lib.rs:139-141` describes the
  list as those who can approve; the code asks for the Admin role only (`Governance.ApproveSucceedsIff`,
  `Governance.ApproverOutsideAdminSet`).
- **Anyone may trigger an aid refund** after the expiry; the comment at `contracts/aid-contract/src/lib.rs:308`
  names donor and admin (`Aid.PaidOutIff`).

## Model

| member | source | states |
|---|---|---|
| `MarketSolvency.ReachableSolvent` | contracts/nft-marketplace/src/lib.rs:739-1629 | Over every run whose settlements happen under fee rate plus royalty rate of at most 10 000, the marketplace owns of every token at least the parcels of active listings and live auctions, the standing bids and the pending offers it holds |
| `MarketSolvency.ShortfallIsOverpaid` | contracts/nft-marketplace/src/lib.rs:1044-1132 | Over every run, with no condition on the rates: the marketplace is short of a token by at most what its settlements in that token have paid beyond the winning bids |
| `MarketSolvency.StepKeepsSurplus` | contracts/nft-marketplace/src/lib.rs:377-1629 | No call of any kind lowers the surplus of any token, except a settlement by what it overpays |
| `MarketSolvency.SettlementCostsExactly` | contracts/nft-marketplace/src/lib.rs:1083-1120 | A settlement lowers the surplus by exactly what fee and floored royalties exceed the bid by, less what the marketplace itself receives of them; it keeps the surplus if and only if that excess comes back |
| `MarketShortfall.UncoveredRunFallsShort` | contracts/nft-marketplace/src/lib.rs:1083-1120 | A concrete run from initialization (ten recipients of 1 000 and a fee of 1 000) after which the marketplace owes more than it owns |
| `MarketInvariant.ReachableInv` | contracts/nft-marketplace/src/lib.rs:377-400 | Over every run each collection's cached counters equal the number of its active listings and of its live auctions, rates stay in range, ids stay below their counters, and no record is ever left Ended or Expired |
| `MarketInvariant.CounterPositive` | contracts/nft-marketplace/src/lib.rs:385-394 | The guard of the saturating decrement never applies: an open record shows in its counter |
| `MarketInvariant.StepKeepsInv` | contracts/nft-marketplace/src/lib.rs:539-1629 | Every call keeps that invariant |
| `MarketExits.CancelListingSucceedsIff` | contracts/nft-marketplace/src/lib.rs:862-887 | In a solvent state the seller of an active listing, and nobody else, can take the parcel back |
| `MarketExits.CancelDutchSucceedsIff` | contracts/nft-marketplace/src/lib.rs:1286-1318 | The same for an active Dutch auction |
| `MarketExits.CancelOfferSucceedsIff` | contracts/nft-marketplace/src/lib.rs:1449-1472 | In a solvent state the offerer, and nobody else, can take a pending offer back, expired or not |
| `MarketExits.AcceptOfferSucceedsIff` | contracts/nft-marketplace/src/lib.rs:1380-1447 | In a solvent state an acceptance goes through exactly when the marketplace is not paused, the caller is the recipient of a pending offer that has not expired, offered amount times fee rate fits in 128 bits, and the recipient holds the parcel, counting the proceeds where collection and currency are one token |
| `MarketExits.ExpiredOfferStaysPending` | contracts/nft-marketplace/src/lib.rs:1393-1403 | An expired offer cannot be accepted; the attempt reports the expiry and leaves the whole state as it was, including the Pending mark |
| `MarketExits.PlaceBidSucceedsIff` | contracts/nft-marketplace/src/lib.rs:964-1042 | In a solvent state a bid goes through exactly when it meets the auction's rules, stated in plain arithmetic, and the new bidder has the funds; the refund of the outbid never fails |
| `MarketExits.SettleSucceedsIff` | contracts/nft-marketplace/src/lib.rs:1044-1132 | In a solvent state and under a combined rate of at most 10 000, an auction past its end can be settled by anybody exactly when the marketplace is not paused and winning bid times fee rate fits in 128 bits |
| `MarketExits.LeavesOnce` | contracts/nft-marketplace/src/lib.rs:739-1472 | Over every run what a listing, an auction or an offer holds is handed out once if its record is closed and never before; no record reopens |
| `MarketExits.MovesOneParcel` | contracts/nft-marketplace/src/lib.rs:739-1472 | Listing, opening an auction and offering move exactly the stated parcel from the caller into escrow; cancelling and settling without a bid move it back to the seller or offerer; no other balance and no supply changes |
| `MarketSolvency.AcceptedOfferPays` | contracts/nft-marketplace/src/lib.rs:1405-1434 | An accepted offer pays the floored fee to the fee recipient and the rest to the offer's recipient, exactly what was held, and the parcel goes to the offerer |
| `MarketBulk.BulkListAccounts` | contracts/nft-marketplace/src/lib.rs:1496-1541 | Every item of a bulk listing is counted once, as a success exactly if it is valid beforehand; the successes become active listings of the seller with the collection, token, amount, price and currency of their items, under the next ids in a row |
| `MarketBulk.BulkAuctionsAccounts` | contracts/nft-marketplace/src/lib.rs:1561-1628 | Every item of a bulk call for auctions is counted once, as a success exactly if it is valid beforehand; the successes become auctions of the seller with the values of their items, no bid, an end that saturates at 64 bits and, if English, the extension window, under the next ids in a row |
| `MarketBulk.SingleCallIff` | contracts/nft-marketplace/src/lib.rs:1561-1575 | A single call opens an auction exactly when the bulk call opens it and the currency is whitelisted, the metadata hash is 32 bytes long, the end fits and a Dutch floor is positive; both then open the same auction, an English item having no floor |
| `MarketSupply.SupplyIsIssued` | contracts/nft-marketplace/src/lib.rs:739-1629 | Over every run the supply of each token changes by what was issued of it and by nothing the marketplace does: bids, sales, offers and bulk calls included |
| `MarketOrigins.ListingIsAsListed` | contracts/nft-marketplace/src/lib.rs:739-789 | Over every run seller, collection, token, amount, price and currency of a stored listing are those of the accepted call, or bulk item, that listed it under that id |
| `MarketOrigins.AuctionIsAsOpened` | contracts/nft-marketplace/src/lib.rs:897-1206 | Over every run a stored auction has the kind, seller, parcel, prices, currency, start and extension window of the accepted call, or bulk item, that opened it, and that call's end or, after bids, a later one |
| `MarketOrigins.OfferIsAsMade` | contracts/nft-marketplace/src/lib.rs:1328-1378 | Over every run a stored offer has the offerer, recipient, parcel, amount, currency and expiry of the accepted call that made it |
| `MarketStatuses.ListingStatusTells` | contracts/nft-marketplace/src/lib.rs:791-887 | Over every run a listing is marked sold exactly if it was bought and cancelled exactly if its seller took it back |
| `MarketStatuses.AuctionStatusTells` | contracts/nft-marketplace/src/lib.rs:1044-1318 | Over every run an auction is marked settled exactly if it was settled or bought and cancelled exactly if its seller took it back |
| `MarketStatuses.OfferStatusTells` | contracts/nft-marketplace/src/lib.rs:1380-1472 | Over every run an offer is marked accepted exactly if its recipient accepted it and cancelled exactly if its offerer took it back |
| `MarketCalls.BuyNftSucceedsIff` | contracts/nft-marketplace/src/lib.rs:791-860 | In a solvent state and whatever the rates, a listing is bought exactly if the marketplace is not paused, the buyer signs, the listing is active, fee product and royalties fit in 128 bits, and the buyer holds what the payments need in their order |
| `MarketCalls.BuyDutchSucceedsIff` | contracts/nft-marketplace/src/lib.rs:1208-1278 | The same for a Dutch auction at its quoted price, which must not be zero; below zero the product of the fee alone matters |
| `MarketCalls.FundsNeededIs` | contracts/nft-marketplace/src/lib.rs:828-841 | A payer who receives no part of the price needs exactly its full cost, and nobody needs more |
| `MarketCalls.PayAllSucceedsIff` | contracts/nft-marketplace/src/lib.rs:467-480 | Payments in a row go through exactly if the payer holds, at each of them, what has gone to others so far and the payment itself |
| `MarketCalls.SplitSucceedsIff` | contracts/nft-marketplace/src/lib.rs:437-465 | Whatever the rates, a price that is not negative can be split exactly when price times fee rate fits in 128 bits and the royalties together do |
| `MarketCalls.ListNftSucceedsIff` | contracts/nft-marketplace/src/lib.rs:739-789 | A listing goes through exactly for a signed call in a whitelisted currency, a positive price, a hash of 32 bytes and a parcel the seller holds of a registered collection, while ids and counter last, and returns the next id |
| `MarketCalls.CreateEnglishSucceedsIff` | contracts/nft-marketplace/src/lib.rs:897-962 | The same for an English auction, with a duration of up to a week that ends within 64 bits |
| `MarketCalls.CreateDutchSucceedsIff` | contracts/nft-marketplace/src/lib.rs:1138-1206 | The same for a Dutch auction, with a positive floor below the start |
| `MarketCalls.MakeOfferSucceedsIff` | contracts/nft-marketplace/src/lib.rs:1328-1378 | The same for an offer of a positive amount that the offerer holds |
| `MarketBulkSuccess.BulkListSucceedsIff` | contracts/nft-marketplace/src/lib.rs:1482-1542 | A bulk listing goes through exactly for one to fifty items whose valid ones can be put up all together: the seller holds the sum of their amounts in every collection, and ids and every counter last for them |
| `MarketBulkSuccess.BulkAuctionsSucceedsIff` | contracts/nft-marketplace/src/lib.rs:1544-1629 | The same for a bulk call for auctions |
| `MarketChanges.ConfigChangesExactlyBy` | contracts/nft-marketplace/src/lib.rs:539-597 | Every call: fee rate, fee recipient, bid increment, extension window and whitelist become what an admin's call within the bounds names and stay otherwise; admin and pause flag never change |
| `MarketChanges.TermsChangeExactlyBy` | contracts/nft-marketplace/src/lib.rs:636-725 | Every call: admin, recipients and total share of a collection change exactly by its one registration by the admin, with up to ten recipients, or by a replacement by its own admin |
| `MarketChanges.BidMoves` | contracts/nft-marketplace/src/lib.rs:1015-1024 | An accepted bid moves the new bid into escrow and the old one back to the outbid, and no other balance of any token |
| `MarketDutch.BuyersPayWithinBounds` | contracts/nft-marketplace/src/lib.rs:1138-1278 | Over every run, whoever buys an auction opened by create_dutch_auction is quoted a price between the floor and the start of that call and pays the larger of that price and the fee and royalties on it: at least the floor, and exactly the price, so at most the start, when fee rate and royalty rate add up to at most 10 000 |
| `MarketOvercharge.BuyerPaysMoreThanStart` | contracts/nft-marketplace/src/lib.rs:1208-1259 | A concrete run (ten recipients of 1 000 and a fee of 1 000) in which the buyer of an auction that starts at 10 000 pays 11 000 |
| `MarketDutch.CreatedStaysShaped` | contracts/nft-marketplace/src/lib.rs:1138-1206 | Over every run such an auction keeps the prices of its call, 0 < floor < start and a start before its end |
| `MarketDutch.BoughtForNothingIff` | contracts/nft-marketplace/src/lib.rs:1208-1259 | Buying a Dutch auction pays nothing exactly when its time is over and its floor is negative |
| `MarketDutch.NegativeFloorSale` | contracts/nft-marketplace/src/lib.rs:1544-1629 | From any state with a parcel and room in the counters: the bulk call opens such an auction, and after its end the parcel is handed over while no payment moves |
| `MarketPricing.SplitComputesIff` | contracts/nft-marketplace/src/lib.rs:437-465 | Within a combined rate of 10 000 a price can be split exactly when price times fee rate fits in 128 bits |
| `MarketPricing.EverySplitFitsIff` | contracts/nft-marketplace/src/lib.rs:437-465 | Seller proceeds are non-negative at every price if and only if fee rate and royalty rate add up to at most 10 000 |
| `MarketPricing.SplitFits` | contracts/nft-marketplace/src/lib.rs:811-841 | Within that rate the floored fee and all floored royalties stay within the price, for any recipient list |
| `MarketPricing.RoyaltiesAreFloors` | contracts/nft-marketplace/src/lib.rs:446-465 | The royalties of a list are positive, at most the sum of the floored shares, and equal to it when no product overflows |
| `MarketPricing.PaymentsMatchPriceIff` | contracts/nft-marketplace/src/lib.rs:811-841 | What is paid out equals the price exactly when fee and royalties do not exceed it, whatever the configuration |
| `MarketPricing.SaleConserves` | contracts/nft-marketplace/src/lib.rs:791-1278 | In all three sale paths every balance changes by exactly these parts: the floored fee for the fee recipient, the floored share of every list entry for the address it names, the rest for the seller, and their sum, which is the price or what is due to others if that is more, from the payer; the parcel leaves escrow; no supply changes |
| `MarketPricing.RoyaltiesReach` | contracts/nft-marketplace/src/lib.rs:446-465 | Each address receives the sum of the floored shares of the entries that name it, where the product fits in 128 bits, and nobody anything else |
| `MarketPricing.DutchPriceInRange` | contracts/nft-marketplace/src/lib.rs:402-435 | Every price an auction with 0 < floor < start quotes lies between floor and start |
| `MarketPricing.DutchPriceFalls` | contracts/nft-marketplace/src/lib.rs:402-435 | The quoted price never rises over time, also across the start and the end |
| `MarketPricing.DutchPriceWithinOne` | contracts/nft-marketplace/src/lib.rs:411-434 | The quoted price is the exact line rounded up: above it by less than one unit |
| `MarketPricing.DutchPriceOnLine` | contracts/nft-marketplace/src/lib.rs:411-434 | For any floor below the start: between start and end a price is computed exactly when range times elapsed time fits in 128 bits, and is the line rounded up but never below zero; up to the start it is the start price and from the end on the floor |
| `MarketAuctions.AfterAnAcceptedBid` | contracts/nft-marketplace/src/lib.rs:984-1059 | Over every run a later accepted bid exceeds an earlier one by at least max(1, floor(bid * increment / 10 000)), and no settlement happens before the bid time plus the extension window |
| `MarketAuctions.BidRaises` | contracts/nft-marketplace/src/lib.rs:984-1039 | An accepted bid comes before the end, meets the least raise, and moves the end to the later of the old end and a full window from now |
| `MarketAuctions.RunEvolves` | contracts/nft-marketplace/src/lib.rs:964-1132 | Over any stretch of a run end time and standing bid of an auction never fall, its terms never change and a closed record stays as it is |
| `MarketAuctions.OnlyBidsMove` | contracts/nft-marketplace/src/lib.rs:964-1042 | Nothing but an accepted bid moves the leader or the end of an auction |
| `MarketAuctions.OnlyTheLeaderHasPaid` | contracts/nft-marketplace/src/lib.rs:1015-1024 | At every moment of every run the leader of an auction has paid in exactly the standing bid and every other bidder net nothing, read off the token ledger |
| `MarketplaceContract.NftMarketplace.ComputeRoyaltyAmounts` | contracts/nft-marketplace/src/lib.rs:446-465 | The loop yields the positive royalties in recipient order |
| `MarketplaceContract.NftMarketplace.SumRoyalties` | contracts/nft-marketplace/src/lib.rs:820-820 | Adding the royalties aborts part-way exactly when their total does not fit in 128 bits |
| `MarketplaceContract.NftMarketplace.DistributeRoyalties` | contracts/nft-marketplace/src/lib.rs:467-480 | The loop pays each royalty in turn |
| `MarketplaceContract.NftMarketplace.AddShares` | contracts/nft-marketplace/src/lib.rs:657-663 | The loop adds up the shares and refuses one out of range |
| `MarketplaceContract.NftMarketplace.BuyNft` | contracts/nft-marketplace/src/lib.rs:791-860 | Marks, splits, pays, hands over and counts; a failure undoes everything |
| `MarketplaceContract.NftMarketplace.PlaceBid` | contracts/nft-marketplace/src/lib.rs:964-1042 | Refunds the standing bid, escrows the new one and extends the end; a bid after the end changes nothing |
| `MarketplaceContract.NftMarketplace.SettleEnglishAuction` | contracts/nft-marketplace/src/lib.rs:1044-1132 | Pays out the winning bid, or returns the parcel when there is none |
| `MarketplaceContract.NftMarketplace.AcceptOffer` | contracts/nft-marketplace/src/lib.rs:1380-1447 | Pays the recipient less the fee and moves the parcel; after the expiry all writes are undone |
| `MarketplaceContract.NftMarketplace.BulkList` | contracts/nft-marketplace/src/lib.rs:1482-1542 | The loop skips and counts invalid items, lists the others, and undoes all of them when one transfer fails |
| `MarketplaceContract.NftMarketplace.BulkCreateAuctions` | contracts/nft-marketplace/src/lib.rs:1544-1629 | The same for auctions, with an end that saturates |
| `Rewards.ReachableConserved` | contracts/referral-contract/src/lib.rs:189-395 | Over every run of referral contract and treasury: no referrer cycle of ten hops or fewer, balances within caps, lifetime = accrued + claimed for every referrer, and the rewards pool = deposits - withdrawals - everything claimed - what any other registered payer drew |
| `Rewards.StepConserves` | contracts/treasury-contract/src/lib.rs:103-314 | Every call of either contract keeps the conservation law |
| `Rewards.ClaimSucceedsIff` | contracts/referral-contract/src/lib.rs:367-395 | A claim of a positive balance succeeds exactly when a treasury is set, its pool covers the balance and this contract is the registered payer |
| `Rewards.SecondClaimIsEmpty` | contracts/referral-contract/src/lib.rs:367-395 | A second claim straight after pays nothing and changes nothing |
| `Rewards.ElevenCycleReachable` | contracts/referral-contract/src/lib.rs:435-449 | The check does not look beyond ten hops: eleven accepted edges close a cycle of eleven, whether the last is set by the admin or registered by the wallet |
| `RewardsChanges.BalancesChangeExactlyBy` | contracts/referral-contract/src/lib.rs:297-395 | Every call of either contract: a lifetime total changes by the admin's accruals alone, by the commission of the tier the wallet is met at as far as its cap goes, and an accrued balance by as much and by its owner's funded claim, which takes all of it |
| `RewardsChanges.AccrueSucceedsIff` | contracts/referral-contract/src/lib.rs:297-353 | An accrual goes through exactly for the admin and a positive amount |
| `RewardsChanges.ReferrersChangeExactlyBy` | contracts/referral-contract/src/lib.rs:189-285 | Every call: a referrer is set exactly by the admin, or by a wallet that has none yet under a wallet that has one, when no walk of fewer than ten hops leads back |
| `RewardsChanges.ConfigChangesExactlyBy` | contracts/referral-contract/src/lib.rs:103-169 | Every call: tiers, tier count, cap and treasury become what the admin's call within the bounds names and stay otherwise; later tiers stay |
| `RewardsChanges.CategoryIsHistory` | contracts/treasury-contract/src/lib.rs:103-314 | Over every run the balance of every treasury category is what was paid into it less what was drawn from it by the calls allowed to |
| `RewardsChanges.CategoriesChangeExactlyBy` | contracts/treasury-contract/src/lib.rs:103-314 | Every treasury call moves exactly its amount in its category if its rules are met, and nothing otherwise |
| `RewardsChanges.TreasuryConfigChangesExactlyBy` | contracts/treasury-contract/src/lib.rs:57-260 | Managers, limit and registered contract change exactly by the admin's word |
| `Referral.NewEdgeKeepsInv` | contracts/referral-contract/src/lib.rs:435-449 | An edge the bounded check lets through closes no cycle of ten hops or fewer, also when it overwrites an edge |
| `Referral.PayeesDistinct` | contracts/referral-contract/src/lib.rs:326-350 | The wallets credited at the configured tiers are pairwise distinct and none is the referred wallet |
| `Referral.NewEdgeAcyclicIff` | contracts/referral-contract/src/lib.rs:435-449 | An edge the bounded check lets through keeps an acyclic graph acyclic exactly when the wallet is not upstream of its new referrer at ten hops or more |
| `Referral.AcceptedEdgeAcyclicIff` | contracts/referral-contract/src/lib.rs:189-219 | So for an edge set by the admin |
| `Referral.RegisteredEdgeAcyclicIff` | contracts/referral-contract/src/lib.rs:232-285 | So for an edge registered by the wallet itself |
| `Referral.CreditsReachCap` | contracts/referral-contract/src/lib.rs:522-575 | Any sequence of credits to any wallets succeeds; each wallet's lifetime comes out as max(L, min(cap, L + sum of its own commissions)), and its accrued balance grows by as much |
| `Referral.SetTierConfigKeepsInv` | contracts/referral-contract/src/lib.rs:130-169 | An accepted configuration has tiers 1 to max, shares adding up to at most 10 000 and a cap in range |
| `Referral.CreditIsCappedRaise` | contracts/referral-contract/src/lib.rs:522-575 | A credit pays what the lifetime cap leaves, to accrued and lifetime alike, and never fails |
| `Referral.CapIgnoresSplit` | contracts/referral-contract/src/lib.rs:529-547 | However a sum is cut into commissions, the capped lifetime is the same: max(L, min(cap, L + sum)) |
| `Accrual.AccrueAccounts` | contracts/referral-contract/src/lib.rs:297-353 | An accrual by the admin always succeeds; its total is what both tables grew by and at most the base amount |
| `Accrual.AccruePaysEachTierOnce` | contracts/referral-contract/src/lib.rs:326-350 | The tier-i referrer gets the tier-i commission up to its cap, from the balances before the call; nobody else gets anything |
| `Accrual.AccrueFromIsPayPath` | contracts/referral-contract/src/lib.rs:326-350 | The loop with its overflow checks is the plain walk that pays the tier commissions in order |
| `ReferralContract.Referral.ValidateTierConfig` | contracts/referral-contract/src/lib.rs:406-433 | The loop accepts exactly the configurations in range |
| `ReferralContract.Referral.WouldCreateCycle` | contracts/referral-contract/src/lib.rs:435-449 | The ten-step loop answers whether the wallet is met within ten hops |
| `ReferralContract.Referral.Accrue` | contracts/referral-contract/src/lib.rs:297-353 | The tier loop equals its specification |
| `ReferralContract.Referral.ClaimRewards` | contracts/referral-contract/src/lib.rs:367-395 | Zeroes the balance and draws it from the treasury, or changes neither contract |
| `Roles.ReachableInv` | contracts/access-control/src/lib.rs:242-271 | After any sequence of calls the hierarchy is acyclic and within the registered roles, the role list has no repeats and the super-admin is an admin |
| `Roles.CycleCheckIsExact` | contracts/access-control/src/lib.rs:242-271 | Among registered distinct roles a parent is refused precisely when accepting it would close a cycle |
| `Roles.HoldsIffListed` | contracts/access-control/src/lib.rs:323-362 | A role is held exactly by its direct members and the members of its listed ancestors |
| `Roles.AncestorsDistinct` | contracts/access-control/src/lib.rs:350-362 | The ancestor list has no repeats and does not contain the role |
| `Roles.ReparentingEffect` | contracts/access-control/src/lib.rs:242-271 | After re-parenting, a role n hops below the moved one is held by the members of the roles from it up to the moved one and by the holders of the new parent; every role not at or below it keeps its holders |
| `Roles.MembershipEffect` | contracts/access-control/src/lib.rs:283-319 | A grant adds, to the roles the user already holds, exactly those at or below the granted one; after a revocation a role is still held through any other membership on its way up |
| `Roles.AdminsChangeExactlyBy` | contracts/access-control/src/lib.rs:144-206 | Admins change only by an admin's word, and the super-admin stays one |
| `Roles.MembersChangeExactlyBy` | contracts/access-control/src/lib.rs:283-319 | A direct membership changes in one call exactly by an admin's grant or revocation of a registered role |
| `Roles.ParentsChangeExactlyBy` | contracts/access-control/src/lib.rs:242-271 | A parent changes in one call exactly by an admin's call for two different registered roles that leaves the hierarchy acyclic |
| `Roles.RolesAddedExactlyBy` | contracts/access-control/src/lib.rs:213-227 | A role is registered exactly by an admin's call for a new name, at the end of the list |
| `Roles.SuperMembershipLostOnlyByRevoke` | contracts/access-control/src/lib.rs:303-319 | The initial super membership is lost in one call exactly when an admin revokes it |
| `AccessControlContract.AccessControl.HasAncestorWalk` | contracts/access-control/src/lib.rs:490-506 | The unbounded loop terminates on every reachable hierarchy and answers ancestry |
| `AccessControlContract.AccessControl.SetRoleParent` | contracts/access-control/src/lib.rs:242-271 | Keeps the hierarchy acyclic |
| `AccessControlContract.AccessControl.HasRole` | contracts/access-control/src/lib.rs:464-486 | The unbounded recursion terminates and decides holding |
| `AccessControlContract.AccessControl.GetRoleAncestors` | contracts/access-control/src/lib.rs:350-362 | The unbounded loop terminates and returns the ancestor list |
| `Upgrades.ReachableInv` | contracts/upgradeability/src/lib.rs:368-616 | In every reachable state a contract is locked by an id exactly when that proposal exists, is open and targets it |
| `Upgrades.ExecutedStaysAndIdsAreNotReused` | contracts/upgradeability/src/lib.rs:390-413 | Over any continuation an executed proposal stays as it is and a cancelled id never names a proposal again |
| `Upgrades.ReachableChain` | contracts/upgradeability/src/lib.rs:434-525 | Over every run that registers a contract once, its history is one linked chain of strictly rising versions from the registered entry to the current one |
| `Upgrades.LinkedEnds` | contracts/upgradeability/src/lib.rs:486-511 | What linked means: first record starts at the registered version and hash, consecutive records agree, the last ends at the current entry |
| `Upgrades.ExecuteAppends` | contracts/upgradeability/src/lib.rs:434-525 | An execution installs the version and the hash of its proposal in the entry of the target, appends one record of that change to its history, and touches no other entry and no other history |
| `UpgradesOrigins.ProposalIsAsProposed` | contracts/upgradeability/src/lib.rs:368-424 | Over every run target, hash, version and proposer of a stored proposal are those of the accepted call that returned its id |
| `UpgradesOrigins.InstalledIsAsProposed` | contracts/upgradeability/src/lib.rs:434-525 | Over every run, the version and the hash an execution installs are those an earlier accepted call proposed under the same id for the same contract |
| `UpgradesOrigins.ExecuteSucceedsIff` | contracts/upgradeability/src/lib.rs:434-490 | An execution goes through exactly for an upgrader, on an open proposal, with both hooks of the target agreeing if it has one |
| `UpgradesOrigins.ProposeSucceedsIff` | contracts/upgradeability/src/lib.rs:368-424 | A proposal goes through exactly for an upgrader, on a registered contract without an open one, for a later version and another hash |
| `UpgradesOrigins.RegistryChangesExactlyBy` | contracts/upgradeability/src/lib.rs:231-347 | Every call but an execution: an entry is written exactly by an admin's registration under a new name or an admin's hook, and each name is given out once |
| `Upgrades.ReRegistrationKeepsChainIff` | contracts/upgradeability/src/lib.rs:231-278 | Registering a contract again keeps its chain exactly when it repeats the current version and hash |
| `Upgrades.TwoNamesBreakChain` | contracts/upgradeability/src/lib.rs:231-278 | A run that registers one contract under two names ends with a broken chain |
| `Upgrades.AnyoneCancelsIff` | contracts/upgradeability/src/lib.rs:590-616 | Whoever sends the call, a proposal can be cancelled exactly while it is open, because naming the proposer or an admin is enough; the cancellation removes it and frees the lock it holds, and nothing else |
| `Upgrades.AuthorizedIffOpen` | contracts/upgradeability/src/lib.rs:628-651 | The target is authorised exactly while an open proposal with that hash exists |
| `Upgrades.NotAuthorizedAfterExecute` | contracts/upgradeability/src/lib.rs:628-651 | Once the registry has executed the upgrade the target is refused |
| `UpgradeabilityContract.Upgradeability.ExecuteUpgrade` | contracts/upgradeability/src/lib.rs:434-525 | Both hook outcomes; a failing hook undoes everything |
| `UpgradeabilityContract.Upgradeability.GetUpgradeHistory` | contracts/upgradeability/src/lib.rs:557-585 | Exactly the most recent records, newest first |
| `Payments.ReachableInv` | contracts/payments-contract/src/lib.rs:137-323 | Over every run without batch payouts: the running total is the sum of user balances, the active list holds each active escrow once and nothing else, and the gateway covers deposits plus active escrows |
| `Payments.WithdrawSucceedsIff` | contracts/payments-contract/src/lib.rs:190-279 | A withdrawal of one's own balance is refused only when the fee product overflows, never for lack of tokens |
| `Payments.CloseSucceedsIff` | shared/src/payments.rs:422-505 | The admin, and nobody else, can always refund an active escrow, and release it up to its expiry ledger |
| `Payments.PaysOnce` | shared/src/payments.rs:422-505 | Each escrow pays out once if it is closed and not at all before |
| `Payments.PayoutMovesWholeAmount` | shared/src/payments.rs:436-505 | That payout moves the whole amount from the gateway to one party, changes no other balance of any token, and touches no deposit |
| `PaymentsOrigins.PayoutIsAsOpened` | shared/src/payments.rs:360-505 | Over every run the payout of an escrow is the whole amount named by the accepted call that opened it, to the beneficiary that call named on release, no later than its expiry, and back to the depositor it named on refund |
| `PaymentsOrigins.EscrowIsAsOpened` | shared/src/payments.rs:360-407 | Over every run depositor, beneficiary, amount and expiry of a stored escrow are those of the accepted call that returned its id |
| `PaymentsOrigins.CreateEscrowSucceedsIff` | shared/src/payments.rs:360-407 | An escrow is opened exactly for a positive amount the depositor holds and an expiry to come, while ids last, and takes exactly that amount from the depositor |
| `PaymentsOrigins.DepositSucceedsIff` | contracts/payments-contract/src/lib.rs:137-169 | A deposit goes through exactly for a positive amount its sender holds and the total has room for, and takes exactly that amount from the sender |
| `PaymentsOrigins.FeeRateChangesExactlyBy` | contracts/payments-contract/src/lib.rs:101-117 | Every call: the fee rate becomes what the admin names within 0 to 10 000 and stays otherwise |
| `PaymentsOrigins.StateChangesExactlyBy` | shared/src/payments.rs:422-505 | An escrow becomes released exactly by a release and refunded exactly by a refund that goes through |
| `PaymentsOrigins.ActiveInOrder` | shared/src/payments.rs:162-180 | Over every run the active escrows are listed in the order they were opened |
| `Payments.BalanceIsHistory` | contracts/payments-contract/src/lib.rs:137-279 | Over every run each user's balance is what that user deposited less what that user withdrew |
| `Payments.WithdrawalPays` | contracts/payments-contract/src/lib.rs:237-279 | A withdrawal pays the exact floored fee to the fee recipient and the rest to the user; every other balance stands |
| `Payments.WithoutContents` | shared/src/payments.rs:171-180 | Removal drops exactly the given id from the active list |
| `Payments.PayOutEffect` | shared/src/payments.rs:202-244 | Paying a split succeeds when its two parts are there and changes every balance by exactly those, also when fee recipient, withdrawer and gateway coincide |
| `PaymentsContract.PaymentGateway.RemoveFromActive` | shared/src/payments.rs:171-180 | The rebuilding loop |
| `BpsMath.ApplyBpsExact` | shared/src/math.rs:66-75 | Exactly floor(amount * bps / 10 000) for every valid 128-bit amount, with no overflow error |
| `BpsMath.FeeAgreesExactlyWhenProductFits` | shared/src/payments.rs:265-278 | The plain fee agrees with it exactly where amount * rate fits in 128 bits, and is an overflow error elsewhere |
| `BpsMath.FeeSplitConserves` | shared/src/payments.rs:283-287 | Fee and net are non-negative, add up to the amount, and the fee is the exact floor |
| `BpsMath.FloorSumBound` | contracts/nft-marketplace/src/lib.rs:446-465 | Flooring each share separately never pays more than the shares together |
| `Governance.ReachableInv` | contracts/governance-contract/src/lib.rs:142-538 | Over every run the threshold stays between one and the size of the admin list, every parameter lies within its bounds, and each approval count is the number of distinct approvers |
| `Governance.ExecutionNeedsThreshold` | contracts/governance-contract/src/lib.rs:304-376 | Whenever a proposal executes, at least as many distinct addresses as the last accepted set_admin_set, or else the initialization, named have approved it before, each holding the Admin role at that moment |
| `Governance.ThresholdIsLastNamed` | contracts/governance-contract/src/lib.rs:234-247 | Over every run threshold and admin list are those of the last such call by an admin with a threshold between one and the list's size, or of the initialization |
| `GovernanceOrigins.ExecutesAsProposed` | contracts/governance-contract/src/lib.rs:271-376 | Over every run an execution does exactly the action that the accepted call which returned the id proposed |
| `GovernanceOrigins.ProposalIsAsProposed` | contracts/governance-contract/src/lib.rs:271-299 | Over every run action and proposer of a stored proposal are those of the accepted call, by an admin, that returned its id |
| `Governance.ExecutesOnce` | contracts/governance-contract/src/lib.rs:346-376 | A proposal has executed once if it is marked so and not at all otherwise |
| `Governance.ExecuteSucceedsIff` | contracts/governance-contract/src/lib.rs:346-376 | The exact condition for an execution to go through |
| `Governance.ApproveSucceedsIff` | contracts/governance-contract/src/lib.rs:304-337 | The exact condition for an approval to count; the admin list does not occur in it |
| `Governance.ApproversAreThoseWhoApproved` | contracts/governance-contract/src/lib.rs:316-327 | The stored approvals are exactly the accepted approvals of the run |
| `Governance.RolesChangeExactlyBy` | contracts/governance-contract/src/lib.rs:187-221 | A role is gained or lost in one call exactly by an admin's grant or revocation or by an executed proposal for it |
| `Governance.PauseChangesExactlyBy` | contracts/governance-contract/src/lib.rs:595-600 | The pause flag changes by executed proposals only |
| `Governance.ParametersChangeExactlyBy` | contracts/governance-contract/src/lib.rs:389-411 | A parameter takes a new value exactly when the governance admin sets it within bounds or a proposal that sets it is executed |
| `Governance.ApproverOutsideAdminSet` | contracts/governance-contract/src/lib.rs:234-247 | A run whose one carrying approval comes from outside the admin list |
| `GovernanceContract.Governance.Approve` | contracts/governance-contract/src/lib.rs:304-337 | Once per address while pending |
| `GovernanceContract.Governance.Execute` | contracts/governance-contract/src/lib.rs:346-376 | Threshold reached, action done, marked |
| `Batch.BatchAccounts` | shared/src/batch.rs:253-337 | On return the balances are those of exactly the transfers marked Success, in order; no supply changes; each mark is counted once; every transfer has a mark unless the batch stopped early; the lock is free |
| `Batch.BatchSucceedsIff` | shared/src/batch.rs:253-337 | A batch is taken on exactly if it is neither empty nor longer than its own limit of one to a hundred, no other is running, and, if atomic, the transfers before its first bad amount can all be paid |
| `Batch.AtomicBatch` | shared/src/batch.rs:283-316 | An atomic batch pays the transfers before the first amount that is not positive, or aborts if one of them fails |
| `Batch.RevertedKeepsPrefix` | shared/src/batch.rs:285-294 | A batch reported as reverted has paid that prefix; it has paid nothing exactly when the first amount is the offending one |
| `Batch.RevertedBatchPays` | shared/src/batch.rs:285-294 | A concrete batch that reports itself reverted and has paid |
| `Batch.NonAtomicMarks` | shared/src/batch.rs:346-382 | Otherwise a transfer is marked Success exactly when its amount is positive and the caller can cover it after the marked ones before it, 803 when it is not positive and 3 when it is not covered |
| `Batch.NonAtomicRunsThrough` | shared/src/batch.rs:283-316 | A batch that is not atomic neither stops nor aborts |
| `BatchContract.BatchExecutor.RunTransfers` | shared/src/batch.rs:283-316 | The loop against the fold over the transfers |
| `BatchContract.BatchExecutor.ExecuteMultiTransfer` | shared/src/batch.rs:253-337 | The whole call with its errors in order; an abort changes nothing, the lock included |
| `Aid.ReachableInv` | contracts/aid-contract/src/lib.rs:169-348 | Over every run the stored ids are exactly those below the counter until it wraps and all of them after; the contract covers every pending disbursement |
| `Aid.PaidOutIff` | contracts/aid-contract/src/lib.rs:260-348 | A disbursement can be claimed by its recipient up to its expiry ledger and refunded by anyone after it |
| `Aid.PaysOnce` | contracts/aid-contract/src/lib.rs:260-348 | A disbursement has been paid out once if it is closed and not at all before |
| `Aid.RecordsAreKept` | contracts/aid-contract/src/lib.rs:169-348 | Over any continuation of a run, also past a wrap of the counter, a stored record keeps everything but its status, and that too once it is closed |
| `Aid.PayoutGoesTo` | contracts/aid-contract/src/lib.rs:284-336 | That payout moves the whole amount from escrow to the recipient up to the expiry ledger and to the donor after it, and no other balance of any token |
| `AidOrigins.PayoutIsAsOpened` | contracts/aid-contract/src/lib.rs:169-348 | Over every run a payout is the whole amount named by the accepted call that opened the disbursement, to the recipient it named up to the expiry it named and back to its donor after that |
| `AidOrigins.RecordIsAsOpened` | contracts/aid-contract/src/lib.rs:169-246 | Over every run donor, recipient, amount and expiry of a stored record are those of the accepted call that returned its id |
| `AidOrigins.CreateSucceedsIff` | contracts/aid-contract/src/lib.rs:169-246 | A disbursement is accepted exactly for a positive amount the donor holds and an expiry to come, until the counter has wrapped, and takes exactly that amount from the donor |
| `AidOrigins.PauseChangesExactlyBy` | contracts/aid-contract/src/lib.rs:359-378 | Every call: the pause flag becomes what the admin names and stays otherwise |
| `AidOrigins.StatusChangesExactlyBy` | contracts/aid-contract/src/lib.rs:260-348 | A disbursement becomes settled exactly by a claim and refunded exactly by a refund that goes through |
| `AidListings.ListingIsCompleteIff` | contracts/aid-contract/src/api.rs:17-81 | A reader who calls list_aids or list_aids_by_donor with any positive limits and passes the cursor back ends, and has exactly the stored records, or the donor's, each once and by id, if and only if the counter has not wrapped or there are none |
| `AidListings.PageIsExact` | contracts/aid-contract/src/api.rs:17-81 | One page holds exactly the wanted records between its cursor and the one it hands back, no more than its limit, and fewer only if it is the last |
| `AidListings.IndexListingIsComplete` | contracts/aid-contract/src/lib.rs:386-406 | A reader who calls paginate over any index of ids ends and has the record of every stored id, in the order of the index |
| `AidListings.IndexPageIsExact` | contracts/aid-contract/src/lib.rs:386-406 | One page over an index holds the stored records from its cursor to the one it hands back, at most the limit and at most fifty, fewer only if it is the last |
| `Paging.ReadsEverything` | contracts/aid-contract/src/api.rs:28-44 | For any list with gaps and any positive limits, the pages read so far are the entries up to the cursor, and there are at most as many pages as positions |
| `Paging.PageIsFull` | contracts/aid-contract/src/api.rs:28-44 | A page holds at most its limit, and fewer only at the end of the list |
| `AidContract.Aid.CreateAid` | contracts/aid-contract/src/lib.rs:169-246 | Next id, record, escrow; a failure undoes all |
| `AidContract.Aid.ListAids` | contracts/aid-contract/src/api.rs:17-45 | The cursor loop returns the page of its specification, limit zero included |
| `AidContract.Aid.ListAidsByDonor` | contracts/aid-contract/src/api.rs:47-81 | The same by donor |
| `AidContract.Aid.Paginate` | contracts/aid-contract/src/lib.rs:386-406 | The same over an index, at most fifty |

## Plain handlers

Starting values, and entry points and helpers that guard and write; each method refines its function, failure included.

| member | source | states |
|---|---|---|
| `MarketChanges.InitializeSucceedsIff` | contracts/nft-marketplace/src/lib.rs:495-533 | The marketplace starts exactly with a fee of up to 1 000 and a bid increment of up to 5 000 |
| `MarketplaceContract.NftMarketplace.constructor` | contracts/nft-marketplace/src/lib.rs:495-533 | A fresh marketplace is the initial state of the runs |
| `MarketplaceContract.NftMarketplace.UpdateCollectionStats` | contracts/nft-marketplace/src/lib.rs:377-400 | Adds to or guardedly takes from the two counters of a registered collection, aborting where the arithmetic would trap |
| `MarketplaceContract.NftMarketplace.ComputeSplit` | contracts/nft-marketplace/src/lib.rs:806-826 | Fee, royalties and proceeds of a price, with the overflow errors in order |
| `MarketplaceContract.NftMarketplace.PaySplit` | contracts/nft-marketplace/src/lib.rs:828-841 | Pays fee, royalties and proceeds, each only if positive |
| `MarketplaceContract.NftMarketplace.SetPlatformFee` | contracts/nft-marketplace/src/lib.rs:539-551 | Admin only, 0 to 1 000; nothing else changes |
| `MarketplaceContract.NftMarketplace.SetFeeRecipient` | contracts/nft-marketplace/src/lib.rs:553-562 | Admin only; nothing else changes |
| `MarketplaceContract.NftMarketplace.SetBidIncrement` | contracts/nft-marketplace/src/lib.rs:564-572 | Admin only, 0 to 5 000; nothing else changes |
| `MarketplaceContract.NftMarketplace.SetAutoExtension` | contracts/nft-marketplace/src/lib.rs:574-582 | Admin only, at most 3 600 seconds; nothing else changes |
| `MarketplaceContract.NftMarketplace.SetCurrency` | contracts/nft-marketplace/src/lib.rs:584-597 | Admin only; writes one whitelist entry |
| `MarketplaceContract.NftMarketplace.RegisterCollection` | contracts/nft-marketplace/src/lib.rs:636-690 | New collections only, share and list limits, counters at zero |
| `MarketplaceContract.NftMarketplace.SetCollectionRoyalties` | contracts/nft-marketplace/src/lib.rs:692-725 | The collection admin replaces the recipients; counters stay |
| `MarketplaceContract.NftMarketplace.ListNft` | contracts/nft-marketplace/src/lib.rs:739-789 | Escrows the parcel, records the listing, counts it; a failure undoes everything |
| `MarketplaceContract.NftMarketplace.CancelListing` | contracts/nft-marketplace/src/lib.rs:862-887 | Returns the parcel to the seller and counts it off |
| `MarketplaceContract.NftMarketplace.CreateEnglishAuction` | contracts/nft-marketplace/src/lib.rs:897-962 | Escrows the parcel and opens an auction without a bid, keeping the order of errors |
| `MarketplaceContract.NftMarketplace.CreateDutchAuction` | contracts/nft-marketplace/src/lib.rs:1138-1206 | The same with a floor below the start |
| `MarketplaceContract.NftMarketplace.BuyDutchAuction` | contracts/nft-marketplace/src/lib.rs:1208-1278 | Sells at the current price |
| `MarketplaceContract.NftMarketplace.CancelDutchAuction` | contracts/nft-marketplace/src/lib.rs:1286-1318 | Returns the parcel to the seller |
| `MarketplaceContract.NftMarketplace.MakeOffer` | contracts/nft-marketplace/src/lib.rs:1328-1378 | Escrows the offered amount |
| `MarketplaceContract.NftMarketplace.CancelOffer` | contracts/nft-marketplace/src/lib.rs:1449-1472 | Returns the offered amount |
| `RewardsChanges.FirstState` | contracts/referral-contract/src/lib.rs:88-101 | What a run of both contracts starts with |
| `ReferralContract.Referral.SetTreasury` | contracts/referral-contract/src/lib.rs:103-115 | Admin only |
| `ReferralContract.Referral.SetTierConfig` | contracts/referral-contract/src/lib.rs:130-169 | Writes the tiers in a loop, the tier count and the cap |
| `ReferralContract.Referral.SetReferrer` | contracts/referral-contract/src/lib.rs:189-219 | Admin only; refuses oneself and short cycles, overwrites otherwise |
| `ReferralContract.Referral.Register` | contracts/referral-contract/src/lib.rs:232-285 | Once per wallet, no referrer yet, same cycle check |
| `ReferralContract.Referral.CreditReferrer` | contracts/referral-contract/src/lib.rs:522-575 | Credits up to the cap |
| `TreasuryContract.Treasury.AddTreasuryManager` | contracts/treasury-contract/src/lib.rs:57-68 | Admin only; adds one manager |
| `TreasuryContract.Treasury.RemoveTreasuryManager` | contracts/treasury-contract/src/lib.rs:71-82 | Admin only; removes one manager |
| `TreasuryContract.Treasury.SetWithdrawalLimit` | contracts/treasury-contract/src/lib.rs:85-100 | Admin only, positive limits |
| `TreasuryContract.Treasury.SetReferralContract` | contracts/treasury-contract/src/lib.rs:244-260 | Admin only |
| `TreasuryContract.Treasury.Deposit` | contracts/treasury-contract/src/lib.rs:103-123 | Adds to one category |
| `TreasuryContract.Treasury.Withdraw` | contracts/treasury-contract/src/lib.rs:145-187 | Managers, within limit and balance |
| `TreasuryContract.Treasury.EmergencyWithdraw` | contracts/treasury-contract/src/lib.rs:199-240 | Admin, while paused |
| `TreasuryContract.Treasury.DistributeReward` | contracts/treasury-contract/src/lib.rs:283-314 | Only the registered referral contract, within the rewards balance |
| `Roles.FirstMembers` | contracts/access-control/src/lib.rs:101-123 | At first the super-admin, and nobody else, is an admin and a member of the one role there is |
| `AccessControlContract.AccessControl.AddAdmin` | contracts/access-control/src/lib.rs:144-168 | Admins only; adds one admin |
| `AccessControlContract.AccessControl.RemoveAdmin` | contracts/access-control/src/lib.rs:172-206 | Never the super-admin |
| `AccessControlContract.AccessControl.CreateRole` | contracts/access-control/src/lib.rs:213-227 | Registers a new name once |
| `AccessControlContract.AccessControl.GrantRole` | contracts/access-control/src/lib.rs:283-299 | Adds one direct member |
| `AccessControlContract.AccessControl.RevokeRole` | contracts/access-control/src/lib.rs:303-319 | Removes one direct member |
| `UpgradeabilityContract.Upgradeability.RegisterContract` | contracts/upgradeability/src/lib.rs:231-278 | Admins, new names, versions from 1 |
| `UpgradeabilityContract.Upgradeability.SetMigrationHook` | contracts/upgradeability/src/lib.rs:328-347 | Admins, registered contracts |
| `UpgradeabilityContract.Upgradeability.ProposeUpgrade` | contracts/upgradeability/src/lib.rs:368-424 | One open proposal per contract, rising version, new hash |
| `UpgradeabilityContract.Upgradeability.CancelProposal` | contracts/upgradeability/src/lib.rs:590-616 | Removes proposal and lock |
| `PaymentsOrigins.WithdrawIsWithdrawAmount` | contracts/payments-contract/src/lib.rs:190-279 | Withdrawing everything is withdrawing one's balance |
| `PaymentsContract.PaymentGateway.SetFeeRate` | contracts/payments-contract/src/lib.rs:101-117 | Admin only, 0 to 10 000 |
| `PaymentsContract.PaymentGateway.Deposit` | contracts/payments-contract/src/lib.rs:137-169 | Moves the tokens, raises balance and total, or undoes all |
| `PaymentsContract.PaymentGateway.TakeOut` | contracts/payments-contract/src/lib.rs:196-234 | Split, two transfers, then the books |
| `PaymentsContract.PaymentGateway.Withdraw` | contracts/payments-contract/src/lib.rs:190-234 | The whole balance |
| `PaymentsContract.PaymentGateway.WithdrawAmount` | contracts/payments-contract/src/lib.rs:237-279 | Part of the balance |
| `PaymentsContract.PaymentGateway.CreateEscrow` | shared/src/payments.rs:360-407 | Next id, record, active list, transfer; a failure undoes all |
| `PaymentsContract.PaymentGateway.ReleaseEscrow` | shared/src/payments.rs:422-459 | Admin only, active, not expired |
| `PaymentsContract.PaymentGateway.RefundEscrow` | shared/src/payments.rs:474-505 | Admin only, active |
| `GovernanceOrigins.FirstState` | contracts/governance-contract/src/lib.rs:142-180 | At the start exactly the listed addresses hold a role, Admin, and the parameters have their defaults |
| `GovernanceOrigins.InBoundsIff` | contracts/governance-contract/src/lib.rs:509-538 | The bounds of each parameter |
| `GovernanceContract.Governance.constructor` | contracts/governance-contract/src/lib.rs:142-180 | The loop grants the Admin role to every listed address; the defaults are seeded |
| `GovernanceContract.Governance.GrantRole` | contracts/governance-contract/src/lib.rs:187-204 | Admins only |
| `GovernanceContract.Governance.RevokeRole` | contracts/governance-contract/src/lib.rs:207-221 | Admins only |
| `GovernanceContract.Governance.SetAdminSet` | contracts/governance-contract/src/lib.rs:234-247 | Threshold between one and the list size |
| `GovernanceContract.Governance.Propose` | contracts/governance-contract/src/lib.rs:271-299 | Next id, no approvals |
| `GovernanceContract.Governance.ExecuteAction` | contracts/governance-contract/src/lib.rs:576-603 | One of five effects; parameters within bounds |
| `GovernanceContract.Governance.SetParam` | contracts/governance-contract/src/lib.rs:389-411 | Admin only, within bounds |
| `BatchContract.BatchExecutor.AcquireGuard` | shared/src/batch.rs:194-200 | Fails exactly when the lock is taken |
| `BatchContract.BatchExecutor.ExecuteSingleTransfer` | shared/src/batch.rs:346-382 | One transfer, its mark and its abort |
| `BatchContract.BatchExecutor.MultiTransferAll` | shared/src/batch.rs:530-545 | An atomic batch of at most fifty |
| `AidContract.Aid.ClaimAid` | contracts/aid-contract/src/lib.rs:260-300 | Recipient only, pending, not expired, not paused |
| `AidContract.Aid.RefundAid` | contracts/aid-contract/src/lib.rs:315-348 | Pending and expired |
| `AidContract.Aid.SetPaused` | contracts/aid-contract/src/lib.rs:359-378 | Admin only |

## Left out

- Events, error numbers and contract-type encoding: no state depends on them.
- Storage lifetimes and archival: storage is plain maps.
- Fields that are written and never read by any rule: names, URIs, hashes of metadata once their length is known, creation times, referral records' timestamps, proposal notes, the secondary collection and token of an offer.
- Payments.ReachableInv: runs without `batch_payout`, which pays from the gateway's balance without regard to deposits.
- Upgrades.ReachableChain: contracts registered once; what a second registration does is stated exactly by Upgrades.ReRegistrationKeepsChainIff.
- MarketPricing.DutchPriceInRange: auctions with 0 < floor < start, as `create_dutch_auction` demands; for floors that are not positive, which `bulk_create_auctions` accepts, MarketDutch.BoughtForNothingIff says when the sale pays nothing.
- MarketPricing.EverySplitFitsIff: recipient lists of at most 2^32 - 1 entries, the length limit of the host's vectors.
- Initialization a second time, and initialization with values that the code refuses: the constructors take accepted values, the functions `Initialize` give the errors.
- Receiving side of a token: balances have no upper bound, so a transfer fails for lack of funds only.
- The operations of tokens other than transfer: a non-fungible parcel is an amount of the collection's token, as the code itself treats it.
- The referral contract's lookup of the treasury in a registry, and its record of who registered whom.
- `execute_multi_invoke` and `batch_invoke_no_args`: the same loop around opaque calls.
- The map `KEY_AIDS` that `create_aid` fills and nothing updates, and the unused donor and recipient indexes.
- The oracle address of the marketplace, getters that return one stored value, the registry, rebalancer and oracle contracts.
- Pausing the marketplace and the treasury: the flag is part of the state and no entry point of theirs changes it.

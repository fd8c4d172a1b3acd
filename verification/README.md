# A verified model of bb-go's protocol engines

bb-go is a node of a peer-to-peer market: buyers and vendors trade through escrow, moderators settle
disputes, and every node publishes its store as one hashed directory. Most of it is HTTP, IPFS and wallet
plumbing. This project models the engines inside that have something to lose, one Dafny module each, and
proves what they keep over every input, every interleaving or every run.

| module | what it is about |
|---|---|
| `DisputePayout`, `DisputeClosing` | the moderator's division of an escrow, and the transaction each party rebuilds from the written resolution |
| `EscrowRace` | the vendor confirming and the buyer cancelling one offline order, one sub-step at a time, on a ledger that spends a coin once |
| `OrderStates`, `EscrowWindows` | the guarded steps over stored order states, and the two confirmation windows of an escrow |
| `Publishing` | `SeedNode` and `publish` under two locks |
| `WebsocketHub` | one loop that owns a set of bounded channels which others drain |
| `GraphWalk` | a walk with no visited set over a map that is changed while it is ranged over |
| `AgingNotifier` | four kinds of reminders driven by a single "last notified" time |
| `SliceRange`, `Posts`, `OrderHashes` | deleting from a slice while ranging over it, and the post index and order check that do so |
| `Inventory`, `Ratings`, `Paging`, `Pointers` | stored data that must agree with what it was computed from |
| `Decimals`, `Hexadecimal`, `Wrappers` | printing, parsing and decoding; `Option` and `Result` |

Code that the source writes as loops over mutable state is a method or a class here, proved against a
function or relation on values; the main results are lemmas about those. Concurrent code is a state machine
whose steps are the source's sub-steps. `float32` and `big.Float` are read as exact reals, hashes as
arbitrary functions, and the network, clock, wallet and file system as parameters.

Where a promised property is false of the code, the code is modelled as it stands, and the lemmas named here
give the case that breaks it and the exact condition under which it holds:

- Two sides of an escrow both end up paid exactly when they can be looking at disjoint parts of the funding
  (`EscrowRace.SplitIffDisjointViews`).
- A confirm call can write over a cancellation that has arrived (`EscrowRace.RecoveryLosesCancellation`),
  exactly when the call is past its guard and has not swept (`EscrowRace.CancellationLostIff`).
- A cancel call whose message cannot be sent has already taken the coins, and the order stays PENDING on both
  sides (`EscrowRace.UnsentCancelKeepsTheCoins`).
- Percentages lose their fractions before they are applied, so a fractional split leaves one percent of the
  shared amount to the miner; the miner's excess stays under four units for every escrow exactly when both
  percentages are whole (`DisputePayout.UnderFourIffWhole`, `DisputePayout.FractionExample`).
- A resolution written for an older contract schema keeps an amount only from 1 up to 2^63 - 1
  (`DisputeClosing.ReleaseRebuildsIff`, `DisputeClosing.OldSchemaLosesAnAmount`).
- A buyer's expiry reminders compare the last reminder with the order's age but the clock with the dispute's
  age, so a late dispute gets one reminder of three (`AgingNotifier.LateDisputeExample`);
  `AgingNotifier.SentIffDelivered` says which are sent, from the row's dates and the passes' times alone.
- Rewriting a sale or a purchase sends its reminders again, and rewriting a moderator's case starts them anew
  (`AgingNotifier.PutSendsAgain`, `AgingNotifier.RewritingRepeatsIff`).
- Inventory rows of two slugs can share a primary key (`Inventory.ReconciledOthers`, `Inventory.SlugsCollide`).
- `FulfillOrder` asks whether a message without listings is fulfilled, and so no run ever enters
  PARTIALLY_FULFILLED (`OrderStates.FulfillSkipsPartial`, `OrderStates.NeverPartiallyFulfilled`).
- A rating for a listing that is gone from the listing index leaves the profile behind
  (`Ratings.AcceptInSync`), and a rating out of range clears the error of one refused before it
  (`Ratings.FailsIff`).

## Model

| member | source | states |
|---|---|---|
| DisputePayout.CreateOutputs | core/disputes.go:575-629 | the moderator's, buyer's and vendor's outputs before fees, both as the list given to the fee estimate and by role |
| DisputePayout.SubtractFee | core/disputes.go:684-706 | in any order over the map being rewritten and deleted from, the map keeps each output's truncated net value unless it is dust, and the signed outputs are a permutation of the map's with the same sum |
| DisputePayout.NetShare | core/disputes.go:687-690 | an output less its share of the fee is its exact proportional value rounded down to a whole unit |
| DisputePayout.GrossGap | core/disputes.go:579-639 | with whole percentages at most one unit of the escrow is left unassigned; with fractional ones a percent of the shared amount is, to within two units |
| DisputePayout.EachGetsItsShare | core/disputes.go:575-706 | everyone with a share gets, at its own address, its own percentage of the rest (the moderator its fee) less its part of the miner's fee, both rounded down, unless that is dust; nobody else gets anything |
| DisputePayout.NeverOverspends | core/disputes.go:575-706 | kept outputs and the miner's fee never exceed the escrow, for every ratio, fee, and set of outputs dropped as dust |
| DisputePayout.WholePercentagesLoseUnderFour | core/disputes.go:575-706 | with whole percentages and nothing dropped the miner is overpaid by fewer than four units |
| DisputePayout.FractionsLoseAPercent | core/disputes.go:623-639 | with fractional percentages the miner also gets a percent of the shared amount, less the fee on it, so no constant bounds the excess |
| DisputePayout.UnderFourIffWhole | core/disputes.go:575-706 | the excess is under four units for every escrow, fee and dust rule that drops nothing if and only if both percentages are whole |
| DisputePayout.FractionExample | core/disputes.go:623-639 | 33.5 to 66.5 of 1000 units is paid out as 330 and 660 |
| DisputeClosing.Normalize | core/disputes.go:522-533 | fails exactly when an amount of an older contract does not parse, and otherwise rewrites the outpoints in place to their normalized form |
| DisputeClosing.TotalOut | core/disputes.go:560-573 | the sum of the outpoints' amounts, or failure at the first that cannot be read |
| DisputeClosing.CreateInputs | core/disputes.go:654-676 | the inputs to be signed, or failure at the first hash or amount that cannot be read |
| DisputeClosing.ModeratorNode.Prepare | core/disputes.go:491-706 | the plan computed step by step, with the source's errors in the source's order, and the outputs to be signed a permutation of those it keeps |
| DisputeClosing.ModeratorNode.CloseDispute | core/disputes.go:485-823 | which error each failure gives and nothing stored on any of them, the buyer alone told when only the vendor cannot be reached; on success the planned inputs are signed with outputs that each pay a role at its right address, and the case holds the written payout |
| DisputeClosing.SomeoneIsOwed | core/disputes.go:650-652 | a valid ratio always leaves an output, so "transaction has no outputs" is never reported |
| DisputeClosing.ReleaseFunds | core/disputes.go:1124-1203 | rebuilds inputs and outputs from a written payout, or fails where the source does |
| DisputeClosing.ClosesIff | core/disputes.go:485-706 | exactly when a dispute can be closed, in terms of the case, the ratio, the clock and the wallet |
| DisputeClosing.EarlyRefusalsMean | core/disputes.go:487-521 | what is amiss when a dispute is refused before a coin is looked at |
| DisputeClosing.LateRefusalsMean | core/disputes.go:522-681 | what is amiss when it is refused after that |
| DisputeClosing.TheLargerShareChooses | repo/dispute_case_record.go:125-147 | the inputs and the contract are those of the party with the larger share, the buyer's when equal, the other's where there are none |
| DisputeClosing.PlansPayTheRightOnes | core/disputes.go:606-640 | the buyer and the vendor are paid at the addresses they gave, the moderator at its own, and nobody is paid dust |
| DisputeClosing.PlansPayTheRightAmounts | core/disputes.go:575-706 | each role is paid exactly what it deserves, and is left out exactly when it has no share or that is dust |
| DisputeClosing.WrittenByRole | core/disputes.go:758-800 | the written payout has an output for each role that is paid, at that role's address |
| DisputeClosing.OldAmountsMove | core/disputes.go:522-533 | a printed amount of an older contract becomes the uint64 it stands for, and a current one is left alone |
| Hexadecimal.HexRoundTrip | core/disputes.go:657-660 | decoding undoes encoding on all bytes |
| Hexadecimal.HexDecodesIff | core/disputes.go:657-660 | exactly the strings of an even number of hexadecimal digits decode |
| Hexadecimal.PrefixIsTrimmed | util/utils.go:66-69 | a leading 0x goes, anything else stays |
| Hexadecimal.NothingToTrim | core/disputes.go:1129-1132 | a hash that could be signed has no 0x for the release to trim |
| DisputeClosing.ClosingConserves | core/disputes.go:560-706 | a closed dispute's outputs and fee never exceed the worth of its own inputs |
| DisputeClosing.InputsAgree | repo/dispute_resolution.go:19-24 | the release reads every input as it was signed exactly when, for each, the amount held and the amount printed agree as an int64 |
| DisputeClosing.ReleaseRebuildsIff | core/disputes.go:758-800 | the release rebuilds the signed inputs and outputs, as a multiset, exactly when all inputs agree and every kept amount survives being written in the contract's schema |
| DisputeClosing.CurrentSchemaRoundTrips | core/disputes.go:1123-1203 | for current-schema contracts with printed amounts, close then release always is a round trip, dropped dust included |
| DisputeClosing.OldSchemaLosesAnAmount | core/disputes.go:766-770 | an escrow of 2^63 units whose payout the release rebuilds under the current schema and under no older one |
| EscrowRace.WholeSweepsAgree | core/order.go:1084-1157 | when both sides sweep the whole funding, no interleaving pays both, none ends with an order about to ship and a canceled purchase, and whoever's state says it was paid holds all the coins |
| EscrowRace.SplitIffDisjointViews | core/confirmation.go:102-192 | such an ending is possible exactly when the two sides can see disjoint parts of the funding |
| EscrowRace.BothCanSucceed | net/service/handlers.go:574-612 | runs in which a confirmation, or a cancellation, succeeds, arrives and leaves both sides agreed, from a pending order and from one that could not be processed |
| EscrowRace.PurchaseSettles | net/service/handlers.go:574-612 | with no cancel call under way, a purchase that is canceled or about to be shipped stays so over every run, and no more coins are taken back |
| EscrowRace.StoppingIsClean | core/order.go:1084-1110 | an error before anything is written can end a call only past its guard, and changes neither stored states nor coins |
| EscrowRace.UnsentCancelKeepsTheCoins | core/order.go:1137-1157 | a run in which a cancel call fails to send its message after it took the coins, and the order is PENDING on both sides |
| EscrowRace.UnstoredCancelSplitsTheOrder | core/order.go:1137-1157 | a run in which the sale is CANCELED and the purchase, which could not be stored, is not |
| EscrowRace.RefusedConfirm | core/confirmation.go:102-121 | a confirmation that returned an error has swept nothing and left the old state, unless a cancellation has reached the vendor |
| EscrowRace.CancellationLostIff | core/confirmation.go:102-192 | from any state with an arrived cancellation, some run writes over it if and only if a confirm call is past its guard and has not swept, or is recovering |
| EscrowRace.RecoveryLosesCancellation | net/service/handlers.go:650-681 | a run from the start in which the buyer has the money back and the recovered sale is PENDING again |
| OrderStates.SettledIffNeverLeft | api/jsonapi.go:1650-1670 | the states no local vendor step leaves are exactly COMPLETED, REFUNDED, CANCELED, DECLINED, DECIDED, RESOLVED and PROCESSING_ERROR |
| OrderStates.SettledForGood | core/disputes.go:355-421 | over every run such a state stays |
| OrderStates.SaleEdges | api/jsonapi.go:1650-1670 | the transition diagram of a sale: which call takes it from which state to which, with and without moderation |
| OrderStates.CoinsFollowTheState | core/completion.go:307-410 | a failed step changes nothing, and the escrow is spent, all of it, exactly by a release or by confirming a direct order |
| OrderStates.FinitelyManyChanges | core/completion.go:307-410 | a sale changes state at most five times, and twice more for each later funding coin, despite the cycle between PAYMENT_FINALIZED and DISPUTED |
| OrderStates.BoundIsMet | core/disputes.go:359-359 | a run that reaches that bound |
| OrderStates.FulfillSkipsPartial | core/fulfillment.go:333-335 | a fulfillment is always stored as FULFILLED, which is right exactly when the contract then has a fulfillment for each listing |
| OrderStates.NeverPartiallyFulfilled | core/fulfillment.go:160-172 | in no run of a sale's local steps is PARTIALLY_FULFILLED ever entered |
| OrderStates.PurchaseChangesOnce | core/disputes.go:126-150 | the buyer's own steps change a purchase at most once, and never a finished or disputed one |
| OrderStates.PurchaseEdges | api/jsonapi.go:2169-2181 | the transition diagram of a purchase: from where each call reaches COMPLETED, CANCELED or DISPUTED |
| OrderStates.PurchaseNeeds | api/jsonapi.go:2070-2072 | what each of the buyer's calls needs to change anything |
| EscrowWindows.VerifyEscrowFundsAreDisputeable | core/disputes.go:154-190 | true exactly when every record's confirmations are known and below the contract's timeout, a uint32 product |
| EscrowWindows.TimeoutInputs | core/completion.go:327-367 | succeeds exactly when something is spendable and all that is has reached the same timeout and decodes; then it sweeps all of it |
| EscrowWindows.WindowsAreDisjoint | core/completion.go:327-367 | once the vendor can take the escrow no dispute can be opened, then or at any later confirmation count |
| EscrowWindows.WindowsMeet | core/completion.go:327-328 | an unspent coin may be disputed below hours times blocks an hour and is the vendor's from there on; a product that wraps to 0 rules disputes out |
| EscrowWindows.NeitherWindow | core/disputes.go:169-190 | exactly when both windows are closed |
| Publishing.PublishingConverges | core/core.go:143-226 | in every interleaving the published hashes are root hashes read at times that never go back, and at quiescence the last one is the root hash unless a publication failed after the last hash was stored |
| Publishing.PublishedOnce | core/core.go:172-226 | over every run the root hash's history is what the calls stored, one publication is recorded per success, and where no hash was stored twice none is published twice and the reads strictly advance |
| Publishing.StaleIsDropped | core/core.go:177-179 | a publication whose hash is not the root hash when checked publishes nothing, frees the lock and changes nothing else; a present one goes on |
| Publishing.OneCallPublishes | core/core.go:143-226 | one undisturbed call gets its hash published and leaves no lock, task or request behind |
| Publishing.FailedCallLeavesNoTrace | core/core.go:143-165 | a call can start whenever the seed lock is free, and its failure restores the state |
| Publishing.AfterKeepsConverging | core/core.go:172-226 | every step keeps: the root hash is the last one published, or its publication is under way or has failed |
| Publishing.AfterKeepsOrder | core/core.go:172-226 | every step keeps the published sequence a sampling of the root hash's history at times that never go back |
| Publishing.NeverStuck | core/core.go:143-226 | with work left some step other than a new call or an error is possible: the two locks never deadlock |
| Publishing.RunsAreShort | core/core.go:143-226 | without new calls the number of remaining steps is bounded by the calls under way |
| Publishing.ErrorFreeRunsPublish | core/core.go:172-226 | an error-free run without new calls that cannot go on has published the root hash |
| WebsocketHub.Hub.Unregister | api/hub.go:32-36 | only a listed connection is removed, and then its channel is closed |
| WebsocketHub.Hub.Offer | api/hub.go:39-46 | the message goes last in the channel behind all that waits, or the full channel is closed and its connection dropped |
| WebsocketHub.Hub.Broadcast | api/hub.go:38-46 | with writers draining meanwhile and any order of connections, each is offered the message once, and a closed one is fatal |
| WebsocketHub.Hub.Run | api/hub.go:26-49 | for every sequence of turns in which each connection registers once and then unregisters, the loop never panics and goes through a run of the system |
| WebsocketHub.RunsAreSafe | api/hub.go:26-49 | in every run no send on a closed channel and no second close; membership is registered-and-open; what a client's writer has received, followed by what waits in its channel, is exactly one stretch of the history from its registration, reaching the present while it is listed |
| WebsocketHub.DroppedOnlyWhenFull | api/hub.go:42-45 | a connection is dropped by a broadcast only with 256 messages waiting |
| WebsocketHub.RegisteringTwiceIsFatal | api/ws.go:143-147 | a connection registered again after its channel was closed makes the next broadcast, or its own unregistering, panic |
| GraphWalk.FetchGraph | ipfs/dag.go:16-46 | on an acyclic graph, whatever key comes next, returns exactly the reachable blocks, or fails exactly when one is missing, within the weight of the root |
| GraphWalk.RunPays | ipfs/dag.go:25-44 | visits so far and the weight of the worklist never exceed the root's weight |
| GraphWalk.BoundedIffAcyclic | ipfs/dag.go:25-44 | the walk's length is bounded over all key orders exactly when no cycle can be reached |
| GraphWalk.CycleNeverEmpties | ipfs/dag.go:21-27 | with a reachable cycle no key order ever empties the worklist |
| AgingNotifier.Store.Generate | core/record_aging_notifier.go:272-349 | a pass sends each due reminder of each open order once and sets the last notified time, in whole seconds, of just those orders |
| AgingNotifier.FirstDue | repo/purchase_record.go:10-19 | after how many days each reminder of each kind is first due, and by whose age |
| AgingNotifier.FilterHidesNothing | repo/db/purchases.go:404-450 | the datastore's own filter never hides a row with a reminder still due |
| AgingNotifier.OncePerPut | core/record_aging_notifier.go:201-226 | over every run with a clock that never goes back, each reminder is sent at most once for every time the row was written, for all four kinds, a moderator's case being dated anew each time |
| AgingNotifier.SentIffDelivered | core/record_aging_notifier.go:284-305 | between two writings a reminder is sent once or not at all, and once if and only if it is unsent at the start, some pass crosses it, and no earlier reminder delivered is first crossed in its window: a condition on the row at the start and the times of the passes |
| AgingNotifier.PunctualPassesSendAll | core/record_aging_notifier.go:363-388 | where no pass falls in a threshold's window, it is notified exactly once if it is crossed and never otherwise |
| AgingNotifier.WindowIsAnInstant | core/record_aging_notifier.go:130-143 | for all kinds but the buyer's expiry that window is one instant |
| AgingNotifier.LateDisputesGetOneReminder | core/record_aging_notifier.go:284-305 | a dispute opened 29 days into its order gets no second or last expiry reminder once the first is sent alone |
| AgingNotifier.LateDisputeExample | core/record_aging_notifier.go:284-305 | an order of day 1 disputed on day 30 gets the first expiry reminder and never the other two |
| AgingNotifier.EarlyDisputesRepeat | core/record_aging_notifier.go:284-305 | a dispute dated before its order has a reminder sent twice, so the order of the two dates is needed |
| AgingNotifier.StretchesAddUp | repo/db/purchases.go:46-46 | a run up to its first rewriting sends a reminder as SentIffDelivered says, and what follows starts from the rewritten row whatever was sent before |
| AgingNotifier.RewritingRepeatsIff | repo/db/cases.go:64-79 | with one rewriting the number of times is the sum of the two stretches, so twice if and only if the reminder is delivered in both |
| AgingNotifier.PutSendsAgain | repo/db/sales.go:51-51 | a reminder sent before a rewriting is sent again exactly when the next pass crosses it by the rewritten dates: at once for a sale or purchase, not for a moderator's case until its threshold has passed anew |
| SliceRange.DeleteWhileRanging | core/posts.go:308-318 | the in-place loop, with the range operand evaluated once and the tail shifting under it |
| SliceRange.RangeDeleteRemovesTheHit | core/posts.go:426-441 | with at most one hit the loop stays in bounds, takes out exactly the hit and keeps the rest in order |
| SliceRange.TwoHitsGoWrong | core/posts.go:426-441 | with two hits the same loop slices out of range, or empties a slice that should keep an entry |
| Posts.FreeSlug | core/posts.go:136-151 | the first unused candidate, found within one try more than there are used slugs |
| Posts.CandidatesDiffer | core/posts.go:145-149 | the candidates base, base1, base2 and so on are pairwise different |
| Posts.GeneratePostSlug | core/posts.go:136-151 | ends, with the first unused candidate, unless it first meets a post that cannot be read |
| Posts.PostStore.RemoveEntry | core/posts.go:305-318 | takes the slug's entry out of the index and nothing else |
| Posts.PostStore.CreatePost | api/jsonapi.go:4213-4277 | accepted exactly when the given slug is free and the post, with a slug made for it if it has none, is valid; then exactly one more file is stored and its entry comes last, and otherwise nothing changes |
| Posts.CreateStores | api/jsonapi.go:4213-4277 | the post stored by an accepted creation, under its slug or the first free candidate, with all other files and entries as they were |
| Posts.NamedIsValidIff | core/posts.go:547-559 | with fewer than a hundred thousand posts, a post without a slug is accepted exactly when its status leaves something to make a slug of |
| Posts.PostStore.UpdatePost | api/jsonapi.go:4292-4340 | accepted exactly when the slug is stored and the post is valid; then the file is the post, its entry moves to the end and nothing else changes |
| Posts.PostStore.DeletePost | core/posts.go:406-457 | takes away the file and its one entry and nothing else |
| Posts.PostStore.GetPostFromHash | core/posts.go:481-509 | finds exactly the stored post with the hash; the empty slug that stands for none is never stored |
| Posts.RunsAgree | core/posts.go:305-339 | after every run of creations, updates and deletions the index lists exactly the stored posts, each once, with its current hash, and every stored post is valid |
| OrderHashes.CollectItemHashes | core/order.go:1629-1640 | the items' hashes, each once |
| OrderHashes.TakeOut | core/order.go:1651-1656 | removing from the list being ranged over stays in bounds and takes out just the listing's hash |
| OrderHashes.MatchListings | core/order.go:1629-1660 | passes exactly when every item's hash is some included listing's hash, and then the map has the items' hashes as keys, each with the first such listing |
| Inventory.InventoryStore.SetListingInventory | core/listings.go:26-81 | on success the slug's stored variants are the listing's inventory, or {0: -1} when it is empty; on the early errors nothing changes |
| Inventory.ReconciledOwn | core/listings.go:37-73 | a reconciled table holds exactly the wanted variants of the slug, whatever was there and in any order |
| Inventory.ReconciledOthers | repo/db/inventory.go:24-40 | another slug keeps its inventory exactly when none of its rows has the key of a written row |
| Inventory.CollisionShape | repo/db/inventory.go:24-40 | which slugs and variants share a key: one slug is the other with digits of the variant appended |
| Inventory.SlugsCollide | repo/db/inventory.go:24-40 | storing variant 11 of "shirt" removes variant 1 of "shirt1" |
| Ratings.RatingStore.UpdateRatingIndex | core/completion.go:534-557 | the first entry of the listing takes the rating in, or a new entry does |
| Ratings.RatingStore.UpdateRatingInListingIndex | core/listings.go:362-384 | the listing's entry moves to the end with its running mean updated; fails exactly when there is none |
| Ratings.RatingStore.GetRatingCounts | core/ratings.go:140-147 | the total count and the count-weighted mean of the ratings index |
| Ratings.RatingStore.UpdateProfileRatings | core/profile.go:273-297 | an existing profile ends with the recomputed figures |
| Ratings.RatingStore.SaveRating | core/completion.go:432-505 | one rating reaches all views, or stops where its refusal does, with or without an error |
| Ratings.RatingStore.ValidateAndSaveRating | core/completion.go:431-509 | all of an order's ratings are saved in turn past any refusal, and the error returned is that of the last refusal |
| Ratings.FailsIff | core/completion.go:438-457 | an error is returned if and only if some rating is refused with one and no rating out of range is refused after it |
| Ratings.AcceptedIff | core/completion.go:432-457 | a rating is accepted unless its signatures, one of its five scores or its listing are amiss, and then counts once; one score outside 1 to 5 leaves every view as it was |
| Ratings.OrdersStayInRange | core/completion.go:439-457 | after any order's ratings, good and bad, the mean over all listings is between 1 and 5, by the check on the way in |
| Ratings.OrdersStayInSync | core/completion.go:431-509 | an order's ratings, good and bad, for existing listings leave every view true to the good ones |
| Ratings.AcceptInSync | core/completion.go:431-509 | after an accepted rating all views show the true figures exactly when its listing is in the listing index or there are no profile statistics |
| Ratings.IncrementIsRecomputed | core/profile.go:290-296 | the incremental profile update equals the recomputation that overwrites it |
| Ratings.RunsStayInSync | core/listings.go:362-384 | after any run of accepted ratings for existing listings every view shows the true count and mean |
| Ratings.RunsAggregateTrue | api/jsonapi.go:3680-3688 | the figures computed on request are then the true ones, and the mean lies between 1 and 5 |
| Paging.GetTransactions | api/jsonapi.go:3041-3075 | everything older than the offset, or everything, newest first and cut off at the limit; the whole list without offset and limit, nothing for an unknown offset |
| Paging.PageIsOlder | api/jsonapi.go:3041-3075 | the size of a page for every limit, with the two cases of a limit below 1, and each of its transactions by position in the wallet's list |
| Paging.PagesAreLossless | api/jsonapi.go:3041-3075 | page after page gives the reversed list the first request saw, without loss or repeat, whatever is appended in between |
| Pointers.TruncatePrefix | ipfs/pointers.go:130-143 | the 8-byte buffer holds the shifted big-endian word |
| Pointers.DecodeIsNumeral | ipfs/pointers.go:138-138 | big-endian decoding reads the bytes' bits as one numeral |
| Pointers.DecodeEncode | ipfs/pointers.go:141-141 | encoding is undone by decoding |
| Pointers.SamePointerIffSamePrefix | ipfs/pointers.go:130-149 | two recipients get the same pre-hash bytes exactly when the first prefixLen bits of their digests agree; a length outside 0 to 64 gives everyone the same bytes |
| Decimals.ParsePrint | core/disputes.go:761-771 | parsing a printed amount gives it back, for every integer |
| Decimals.PrintForm | core/disputes.go:761-771 | a sign exactly for negative numbers, and no leading zeros |
| Decimals.ParseForms | core/disputes.go:522-533 | a sign and leading zeros are accepted, and nothing but digits after |
| Decimals.PrintInjective | core/posts.go:136-151 | different numbers are printed differently |

## Left out

- Signatures, encryption, key derivation, protobuf and JSON: a resolution is stored and read back as it is.
- Floating point: `float32` percentages and ratings and `big.Float` shares are exact reals, so rounding (a sum that is 100 only after rounding, a mean that drifts) is not modelled.
- DisputePayout.NeverOverspends: takes the moderator's fee as an input between 0 and the escrow; `GetModeratorFee` refuses a larger fixed fee, and its currency conversion is not part of this model.
- DisputeClosing.ModeratorNode.CloseDispute: reading the parties' keys and scripts, and signing, are one yes or no, asked after everything else that can fail; the wallet and currency lookups are taken to succeed.
- DisputeClosing.ReleaseRebuildsIff: output labels that the wallet does not put in the transaction (role index, order number) and the wallet's own ordering of outputs are not modelled; it assumes that the wallet reads the addresses it prints.
- DisputeClosing.ReleaseFunds: stops at the rebuilt transaction; signing, broadcasting and the stored DECIDED state are not part of it.
- EscrowRace.WholeSweepsAgree: the handlers of the two messages are modelled only as far as they write the states in question; a handler's check of the funding is left out, one call of each kind runs at a time, and recovery's write is taken to succeed.
- OrderStates.SettledForGood: the steps are atomic (`EscrowRace.CancellationLostIff` says when CANCELED is left because they are not), and messages other than an opened dispute are not among them; an arriving cancellation writes CANCELED over any other state of a sale (net/service/handlers.go:673-681).
- Publishing: contexts and the republisher's timer are left out; a publication that fails is not retried, as in the source.
- WebsocketHub.RunsAreSafe: the system's step takes a whole broadcast at once, with writers draining during it; `Hub.Broadcast` is the loop it stands for. A writer that stopped on an error never drains again, which is one of the modelled behaviours.
- GraphWalk.FetchGraph: requires an acyclic graph, because on any other it can run forever (`BoundedIffAcyclic`); content addressing makes every real graph acyclic.
- AgingNotifier.Store.Generate: errors of the datastore are left out, among them a commit error that returns with the notifications' lock held, and a failed update that leaves reminders sent but not recorded.
- AgingNotifier.OncePerPut: assumes that a dispute is no older than its order while the row is open (`EarlyDisputesRepeat` shows the need) and durations below the 292 years at which `time.Sub` saturates.
- Posts.GeneratePostSlug: a file that cannot be read is its only I/O error; `CreateSlugFor` is not part of this model beyond the shape of its result, and a post's fields other than slug and status pass or fail validation as one.
- Listing creation and deletion: the same loop and index discipline as posts, so only easier members.
- `UpdatePostHashes`: assigns to a loop copy and changes nothing (core/posts.go:362-367).
- Ratings.RatingStore.ValidateAndSaveRating: signature checks are one yes or no for each rating, and file errors are left out.
- Paging.GetTransactions: a transaction's other fields, the order metadata joined to it and the HTTP parameters are left out.
- Pointers.TruncatePrefix: stops before the SHA-256 of the buffer, under which different buffers could in principle collide.
- Multi-item shipping, order totals, checkout breakdown, HTTP routing, configuration, startup, Tor, SMTP and image handling.

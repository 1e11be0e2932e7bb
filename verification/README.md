# MYNE client: verified models

MYNE is a tile lottery on Solana: wallets deploy lamports on a 25-tile board, one tile wins, and the
client mirrors the program's settlement arithmetic while keeping a live page consistent under late,
repeated and racing reads. This project models the client's exact mirrors and its stateful protocols in
Dafny and proves what they promise, for all inputs and all interleavings.

| file | models |
|---|---|
| `Common.dfy` | options and the board size |
| `Sums.dfy` | sums over sequences: permutation, regrouping, exchange |
| `Rewards.dfy` | interval and pro-rata allocation of a pool |
| `Ledger.dfy` | receipts of a round, tile starts, the solo sample |
| `Roster.dfy`, `Winners.dfy` | receipts grouped by wallet and paid; conservation of SOL and MYNE |
| `IndexedRoster.dfy` | the roster rebuilt from bet rows, and its agreement with the receipts |
| `Accrual.dfy` | what open receipts are worth, against the roster |
| `Settlement.dfy` | what the program credits for a receipt, and a wallet's headline while receipts are settled |
| `Claims.dfy` | claiming in chunks and batches against a racing keeper |
| `RoundBoard.dfy` | the live board under out-of-order snapshots |
| `TileOverlay.dfy` | paid tiles shown until lagging reads catch up |
| `WalletRefresh.dfy` | single-flight wallet reads across account switches |
| `StakePoolCache.dfy` | the generation-guarded stake-pool cache |
| `AccountSubscriptions.dfy` | shared account subscriptions with retry |
| `RewardWindows.dfy` | which indexed rounds provably cover a reward period |
| `RoundHistory.dfy` | direct rows laid over a paged index |
| `Units.dfy` | SOL amounts as text |

How the outside world appears: RPC answers, keeper actions, timers, storage failures, clocks and wallet
changes are events or nondeterministic choices, so a statement about a run covers every schedule of them.
Callbacks the browser cannot separate (a promise body and its `finally`) are separate steps with only the
orders the microtask queue allows. Lamports and ids are unbounded non-negative integers, as BigInt is; the
program's 64-bit arithmetic is checked operation by operation. A wallet address is its rank in the collation
order that sorts the roster. Window lengths in minutes, floating point in the client, are exact reals.

Where the code does not give what one might expect, the code is modelled as it is, with a witness and the
exact condition:

- The roster pays the Motherlode SOL leg whether or not the round is flagged as a hit, while the won flag
  and the open-receipt estimate ask for the flag, and the index leaves the leg out and still calls its
  amounts known unless the round is a hit. Exactly when a paid wallet is flagged:
  `RoundWinners.PaidWalletsWon` and `EveryPaidWalletWon`, with the witness `PaidWithoutWinning`; exactly
  when estimate and roster agree: `ReceiptAccrual.SolEstimateMatchesRoster`, with the witness
  `EstimateMissesPayout`; exactly when index and roster agree: `IndexedRoster.IndexMatchesReceipts` and
  `IndexSolIff`, with the witness `IndexMissesPayout`. The program itself fills the Motherlode pools only on
  a hit (Protocol/programs/myne_protocol/src/lib.rs:3805-3817), where roster, flag and estimate agree and
  the index calls its amounts unknown.
- The comment at Frontend/src/main.js:4325-4328 has pending MYNE estimates turn into withdrawable MYNE. The
  program burns the Motherlode emission, and the base emission of receipts in burn mode: the MYNE headline
  falls by exactly that (`ReceiptSettlement.HeadlineConstant`, witness `BurnLowersHeadline`). Which receipts
  leave it alone, for one settlement, one run and all runs: `HeadlineStep`, `HeadlineKeptIff` and
  `HeadlineMyneFixedIff`.
- A read without a slot can bring back an older version of the board when every counter is equal
  (`RoundBoard.RegressesIff`, witness `SlotlessReadCanRegress`), and a closed account read before the first
  version blocks older versions for the rest of the run; exactly when the board still ends with the most
  advanced counters: `RoundBoard.BoardShowsNewestIff`, witnesses `ClosedReadHidesVersion` and
  `ClosedReadHidesLaterVersion`.
- Two kinds of unsubscription break the sharing of subscriptions, and no other step does
  (`AccountSubscriptions.RegisteredIff`, `ServedIff` and, over runs, `SharingIff`): a handle called again
  after its address has passed to a new entry (witness `ReusedHandleSplitsAddress`), and a handle whose
  listener was registered twice (witness `TwinListenerLosesService`).
- The shifted history paging is right exactly when all direct rows rank on the first page
  (`RoundHistory.PagingCorrectIff` and `LoadAllPages`, witness `SmallPageLosesRow`), which the five-round
  window guarantees for pages of five or more.

## Model

| member | source | states |
|---|---|---|
| `RoundRewards.IntervalsTelescope` | Frontend/src/chain/round-rewards.js:20-27 | A chain of end-to-end intervals is paid exactly the floor of the pool at its joint end: the floors telescope and no dust appears between receipts |
| `RoundRewards.IntervalsExhaustPool` | Frontend/src/chain/round-rewards.js:20-27 | A chain that fills the denominator receives the whole pool exactly, and nothing when the denominator is zero |
| `RoundRewards.MinerWithinReceiptCount` | Frontend/src/chain/round-rewards.js:5-27 | For k winning receipts, interval pay minus the pro-rata figure is above -k and at most k lamports, and both are zero when k is zero |
| `RoundRewards.ProRataDustBound` | Frontend/src/chain/round-rewards.js:5-10 | Rounding every receipt down separately never overdraws the pool and strands fewer lamports than there are receipts |
| `ReceiptLedger.StartsSumToRoundTotal` | Frontend/src/chain/lottery.js:685-690 | The 25 tile starts of a receipt add up to the round's total deployment before it (sums over tiles and receipts exchanged) |
| `ReceiptLedger.SampleCoveredOnce` | Frontend/src/chain/lottery.js:664-673 | Two receipts of one ledger never cover the same solo sample |
| `MinerRoster.AggregateMiners` | Frontend/src/chain/miner-aggregation.js:11-42 | The loop over the receipts yields one entry per wallet with unrefunded receipts, each tally the sum over exactly its receipts, strictly ordered by deployment then address |
| `MinerRoster.SortMiners` | Frontend/src/chain/miner-aggregation.js:39-41 | Same entries, strictly ordered by the comparator |
| `MinerRoster.RosterOrderIndependent` | Frontend/src/chain/miner-aggregation.js:11-42 | Two rosters over the same receipts, scanned in any two orders, are the same list |
| `MinerRoster.RosterSays` | Frontend/src/chain/miner-aggregation.js:11-42 | Read off the receipts: exactly the wallets with an unrefunded receipt, each with the sums over its own, its claim and burn flags and its number of tiles played on a board of 25, by falling deployment and then by address |
| `RoundWinners.ReadRoundWinners` | Frontend/src/chain/lottery.js:653-734 | An unsettled round returns the bare roster; a settled one returns the roster with each wallet's awards and the sublist of winners |
| `RoundWinners.AwardSays` | Frontend/src/chain/lottery.js:674-727 | Read off the receipts: stake, tile total, prize, the winning-tile, won and solo flags and the Motherlode share flag of every award |
| `RoundWinners.WinsInOrder` | Frontend/src/chain/lottery.js:729-731 | The winners come in roster order |
| `RoundWinners.SolConserved` | Frontend/src/chain/lottery.js:674-725 | Over any scan order, the roster's SOL sums to exactly the prize pot (if the winning tile is not empty) plus exactly the Motherlode payout (if anything was deployed) |
| `RoundWinners.MyneConserved` | Frontend/src/chain/lottery.js:664-707 | The roster's MYNE sums to exactly the base emission in split mode, and in solo mode precisely when the sample lies below the tile total, plus exactly the Motherlode emission on a hit |
| `RoundWinners.ExactlyOneCovers` | Frontend/src/chain/lottery.js:666-673 | A sample lies below the tile total if and only if exactly one receipt covers it |
| `RoundWinners.PaidWalletsWon` | Frontend/src/chain/lottery.js:674-731 | Receiving SOL or MYNE implies the won flag if and only if the round is a hit, the wallet is on the winning tile, or its Motherlode SOL leg, which the code pays without asking for a hit, is zero; the winners list is exactly the flagged wallets |
| `RoundWinners.EveryPaidWalletWon` | Frontend/src/chain/lottery.js:674-731 | Over the whole roster, nobody is paid without the flag if and only if the round is a hit or every receipt that draws on the Motherlode payout belongs to a wallet with a receipt on the winning tile |
| `RoundWinners.PaidMeansWon` | Frontend/src/chain/lottery.js:725-731 | A hit, a payout of zero, no deployments, or every wallet on the winning tile: each is enough for every paid wallet to be flagged and listed |
| `RoundWinners.PaidWithoutWinning` | Frontend/src/chain/lottery.js:685-725 | Witness: with any deployment off the winning tile and any payout in a round that is no hit, the wallet is paid the payout and not flagged |
| `RoundWinners.ShownWithinReceiptCount` | Frontend/src/main.js:6183-6183 | The pro-rata SOL shown beside a roster entry is within one lamport per winning receipt of the interval pay, and both are zero without one |
| `RoundWinners.PerReceiptDust` | Frontend/src/chain/round-rewards.js:5-10 | Over a settled ledger, per-receipt pro-rata rewards never exceed the pot and fall short by fewer lamports than receipts |
| `IndexedRoster.FoldRows` | Frontend/src/chain/rounds-index.js:863-882 | The pass over the bet rows rebuilds each receipt: per-square amounts summed, last start kept, total, highest reward mode, first-seen order, off-grid squares skipped |
| `IndexedRoster.ReceiptSays` | Frontend/src/chain/rounds-index.js:863-882 | A rebuilt receipt's amounts and total are the sums over its rows on the 25 squares |
| `IndexedRoster.StartSays` | Frontend/src/chain/rounds-index.js:878-878 | The last row for a square decides its start |
| `IndexedRoster.ModeSays` | Frontend/src/chain/rounds-index.js:880-880 | The reward mode is the highest among the receipt's rows |
| `IndexedRoster.BettorSays` | Frontend/src/chain/rounds-index.js:868-874 | The wallet is the one named by the receipt's first row |
| `IndexedRoster.IndexedMinerRoster` | Frontend/src/chain/rounds-index.js:884-958 | The indexed roster groups the rebuilt receipts by wallet, pays the winning-tile leg, and marks amounts unknown after a Motherlode |
| `IndexedRoster.Rebuilt` | Frontend/src/chain/rounds-index.js:864-882 | From complete rows in any order every receipt is recovered, up to starts under a zero amount, which no reward looks at |
| `IndexedRoster.IndexMatchesReceipts` | Frontend/src/chain/rounds-index.js:863-958 | For every settled round that is no hit the index yields the direct roster: wallets, tile bets, deployments, stakes, tile SOL, MYNE, flags and order, with the claim flag fixed to false and the Motherlode SOL leg missing; the two agree in full if and only if the round carries no Motherlode payout or has no deployments |
| `IndexedRoster.IndexParticipantsExact` | Frontend/src/chain/rounds-index.js:855-958 | In every settled round, Motherlode included, each indexed award is the direct one without the Motherlode amounts, with the same flags and order, and called known exactly when there was no hit |
| `IndexedRoster.IndexSolIff` | Frontend/src/chain/rounds-index.js:930-942 | In every settled round, hit or not, all indexed SOL amounts equal the direct ones if and only if the round carries no Motherlode payout or has no deployments |
| `IndexedRoster.IndexMissesPayout` | Frontend/src/chain/rounds-index.js:930-942 | Witness: in a round that is no hit but carries a payout, the index calls the amounts known and shows no SOL while the receipts pay the payout |
| `ReceiptAccrual.SolEstimateMatchesRoster` | Frontend/src/chain/lottery.js:813-833 | All wallets' open-receipt SOL estimates equal their roster SOL if and only if the round hit the Motherlode, carries no Motherlode payout, or has no deployments |
| `ReceiptAccrual.EstimateMissesPayout` | Frontend/src/chain/lottery.js:813-833 | Witness: in such a round the roster pays the payout and the open-receipt estimate is zero |
| `ReceiptAccrual.MyneEstimateMatchesRoster` | Frontend/src/chain/lottery.js:777-810 | A wallet's open-receipt MYNE estimate equals its roster MYNE in solo and split mode |
| `ReceiptAccrual.SolAdditive` | Frontend/src/chain/lottery.js:813-833 | The SOL estimate of two receipt lists together is the sum of their estimates |
| `ReceiptAccrual.MyneAdditive` | Frontend/src/chain/lottery.js:777-810 | Over disjoint receipts of one ledger the MYNE estimate adds up: the solo emission is never counted on both sides |
| `ReceiptSettlement.CreditIsEstimate` | Protocol/programs/myne_protocol/src/lib.rs:2578-2637 | What the program's checked arithmetic credits for a receipt is the client's SOL and MYNE estimate of that receipt, plus, in a round that is no hit, its shares of the Motherlode pools |
| `ReceiptSettlement.SettlementDefinedIff` | Protocol/programs/myne_protocol/src/lib.rs:2555-2637 | Over a settled ledger with 64-bit fields the program's computation succeeds if and only if the two SOL legs together fit 64 bits |
| `ReceiptSettlement.ProgramPaysPools` | Protocol/programs/myne_protocol/src/lib.rs:2578-2637 | Whenever the computation succeeds for every receipt, settling them all moves out exactly the prize pot and the Motherlode payout: no overdraft, no dust |
| `ReceiptSettlement.PoolsFit` | Protocol/programs/myne_protocol/src/lib.rs:2578-2637 | It does succeed for every receipt when the two SOL pools together fit 64 bits |
| `ReceiptSettlement.CreditSplit` | Protocol/programs/myne_protocol/src/lib.rs:1776-1846 | What settling a receipt credits: SOL as estimated plus the uncounted Motherlode leg; in mode 0 the base emission as withdrawable MYNE and in mode 1 none; the rest burned |
| `ReceiptSettlement.CreditDefinedIff` | Protocol/programs/myne_protocol/src/lib.rs:1776-1846 | A receipt of a settled ledger is settled if and only if it is unprocessed, its reward mode is known, and its SOL and its fivefold burn weight fit 64 bits |
| `ReceiptSettlement.HeadlineConstant` | Frontend/src/main.js:4335-4347 | Along every run of settlements over any number of rounds, in any order and with lost races and failed instructions, the SOL headline rises by exactly the Motherlode shares of the receipts settled in rounds that are no hit, the MYNE headline falls by exactly the burned part of the settled receipts' estimates, and the burned total is accounted for; with Motherlode pools only on hits, SOL is constant and MYNE plus burned is constant |
| `ReceiptSettlement.HeadlineStep` | Frontend/src/main.js:4335-4347 | One settlement leaves the SOL headline unchanged if and only if the round is a hit or the receipt has no Motherlode share, and the MYNE headline if and only if no base emission is burned in burn mode and no Motherlode emission on a hit |
| `ReceiptSettlement.HeadlineKeptIff` | Frontend/src/main.js:4335-4347 | Over a run the SOL headline never falls and the MYNE headline never rises, and each is unchanged if and only if every receipt the run settles meets that condition |
| `ReceiptSettlement.HeadlineSolFixedIff` | Frontend/src/main.js:4335-4347 | No run can move the SOL headline if and only if every open receipt the program would settle meets the condition beforehand |
| `ReceiptSettlement.HeadlineMyneFixedIff` | Frontend/src/main.js:4335-4347 | No run can move the MYNE headline if and only if every open receipt the program would settle meets the condition beforehand |
| `ReceiptSettlement.FullyProcessedPaysAward` | Protocol/programs/myne_protocol/src/lib.rs:1776-1846 | When all of a wallet's receipts of a round are settled, the SOL credited is exactly its roster SOL, hit or not, and the MYNE credited and burned is its roster MYNE plus, in a round that is no hit, its share of the Motherlode emission |
| `ReceiptSettlement.EverythingSettles` | Protocol/programs/myne_protocol/src/lib.rs:1776-1846 | Nothing gets stuck: from any wallet over any number of settled rounds whose open receipts are all of the kind the program settles, some run settles all of them |
| `ReceiptSettlement.BurnLowersHeadline` | Protocol/programs/myne_protocol/src/lib.rs:1801-1831 | Witness: settling a receipt in burn mode takes its MYNE off the page's headline and into burn stake |
| `ClaimProtocol.ExecuteClaimChunks` | Frontend/src/chain/lottery.js:460-535 | Against a ledger a keeper may shrink at any step: the sends cut the receipts from the front chunk by chunk, all but a failed last one confirmed; without a failure everything was sent and the outcome is complete with the last signature; with one, a rescan decides what is reported. Processed and remaining split the deduplicated request, no processed round has an open receipt, and unverified leaves something remaining |
| `ClaimProtocol.AfterFailure` | Frontend/src/chain/lottery.js:486-523 | After a failed chunk the same promises hold whether the rescan answers or not |
| `ClaimProtocol.Reconciled` | Frontend/src/chain/lottery.js:487-502 | With a rescan, a round remains only if it still had an open receipt, and complete, partial and failed are told apart |
| `ClaimProtocol.Unreconciled` | Frontend/src/chain/lottery.js:503-522 | Without a rescan, exactly the rounds with a receipt beyond the confirmed prefix are reported remaining |
| `ClaimProtocol.UniqueMembers` | Frontend/src/chain/lottery.js:447-449 | Deduplication keeps every id once and no other |
| `ClaimProtocol.UniqueKeepsOrder` | Frontend/src/chain/lottery.js:447-449 | Deduplication keeps the order of first appearance |
| `ClaimProtocol.SendChunks` | Frontend/src/chain/lottery.js:477-486 | Receipts go out from the front in chunks of the given size until one fails; what was confirmed is closed, tallied and counted |
| `ClaimProtocol.ClaimManyRounds` | Frontend/src/chain/lottery.js:552-592 | One scan, then the instructions, then transactions of four receipts; an error exactly when the scan or the instructions fail, no unclaimed receipts exactly when the scan is empty, and then every requested round is closed; a sent outcome is honest |
| `ClaimProtocol.RunBatch` | Frontend/src/chain/mine-page.js:939-994 | One claim per batch, counted as its outcome says: only closed rounds, all of them exactly when it was not interrupted, and after a reconciled interruption each round left over had an open receipt |
| `ClaimProtocol.ClaimBatched` | Frontend/src/chain/mine-page.js:932-1006 | Batches of fifteen cut the deduplicated request from the front, each claimed once, up to the first interruption; processed plus remaining equals the request, no counted round has an open receipt, complete holds exactly when no batch was interrupted, and the report repeats the interrupted batch's reconciliation and confirmed receipts |
| `RoundBoard.Board.ApplyRoundSnapshot` | Frontend/src/chain/mine-page.js:105-125 | The guard chain accepts exactly the snapshots of this round that are not slot-older and advance every counter; the whole new board state; the board mirrors its snapshot and results move forward |
| `RoundBoard.Board.PublishResolvedRound` | Frontend/src/chain/mine-page.js:597-613 | A settled round not ahead of the clock replaces the latest and latest-played pointers unless they are newer; neither pointer ever moves back |
| `RoundBoard.Board.RollOver` | Frontend/src/chain/mine-page.js:469-481 | A new round clears the board and keeps the published results |
| `RoundBoard.BoardNeverFalls` | Frontend/src/chain/mine-page.js:96-125 | Field by field, over any run within one round: settled never becomes open, opened never absent, and no total, count or tile falls |
| `RoundBoard.HigherSnapshotTaken` | Frontend/src/chain/mine-page.js:105-125 | Conversely, a snapshot of this round no lower in any of these fields and not from an older known slot is on the board at once, with every figure |
| `RoundBoard.StaleSnapshotIgnored` | Frontend/src/chain/mine-page.js:105-110 | A snapshot of another round or from an older known slot changes nothing |
| `RoundBoard.RolloverIsBlank` | Frontend/src/chain/mine-page.js:469-481 | A rollover leaves a blank board of 25 tiles and the published results as they were |
| `RoundBoard.BoardShowsNewestIff` | Frontend/src/chain/mine-page.js:96-125 | For reads of a monotone history in any order and multiplicity, with or without slots, mixed with reads of the absent account at any point, the board ends with the counters of the most advanced version delivered if and only if a version with those counters is not blocked by a closed-account read taken in before the first version |
| `RoundBoard.BoardIsNewestThrough` | Frontend/src/chain/mine-page.js:105-125 | When every read of a version carries its slot the board is exactly the newest version not so blocked, or without a version if all are |
| `RoundBoard.BoardKeepsNewestCounters` | Frontend/src/chain/mine-page.js:96-125 | In particular, with no closed-account read before the first version, the board ends on a delivered version with the counters of the most advanced one |
| `RoundBoard.BoardIsNewestVersion` | Frontend/src/chain/mine-page.js:105-125 | If moreover every read of a version carries its slot, the board is exactly the most advanced version delivered |
| `RoundBoard.AbsentRejected` | Frontend/src/chain/mine-page.js:109-117 | A read of the closed account never replaces a version on the board |
| `RoundBoard.RegressesIff` | Frontend/src/chain/mine-page.js:109-117 | An older version replaces a newer one exactly when all counters are equal and the slots do not order the two reads |
| `RoundBoard.SlotlessReadCanRegress` | Frontend/src/chain/mine-page.js:108-117 | A concrete history where a slotless repeat of an older version does win |
| `RoundBoard.ClosedReadFirst` | Frontend/src/chain/mine-page.js:107-110 | The read right after a first closed-account read is accepted exactly when one of the two slots is unknown or it is not older |
| `RoundBoard.ClosedReadHidesVersion` | Frontend/src/chain/mine-page.js:107-110 | Witness: a version read at an older slot never appears after a first read of the closed account |
| `RoundBoard.ClosedReadHidesLaterVersion` | Frontend/src/chain/mine-page.js:107-110 | Witness: after a closed read a slotless older version is taken and a more advanced one read at an older slot is not |
| `RoundBoard.ResultsMoveForward` | Frontend/src/chain/mine-page.js:597-613 | Over every sequence of deliveries, results and rollovers the latest and latest-played results only move forward |
| `RoundBoard.PublishedIsNewest` | Frontend/src/chain/mine-page.js:597-613 | Whatever results arrive in whatever order, the latest result is that of the newest settled round among them, the latest played one that of the newest with deployments, with the contents read last |
| `RoundBoard.DeliveryPublishes` | Frontend/src/chain/mine-page.js:123-123 | A settled snapshot taken on the board is published at once |
| `RoundBoard.BoardMirrorsSnapshot` | Frontend/src/chain/mine-page.js:118-123 | The displayed totals are always those of the accepted snapshot, and an accepted settled round has been published |
| `AccountSubscriptions.Registry.SubscribeAccountActivity` | Frontend/src/chain/protocol-realtime.js:45-58 | Joins or creates the address's entry, adds the listener, starts the subscription if needed and returns a handle |
| `AccountSubscriptions.Registry.CallHandle` | Frontend/src/chain/protocol-realtime.js:59-69 | Removes the listener; with the last one, unregisters the entry, clears its timer and gives up its subscription |
| `AccountSubscriptions.Registry.OnStarted` | Frontend/src/chain/protocol-realtime.js:18-32 | A start that finds listeners records its id, one that finds none removes the registration again |
| `AccountSubscriptions.Registry.OnStartFailed` | Frontend/src/chain/protocol-realtime.js:5-38 | A failed start schedules one retry with doubled, capped delay while anyone listens |
| `AccountSubscriptions.SubscriberJoins` | Frontend/src/chain/protocol-realtime.js:45-58 | Subscribing registers the address's entry and puts the listener on it; a new entry starts at once, and no other entry is touched |
| `AccountSubscriptions.AnswerServes` | Frontend/src/chain/protocol-realtime.js:18-31 | An answered start gives the listeners its subscription and resets the patience to one second |
| `AccountSubscriptions.OthersStay` | Frontend/src/chain/protocol-realtime.js:59-61 | Taking one of several listeners away changes nothing else |
| `AccountSubscriptions.LastOneLeaves` | Frontend/src/chain/protocol-realtime.js:59-69 | With the last listener the entry gives up its subscription, its timer and its address |
| `AccountSubscriptions.FailuresAreRetried` | Frontend/src/chain/protocol-realtime.js:5-38 | While anyone listens every failed start is tried again, after 1000, 2000, 4000, 8000 and then 15000 milliseconds |
| `AccountSubscriptions.EveryRunKeepsInv` | Frontend/src/chain/protocol-realtime.js:5-70 | The entry invariant holds in every interleaving, even with handles called twice or listeners registered twice |
| `AccountSubscriptions.EntryNeverLeaksNorStarves` | Frontend/src/chain/protocol-realtime.js:5-70 | An entry never owns two RPC subscriptions; with listeners it has a subscription, a start in flight or a timer; without listeners it keeps neither subscription nor timer |
| `AccountSubscriptions.AbandonedForever` | Frontend/src/chain/protocol-realtime.js:18-42 | In every continuation, an entry nobody listens to is never listened to or restarted again; every answer it waits for brings it closer to idle, at most three are due, and once idle it owns nothing |
| `AccountSubscriptions.OneSubscriptionPerAddress` | Frontend/src/chain/protocol-realtime.js:44-58 | If each handle is called once and no address gets the same listener twice, an address never holds two subscriptions |
| `AccountSubscriptions.RegisteredIff` | Frontend/src/chain/protocol-realtime.js:44-70 | A step takes the registration from an entry with listeners if and only if it calls a handle whose entry keeps no listener while the address has passed to another entry |
| `AccountSubscriptions.ServedIff` | Frontend/src/chain/protocol-realtime.js:44-70 | A step leaves an uncalled handle without its listener if and only if it calls another handle of the same listener and entry |
| `AccountSubscriptions.SharingIff` | Frontend/src/chain/protocol-realtime.js:5-70 | A run keeps every listening entry registered and every uncalled handle served throughout if and only if none of its calls is of those two kinds |
| `AccountSubscriptions.RegisteredMeansOne` | Frontend/src/chain/protocol-realtime.js:44-58 | While every listening entry is registered, an address never holds two subscriptions |
| `AccountSubscriptions.ReusedHandleSplitsAddress` | Frontend/src/chain/protocol-realtime.js:59-62 | A handle called twice unregisters the next subscriber's entry, and the address ends with two subscriptions |
| `AccountSubscriptions.TwinListenerLosesService` | Frontend/src/chain/protocol-realtime.js:45-69 | Witness: one listener registered twice, then one handle called: the other handle is live while its entry is unregistered and has no listener |
| `StakePoolCache.Cache.ReadStakePool` | Frontend/src/chain/staking.js:45-66 | Returns the fresh cached read, else the request in flight, else starts one under the current generation; whatever it returns began no earlier than the last invalidation |
| `StakePoolCache.Cache.InvalidateStakePoolCache` | Frontend/src/chain/staking.js:33-41 | Advances the generation and drops the cache and the registered request |
| `StakePoolCache.Cache.OnFetched` | Frontend/src/chain/staking.js:51-60 | A read publishes to the cache only under the generation it captured |
| `StakePoolCache.CacheIsCurrent` | Frontend/src/chain/staking.js:45-66 | In every interleaving the cache holds only a value whose read began in the current generation, no earlier than the last invalidation |
| `StakePoolCache.ReadFillsCache` | Frontend/src/chain/staking.js:51-60 | A successful read begun no earlier than the last invalidation fills the cache, and for 4000 milliseconds every unforced call gets it |
| `StakePoolCache.CacheUntil` | Frontend/src/chain/staking.js:33-66 | The cached value stays until it is invalidated or another read succeeds |
| `StakePoolCache.StaleReadIgnored` | Frontend/src/chain/staking.js:53-56 | A read overtaken by an invalidation changes neither cache nor request |
| `StakePoolCache.CallJoinsOrBegins` | Frontend/src/chain/staking.js:45-64 | Without a fresh value a call joins the read in flight and begins none; with neither it begins one |
| `StakePoolCache.ForcedCallBegins` | Frontend/src/chain/staking.js:45-64 | A forced call always begins a read of its own under a new generation |
| `StakePoolCache.CallerNeverGetsStaleRead` | Frontend/src/chain/staking.js:33-66 | A caller never receives a read begun before an invalidation or forced read that preceded it |
| `StakePoolCache.FinishedReadExpires` | Frontend/src/chain/staking.js:47-48 | A finished read is handed out only from the cache and only within four seconds |
| `StakePoolCache.SingleFlight` | Frontend/src/chain/staking.js:48-64 | Two reads of the current generation are never in flight together |
| `StakePoolCache.FailureIsRetried` | Frontend/src/chain/staking.js:47-63 | Once a failed read has settled, the next call with no fresh cached value starts a new one |
| `WalletRefresh.MinePage.RefreshMiner` | Frontend/src/chain/mine-page.js:390-440 | Clears without a wallet, marks an in-flight read of the same wallet dirty, else starts a read under a new id |
| `WalletRefresh.MinePage.OnAccountChange` | Frontend/src/chain/mine-page.js:1228-1237 | Switching clears the balances, invalidates reads in flight and asks for a new one |
| `WalletRefresh.MinePage.OnRead` | Frontend/src/chain/mine-page.js:404-422 | A read publishes only for the connected account and the current refresh id |
| `WalletRefresh.MinePage.OnFinally` | Frontend/src/chain/mine-page.js:430-437 | A settled request is released, and a dirty one of the connected account queues another refresh |
| `WalletRefresh.ShownBelongsToAccount` | Frontend/src/chain/mine-page.js:372-440 | In every interleaving of switches and completions, balances on display are cleared or come from a read for the connected account begun since its last switch |
| `WalletRefresh.ReadIsShown` | Frontend/src/chain/mine-page.js:404-422 | A read in progress begun since the last switch, with none begun after it, is for the connected account, and when it succeeds exactly its balances are on display |
| `WalletRefresh.ShownUntil` | Frontend/src/chain/mine-page.js:372-440 | They stay on display until the account is switched or a later read succeeds |
| `WalletRefresh.SingleFlight` | Frontend/src/chain/mine-page.js:396-399 | Since the last switch, two reads are never under way together |
| `WalletRefresh.SwitchStartsRead` | Frontend/src/chain/mine-page.js:1228-1237 | Connecting a wallet clears the display and begins a read for it, unless one is still under way, which is then followed by another |
| `WalletRefresh.RefreshIsNeverLost` | Frontend/src/chain/mine-page.js:396-437 | When nothing is under way any more, a read begun since the last refresh asked for exists, unless the account changed |
| `TileOverlay.Merge` | Frontend/src/chain/confirmed-tile-bets.js:1-7 | Tile by tile the larger of the two amounts, never anything else |
| `TileOverlay.Overlay.RememberConfirmed` | Frontend/src/chain/mine-page.js:163-176 | For the round and wallet on display, submitted tiles are raised to the known total and then by the amount paid, once per occurrence, and the board shows the merge; no bet shown goes down and every submitted tile shows at least the payment more |
| `TileOverlay.Overlay.Reconcile` | Frontend/src/chain/mine-page.js:178-192 | For the round and wallet on display, works on the overlay in memory or restored from storage, clears covered tiles, drops the overlay when none is left, and shows the merge; no bet shown goes down unless the chain read does |
| `TileOverlay.Overlay.Show` | Frontend/src/chain/mine-page.js:469-478 | A rollover or an account change clears the overlay and the board, and a rollover also the stored copy |
| `TileOverlay.ShownBetsNeverDecrease` | Frontend/src/chain/mine-page.js:163-192 | While chain reads do not decrease, the bet shown on every tile never decreases over any sequence of confirmations and reconciliations, with storage working or not |
| `TileOverlay.ConfirmationsAddUp` | Frontend/src/chain/mine-page.js:163-176 | Before any chain read every tile shows exactly what was paid for it, repeated submissions counted each time |
| `TileOverlay.ChainAlone` | Frontend/src/chain/mine-page.js:178-181 | Without an overlay the board shows the chain read and nothing else |
| `TileOverlay.DroppedIffCovered` | Frontend/src/chain/mine-page.js:178-190 | Whether in memory or restored from storage, each overlay entry is cleared exactly where the read covers it and kept unchanged elsewhere, the board shows the larger of the two, the overlay is dropped exactly when everything is covered, and the board then equals that read without losing anything |
| `TileOverlay.ReloadKeepsShownBets` | Frontend/src/chain/mine-page.js:134-153 | With storage working, the first read after a page reload shows at least what was shown before |
| `RewardWindows.Summarise` | Frontend/src/chain/staking-apy.js:167-234 | Complete exactly when the request is admissible and the rows are resolved, consecutive, gap-free, inside the window and reach both of its edges; the reward is then their sum |
| `RewardWindows.SecondsPerMinute` | Frontend/src/chain/staking-apy.js:258-258 | A whole number of seconds fits the window exactly when it is at most sixty times the minutes, to the nearest second |
| `RewardWindows.SummaryIff` | Frontend/src/chain/staking-apy.js:167-225 | The validator accepts exactly reasonable requests over sound rows that follow one another from the beginning of the period to its end |
| `RewardWindows.SelectComplete` | Frontend/src/chain/staking-apy.js:244-280 | Returns the newest end row whose window validates with exactly that window's sum, and nothing only if no end row validates |
| `RewardWindows.CompleteAtIff` | Frontend/src/chain/staking-apy.js:258-276 | In minutes and over any rows: the window ending at a row validates exactly when the rows within the period are sound and consecutive, at most the cadence and five seconds apart, and reach its beginning |
| `RewardWindows.SelectedWindow` | Frontend/src/chain/staking-apy.js:258-276 | With chronological rows the window is exactly the rows settled in the last so many minutes, its ids are consecutive, and row count times cadence plus five exceeds its length |
| `RewardWindows.WindowIsDense` | Frontend/src/chain/staking-apy.js:222-225 | A validated window has more rows times allowed gap than seconds, and consecutive ids |
| `RewardWindows.NewestRun` | Frontend/src/chain/staking-apy.js:309-335 | The fallback loop accepts the newest contiguous run of usable rows and stops only when it must |
| `RewardWindows.RunIff` | Frontend/src/chain/staking-apy.js:309-335 | In minutes and over any rows: the fallback run is exactly the newest contiguous run of sound rows, no longer than the period needs and as long as it can be |
| `RewardWindows.SelectVerified` | Frontend/src/chain/staking-apy.js:289-353 | An exact window wins; otherwise the unique newest run with consecutive ids, its exact sum, bounds and honest length; nothing only if there is no run or it is too short |
| `RewardWindows.RunIsUnique` | Frontend/src/chain/staking-apy.js:315-335 | There is only one run that is contiguous, newest and cannot be extended |
| `RoundHistory.LoadIndexedRounds` | Frontend/src/chain/rounds-index.js:298-352 | One slice of the bounded, filtered, newest-first list, with the list's length |
| `RoundHistory.MergeAuthoritative` | Frontend/src/chain/rounds-page.js:54-104 | Direct rows win by id with the chain's own round facts, are called complete exactly when the index says so and has seen their settlement, stale indexed versions disappear, the result is newest first and at most a page long |
| `RoundHistory.LoadFromIndex` | Frontend/src/chain/rounds-page.js:275-345 | For any page size and any direct rows: just enough pages for all rows, a request beyond either end becomes that end, page zero shows the merge and later pages the shifted index window; whenever all direct rows shown rank on the first page, as the five-round window guarantees for pages of five or more, that is exactly the page's slice of the dataset, and not empty while there are rows |
| `RoundHistory.LoadAllPages` | Frontend/src/chain/rounds-page.js:285-326 | Loading every page in turn lists every row of the dataset exactly once in strictly decreasing id order if and only if all direct rows shown rank on the first page; for the five-round window and pages of five or more the rows listed are those of `HistoryContents` |
| `RoundHistory.HistoryContents` | Frontend/src/chain/rounds-page.js:275-326 | Row by row: newest first and no round twice; on the unfiltered page the active round first with the chain's facts, and on no other page at all; rounds read directly exactly when their own facts pass the filter; every other round exactly when indexed, older than the active one and passing the filter, as indexed |
| `RoundHistory.PagingCorrectIff` | Frontend/src/chain/rounds-page.js:285-326 | For any page size, the shifted paging is right exactly when every direct row shown ranks on the first page |
| `RoundHistory.SmallPageLosesRow` | Frontend/src/chain/rounds-page.js:189-202 | Witness: with one row a page and two rounds read directly, the second is on no page |
| `RoundHistory.FiveNewestFit` | Frontend/src/chain/rounds-page.js:285-287 | Direct rows among the five newest ids always rank on a first page of five rows or more |
| `Units.FormatParseRoundTrip` | Frontend/src/chain/units.js:3-18 | Every non-negative lamport amount formats to text that parses back to it |
| `Units.ParsesBackIff` | Frontend/src/chain/units.js:3-18 | A formatted amount is accepted back if and only if it is not negative |
| `Units.FormatInjective` | Frontend/src/chain/units.js:11-18 | Different amounts, of either sign, never print alike |
| `Units.WholeAmountsPrint` | Frontend/src/chain/units.js:1-18 | A whole number of billions of lamports prints as that number |
| `Units.PointParses` | Frontend/src/chain/units.js:3-9 | Digits, a point and up to nine digits parse to a billion lamports per unit before the point plus the decimals scaled to nine digits; more decimals are refused |
| `Units.WholeNumbersParse` | Frontend/src/chain/units.js:3-9 | A whole number parses to that many billions of lamports |
| `Units.CanonicalText` | Frontend/src/chain/units.js:11-18 | Printed text never ends in a point or in a decimal zero, has at most nine decimals, and a point exactly when the amount is not whole |
| `Units.MalformedIff` | Frontend/src/chain/units.js:3-6 | Text is refused as malformed exactly when, blanks trimmed, it is not digits with at most one point |
| `Units.SpacesIgnored` | Frontend/src/chain/units.js:4-4 | Blanks around the text do not matter |

## Left out

- The rest of the Solana program (only the reward computation and the credits of receipt settlement are modelled), keepers, SQL views and Edge Functions.
- ReceiptSettlement.CreditOf: credits the amount handed to the mining pool, not its later valuation in pool shares (Protocol/programs/myne_protocol/src/lib.rs:4280-4306), whose rounding depends on the other miners; overflow of running totals (lifetime counters, the pools' and the position's accumulated stake and weight) is not modelled either.
- The randomness proof: winning tile, mode and solo sample are given fields of a round.
- Transaction building, simulation, wallet adapters and the RPC and Supabase transports: they appear as events that deliver a value or fail.
- The receipt-scan cache itself: a possibly stale scan is modelled by its effect, a list that is never short of an open receipt.
- APY percentages, USD quotes and price decoding: floating-point display arithmetic.
- The protocol-config cache: it has no generation guard, so nothing is claimed about it.
- An upper bound on the confirmed-tile overlay: a receipt read may land between confirmation and the local record, so only the lower bound is stated.
- Motherlode amounts from the index: the index reports them as unknown; only participants, flags and the winning-tile leg are compared.
- RoundHistory.LoadFromIndex: does not model an index that changes between the queries of one page load, because the code gives no guarantee there.
- RoundHistory.Combine: the display-only lifecycle record inside a row is not modelled, because no filter, order or count looks at it.
- The round-history summary counters, wallet decoration and the direct-scan fallback: they would only add easy members.
- Units.ParseSol: trimming knows blanks, tabs and line breaks, because other Unicode spaces do not affect any stated property.
- Rendering, routing, chat, referrals, swaps and staking transactions: user interface and straight-line calls.

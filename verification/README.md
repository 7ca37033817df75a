# Bicycle, a TON payment processor: model and proofs

Bicycle watches the TON blockchain for payments to deposit addresses, collects what arrives there on one hot wallet,
and pays withdrawals from the hot wallet in batches. Four threads and an HTTP API share a database: the block scanner,
the batch builder, the processor of TON deposits, and the expiry processor. Each of them may crash at any point. This
project models the shared tables, the threads and the chain, and proves what holds on every interleaving and every run.

`dafny verify dfyconfig.toml` checks everything.

## How the model is built

| Component | Modules |
|---|---|
| Withdrawal ledger: requests, rows of batches, their transactions | `Payouts`, `PayoutInvariants`, `PayoutRequests`, `PayoutRows` |
| Payouts over whole runs: ledger, threads, clocks, address book, chain | `PayoutProtocol`, `PayoutGap`, `PayeeJoins` |
| Batch builder, and the scanner that reads a batch back | `Messages`, `Batch`, `BatchProperties`, `BatchTransfers`, `BatchChoices`, `HotWalletScan`, `BatchScan`, `BatchSelection` |
| Collecting deposits ("sweeps"): table, task queries, runs | `Sweeps`, `SweepRows`, `DepositScan`, `SweepProtocol`, `SweepRefusals` |
| Incomes of jetton deposits from balance differences | `JettonIncome` |
| Shard prefixes, shard tracker, tracker to tables to notifications | `Shards`, `ShardTracker`, `ScanPipeline`, `ScanEffects` |
| One block applied to the tables; order of accounts; the database object | `Lists`, `KeyedFold`, `BlockOrder`, `Store` |
| Wallet tables, address book, new deposit addresses | `AddressBook` |
| Cold wallet, service withdrawals | `ColdWallet`, `ServiceRequests` |
| UTF-8 clean-up of comments | `Utf8` |

Transactions are functions from tables to tables, and `Store.Connection`, `Batch.Builder`, `ShardTracker.Tracker` and
`AddressBook.Handler` are the source's objects: their methods change fields step by step, with the source's loops, and
are proved to do what the functions say. Protocols are state machines whose steps are single database transactions;
selecting tasks and saving what was made of them are separate steps, and a crash may come between any two.

## Assumptions about the environment

- A database transaction is one atomic step. PostgreSQL's default isolation is weaker.
- The filtered shard chain is linear: `(shard, seqno)` identifies a block, numbers rise from parent to child, and block
  times never decrease. The node may answer with any block of it, old ones included.
- The hot wallet runs a message at most once, not after its TTL, and sends a part of it. The message of a TON
  sweep may run several times (technical_notes.md says so), also after it emptied the account.
- Hashes do not collide: addresses are an injective function of what they are derived from, and uuids are new.
- Memos and message ids seen on chain are ones the service issued, each on one account.
- A sweep ends on its deposit in the block of its sending or later, at a logical time above the income it started from,
  and a failed end is the last thing that happens to it.
- Wallets are only ever added to the address book. Whether an address may be added while a payment to it is under way is
  a parameter, `payeesJoin`; nothing in the code prevents it.
- Time is real-valued input. `lag` is the allowed age of the last saved block. `gap` bounds the time between the two
  clock readings of the expiry processor, one for the sync check and one for the update. `margin` is how long before
  the expiry time in the row a message can run for the last time.

## What the proofs say about the code

- The expiry processor reads the clock twice. A request is paid at most once on every run, and no scanned block refused
  by the ledger, **if and only if** `gap <= margin` (`PayoutGap.PaysOnceIffGapCovered`). A row of a batch carries the exact
  TTL, so its margin is 0, and nothing in the code keeps the gap at 0: a pause between the check and the update is enough
  for a request to be paid twice. With one shared reading the gap is 0 and the bound is met. The service clock is compared
  with a block time in the sync check and with a TTL in the update; how far it is off cancels out between the two. For
  TON sweeps the row is written just before the message gets its TTL, so their margin is a little below 0 and the bound
  is not met.
- The ledger tells what the chain did, and gives up only messages that did not and cannot run, **if and only if** besides
  no address becomes a wallet of the service while a payment to it is under way (`PayeeJoins.SafeIffCoveredAndApart`): no
  live row and no checked task of the builder pays it. Otherwise the scanner may say nothing of the payment, expiry takes
  it for lost, and the request is shown as pending although it was paid. While the bound holds it is not paid twice.
- The same bound decides whether a scanned block is ever refused because of a sweep (`SweepRefusals`). A block is never
  refused for its order of events, whatever the clocks say.
- `GetExternalWithdrawalStatus` never reaches "bad status", and a final answer stays final on runs where the bound holds.
  Only a later report that contradicts an accepted one could change it.
- Jetton incomes add up except in blocks that cannot be explained: burnt jettons are not recorded, and transfers
  between the service's own wallets are recorded as income of unknown origin although the code means to skip them.
- Until the first block is saved, a restart starts from wherever the chain then is; from then on no block is skipped.
- A jetton request to the cold wallet is for a positive amount, whatever the balance, unless the residual is above the
  maximum and not negative. With the default residual and whole amounts that leaves the maximum -1, where an empty wallet
  asks for 0. A TON request is for a positive amount unless the residual is above the maximum and at least minus the
  fees of the pass.
- A batch reads back right with a later address book, whatever part of it was sent, if and only if no payee is in that
  book and no service message calls a jetton wallet that became a deposit since. Of a payee that is in the book, only
  jetton payments that were sent are reported; a TON payment to what became an owner contract stops the scanner.

## Model

| member | source | states |
|---|---|---|
| PayoutInvariants.SaveRequestKeeps | db/db.go:403-433 | A new request keeps: every row belongs to a request and its destination, at most one row of a request is live or settled, a processed request is claimed, a claimed one has such a row. |
| PayoutInvariants.ClaimKeeps | db/db.go:943-964 | Inserting the row and setting `processing` for an unclaimed request keeps that invariant. |
| PayoutInvariants.CreateBatchAdds | db/db.go:931-967 | A saved batch claims exactly its requests, adds one fresh row per task under (message, destination), and changes no other row or request. |
| PayoutInvariants.CreateBatchKeeps | db/db.go:931-967 | Saving any batch of unclaimed, different requests keeps the invariant. |
| PayoutInvariants.UpdateKeeps | db/db.go:841-905 | Any report that the code accepts, success or failure, keeps the invariant. |
| PayoutInvariants.ApplyReportsKeeps | db/db.go:711-716 | So does any list of reports of a block. |
| PayoutInvariants.SetExpiredKeeps | db/db.go:1020-1066 | Giving up overdue rows and releasing their requests keeps it, for every cutoff. |
| PayoutInvariants.ConfirmKeeps | db/db.go:827-839 | So does a jetton confirmation. |
| PayoutInvariants.NextKeeps | core/withdrawal_processor.go:75-128 | Every step of every thread keeps it, and keeps what the builder selected unclaimed until it saves the batch. |
| PayoutInvariants.EveryRunKeeps | db/db.go:493-524 | On every run a request has at most one live row, an unclaimed request only given-up rows without hash, and a processed request is claimed with exactly one row carrying a hash: so `processing = false` keeps paid requests out of later batches. |
| PayoutInvariants.InvMeans | db/db.go:1142-1148 | "Must be only one record": at most one row of a request carries a hash. |
| PayoutInvariants.StatusIsTotal | db/db.go:1117-1167 | The status query always has an answer for an external request, "bad status" is unreachable, and each answer holds exactly when the row says so. |
| PayoutInvariants.ReportOnFinal | db/db.go:841-905 | A report accepted on a final request leaves it final, and turns Processed into Failed exactly when it contradicts the report that settled it. |
| PayoutInvariants.OthersKeepFinal | db/db.go:1010-1067 | No other transaction changes a final answer. |
| PayoutRequests.RefusedIffAsked | deploy/db/01_init.up.sql:77-93 | A request is refused iff its user asked for the same id and kind before; otherwise it is stored as it came, unclaimed, under a new id, and nothing else changes. |
| PayoutRequests.EveryRunKeepsWishes | deploy/db/01_init.up.sql:77-93 | On every run no two requests agree in user, user's id and kind, and the user, currency, amount and destination of a request never change. |
| PayoutRequests.TasksStateRequests | db/db.go:493-524 | Every selected task is of an unclaimed request and carries its currency, amount and destination; it is the oldest to that destination, and none is selected twice. |
| PayoutRequests.PendingStatesRequests | core/withdrawal_processor.go:75-128 | It still does when its batch is saved, on every run. |
| PayoutRequests.NotFoundIff | db/db.go:1117-1134 | The status query fails exactly for an id that is unknown or internal, with "not found". |
| PayoutRows.ReportsTell | db/db.go:841-905 | For every list of reports: it is accepted iff each is about a row that did not fail before; then the hash and failure of a row are those of the last report on it, its times those of the last one that was sent, and no other column changes. |
| PayoutRows.RefusedBecause | db/db.go:841-905 | Which of the three errors a single report gives. |
| PayoutRows.ExpiryFails | db/db.go:1020-1066 | Expiry fails exactly the rows that expired before the cutoff, were not reported as sent and had not failed, and releases exactly their requests. |
| PayoutProtocol.ExpiryWindow | core/withdrawal_processor.go:456-462 | Why expiry is safe: a row overdue for the cutoff has its last possible block among the saved ones, with the gap as drift. |
| PayoutProtocol.ExpireKeeps | db/db.go:1010-1067 | Expiry gives up only rows whose message cannot run any more, or whose payee the scanner kept silent about. |
| PayoutProtocol.ScanKeeps | core/block_scanner.go:112-132 | Scanning the next block keeps rows and chain in step: every row of an executed message is settled as the chain decided, except that the scanner may keep silent about a payee in the address book. |
| PayoutProtocol.BuildKeepsPending | core/withdrawal_processor.go:201-211 | Dropping the tasks to addresses in the book leaves none of a request that was paid and then given up. |
| PayoutProtocol.CoveredGapPaysOnce | db/db.go:1010-1085 | When the margin covers the gap, on every run each request is paid on chain at most once and the ledger refuses no scanned block, also when payees become wallets of the service. |
| PayoutProtocol.CoveredGapIsSafe | db/db.go:1010-1085 | When besides no payee joins the service, on every run no row given up was or will be executed, and the status is Processed or Failed, with the transaction hash, exactly as a scanned transaction paid the request or left it out. |
| PayoutProtocol.FinalIsForever | db/db.go:1117-1167 | When the margin covers the gap, Processed and Failed, with the hash, never change again. |
| PayoutGap.UncoveredGapPaysTwice | core/withdrawal_processor.go:452-469 | If the margin is below the gap, here is a run that pays a request twice. |
| PayoutGap.PaysOnceIffGapCovered | core/withdrawal_processor.go:452-469 | No run pays a request twice or has a block refused if and only if the margin covers the gap. |
| PayeeJoins.JoiningPayeeIsForgotten | core/block_scanner.go:605-618 | If a payee may join the service, here is a run, for any clocks, that pays a request, saves the block, and then gives the row up and shows the request as pending. |
| PayeeJoins.SafeIffCoveredAndApart | api/handlers.go:559-633 | All runs are safe if and only if the margin covers the gap and no address joins while a payment to it is under way. |
| Batch.Builder.DecreaseBalances | core/withdrawal_processor.go:240-255 | Takes the amount, and for a jetton the fee too, or takes nothing and says so. |
| Batch.Builder.ServiceMessage | core/withdrawal_processor.go:145-166 | One service task: skipped for lack of TON, else its message and address, else its rejection. |
| Batch.Builder.ServiceMessages | core/withdrawal_processor.go:145-168 | The loop over the service tasks, stopped by an invalid one. |
| Batch.Builder.SweepMessages | core/withdrawal_processor.go:173-195 | The loop over the jetton sweeps, stopped when the batch is full. |
| Batch.Builder.PaymentMessages | core/withdrawal_processor.go:197-219 | The loop over the payments, skipping destinations inside the service; BatchChoices says what it takes. |
| Batch.Builder.BuildWithdrawalMessages | core/withdrawal_processor.go:130-220 | The whole build equals the fold over the three task lists, to which the properties below apply. |
| BatchProperties.BuildConserves | core/withdrawal_processor.go:130-255 | Initial TON is final TON plus the value of all messages plus one fee per reserved task without message; each jetton balance falls by exactly its payments; balances that start non-negative stay so. |
| BatchProperties.BuildIsAligned | core/withdrawal_processor.go:130-220 | At most 251 messages, each of exactly one task of one list, in the order of the lists. |
| BatchProperties.BuildIsDistinct | core/withdrawal_processor.go:153-176 | Service addresses, proxies of sweeps and destinations of payments never coincide, within or across the lists. |
| BatchProperties.RecipientsAreDistinct | core/wallets.go:347-475 | No two messages of a batch have the same recipient as the scanner sees it. |
| BatchTransfers.BatchMovesWhatItSpends | core/withdrawal_processor.go:197-255 | Every jetton balance falls by exactly what the messages of the batch ask its hot wallet to transfer; service messages and sweeps ask for nothing of it. |
| BatchTransfers.ServiceMovesAll | core/withdrawal_processor.go:292-442 | A service task can be built iff it is of an owner contract, or of a TON deposit with a jetton master; it gets a message iff its wallet holds something and is not the service's own; the message carries the memo and moves all that the wallet holds, which is what is recorded. |
| BatchTransfers.SweepsMoveAll | core/withdrawal_processor.go:257-290 | Every sweep of a batch is of a balance above the cutoff and sends all of it to the hot wallet under its memo. |
| BatchTransfers.PaymentsPayRequests | core/withdrawal_processor.go:444-450 | From the ledger to the batch: each payment message moves exactly the amount of its request to its destination, as the value of a TON message, or as a transfer sent to the hot jetton wallet of the request's currency. |
| BatchChoices.BatchIsChosenInTurn | core/withdrawal_processor.go:130-220 | Each list is taken in its order, and a task gets in iff, when it comes up, the batch has room, what is left covers its fee and amount, and there is something to move: a service balance, a sweep above the cutoff, a destination outside the service. |
| BatchChoices.PaymentLeftOut | core/withdrawal_processor.go:197-219 | A payment is left out only if its destination is inside the service, more than 250 messages were there, or what was left did not cover it. |
| BatchChoices.GivenUpOnlyForInvalid | core/withdrawal_processor.go:149-152 | A batch is given up only for a service task that cannot be built. |
| HotWalletScan.ParseExternalMessage | core/block_scanner.go:552-603 | Accepts a message exactly when its recipients are distinct, and returns them. |
| HotWalletScan.FailedWithdrawals | core/block_scanner.go:605-618 | One failure for every recipient outside the service that was asked for and not sent, in any order of the map. |
| HotWalletScan.ProcessExternalIn | core/block_scanner.go:649-736 | The events of a hot wallet transaction are those of its outgoing messages and then the failures; an error exactly for an invalid message or part. |
| HotWalletScan.OutsReadable | core/block_scanner.go:672-774 | The outgoing messages are accepted iff each is internal, to a standard address, with the body its recipient calls for. |
| HotWalletScan.OutsTell | core/block_scanner.go:672-774 | The reports are, in order, one for each payment to a hot jetton wallet or to the outside, the confirmations one for each call of a deposit by its owner, with their fields. |
| HotWalletScan.ScanTells | core/block_scanner.go:605-736 | After the reports on what was sent comes one failure for each recipient outside the service that was asked for and got nothing, with message and hash. |
| BatchScan.ScanMessage | core/block_scanner.go:672-774 | A payment is one report to its destination, a sweep one confirmation under its memo, a service message nothing; none is an error. |
| BatchScan.ScannerReadsBatch | core/block_scanner.go:552-618 | Any part of a batch the hot wallet sends, in any order: the scanner accepts it, each payment gives exactly one report, failed iff it was not sent, each sent sweep one confirmation. |
| BatchScan.ScannerFeedsProtocol | core/block_scanner.go:649-736 | Those reports are what the payout protocol expects of the block, so each matches exactly one saved row. |
| BatchScan.ReportsConcatenate | core/block_scanner.go:281-311 | And so are the reports on several executions in one block. |
| BatchScan.BuiltIsGood | core/withdrawal_processor.go:130-220 | Every batch built from well selected tasks satisfies what the scanner lemmas require. |
| BatchSelection.ServiceTaskFits | db/db.go:528-557 | The subwallet id joined to a service task leads back to the owner contract it came from. |
| BatchSelection.SelectedIsWellSelected | core/withdrawal_processor.go:136-200 | What the three queries return on any reachable tables is well selected: one task per address, no excluded owner, one payment per destination. |
| BatchSelection.ScansTheSame | core/block_scanner.go:649-736 | With a later address book the scanner reads any part of a batch alike, if no payee is in it and no service message calls a new deposit. |
| BatchSelection.ReadsBackIffApart | core/block_scanner.go:649-774 | A good batch reads back right with a later book, whatever part is sent, if and only if that is so. |
| BatchSelection.SelectedBatchIsReadBack | core/withdrawal_processor.go:75-128 | From the database to the chain and back: what the queries select on any reachable tables makes a batch of distinct recipients that reads back right exactly under that condition. |
| BatchSelection.PaymentToWallet | core/block_scanner.go:605-736 | What the scanner says of a payment to an address in its book, for every kind of payment and wallet. |
| BatchSelection.LaterScanFeedsProtocol | core/block_scanner.go:649-736 | Whatever was added to the book since, the reports on a batch are those the payout protocol expects of its block. |
| Sweeps.SaveTaskKeeps | db/db.go:659-679 | Saving a sweep from a later income of an idle deposit keeps the sweeps of each deposit one after the other. |
| Sweeps.ForwardKeeps | db/db.go:610-657 | No other transaction disturbs that order or makes a selected task wrong. |
| Sweeps.AcceptedIffConfirmed | db/db.go:610-657 | A block is accepted iff it is about known sweeps that did not fail and every end in it was confirmed, earlier or in the same block: "invalid event order" in no other case. |
| Sweeps.OrderMatters | db/db.go:699-710 | With ends applied before confirmations, an accepted block would be refused iff it holds both the sending and the end of a sweep. |
| Sweeps.SetExpiredForward | db/db.go:1011-1019 | Expiry leaves every sweep whose sending was confirmed as it is. |
| SweepRows.SendsTell | db/db.go:907-929 | An accepted list of confirmations sets `sending_lt` of a sweep to that of the last one about it, and nothing else. |
| SweepRows.EndsTell | db/db.go:610-657 | An accepted list of ends adds to a sweep the amounts of its ends that did not fail and sets the end to the last of them; one that failed makes it fail; nothing else changes. |
| SweepRows.RefusedBecause | db/db.go:610-638 | When a single confirmation or end is refused, and as what. |
| SweepRows.ExpiryFails | db/db.go:1011-1019 | Expiry fails exactly the sweeps that expired before the cutoff without a confirmation. |
| Sweeps.GroupedIffDue | db/db.go:731-773 | The nested joins with GROUP BY and MAX select exactly the deposits with nothing in flight and income beyond their newest sweep, with their last income. |
| Sweeps.TonQueryIsSpec | db/db.go:731-773 | The TON task query equals that specification, measured by the end of the newest sweep, one task per deposit. |
| Sweeps.JettonQueryIsSpec | db/db.go:775-825 | The jetton query likewise, by the start of the newest sweep, skipping excluded owners. |
| Sweeps.JettonTasksSuitBatch | db/db.go:775-825 | Its tasks have distinct proxies, none among the excluded addresses. |
| DepositScan.ProcessExternalIn | core/block_scanner.go:843-887 | Every message of a deposit to the hot wallet becomes both a confirmation and an end, in order, with its comment, amount and times; a message that is not internal is an error. |
| DepositScan.DepositEventsInOrder | core/block_scanner.go:843-887 | The events of such a transaction are refused only for a sweep that is unknown or was given up. |
| SweepProtocol.EveryRunSweepsInOrder | core/withdrawal_processor.go:471-543 | On every run, two selecting threads and any clocks: a deposit has at most one unfinished sweep, its sweeps start at ever later incomes, and one whose sending was scanned is never failed by expiry. |
| SweepProtocol.ExpireKeeps | db/db.go:1011-1019 | When the margin covers the gap, a sweep given up unsent can never be sent. |
| SweepProtocol.EveryRunIsAccepting | db/db.go:681-729 | Then no run ever refuses a scanned block because of sweeps. |
| SweepRefusals.NeverOutOfOrder | db/db.go:610-638 | Without any bound on the clocks: no run reaches "invalid event order"; the one possible refusal is of a sweep given up while its message could still run. |
| SweepRefusals.UncoveredGapRefuses | core/withdrawal_processor.go:452-469 | If the margin is below the gap, here is a run in which that happens. |
| SweepRefusals.AcceptingIffGapCovered | core/withdrawal_processor.go:452-469 | No run refuses a block if and only if the margin covers the gap. |
| JettonIncome.KnownIsNotified | core/block_scanner.go:929-1014 | The known amount of a transaction is what notifications from outside to the owner add up to; it counts as unknown iff one of its messages hides something. |
| JettonIncome.KnownOuts | core/block_scanner.go:1001-1011 | The incomes recorded for it add up to the known amount. |
| JettonIncome.WithdrawnIsSent | core/block_scanner.go:1065-1074 | The total of withdrawals is the sum of all successful transfers, to whomever. |
| JettonIncome.ProcessOutMsgs | core/block_scanner.go:929-1014 | Incomes, known amount and "unknown" flag of a transaction's outgoing messages. |
| JettonIncome.ProcessTxs | core/block_scanner.go:375-398 | The loop over all transactions of a deposit in a block equals the fold, of which BlockTells speaks. |
| JettonIncome.ConvertUnknownTxs | core/block_scanner.go:442-464 | A zero income for each unexplained transaction, and the amount on the first of them. |
| JettonIncome.ProcessDepositTxs | core/block_scanner.go:364-464 | The events of a deposit in a block: known incomes, unexplained ones if positive, withdrawals; with BlockTells and UnknownTells, exactly which. |
| JettonIncome.BlockTells | core/block_scanner.go:929-1087 | A block is scanned iff its notifications name their owner and successful transfers send something. Its withdrawals are, in order, one for each decoded transfer that failed or went to the hot wallet, its incomes one for each notification from outside to the owner, and its unknown transactions those that may hide something, field by field. |
| JettonIncome.UnknownTells | core/block_scanner.go:442-464 | The incomes of unknown origin: for each unknown transaction 0 with its time and hash, then the whole amount with those of the first. |
| JettonIncome.BlockTotal | core/block_scanner.go:413-464 | The recorded total is the known amount, or known plus unexplained; it equals balance change plus transfers out iff the block is explainable. |
| JettonIncome.RunIsComplete | core/block_scanner.go:364-464 | Over linked explainable blocks, each scanned with the address book of its time, recorded incomes equal the balance change plus all transfers out. |
| JettonIncome.CompleteIffExplainable | core/block_scanner.go:364-464 | They do so at every point of a run iff every block is explainable: nothing unexplained, or a positive rest and a transaction to attribute it to. |
| JettonIncome.BurnIsNotRecorded | core/block_scanner.go:403-411 | Burnt jettons make a block that is not explainable, whatever messages the wallet sends about it. |
| JettonIncome.ServiceTransferIsUnknownIncome | core/block_scanner.go:966-973 | A transfer between the service's wallets is recorded as income of unknown origin. |
| Shards.IsInShardMeans | blockchain/shard_tracker.go:187-198 | The expression of shift, exclusive or and zero counts is the test that the prefix begins the byte. |
| Shards.DeepIsRefused | blockchain/shard_tracker.go:191-194 | Prefixes longer than 8 bits are refused. |
| Shards.SplitAndMerge | blockchain/shard_tracker.go:187-208 | After a split a byte belongs to exactly one child, after a merge to the parent. |
| Shards.ExactlyOneShard | blockchain/shard_tracker.go:187-198 | In every shard tree of depth at most 8 a byte belongs to exactly one leaf. |
| Shards.FilterFindsTheShard | blockchain/shard_tracker.go:200-208 | The first-match search always finds a block, the only right one, in whatever order the shards are listed. |
| ShardTracker.Tracker.Stop | blockchain/shard_tracker.go:72-74 | Asks for a shutdown and changes nothing else. |
| ShardTracker.Tracker.GetNext | blockchain/shard_tracker.go:76-83 | Takes the first buffered header, if any. |
| ShardTracker.Tracker.GetShardBlocks | blockchain/shard_tracker.go:142-185 | The backward walk: headers from the given block to the last known one, nothing for an older block; it ends because numbers fall. |
| ShardTracker.Tracker.LoadShardBlocksBatch | blockchain/shard_tracker.go:105-140 | Walks from the master block's shard block and buffers the result oldest first. |
| ShardTracker.Tracker.NextBlock | blockchain/shard_tracker.go:45-70 | One call, over any answers of the node, equals the state machine's step. |
| ShardTracker.WalkFindsChain | blockchain/shard_tracker.go:142-185 | From a later block of the chain the walk finds exactly the blocks in between, from an earlier one nothing. |
| ShardTracker.NextTracks | blockchain/shard_tracker.go:45-185 | Whatever the node answers, a call emits the next block of the chain with its parent, or exits iff it was stopped, or runs out of time, which is an error; it never lacks a suitable shard. |
| ShardTracker.FirstAnswerAnchors | blockchain/shard_tracker.go:148-154 | Without a start block, the first answer becomes the anchor. |
| ShardTracker.StreamIsChain | blockchain/shard_tracker.go:45-185 | Over any calls and answers, the emitted blocks are exactly the chain after the anchor, oldest first, each the child of the one before. |
| ShardTracker.NewBlockIsEmitted | blockchain/shard_tracker.go:45-70 | A new block is not held back. |
| ShardTracker.MasterIsRemembered | blockchain/shard_tracker.go:85-103 | A call remembers the master block of the last answer it used, and an answer with the block seen last makes no difference. |
| ScanPipeline.LastIsLastSaved | db/db.go:982-1007 | `ORDER BY seqno DESC LIMIT 1` is the block saved last. |
| ScanPipeline.HeldIsNew | db/db.go:591-608 | The block about to be saved never violates the key (shard, seqno). |
| ScanPipeline.NextKeepsPlace | core/block_scanner.go:87-132 | Every step, crashes and restarts included, keeps the tracker exactly where the saved blocks end. |
| ScanPipeline.NextKeepsIncomes | db/db.go:681-729 | Every step keeps the income tables equal to what the saved blocks brought. |
| ScanPipeline.NextKeepsNotices | core/block_scanner.go:134-196 | Every step keeps the notices in the order of the chain, behind the last saved block. |
| ScanPipeline.EveryRunSavesTheChain | cmd/processor/main.go:90-99 | Through any crashes and restarts: the saved blocks are a gap-free, duplicate-free stretch of the chain, each income is in the tables once, and no income is told twice to a notificator or before it is saved. |
| ScanPipeline.SavedStay | db/db.go:681-729 | What is saved and what was told is never undone. |
| ScanPipeline.AskedIsHeld | core/block_scanner.go:79-107 | On every run, asking for a block either ends the service or leaves it with the next block of the chain in hand; nothing is saved or told. |
| ScanPipeline.HeldIsSaved | core/block_scanner.go:112-132 | On every run an emitted block is saved with its events iff the tables take them; else nothing is saved and the service ends. |
| ScanPipeline.AllIsTold | core/block_scanner.go:134-158 | Unless the service ends meanwhile, every income of a block, on the configured side, is told to every notificator before the next block is asked for. |
| ScanEffects.NextKeepsLog | db/db.go:681-729 | Every step, of the scanner or of another thread, extends a log that explains the tables. |
| ScanEffects.EveryEventIsAppliedOnce | core/block_scanner.go:112-132 | Through any crashes, restarts and transactions of other threads: the events of each saved block are applied once, in chain order, and every column of a row or sweep is what the saved blocks tell: hash, failure and times those of the last report, sending and end those of the last event, the amount the sum of the ends, confirmed iff a saved block confirmed the sent withdrawal. |
| ScanEffects.EveryStatusIsReported | db/db.go:1117-1167 | On every such run, a final status is that of the last saved report on a row of the request, with its transaction hash. |
| ScanPipeline.FirstSavedIsAfterTheAnchor | cmd/processor/main.go:93-97 | The first saved block is decided by the first answer after the last restart, wherever in the chain that is. |
| KeyedFold.RunIsRowByRow | db/db.go:681-729 | A list of statements that each touch one row acts on every row as the statements about that row alone. |
| KeyedFold.SameAboutEachRow | db/db.go:681-729 | Lists that say the same about each row have the same effect. |
| KeyedFold.GatherAsMultiset | core/block_scanner.go:205-225 | What the accounts give together does not depend on their order. |
| BlockOrder.ProcessAccounts | core/block_scanner.go:247-279 | The loop over accounts concatenates their events in the order of the map. |
| BlockOrder.ReportsAreStatements | db/db.go:841-905 | The reports of a block act as statements on rows, and mark exactly the requests of those rows processed. |
| BlockOrder.ConfirmsAreOneStatement | db/db.go:827-839 | The confirmations of a block set `confirmed` on exactly the sent rows of the listed requests. |
| BlockOrder.SavesTheSame | db/db.go:681-729 | Two lists of events that say the same about every row give the same tables, or are both refused. |
| BlockOrder.SaveNeedsMemos | db/db.go:611-614 | A block is refused if a comment that should be a uuid is none. |
| BlockOrder.OrderDoesNotMatter | core/block_scanner.go:205-225 | Applying a block gives the same tables or the same refusal for every order of the accounts, if each memo and message belongs to one account. |
| Store.Connection.constructor | deploy/db/01_init.up.sql:1-152 | An empty database. |
| Store.Connection.SaveWithdrawalRequest | db/db.go:403-433 | Inserts the request under the next id, or refuses it iff one with the same user, user's id and kind is stored. |
| Store.Connection.CreateExternalWithdrawals | db/db.go:931-967 | All rows and claims of a batch, or, on a duplicate key, the tables as before. |
| Store.Connection.SaveInternalWithdrawalTask | db/db.go:659-679 | Inserts a sweep under its memo, or refuses a duplicate. |
| Store.Connection.SetExpired | db/db.go:1010-1067 | Fails overdue sweeps, then overdue rows, and releases exactly their requests, with a clock reading for each part. |
| Store.Connection.ExpireRows | db/db.go:1030-1040 | The update with RETURNING: which rows fail and which request ids come back. |
| Store.Connection.SaveInternalIncomes | db/db.go:363-401 | Inserts incomes until one has no uuid as memo or a taken key. |
| Store.Connection.ApplySendingConfirmations | db/db.go:907-929 | Sets `sending_lt`; an unknown memo or a failed sweep is an error. |
| Store.Connection.UpdateInternalWithdrawal | db/db.go:610-657 | The end of a sweep: refused when failed or not confirmed, else failed or its amount added. |
| Store.Connection.UpdateExternalWithdrawal | db/db.go:841-905 | A report on a row, with each of its errors, and the invariant kept. |
| Store.Connection.ApplyJettonWithdrawalConfirmations | db/db.go:827-839 | Confirms the sent rows of the requests. |
| Store.Connection.SaveParsedBlockData | db/db.go:681-729 | All events of the block and the block, in the source's order, or nothing. |
| Store.Connection.IsActualBlockData | db/db.go:1069-1085 | False without a block, else whether the block with the greatest number is young enough. |
| Store.Connection.IsInProgressInternalWithdrawalRequest | db/db.go:1087-1115 | A search that finds a request iff some internal request to the address in the currency is not processed. |
| AddressBook.DescriptionIsUnique | db/db.go:272-322 | The tables determine the address book. |
| AddressBook.LoadAddressBook | db/db.go:272-322 | A reload describes the tables, owners included; it fails exactly when an owner is missing. |
| AddressBook.GenerateSubWallet | blockchain/blockchain.go:248-268 | The counting search returns the least id from the start on in the shard, below the greatest uint32. |
| AddressBook.FirstIsUnique | blockchain/blockchain.go:388-402 | There is only one such answer. |
| AddressBook.Handler.SaveTon | db/db.go:97-116 | Row and cache entry together, or neither. |
| AddressBook.Handler.SaveJetton | db/db.go:136-199 | Jetton wallet with its owner wallet, rows and cache, or neither. |
| AddressBook.Handler.GenerateAddress | api/handlers.go:559-633 | An address request equals the specified transition, or changes nothing. |
| AddressBook.Handler.Reload | db/db.go:272-322 | At a restart the cache is rebuilt from the tables. |
| AddressBook.NewIdIsFresh | db/db.go:88-95 | The search starts above all stored ids and does not overflow uint32. |
| AddressBook.FirstIsLeastFree | blockchain/blockchain.go:248-268 | The search finds the least id that is in the shard and above all stored ones, iff there is one. |
| AddressBook.NextKeeps | api/handlers.go:559-633 | Every initialisation, address request and restart keeps each wallet where its id says and the cache equal to a reload. |
| AddressBook.BookIsReload | db/db.go:272-322 | On every run the address book is the one that describes the tables. |
| AddressBook.DepositGetsLeastId | api/handlers.go:559-633 | On every reachable state a request succeeds iff the shard has a free id, and takes the least, for new wallets with the user, currency and owner of the request, in the tables and in the book. |
| AddressBook.NewAddressesAreNew | api/handlers.go:559-633 | The addresses that come with a new id are in the book of no earlier state. |
| AddressBook.RefusedBecause | api/handlers.go:559-633 | On every reachable state a request is refused only for an unknown currency or when the shard has no free id left. |
| ColdWallet.MakeColdWalletWithdrawals | core/withdrawal_processor.go:604-685 | One pass over the wallets, for any order of the map, equals the specified pass on the ledger; nothing happens without a cold wallet. |
| ColdWallet.PassKeeps | core/withdrawal_processor.go:604-685 | A pass keeps the invariant of the ledger. |
| ColdWallet.PassDrainsToResiduals | core/withdrawal_processor.go:630-676 | Paying a jetton request leaves its residual; observed TON is residual plus the amount plus one fee per jetton request of the pass. |
| ColdWallet.EachOnce | core/withdrawal_processor.go:614-649 | A pass makes at most one request for each jetton, each pending when it goes on. |
| ColdWallet.AsksExactlyWhatIsDue | core/withdrawal_processor.go:604-685 | A pass asks for exactly the jettons above their maximum that have no unprocessed internal request to the cold wallet, and for TON likewise with what the fees leave of it; every request goes to the cold wallet down to the residual. |
| ColdWallet.PositiveIffLimitsOk | core/withdrawal_processor.go:626-671 | Whatever balances, ids and ledger, every requested amount is positive iff each jetton residual is at most its maximum or negative, and the TON residual is at most its maximum or below minus the fees of the pass. |
| ColdWallet.DefaultResidual | config/config.go:142-155 | The 0.95 rule gives a residual between 0 and the maximum for every maximum that is not negative. |
| ColdWallet.DefaultResidualIff | config/config.go:181-194 | For whole amounts it does so only then. |
| ColdWallet.DefaultJettonOkIff | config/config.go:142-155 | With it, jetton requests are for positive amounts for every whole maximum but -1. |
| ColdWallet.EmptyWalletAsksForNothing | core/withdrawal_processor.go:626-633 | With the maximum -1 an empty jetton wallet makes a request for 0. |
| ColdWallet.EveryRunAsksOnce | db/db.go:1087-1115 | On every run, with look-up and saving as separate steps, at most one unprocessed internal request exists per destination and currency. |
| ServiceRequests.BuildSays | core/withdrawal_processor.go:292-442 | A service build marks a request filled only when it is from a TON deposit that holds jettons. |
| ServiceRequests.NextKeeps | db/db.go:454-472 | Every creation, selection, update and crash keeps the state of each request in step with its number of updates. |
| ServiceRequests.EveryRunServes | db/db.go:527-589 | On every run a request gets at most two updates, is never filled and processed, is selected by exactly one of the two queries until it is processed and by none after; and every selected task can be built: a TON deposit never lacks a jetton master. |
| ServiceRequests.ProcessedIsForever | db/db.go:454-472 | A processed request never changes again, and a filled one keeps its amount and master. |
| ServiceRequests.AcceptedIff | api/handlers.go:712-752 | TON requests are accepted iff they are for an owner contract, jetton requests iff for an owner contract or a TON deposit and with a master; what is accepted is what was asked for. |
| ServiceRequests.AcceptedIsStored | db/db.go:435-452 | What is accepted is stored, unless its memo is taken. |
| ServiceRequests.StepStores | db/db.go:435-472 | Column by column what each step stores of a request: as it was asked for, with nothing done; what the build found, filled or processed; the end of a filled one. |
| ServiceRequests.WalletsAreOk | db/db.go:272-322 | What the address book keeps on every run is what the service queries need. |
| Utf8.EncodesItsCodePoint | db/db.go:324-335 | A valid sequence (RFC 3629 section 4) is the encoding (section 3) of its code point. |
| Utf8.DecodesWhatItEncodes | db/db.go:324-335 | Every encoded code point is a valid sequence and decodes to itself, whatever follows. |
| Utf8.EncodingIsValid | db/db.go:324-335 | Encoding and decoding whole strings of code points is a round trip. |
| Utf8.ValidIsEncoding | db/db.go:324-335 | And the other way round for every valid byte string. |
| Utf8.MoveDown | db/db.go:329-331 | The append within the shared buffer moves the bytes and overwrites nothing behind them. |
| Utf8.CompactInPlace | db/db.go:325-333 | The loop over one buffer that is read and written keeps exactly the valid sequences, in order. |
| Utf8.StripInvalidUtf8 | db/db.go:324-335 | The whole function equals dropping invalid bytes and then NULs. |
| Utf8.StripKeepsThePoints | db/db.go:324-335 | For every byte string the result is valid UTF-8 without NUL and holds exactly the valid code points other than NUL, in order. |
| Utf8.StripIsIdentityIffClean | db/db.go:324-335 | A byte string is left as it is iff it is valid and has no NUL. |
| Utf8.StripIsIdempotent | db/db.go:324-335 | Stripping twice is stripping once. |
| Utf8.ReplacementCharacterIsKept | db/db.go:326-330 | An encoded U+FFFD is kept although the decoder reports it as the error rune. |

## Left out

- Lite-server client, retries, rate limits, block proofs, DNS and the TVM: network code over libraries that are not part of this model.
- Cells, BOC, TL-B, signatures and hashes: messages are decoded datatypes that keep destination, value and payload; bounce flags and comments of payments are dropped.
- HTTP plumbing, JSON, metrics, audit logging, queue and webhook delivery after `Publish`: no claim is made about them.
- SQL isolation anomalies, timeouts, sleeps and the context deadlines of the threads: time is an input and a transaction is atomic.
- History listings, paging and income look-ups: simple reads.
- The LIMIT of the task queries: the models say which rows may be returned, not which of them are.
- Internal messages to the hot wallet and incomes of TON deposits (core/block_scanner.go:776-841, 889-927): each gives at most one event without interaction; the events are inputs of `BlockOrder`.
- The conversion of an owner address to its jetton wallet when an internal income is saved (db/db.go:370-383): a look-up in tables that are not changed there.
- BlockOrder.OrderDoesNotMatter: the event lists of the accounts are inputs; that each account lists its events by logical time is part of them.
- ScanPipeline.EveryRunSavesTheChain: the events of a block are arbitrary.
- BatchSelection.SelectedBatchIsReadBack: the wallet tables are those of one moment; addresses created between the three queries of a build are not modelled.
- PayoutProtocol.CoveredGapIsSafe: an error of the scanner itself, as on a TON payment to what became an owner contract, stops the service and is not a step.
- Store.Connection.SaveWithdrawalRequest: a refused insert uses up an id in PostgreSQL; here it does not, and ids only need to be new.
- Store.Connection.SaveInternalIncomes: incomes are saved under the address they come with, without the conversion of an owner address.

# Verified model of the marketplace's escrow, auctions and their arithmetic

A creator marketplace takes crypto deposits into an escrow, credits them to orders and campaign pools, pays them out under
signed authorizations, and sells services by auction. This project models that logic in Dafny and proves what it keeps.
`dafny verify dfyconfig.toml` checks all of it.

**Escrow and deposits.**
`SimChain` and `EscrowRules` give the in-process devnet as a value, one call at a time: blocks, receipts, reorganizations,
buckets, nonces, payout references, freezes and all-or-nothing batches; `EscrowAnswers` says exactly what each call is answered
and whom it pays. `LocalDevChain` is the simulator itself, a class over heap-allocated buckets, each method tied to its value
function. `EscrowAwait` cuts the same calls at their awaits: payouts, freezes and the releases of a running batch interleave
with each other, with deposits and with blocks, and undoing a batch replaces the bucket objects that waiting calls still hold.
`AwaitBooks` proves what each such step keeps, `AwaitRuns` and `AwaitOnce` what follows over runs and exactly what breaks it,
`AwaitReports` exactly when a payout is reported twice, `AwaitTransfers` whose a bucket is and whom each payment pays, and
`AwaitExamples` holds the runs in which these break.

`DepositRules` is one database transaction of the indexer, `DepositAnswers` exactly what an event or a payment choice is
answered and what that writes, `DepositBooks` what every transaction keeps. `DepositWorld` interleaves any number of indexer
workers, one chain read or transaction at a time, with all of the above, buyers, crashes and outages; `DepositSafety` and
`DepositTheorems` prove safety over every run, `DepositHistory` where a credited deposit sits on the chain and what verifying
again does, and `DepositExamples` holds concrete runs. `DepositService` holds the tables as a class and the verify, scan and
recheck loops, run against an arbitrary schedule of everyone else.

**Auctions.**
`AuctionRules` has one step per transaction, each with its own timestamp, in any order; the database's row guards are part of
every update. `AuctionBooks` and `AuctionTheorems` prove the invariant and what follows for every run, `AuctionViews` compares
the two read views with what the commands accept, and `AuctionDesk` is the handlers statement by statement, with rollback.

**Smaller cores.** `Registry` (exact decimal arithmetic, printing, parsing), `Weeks` (local-week boundaries), `SqlScanner` (the
parenthesis and comma scanners of the migration lint), `Reconcile` (the reconciliation rules and an outbox that follows the
escrow).

## Where the code and its promises part

Each of these is a lemma, with the exact condition or with the run that shows it.

- A payout tests its nonce and reference before it awaits the signature check and its funds after, so two overlapping calls for
  one payout are both paid (`AwaitExamples.OverlapPaysTwice`). A reference is reported as paid twice exactly when it was
  reported between another payout's check and its report, or was reported and then forgotten with an undone batch before that
  check (`AwaitReports.RepeatsExactly`, and over whole runs `AwaitReports.OnceExactly`). The bucket bound survives
  (`AwaitRuns.RunKeeps`).
- A batch takes a copy of the tables, awaits inside every release, and puts the copy back when one is refused. Whatever completed
  beside it is erased too: a deposit's credit (`AwaitExamples.UndoErasesDeposit`, exactly in `AwaitRuns.BucketShowsAll`), a
  payout, which is then paid again with no overlap (`UndoErasesPayment`, exactly in `AwaitOnce.RunRemembers`), and a freeze
  (`UndoErasesFreeze`). The indexer still credits the erased deposit, so the books exceed the bucket
  (`DepositExamples.BooksExceedChain`, exactly in `DepositTheorems.EmittedWithinBucket`).
- A call that resumes after a batch was undone works on a bucket object that is no longer in the table. A payout then pays money
  that no live bucket accounts for (`AwaitExamples.ReplacedIsReached`, `ReplacedBucketPays`, exactly in `AwaitRuns.RunAccounts`),
  even while the live bucket is frozen (`FrozenBucketPays`, exactly in `AwaitRuns.FrozenPaysNothing`), and a freeze is accepted
  and freezes nothing (`FreezeIsLost`, exactly in `AwaitRuns.FreezeHoldsOverRuns`).
- A refused batch is said to leave nothing behind, as a reverted transaction would; it leaves one empty block for each release it
  had accepted (`EscrowRules.BatchIsAtomic`). A batch's releases are said to share one hash; each has its own, and the caller is
  given the last (`EscrowRules.BatchHashes`, `BatchHashesDiffer`).
- A pool row keeps the block it was first seen in, so it can be credited while it names a block that is gone
  (`DepositExamples.PoolRowNamesLostBlock`, exactly in `DepositHistory.PoolRowNamesCanonical`). A reorganization at least as deep
  as the finality bound can take any credited deposit off the chain (`DepositExamples.DeepReorgLosesCredit`, exactly in
  `DepositHistory.CanonicalExactly`).
- Local midnight is promised to be the first instant of the date. When the clock is turned back over a midnight that lies more
  than twelve hours before UTC's, it is late (`Weeks.MidnightExact`; `Weeks.TurnedBackIsLate` shows it in a made-up zone).
- The ledger check groups by `transaction|currency`, which is right for a set of labels if and only if no two of them share a key
  (`Reconcile.PassIsRightExactly`). Labels with a bar in them can (`Reconcile.BarHides`); UUIDs have none.

## Assumptions

Hash-derived references are injective and minted hashes are distinct: both are datatype constructors. Signature recovery is a
field of the signed message, and the domain is the one of EIP-712, "Definition of domainSeparator". The settlement address and the
registry rows of a network do not change. A transaction carries the same logs at each inclusion. Timestamps are the milliseconds
that JavaScript reads, and arbitrary.

## Model

| member | source | states |
|---|---|---|
| SimChain.BlockHashAtExact | src/modules/crypto/chain.ts:265-268 | on a numbered chain the reader's search by number finds exactly the block at that height |
| LocalDevChain.Simulator.GetBlockHash | src/modules/crypto/chain.ts:265-268 | the reader's loop gives that search's answer, or an outage |
| SimChain.FindReceiptSound | src/modules/crypto/chain.ts:270-277 | a receipt is returned exactly when some canonical block holds that transaction, and it is that transaction's |
| LocalDevChain.Simulator.GetTransactionReceipt | src/modules/crypto/chain.ts:270-277 | the reader's loops give that receipt, or an outage |
| SimChain.LogHashesExact | src/modules/crypto/chain.ts:279-283 | the scanned transaction hashes are exactly those with a settlement log in the range, without repeats |
| LocalDevChain.Simulator.Submit | src/modules/crypto/chain.ts:120-137 | the deposit's block, receipt and log copies, and a bucket credited only for an unreverted deposit from the settlement contract |
| EscrowAnswers.DepositExact | src/modules/crypto/chain.ts:120-137 | a deposit changes at most its own bucket, an existing one only in what it took in, and a new one has its payer and token; its transaction is alone in a new block, under a hash of its own |
| AwaitTransfers.OwnerIsFixed | src/modules/crypto/chain.ts:116-131 | over a run the payer and the token of a bucket never change while it stays in the table |
| AwaitTransfers.BucketStaysExactly | src/modules/crypto/chain.ts:94-102 | and it stays if and only if no batch is undone that began before the bucket was made |
| LocalDevChain.Simulator.ReorgBlocks | src/modules/crypto/chain.ts:140-143 | the last blocks are dropped, never the first, and depth + 1 fresh ones mined; buckets and payouts stay |
| LocalDevChain.Simulator.ReincludeReceipt | src/modules/crypto/chain.ts:146-150 | the transaction returns in a new block with its own logs |
| AwaitRuns.AuthorizationIsBound | src/modules/crypto/chain.ts:176-188 | no step moves the chain id or the contract, so an authorization accepted once is accepted exactly by the same chain and contract, under the same signer, until it expires |
| LocalDevChain.Simulator.PayOut | src/modules/crypto/chain.ts:191-215 | the payout run to its end: its refusal with nothing changed, or nonce, reference, bucket, transfer and block together |
| EscrowAnswers.PayoutExact | src/modules/crypto/chain.ts:191-204 | a payout is accepted if and only if the escrow is up and not paused, the bucket is there in the token named, nonce and reference are new, the authorization is the server's for this chain and contract and unexpired, the bucket is open and holds the amount, and the token transfers |
| EscrowAnswers.RefusalExact | src/modules/crypto/chain.ts:191-204 | and each refusal is given exactly when its test is the first to fail |
| EscrowAnswers.PayoutPays | src/modules/crypto/chain.ts:205-214 | an accepted payout appends exactly one transfer: a release to the recipient and in the token of its message, growing only what was released; a refund to the bucket's payer in the bucket's token, growing only what was refunded |
| AwaitTransfers.EveryPayment | src/modules/crypto/chain.ts:191-236 | over a run every paying step, of a call or of a batch, makes exactly one such transfer and takes it from exactly the bucket it holds; a single call's by the payer and token that its bucket had when the call began |
| AwaitTransfers.TransfersArePayments | src/modules/crypto/chain.ts:205-214 | and every transfer listed after a run and not before was made by a paying step of it |
| AwaitTransfers.SwitchesExact | src/modules/crypto/chain.ts:153-174 | while the chain is offline every payout and freeze is refused as unavailable, while it is paused every payout, and no transfer of a failing token completes; the switches move nothing else |
| LocalDevChain.Simulator.TakeSnapshot | src/modules/crypto/chain.ts:85-92 | the copy has the live values in fresh objects, so later payouts cannot reach it |
| LocalDevChain.Simulator.RestoreSnapshot | src/modules/crypto/chain.ts:94-102 | the four escrow tables go back to the copy; blocks and the hash counter do not |
| LocalDevChain.Simulator.ExecuteReleaseBatch | src/modules/crypto/chain.ts:226-236 | the batch run to its end equals the all-or-nothing value function on the heap, and returns the hash of its last release |
| LocalDevChain.Simulator.Freeze | src/modules/crypto/chain.ts:242-253 | a freeze run to its end sets only the flag and the nonce of its bucket and mines one block, or changes nothing |
| EscrowAnswers.FreezeExact | src/modules/crypto/chain.ts:242-253 | a freeze is accepted if and only if the escrow is up, the bucket is there, the nonce is new and the authorization is the server's; it then sets that bucket's flag as ordered and nothing else |
| EscrowRules.BatchIsAtomic | src/modules/crypto/chain.ts:85-102 | accepted: the releases one by one; refused: nonces, references, buckets and transfers exactly as before, and one empty block for each release accepted before the refusal |
| EscrowRules.RepeatInBatchIsRefused | src/modules/crypto/chain.ts:226-236 | a batch that names one reference or one nonce twice is refused as a whole |
| EscrowRules.BatchHashes | src/modules/crypto/chain.ts:217-236 | an accepted batch lists one transfer per release, in order, each under a hash of its own, the one its reference is recorded with |
| EscrowRules.BatchHashesDiffer | src/modules/crypto/payouts.ts:250-251 | no two releases of a batch are recorded under one hash, so the one hash the outbox files for all of them is not theirs |
| EscrowRules.PayoutKeepsBooks | src/modules/crypto/chain.ts:191-215 | spent within deposited in every bucket, transfers total what the buckets spent, references distinct and equal to the recorded ones |
| EscrowRules.BatchKeepsBooks | src/modules/crypto/chain.ts:226-236 | the same accounts after any batch, accepted or refused |
| EscrowRules.DepositKeepsBooks | src/modules/crypto/chain.ts:120-137 | the same accounts after any deposit, reverted, foreign or duplicated |
| EscrowRules.FreezeKeepsBooks | src/modules/crypto/chain.ts:242-253 | the same accounts after a freeze |
| EscrowRules.PayoutMovesItsAmount | src/modules/crypto/authorization.ts:84-105 | a payout happens only under the server's signature for this chain and contract, unexpired, from an open bucket, under a new nonce and reference, and moves exactly its amount out of one bucket |
| AwaitBooks.StepKeeps | src/modules/crypto/chain.ts:191-253 | every step, however single calls, deposits and one running batch interleave, keeps each bucket within what it took in and the recorded references those of the transfers; the transfers stay what the live buckets paid if and only if the step does not pay from a replaced bucket |
| AwaitRuns.RunKeeps | src/modules/crypto/chain.ts:191-253 | so in every reachable state no bucket paid out more than it took in |
| AwaitRuns.RunAccounts | src/modules/crypto/chain.ts:94-102 | over a run the transfers are what the live buckets paid if and only if no call paid from a replaced bucket |
| AwaitRuns.WaitsOnLiveExactly | src/modules/crypto/chain.ts:94-102 | over a run a waiting call still holds the live bucket if and only if no batch was undone while it waited |
| AwaitRuns.FrozenPaysNothing | src/modules/crypto/chain.ts:202-205 | over a run a payout that pays was paid from a replaced bucket if and only if a batch was undone while it waited; if none was, a bucket frozen by the time it resumes pays nothing |
| AwaitReports.RunHonoursFreezes | src/modules/crypto/chain.ts:202-205 | over a run, whatever leaves a bucket that is frozen at that moment, or not in the table, is paid from a replaced object by a call during which a batch was undone |
| AwaitRuns.FreezeHoldsOverRuns | src/modules/crypto/chain.ts:242-253 | over a run an accepted freeze takes hold if and only if no batch was undone while it waited, or the flag stood there already |
| AwaitRuns.BucketShowsAll | src/modules/crypto/chain.ts:94-137 | on the simulator alone, a bucket shows everything it was credited if and only if no batch was undone after a deposit to it beside that batch |
| AwaitOnce.RunRemembers | src/modules/crypto/chain.ts:94-102 | every payout reported as done stays recorded if and only if no batch is undone beside a completed payout |
| AwaitOnce.ReplayIsRefused | src/modules/crypto/chain.ts:199-201 | over a run a reference once paid stays recorded, and so every message naming it refused, if and only if no batch is undone whose copy did not know it |
| AwaitOnce.SerializedRunsPayOnce | src/modules/crypto/chain.ts:191-236 | with no reference started while it is in flight and no batch undone beside a completed payout, every reference is reported as paid at most once, counting what was erased |
| AwaitReports.RepeatsExactly | src/modules/crypto/chain.ts:199-208 | a report, of a single payout or of a batch's release, repeats an earlier one of its reference if and only if that one came between this payout's check and its report, or came before and was forgotten with an undone batch; with nothing forgotten, only the first |
| AwaitReports.OnceExactly | src/modules/crypto/chain.ts:191-236 | over a whole run every reference is reported as paid at most once if and only if neither happens to any reported payout |
| AwaitReports.OnceWithoutForgetting | src/modules/crypto/chain.ts:191-236 | with no batch undone beside a completed payout, if and only if no reference is reported between another payout's check and its report |
| AwaitOnce.AlonePayout | src/modules/crypto/chain.ts:191-215 | a payout with nothing between its halves is the serialized payout |
| AwaitOnce.AloneFreeze | src/modules/crypto/chain.ts:242-253 | so is a freeze |
| AwaitOnce.AloneIsBatch | src/modules/crypto/chain.ts:226-236 | and a batch with nothing in between is the serialized, all-or-nothing batch |
| AwaitExamples.OverlapPaysTwice | src/modules/crypto/chain.ts:199-208 | a run of four steps in which one payout is paid twice |
| AwaitExamples.UndoErasesDeposit | src/modules/crypto/chain.ts:94-102 | a run in which a deposit beside an undone batch keeps its block and its log and loses its credit |
| AwaitExamples.UndoErasesPayment | src/modules/crypto/chain.ts:94-102 | a run, never two calls for one reference in flight, in which an undone batch lets one message be paid twice, with nothing reported while the second call waits |
| AwaitExamples.ReplacedIsReached | src/modules/crypto/chain.ts:94-102 | a run that ends with a payout waiting on a replaced bucket |
| AwaitExamples.ReplacedBucketPays | src/modules/crypto/chain.ts:205-208 | from there the payout pays, and no live bucket accounts for it |
| AwaitExamples.FrozenBucketPays | src/modules/crypto/chain.ts:202-205 | from there it pays even after the live bucket is frozen |
| AwaitExamples.FreezeIsLost | src/modules/crypto/chain.ts:242-253 | a run in which a freeze is accepted, uses its nonce up, and freezes nothing |
| AwaitExamples.UndoErasesFreeze | src/modules/crypto/chain.ts:94-102 | a run in which a completed freeze is taken back with an undone batch |
| DepositRules.DecodeExact | src/modules/crypto/deposits.ts:34-47 | the decoded events are exactly the Funded logs of the settlement contract, in log order, each under its own key |
| DepositRules.FirstOpenSound | src/modules/crypto/commands.ts:38 | the open intent looked up is an open one of that order, or there is none |
| DepositBooks.ProcessKeeps | src/modules/crypto/deposits.ts:67-131 | one event in one transaction keeps rows, credits, intents and calls consistent, and only adds to history |
| DepositBooks.ProcessLeavesRow | src/modules/crypto/deposits.ts:67-131 | an event that was processed has a row afterwards, whatever was decided about it |
| DepositBooks.CreditIsExact | src/modules/crypto/deposits.ts:114-119 | every credit passes the cents the intent was made from, so the not-cent-exact branch is never taken |
| DepositBooks.RejectionKeeps | src/modules/crypto/deposits.ts:49-65 | a rejection keeps the books and their history, and leaves a row that already exists, pending or not, as it is |
| DepositBooks.CreditPoolKeeps | src/modules/crypto/deposits.ts:168-177 | a pool credit keeps one DEPOSIT movement per credited pool row and one credit per pool intent |
| DepositBooks.MarkReorgedKeeps | src/modules/crypto/deposits.ts:258-270 | exactly a pending row becomes reorganized, exactly a waiting intent of it awaits a deposit again, nothing else moves, and every status is still backed by a row |
| DepositBooks.CreatePaymentKeeps | src/modules/crypto/commands.ts:38-50 | a new payment choice leaves the order at most one open intent, for exactly the order's cents |
| DepositAnswers.OtherAnswers | src/modules/crypto/deposits.ts:74-83 | an event decided before is answered from its row and changes nothing; one in no allowlisted asset, or under no known reference, is refused for that |
| DepositAnswers.OrderCreditedExactly | src/modules/crypto/deposits.ts:84-112 | an order deposit is credited if and only if chain, escrow, balance, decimals and amount are the intent's, its sender is the named one if one is named, the intent has no credit, the block is canonical and deep enough, and the order is not confirmed a second time; and exactly when it is held, refused or thrown |
| DepositAnswers.OrderRefusedExactly | src/modules/crypto/deposits.ts:85-98 | the exact case of each refusal, in the order of the tests; the refusal for inexact cents is never given |
| DepositAnswers.PoolAnsweredExactly | src/modules/crypto/deposits.ts:149-168 | a pool deposit is credited if and only if chain, escrow, asset and amount are the intent's, it has no credit, and the block is canonical and deep enough; and the exact case of each refusal |
| DepositAnswers.OrderRefusalWrites | src/modules/crypto/deposits.ts:49-65 | a refused order deposit leaves its row, an open intent exceptional, and always a case for the order |
| DepositAnswers.PoolRefusalWrites | src/modules/crypto/deposits.ts:138-148 | a refused pool deposit leaves its row, an open intent exceptional, and always a case for the pool |
| DepositAnswers.UnmatchedRefusalWrites | src/modules/crypto/deposits.ts:49-65 | a refused deposit that names no order leaves its row and, the first time, a case |
| DepositAnswers.OrderHoldWrites | src/modules/crypto/deposits.ts:102-111 | a held order deposit leaves a pending row that names the block just read and an intent that waits for it |
| DepositAnswers.OrderCreditWrites | src/modules/crypto/deposits.ts:114-129 | a credited order deposit leaves a credited row in the block just read, one funding call with the order's cents, and an intent confirmed exactly if the order was funded |
| DepositAnswers.PoolHoldWrites | src/modules/crypto/deposits.ts:158-166 | a held pool deposit leaves a pending row that keeps the first block seen |
| DepositAnswers.PoolCreditWrites | src/modules/crypto/deposits.ts:168-179 | a credited pool deposit leaves a credited row, one movement of the amount, and a confirmed intent |
| DepositAnswers.ChoiceRefusedExactly | src/modules/crypto/commands.ts:16-39 | the exact case of each refusal of a payment choice, and of its acceptance |
| DepositAnswers.ChoiceWrites | src/modules/crypto/commands.ts:37-50 | the same choice again changes nothing; another cancels the waiting intent and adds one for exactly the order's amount |
| DepositAnswers.CancelExact | src/modules/payments/funding.ts:218-223 | cancelling an unpaid order cancels exactly its waiting intents, unless a deposit for it is confirming, and then nothing |
| DepositWorld.ChainStepKeeps | src/modules/crypto/chain.ts:104-150 | whatever the chain does, blocks stay numbered, hashes unique, a transaction's logs fixed, and the head never goes down |
| DepositWorld.BuriedStays | src/modules/crypto/chain.ts:139-143 | a block under the finality bound stays on the chain through every shallower reorganization |
| DepositWorld.ReorgReaches | src/modules/crypto/chain.ts:139-143 | a reorganization replaces a block if and only if its depth reaches it |
| DepositTheorems.StepKeeps | src/modules/crypto/deposits.ts:67-281 | the invariant of chain, books, checkpoint and every worker's half-finished call is kept by every step |
| DepositTheorems.RunHolds | src/modules/crypto/deposits.ts:67-281 | and so holds in every reachable state |
| DepositTheorems.HistoryOnlyGrows | src/modules/crypto/deposits.ts:74 | over any stretch of a run rows, events, confirmed intents, funding calls and the checkpoint never go back, and terminal rows stay as they are |
| DepositTheorems.BucketShowsAll | src/modules/crypto/chain.ts:94-137 | a bucket holds exactly what it was ever credited if and only if no batch was undone after a deposit to it beside that batch |
| DepositTheorems.BooksNeverExceedChain | src/modules/crypto/deposits.ts:116-128 | in every reachable state, with calls and batches interleaving at their awaits, the credits of a bucket are within what it was ever credited on chain, and within what it holds unless a batch was undone after a deposit to it beside that batch; what it paid out is within what it holds |
| DepositTheorems.EmittedWithinBucket | src/modules/crypto/chain.ts:94-137 | with every deposit under its own transaction hash, the events the indexer may credit are within what the bucket holds if and only if no such batch was undone |
| DepositExamples.BooksExceedChain | src/modules/crypto/chain.ts:226-236 | a run in which a deposit beside an undone batch is credited to its order while its bucket holds nothing |
| DepositTheorems.NoDepositMissed | src/modules/crypto/deposits.ts:223-246 | every settlement log up to the checkpoint has its row, for any chunk size, outage, crash, overlapping scan and reorganization |
| DepositTheorems.CreditedExactlyOnce | src/modules/crypto/deposits.ts:97-128 | one credit per intent and per log, one funding call per credited order row, each under its intent's reference, in a registered asset of the chain, escrow, balance, amount and sender the intent asks for, passed on in the cents of its order |
| DepositTheorems.MovedExactlyOnce | src/modules/crypto/deposits.ts:134-180 | pools likewise: one DEPOSIT movement for each credited pool row, never two for one event or one intent, in the chain, escrow, asset and amount its intent asks for |
| DepositTheorems.StatusesAlwaysBacked | src/modules/crypto/deposits.ts:110-128 | a pending or confirmed intent always has a row saying so, and an order never two open intents |
| DepositTheorems.CreditedStaysCanonical | src/modules/crypto/deposits.ts:100-128 | with reorganizations shallower than the finality bound, a credited order deposit is in its recorded canonical block in every later state, though head, receipt and hash are read at different moments |
| DepositHistory.CreditedIsBuried | src/modules/crypto/deposits.ts:97-177 | under the same condition every credited deposit, of a pool as of an order, is in some canonical block under the finality bound, with exactly the log that was credited |
| DepositHistory.CanonicalExactly | src/modules/crypto/chain.ts:139-143 | over any stretch of a run a block is canonical at the end if and only if it was at the start and no reorganization reached it |
| DepositHistory.PoolRowNamesCanonical | src/modules/crypto/deposits.ts:151-177 | a pool row names a canonical block if and only if the block it was first recorded with was canonical then and no reorganization has reached it |
| DepositHistory.ReverifyChangesNothing | src/modules/crypto/deposits.ts:74-76 | a worker that verifies a transaction whose rows are all terminal changes nothing in any of its steps, whatever the others do in between |
| DepositExamples.CreditRun | src/modules/crypto/deposits.ts:189-207 | a run from empty books in which a deposit is credited to its order |
| DepositExamples.DeepReorgLosesCredit | src/modules/crypto/chain.ts:139-143 | that run and a reorganization as deep as the bound: the credited block is gone and the books do not notice |
| DepositExamples.PoolRowNamesLostBlock | src/modules/crypto/deposits.ts:161-177 | a run with shallow reorganizations only that ends with a credited pool row naming a block that is gone |
| DepositService.Tables.ProcessOne | src/modules/crypto/deposits.ts:67-131 | the statements of the event transaction, in order, equal its specification, and a throw leaves the tables as they were |
| DepositService.Tables.ProcessOrderDeposit | src/modules/crypto/deposits.ts:84-112 | the order checks and the wait for finality, statement by statement |
| DepositService.Tables.CreditDeposit | src/modules/crypto/deposits.ts:114-129 | the credit, statement by statement |
| DepositService.Tables.ProcessPoolDeposit | src/modules/crypto/deposits.ts:134-180 | the pool transaction, statement by statement |
| DepositService.Tables.Reject | src/modules/crypto/deposits.ts:49-65 | the rejection, statement by statement |
| DepositService.Tables.MarkLost | src/modules/crypto/deposits.ts:258-270 | the reorganized row and its intent |
| DepositService.Tables.CreateCryptoPayment | src/modules/crypto/commands.ts:10-51 | the payment choice: refusals, the unchanged open intent, or the replacement |
| DepositService.Worker.VerifyTransaction | src/modules/crypto/deposits.ts:189-207 | with anything happening between its reads: when it returns, every settlement log of the receipt it read has its row; an outage at the first read makes it throw; settled rows and the checkpoint never go back |
| DepositService.Worker.ScanChainDeposits | src/modules/crypto/deposits.ts:223-246 | a scan that reports a block leaves the checkpoint at least there, whatever the others do; one that an outage or an error stops has written no checkpoint |
| DepositService.Worker.RecheckPending | src/modules/crypto/deposits.ts:249-281 | deposit by deposit, the row is pending no longer if its transaction was gone when it was read, and otherwise all its settlement events have rows; only an outage or an error leaves deposits out |
| AuctionRules.TopIsBest | src/modules/auctions/commands.ts:28-31 | the highest bid is one that beats every other standing bid by amount and then sequence, or there is none |
| AuctionBooks.BidKeeps | src/modules/auctions/commands.ts:152-174 | a bid keeps cached leader, price, count, ladder, keys, sale and claim |
| AuctionBooks.InvalidateKeeps | src/modules/admin/commands.ts:263-280 | a standing bid of an open auction can be struck out and no other; the leader is recomputed and the books kept |
| AuctionBooks.SaleKeeps | src/modules/auctions/commands.ts:55-75 | on a live auction the slot is always there, and the sale moves it, with one order and one intent |
| AuctionBooks.BuyKeeps | src/modules/auctions/commands.ts:177-189 | Buy Now succeeds exactly for a buyer other than the seller, with a price, no bid ever, inside the window |
| AuctionBooks.CloseKeeps | src/modules/auctions/commands.ts:80-101 | closing always succeeds and keeps the books |
| AuctionBooks.CancelKeeps | src/modules/auctions/commands.ts:206-217 | exactly the seller can cancel, exactly while the auction is open and never had a bid; it is then cancelled and its slot released |
| AuctionBooks.FundKeeps | drizzle/0008_auctions_v2.sql:110-126 | an order is funded exactly while it is unpaid; auction, purchase, order and slot then read settled, funded, paid and active, and nothing else moved |
| AuctionBooks.DropKeeps | drizzle/0008_auctions_v2.sql:110-126 | an order is dropped exactly while it is unpaid; the auction then reads defaulted, the purchase unfunded or expired by its kind, and the slot released |
| AuctionBooks.ReconcileKeeps | src/modules/jobs/index.ts:75-89 | an expired hold under reconciliation still belongs to its sale |
| AuctionBooks.ReconcileExact | src/modules/jobs/index.ts:75-89 | and it is marked exactly when its order is unpaid, it is held and it has expired |
| AuctionBooks.GoLiveExact | src/modules/jobs/index.ts:520-526 | the job opens exactly a scheduled auction inside its window |
| AuctionBooks.StepRaisesVersion | src/modules/auctions/commands.ts:45-101 | whatever changes the auction's row raises its version |
| AuctionBooks.StepKeeps | drizzle/0008_auctions_v2.sql:86-105 | every transaction at any time keeps the books, and no row guard ever refuses one |
| AuctionTheorems.CreateSound | src/modules/auctions/commands.ts:103-149 | a created auction starts with sound books and its slot held |
| AuctionTheorems.CreateExact | src/modules/auctions/commands.ts:103-149 | an auction is created if and only if its amounts and times are in range and services are accepted; its row has exactly the terms of the form, it is live exactly if its start has come, and its one claim holds the units |
| AuctionTheorems.GuardsNeverFire | src/modules/auctions/commands.ts:58-61 | on every reachable auction no transaction meets a lost slot, a second sale or a guard |
| AuctionTheorems.BidExact | src/modules/auctions/commands.ts:152-174 | exactly which bids are accepted, and that an accepted one is numbered next and leads |
| AuctionTheorems.TiesNeverDecide | src/modules/auctions/commands.ts:27-31 | the leader is at least one increment above every other standing bid, so the tie-break is never used |
| AuctionTheorems.RunGrows | drizzle/0008_auctions_v2.sql:38-48 | over every run bids are only added or struck out |
| AuctionTheorems.ClosedForever | src/modules/auctions/commands.ts:45-52 | once closed, no bid, no new sale and no reopening, with clocks in any order |
| AuctionTheorems.SingleSale | src/modules/auctions/commands.ts:53-75 | at every point of every run at most one order and one intent; a winner's sale is the highest bid's, a Buy Now sale means nobody ever bid |
| AuctionTheorems.CloseExact | src/modules/auctions/commands.ts:80-101 | which outcome a close gives, in each case |
| AuctionTheorems.ClosedToWinner | src/modules/auctions/commands.ts:94-100 | a close with bids sells to the highest standing bidder at a price no standing bid exceeds, due in 24 hours |
| AuctionTheorems.ClosedUnsold | src/modules/auctions/commands.ts:88-92 | a close without a standing bid ends the auction, frees its slot and leaves no order |
| AuctionTheorems.RepeatedClose | src/modules/auctions/commands.ts:82-85 | a repeated close, later and with any clock, changes nothing and names the same order |
| AuctionTheorems.BidOrBuy | src/modules/auctions/commands.ts:184 | a bid shuts out Buy Now for good and Buy Now shuts out bids for good |
| AuctionTheorems.BoughtIsClosed | src/modules/auctions/commands.ts:177-189 | Buy Now sells to the buyer at the Buy Now price, due in 15 minutes, and closes an auction without bids |
| AuctionTheorems.ClaimConserved | src/modules/capacity/index.ts:32-58 | the one slot keeps its units and owner, sits on the auction exactly while it is open, is freed exactly when there is no sale, and moves exactly when there is one |
| AuctionViews.RankedExact | src/lib/read-model.ts:478-480 | the ranked list is exactly the standing bids, best first, and its head is the leader |
| AuctionViews.HighestAgree | src/lib/read-model.ts:489 | the viewer's best bid on the page is the maximum the dashboard shows |
| AuctionViews.SnapshotIsExact | src/lib/read-model.ts:481-505 | accepting, next minimum and Buy Now availability say exactly what the commands accept at that moment, and the cached price is the highest bid |
| AuctionViews.HiddenIsClosed | src/lib/read-model.ts:464-477 | an auction that is not shown can be neither bid on nor bought, and is on nobody's dashboard |
| AuctionViews.StandingsAgree | src/lib/read-model.ts:511-527 | every bidder has the same standing and highest bid on both pages |
| AuctionViews.ViewerIsExact | src/lib/read-model.ts:486-494 | what the page tells the seller, whoever bought or won, whoever has a standing bid, and a visitor |
| AuctionViews.VisibleExactly | src/lib/read-model.ts:464-477 | the page is hidden exactly when the auction is cancelled and the viewer is not its seller |
| AuctionDesk.Desk.AssertBiddingWindow | src/modules/auctions/commands.ts:45-52 | the window check and the switch to live |
| AuctionDesk.Desk.Sell | src/modules/auctions/commands.ts:55-75 | the sale's four writes, in order |
| AuctionDesk.Desk.Bid | src/modules/auctions/commands.ts:152-174 | the bid handler, rolled back when it refuses after writing |
| AuctionDesk.Desk.BuyNow | src/modules/auctions/commands.ts:177-189 | the Buy Now handler, with the order it returns |
| AuctionDesk.Desk.Close | src/modules/auctions/commands.ts:80-101 | the close handler and its outcome |
| AuctionDesk.Desk.Cancel | src/modules/auctions/commands.ts:206-217 | the cancel handler |
| AuctionDesk.Desk.RecomputeHighestBid | src/modules/auctions/commands.ts:34-39 | leader, price and count rewritten from the bids |
| AuctionDesk.Desk.Invalidate | src/modules/admin/commands.ts:263-280 | the moderator's handler |
| AuctionDesk.Desk.ActivateClaim | src/modules/capacity/index.ts:45-50 | true only when the order's claim became active, and otherwise nothing changed |
| AuctionDesk.Desk.ReleaseClaim | src/modules/capacity/index.ts:53-58 | the auction's held claim is released, if there is one |
| Registry.CentExact | src/modules/crypto/registry.ts:21-30 | the cents of an atomic amount are m exactly when the amount is the atomic amount of m |
| Registry.PriceIsPrinted | src/modules/crypto/registry.ts:21-41 | the atomic amount of a price prints as the price, whatever the decimals, and reads back in cents as the price |
| Registry.RoundTrip | src/modules/crypto/registry.ts:33-49 | parsing what was printed gives the amount back, for every amount and number of decimals |
| Registry.NegativeIsNotParsed | src/modules/crypto/registry.ts:33-49 | a printed negative amount is refused |
| Registry.CanonicalExact | src/modules/crypto/registry.ts:33-49 | re-printing an accepted string gives one canonical form, and the string itself exactly when it was canonical |
| Registry.MatchExact | src/modules/crypto/registry.ts:44 | the pattern matches digits with an optional fraction in exactly one way |
| Registry.MoneyExact | src/lib/commands.ts:100-106 | money accepts exactly the untrimmed two-place strings in range, with the parser's value |
| Weeks.ZonedMidnightToUtc | src/modules/capacity/weeks.ts:62-78 | the candidate search and the gap search compute the specified instant |
| Weeks.SearchGap | src/modules/capacity/weeks.ts:69-77 | the halving search ends at an instant on or after the date whose preceding second is before it |
| Weeks.MidnightReaches | src/modules/capacity/weeks.ts:62-78 | for any zone within 16 hours the result is within 16 hours of UTC's midnight and on or after the date, at local midnight or just past a jump over it |
| Weeks.MidnightExact | src/modules/capacity/weeks.ts:61-78 | with one change of offset nearby, the result is the first instant of the date if and only if no turn-back is missed |
| Weeks.TwelveHoursAreSeen | src/modules/capacity/weeks.ts:64 | nothing is missed when the offset before the change is at most twelve hours east |
| Weeks.TurnedBackIsLate | src/modules/capacity/weeks.ts:64 | a made-up zone in which the result is half an hour late, for every date |
| Weeks.WeekWindows | src/modules/capacity/weeks.ts:86-108 | the requested number of consecutive local weeks from the Monday of the chosen instant, or the count is refused |
| Weeks.WindowsTile | src/modules/capacity/weeks.ts:102-107 | windows touch, go strictly forward, and last a week give or take 32 hours |
| Weeks.FirstWindowContains | src/modules/capacity/weeks.ts:85-108 | the first window contains the chosen instant, if dates never go backwards and no turn is missed at its start |
| SqlScanner.ClosingParen | scripts/lib/release-rules.ts:13-26 | the index loop finds the first unquoted closing parenthesis at which the depth returns to zero |
| SqlScanner.GroupCloses | scripts/lib/release-rules.ts:13-26 | for every group of the grammar of plain characters, quoted strings and nested groups, that is the group's last character, whatever follows |
| SqlScanner.ClosesExactly | scripts/lib/release-rules.ts:13-26 | from an opening parenthesis the result is r exactly when a group of the grammar ends at r |
| SqlScanner.CommaParts | scripts/lib/release-rules.ts:28-37 | the loops give the pieces of the specification, or nothing when a parenthesis stays open |
| SqlScanner.PiecesExact | scripts/lib/release-rules.ts:28-37 | the pieces are the one way to write the text as a comma-joined list that is cut at every top-level comma and nowhere else |
| Reconcile.CheckLedgerBalances | scripts/lib/reconcile-rules.ts:20-34 | passes exactly when every key sums to zero, and names exactly the keys that do not |
| Reconcile.PassMeansBalanced | scripts/lib/reconcile-rules.ts:17-34 | when no two labels share a key, that is exactly when every transaction balances in every currency |
| Reconcile.BarFreeKeysApart | scripts/lib/reconcile-rules.ts:23 | labels without a bar never share a key |
| Reconcile.BarFreeLabels | scripts/lib/reconcile-rules.ts:28-31 | and are named in the report as they are |
| Reconcile.PassIsRightExactly | scripts/lib/reconcile-rules.ts:17-34 | over a set of labels the check passes exactly the balanced ledgers if and only if no two of the labels share a key |
| Reconcile.SharedKeyHides | scripts/lib/reconcile-rules.ts:23-24 | two labels that share a key hide each other's imbalance, whatever its size |
| Reconcile.BarHides | scripts/lib/reconcile-rules.ts:23-24 | a transaction label with a bar in it does so; a UUID has none |
| Reconcile.OrderDoesNotMatter | scripts/lib/reconcile-rules.ts:22-25 | the totals do not depend on the order of the entries |
| Reconcile.CheckPayoutsAgainstChain | scripts/lib/reconcile-rules.ts:59-73 | fails exactly on a compared row the chain contradicts, names each such row, and is unchecked exactly when there are rows and none was compared |
| Reconcile.CheckBucketsCovered | scripts/lib/reconcile-rules.ts:99-111 | the same for buckets that spent more than was deposited |
| Reconcile.RunMirrors | scripts/lib/reconcile-rules.ts:51-111 | over every run from an empty outbox on a new chain, of queued rows, single payouts, batches, deposits and freezes that do not overlap, confirmed rows are the paid references and their amounts what the buckets spent |
| Reconcile.CleanOnTheChain | scripts/lib/reconcile-rules.ts:59-111 | so neither chain check ever finds drift on it, whichever part of the chain answers |

## Left out

- PostgreSQL, its locks and isolation: each transaction is one atomic step. The row guards, the order triggers and the unique indexes the auctions rely on are part of those steps.
- The rows of other auctions, networks and creators: an auction and its rows, or one enabled network, stand alone. The workload counters are not kept.
- Order funding, pool balances, operator cases and notifications: `applyChainFunding` is a parameter for its answer and a record of the call, pool movements and cases are records, notifications and audit rows are dropped.
- Account status, roles, feature flags and field parsing other than `money`: the actor is taken to be allowed.
- Which services may be auctioned, and the titles, terms and briefs copied onto an order.
- Keccak, SHA-256, signatures and ABI encoding, and lower-casing of addresses and hashes.
- The RPC reader and the EVM adapter: the reader is the devnet's. `getLogs` is given by the distinct transaction hashes it leads to.
- NFT ownership and payer reclaim in the devnet.
- The civil calendar and the zone database: dates are day numbers and a zone is any bounded offset function in whole seconds.
- Zone names: `weekWindows` refuses an unknown one first. The chosen instant's milliseconds do not reach its local date.
- Sorting and wording of reconciliation findings; `checkFinishedOrdersSettled`, `checkOpenCases` and `checkStuckPayouts`, one filter each.
- The rest of `release-rules.ts`, which is regular expressions.
- Pseudonyms and display columns of the auction views; both views are read in one snapshot.
- Registry.UsdMinorToAtomic: defined from two decimals up; the error the source throws below that is modelled where it is called.
- LocalDevChain: each method runs to its end. What can happen at its awaits is in EscrowAwait, on values.
- EscrowAwait: one batch runs at a time, as one run of the dispatch job sends them (src/modules/jobs/index.ts:297-299); two overlapping batches, of which one undone could bring back or cut what the other wrote, are not modelled.
- AwaitBooks.StepKeeps: for the same reason, not for steps of two batches at once.
- EscrowRules.PayoutKeepsBooks: one call at a time, as in the other EscrowRules rows; overlapping calls are the AwaitBooks, AwaitRuns and AwaitOnce rows, where references can repeat.
- DepositTheorems.EmittedWithinBucket: a deposit that reuses the transaction hash of an earlier one credits its bucket twice for the events of one; such runs are left to BucketShowsAll and BooksNeverExceedChain.
- Reconcile.RunMirrors: the states of an outbox row between queued and confirmed, retries and lost receipts are not kept; calls do not overlap.
- DepositTheorems.CreditedStaysCanonical: order deposits only, because a pool row keeps the block it was first seen in; where a pool's credit sits is DepositHistory.CreditedIsBuried.
- AuctionBooks.ReconcileKeeps: the branch in which the payment stays unresolved; the other branch is the unpaid cancellation.

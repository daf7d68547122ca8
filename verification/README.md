# A verified model of the wallet's stateful protocols

This project models, in Dafny, the parts of grin-wallet whose correctness depends on several calls working
together, and proves what those parts promise. Every operation is written once as a function (what it computes)
and, where the wallet changes state step by step, again as a method proved equal to that function; the theorems
are lemmas about the functions, over all inputs and all runs.

`dafny verify dfyconfig.toml` checks everything.

## What is modelled

**The slate exchange** (`Scalars`, `Sums`, `SlateTypes`, `SlateSpec`, `Slates`, `SlateLaws`, `SigningLaws`,
`ExchangeSpec`, `Exchange`, `ExchangeGuards`, `ExchangeLaws`, `StandardRuns`, `InvoiceRuns`, `RepeatedPayments`,
`Retries`, `FinalisedElements`, `ExchangeFrames`, `SlateVersions`, `ExchangeWitnesses`). Two wallets build one
transaction: they swap a slate, add public keys and signature shares, strip each other's data and move their
blinding factors into the offset at different times. Scalars are integers modulo the order of secp256k1, a public
key is its discrete logarithm, a commitment is the pair of blinding factor and value. The main results say that a
standard run, a late-locked run, an invoice run whose payer stores nothing for the slate yet and an invoice a wallet
pays to itself all succeed and end in a transaction that balances under a verified kernel, whatever the two wallets
do in between, and say exactly when an invoice run with any other payer settles and when the books of an assembled
transaction balance. Whatever slate comes in, what is finalised is determined exactly: every share holds, the books
balance, and each input is spent as what its record says it is. Calls for one slate leave all others alone. Retried
finalisations consume a context once and choose inputs once. Writing a slate in version 4 and reading it back is the
identity exactly for plain kernels.

**The database and the scan** (`Bounds`, `Decimal`, `Digits`, `DbSpec`, `DbLaws`, `WalletDb`, `ScanLaws`,
`DestructiveScan`, `RestoreLaws`, `AccountLabels`, `KeyFreshness`, `StoreKeys`, `ChainScan`, `Batches`, `BatchScanLaws`,
`WalletUpdate`, `WalletWitnesses`). Records,
transaction log, log-id and child-index counters and accounts are kept consistent with a chain. The model follows
the scan from the pages the node delivers, through matching, restoring, un-spending, unlocking and deleting, to
the batches of an update, the marker persisted after each, and what a run of updates over a growing and reorganising
chain has repaired.

**The configuration registry** (`TomlMerge`, `TomlLaws`, `ConfigFile`, `Registry`, `RegistryLaws`, `RegistryRuns`,
`ConfigStore`).
A recursive merge writes a configuration into an existing file without losing what the user added, and a cache in
front of the file is read, updated and reloaded by any number of threads. The registry is a step system; its
theorems are about every run.

**Smaller pieces**: the split of a blinding factor over mixnet hops (`Mixnet`), the seed file and changing its
password (`SeedFile`), the store of private contexts (`ContextStore`), the queue of status messages
(`MessageQueue`), onion v3 addresses over Base32 (`Base32`, `Onion`, `OnionWitnesses`), the message of a payment proof
(`ProofMessage`) and the split of change (`ChangeSplit`).

## What does not hold unconditionally

Some promises are false of the code without a condition. In each case the model keeps the code as it is, proves the
condition in both directions, and shows an input that fails it:

- A slate survives version 4 exactly when its kernel is plain (`SlateVersions.FinalisedRoundTripIff`); a height-locked
  one does not (`ExchangeWitnesses.HeightLockedIsLost`).
- `repopulate_tx` skips context elements that have no record, so the books balance exactly when the commitments
  of the skipped elements add up to nothing (`StandardRuns.BalancesIffNothingMissing`,
  `InvoiceRuns.BalancesIffOutputIsNothing`); a lost coin unbalances them (`ExchangeWitnesses.LostRecordUnbalances`).
  So the sender's finalisation succeeds exactly when the log has the transaction, the fee covers what is still found
  and the rest adds up to nothing (`StandardRuns.ClosingIff`, `ExchangeWitnesses.LostRecordFails`).
- `process_invoice_tx` takes every context stored for the slate for the issuer's own and leaves the payer's inputs and
  change out of the offset. A payer that processed an invoice and has not locked may process it again; the run then
  settles exactly when what was left out adds up to nothing (`RepeatedPayments.InvoiceRunSettlesIff`,
  `RepeatedPayments.SecondPaymentSettlesIff`), which it does not in `ExchangeWitnesses.RetriedPaymentFails`.
- A scan repairs the wallet exactly when no unknown output has to be stored under the key of a record of another
  output (`ScanLaws.ScanRepairsIff`, `WalletWitnesses.ClashIsNotRepaired`).
- A scan that deletes unconfirmed records also deletes those whose output is on chain
  (`DestructiveScan.RecordSurvivesIff`, `WalletWitnesses.UnconfirmedOnChainIsDeleted`).
- A scan interrupted before it raises child indices leaves them behind exactly when a restored output reaches
  one, and scanning again does not help (`KeyFreshness.InterruptedScanSafeIff`,
  `KeyFreshness.InterruptedScanNotHealed`, `WalletWitnesses.CutScanReissues`).
- A scan registers found accounts under numbered labels and overwrites a label that is taken
  (`AccountLabels.ScanKeepsLabelsIff`, `WalletWitnesses.TakenLabelIsLost`).
- A user's scan moves the marker of the updates; there is never a gap below the marker exactly when no attempt skips
  an uncovered height (`Batches.NeverAGapIff`, `FormatWitnesses.LateScanLeavesGap`).
- A user's own key in a table written inline, at any depth, is lost by any save (`ConfigFile.OwnKeySurvivesIff`,
  `FormatWitnesses.InlineBridgeLosesKey`).
- The change split takes its remainder by the size of a part instead of the number of parts
  (`ChangeSplit.SplitAddsUpIff`, `ChangeSplit.SplitLoses`), so a selection meets the contract used in the exchange,
  `StandardRuns.Spends`, exactly under the same condition (`ChangeSplit.SpendsIff`).
- A bare onion address made of hexadecimal digits is not read back (`Onion.BareRoundTripIff`,
  `OnionWitnesses.HexKeyIsNotReadBack`); Base32 text whose blocks lose four bytes or more to padding makes the parser slice
  out of range (`Onion.SliceFailsIff`, `OnionWitnesses.PaddedStartFails`, `OnionWitnesses.PaddedEndFails`).
- The output of a mixnet swap can be locked exactly when its record has no position (`Mixnet.LocksSwappedIff`,
  `WalletWitnesses.RestoredRecordIsNotLocked`).

## Model

| member | source | states |
|---|---|---|
| Slates.Slate.RemoveOtherSigdata | libwallet/src/slate.rs:281-299 | Keeps exactly the caller's own entries, in order, and touches no other field. |
| Slates.Slate.AddParticipantInfo | libwallet/src/slate.rs:474-510 | The loop that collects other entries and recovers an earlier signature computes the one-entry list of `SlateLaws.AddParticipantKeepsOne`. |
| Slates.Slate.AdjustOffset | libwallet/src/slate.rs:513-540 | The offset loses the initial key and all input blinds and gains all output blinds of the context, once each, modulo the order. |
| Slates.Slate.AddTransactionElements | libwallet/src/slate.rs:303-333 | Adds the elements and resets the kernel to the slate's features, or fails and changes nothing. |
| Slates.Slate.VerifyPartSigs | libwallet/src/slate.rs:573-604 | Accepts exactly if every share that is present verifies over the sums of all participants. |
| Slates.Slate.AttachShare | libwallet/src/slate.rs:405-413 | The share goes to the first matching entry among the announced number of participants; too short a list is an index error. |
| Slates.Slate.FillRound2 | libwallet/src/slate.rs:381-415 | Existing shares are checked before the own share is computed over the current sums and attached. |
| Slates.Slate.FinalizeSignature | libwallet/src/slate.rs:607-628 | The sum of the shares, returned only if it verifies against the sum of the public excesses. |
| Slates.Slate.FinalizeTransaction | libwallet/src/slate.rs:637-681 | Installs excess sum and signature only after fee, kernel and balance checks; otherwise leaves the slate alone. |
| Slates.Slate.Finalize | libwallet/src/slate.rs:419-425 | Signature first, then transaction; a failure of either leaves the slate alone. |
| Slates.Validate | libwallet/src/slate.rs:670-677 | Accepts exactly the bodies without cut-through whose outputs minus inputs plus fee equal kernel excess plus offset. |
| SlateLaws.AddParticipantKeepsOne | libwallet/src/slate.rs:474-510 | One entry per key pair, at the end; all other entries unchanged and in order; an attached signature is never lost. |
| SlateLaws.SigningIgnoresOrder | libwallet/src/slate.rs:428-459 | Nonce sum, key sum and message, so the challenge, depend only on the multiset of participants, not on order or shares. |
| SlateLaws.AggregateAcceptedIff | libwallet/src/slate.rs:607-628 | With valid shares from all, the aggregate is accepted if and only if the nonces inside the shares add up to the announced ones. |
| SlateLaws.HonestSharesAggregate | libwallet/src/slate.rs:573-628 | Shares computed by their owners over one message always aggregate to a signature valid for the sum of excesses. |
| SigningLaws.MessageBindsIff | libwallet/src/slate.rs:350-379 | Two slates have the same kernel message if and only if features, fee and argument are the same. |
| SigningLaws.MessageIff | libwallet/src/slate.rs:350-379 | Which features with which arguments a wallet can sign for. |
| SigningLaws.SharesCheckedIff | libwallet/src/slate.rs:573-604 | The check passes if and only if every share present satisfies the signature equation over the sums of all nonces and keys and the message. |
| SigningLaws.OwnShareLaw | libwallet/src/slate.rs:381-415 | A wallet adds a share only if all shares present hold; its own is valid, goes to its first entry among the announced number, and nothing else changes. |
| SigningLaws.BadShareRefused | libwallet/src/slate.rs:381-425 | One bad share, and nobody adds a share, aggregates or finalises. |
| SigningLaws.ForgedShareRefused | libwallet/src/slate.rs:381-396 | A concrete forged share is refused. |
| SigningLaws.CancellingErrorsRefused | libwallet/src/slate.rs:419-425 | Two bad shares whose sum is right are refused all the same. |
| SigningLaws.AggregateIff | libwallet/src/slate.rs:607-628 | Aggregation succeeds if and only if all shares hold and their sum signs for the sums. |
| SigningLaws.MissingShareRefusedIff | libwallet/src/slate.rs:607-628 | With some good shares and some missing, aggregation succeeds if and only if what is missing adds up to nothing. |
| SigningLaws.FinalizeIff | libwallet/src/slate.rs:419-425 | For every slate: finalisation succeeds if and only if shares, aggregate, fee and books hold, and then installs exactly the sum of the keys and the aggregate. |
| SlateVersions.ListInputs | libwallet/src/slate.rs:795-816 | The list written for a set of inputs holds each input once and nothing else. |
| SlateVersions.ListOutputs | libwallet/src/slate.rs:795-816 | The same for outputs, with their proofs. |
| SlateVersions.CommitmentsOf | libwallet/src/slate.rs:795-816 | Inputs, then outputs: a list that determines the body. |
| SlateVersions.ToV4 | libwallet/src/slate.rs:742-793 | The written slate encodes every field of the slate. |
| SlateVersions.ReadCommitments | libwallet/src/slate.rs:987-1011 | The reading loop separates inputs from outputs by the presence of a proof. |
| SlateVersions.RecomputedKernel | libwallet/src/slate.rs:948-985 | The kernel read with any transaction, complete or not. |
| SlateVersions.RoundTrip | libwallet/src/slate.rs:742-816 | Writing and reading keeps every field, all inputs and all outputs; only the kernel and the transaction's offset are recomputed. |
| SlateVersions.FinalisedRoundTripIff | libwallet/src/slate.rs:902-1012 | A finalised slate comes back whole, kernel included, if and only if its kernel is plain. |
| Exchange.Wallet.constructor | libwallet/src/backend.rs:123-168 | A new wallet has no records, contexts or transactions. |
| Exchange.Wallet.BuildSendTx | libwallet/src/internal/selection.rs:42-120 | Amount, fee and change of the slate and the context that remembers them; a fee other than the fixed one is refused. |
| Exchange.Wallet.RepopulateTx | libwallet/src/internal/selection.rs:742-790 | Amount and fee from the context, its known inputs and outputs, its participant entry and the slate's offset; elements without a record are skipped. |
| Exchange.Wallet.CompleteTx | libwallet/src/internal/tx.rs:305-334 | Signs with the initial keys for an invoice context that was merged, with the current ones otherwise, then finalises. |
| Exchange.Wallet.AddInputsToSlate | libwallet/src/internal/tx.rs:144-209 | Selection, participant entry, and a share only when responding. |
| Exchange.Wallet.AddOutputToSlate | libwallet/src/internal/tx.rs:212-253 | Output, record and log entry first, then participant entry and, when responding, a share; a late failure keeps the record. |
| Exchange.Wallet.InitSendTx | libwallet/src/api_impl/owner.rs:523-640 | Opens a standard exchange; the context is stored and the body dropped from the returned slate. |
| Exchange.Wallet.InitSendTxLate | libwallet/src/internal/tx.rs:256-302 | Opens an exchange with a fixed fee and no inputs chosen yet. |
| Exchange.Wallet.StripForReturn | libwallet/src/api_impl/foreign.rs:126-130 | A responder returns only its own entry, no amount, and the next state. |
| Exchange.Wallet.ReceiveTx | libwallet/src/api_impl/foreign.rs:57-134 | The recipient's step, with its refusals of expired and already received slates. |
| Exchange.Wallet.IssueInvoiceTx | libwallet/src/api_impl/owner.rs:646-695 | The step that asks for an amount. |
| Exchange.Wallet.ProcessInvoiceTx | libwallet/src/api_impl/owner.rs:698-816 | The payer's step; an invoice of its own has its context merged and its elements left out of the offset for now. |
| Exchange.Wallet.TxLockOutputs | libwallet/src/api_impl/owner.rs:819-845 | Records change and log entry, or fails as a whole when an input has no record. |
| Exchange.Wallet.FinalizeTx | libwallet/src/api_impl/foreign.rs:137-238 | The final step in all its branches, with a failure possible at every write. |
| Exchange.Wallet.FinalizeInvoiceTx | libwallet/src/api_impl/foreign.rs:150-170 | The issuer's branch. |
| Exchange.Wallet.FinalizeStandardTx | libwallet/src/api_impl/foreign.rs:214-230 | The sender's branch. |
| Exchange.Wallet.LateLockTx | libwallet/src/api_impl/foreign.rs:175-212 | Inputs chosen at the agreed fee, stored and locked before finalising. |
| Exchange.Wallet.ConcludeTx | libwallet/src/api_impl/foreign.rs:221-237 | Log entry updated, context deleted, state advanced; what was deleted stays deleted if a later write fails. |
| ExchangeGuards.FirstMessages | libwallet/src/api_impl/owner.rs:523-695 | Every field of what a sender or issuer sends out first. |
| ExchangeGuards.FirstContexts | libwallet/src/api_impl/owner.rs:523-695 | What it keeps for later, and that nothing else changes. |
| ExchangeGuards.ReceiveGuards | libwallet/src/api_impl/foreign.rs:67-97 | Expired slates and slates received before are refused and change nothing; past that, output and log entry are recorded even if the call fails. |
| ExchangeGuards.ReceivedAtMostOnce | libwallet/src/api_impl/foreign.rs:84-97 | Over any run of calls for one slate at most one succeeds and at most one output key is recorded. |
| ExchangeGuards.ProcessGuards | libwallet/src/api_impl/owner.rs:709-738 | Expired, sent and cancelled invoices are refused; a failed call changes nothing and a success stores one context only. |
| ExchangeGuards.ProcessedContext | libwallet/src/api_impl/owner.rs:752-800 | The context a payer stores, with what it found stored for the slate merged in. |
| ExchangeGuards.LockedIsNotPaidAgain | libwallet/src/api_impl/owner.rs:731-738 | After locking, the same invoice is never answered again. |
| ExchangeGuards.LockLaw | libwallet/src/api_impl/owner.rs:819-845 | Locking succeeds if and only if there is a context and every input has a record; it records the change as plain outputs and the sent transaction, and nothing else. |
| ExchangeGuards.FinalizeGuards | libwallet/src/api_impl/foreign.rs:147-149 | Without a context, expired, or in another state, nothing happens. |
| ExchangeGuards.InvoiceGuards | libwallet/src/api_impl/foreign.rs:150-170 | The issuer's branch succeeds only for a received invoice and without a failing write; when the context goes and when it stays. |
| ExchangeGuards.StandardGuards | libwallet/src/api_impl/foreign.rs:214-230 | The same for the sender's branch and sent transactions. |
| ExchangeGuards.LateLockGuards | libwallet/src/api_impl/foreign.rs:175-212 | A late selection must keep the agreed fee and find every coin; what is stored and recorded then, and after each failure. |
| FinalisedElements.InputsAre | libwallet/src/internal/selection.rs:766-779 | The inputs put in are those of the elements with a record, each with its commitment and coinbase exactly if the record says so. |
| FinalisedElements.OutputsAre | libwallet/src/internal/selection.rs:780-785 | The outputs put in are plain, commit to the elements with a record, and carry their proofs. |
| FinalisedElements.FinalizedElements | libwallet/src/api_impl/foreign.rs:137-238 | For every slate, context and wallet: the inputs and outputs of a finalised transaction are those that came in and exactly these. |
| ExchangeFrames.CallFrame | libwallet/src/api_impl/foreign.rs:57-238 | No call touches another slate's context or log entries, forgets a record or makes one coinbase. |
| ExchangeFrames.OthersKeep | libwallet/src/api_impl/owner.rs:523-845 | Over any run of calls for other slates, context and log entries of this one stay. |
| ExchangeFrames.RunSettlesAmongOthers | libwallet/src/api_impl/foreign.rs:57-238 | A standard run settles with any calls for other slates in between, in both wallets. |
| ExchangeFrames.PlainStaysPlain | libwallet/src/internal/selection.rs:766-779 | Over any run of calls a plain record stays and stays plain. |
| ExchangeFrames.ReceivedIsSpentPlain | libwallet/src/internal/selection.rs:766-779 | An output received in one exchange is spent as a plain input in any later one. |
| ExchangeFrames.ChangeIsSpentPlain | libwallet/src/internal/selection.rs:766-779 | So is change recorded by locking. |
| ExchangeLaws.InputSums | libwallet/src/internal/selection.rs:766-779 | The inputs a wallet finds again add up, in blind, value and number, to the context elements that have a record. |
| ExchangeLaws.OutputSums | libwallet/src/internal/selection.rs:780-785 | The same for outputs. |
| ExchangeLaws.ResponderSigns | libwallet/src/api_impl/foreign.rs:97-111 | The responder's share verifies over both parties' keys. |
| ExchangeLaws.FinalizerCompletesIff | libwallet/src/internal/tx.rs:305-334 | After stripping and re-adding, in the other order, the two shares aggregate; finalisation succeeds if and only if fee, cut-through and balance are accepted, and the result then settles. |
| StandardRuns.BalancesIffNothingMissing | libwallet/src/internal/selection.rs:742-790 | The assembled transaction balances if and only if the commitments of context elements without a record add up to nothing. |
| StandardRuns.ClosingIff | libwallet/src/api_impl/foreign.rs:214-230 | With context and answer of one exchange, the sender's finalisation succeeds, and then settles what is still found, if and only if the log has the sent transaction, the fee covers what is found and what is not found adds up to nothing. |
| StandardRuns.OffsetCancels | libwallet/src/slate.rs:513-540 | Keys subtracted into the offset by two wallets at two times cancel against the sum of excesses. |
| StandardRuns.StandardRunSettles | libwallet/src/api_impl/foreign.rs:57-238 | Opening, locking, answering and finalising succeed and end in a balanced transaction with a verified kernel and exactly the agreed inputs and outputs. |
| StandardRuns.LateLockedRunSettles | libwallet/src/api_impl/foreign.rs:171-238 | The same when inputs are chosen only at the end. |
| RepeatedPayments.InvoiceRunSettlesIff | libwallet/src/api_impl/owner.rs:646-816 | The same for an invoice issued by one wallet and paid by another: it settles if and only if the payer stored no context for the slate or the elements left out of the offset add up to nothing. |
| RepeatedPayments.SecondPaymentSettlesIff | libwallet/src/api_impl/owner.rs:698-816 | Every guard lets a payer that has not locked pay again; with the same coins the run settles if and only if change and inputs have the same blinding factor. |
| InvoiceRuns.MergedPayingStep | libwallet/src/api_impl/owner.rs:768-800 | What a payer with any stored context sends back: only its key is in the offset. |
| InvoiceRuns.InvoiceClosingIff | libwallet/src/api_impl/foreign.rs:150-170 | The issuer's finalisation succeeds if and only if the assembled books are accepted. |
| InvoiceRuns.BalancesIffOutputIsNothing | libwallet/src/internal/selection.rs:780-785 | With the record of the issuer's output gone, the books balance if and only if that output's commitment is nothing. |
| InvoiceRuns.SelfInvoiceRunSettles | libwallet/src/api_impl/owner.rs:768-800 | The same for an invoice paid by its issuer, whose two contexts are merged, provided the two drawn keys and nonces differ. |
| InvoiceRuns.CoincidingKeysFail | libwallet/src/internal/tx.rs:305-334 | When key or nonce of the two merged contexts coincide, the wrong keys are chosen and completing fails unless the missing share is worth nothing. |
| Retries.OneAttempt | libwallet/src/api_impl/foreign.rs:137-238 | One finalisation attempt leaves the context, chooses its inputs, or consumes it; only a success yields an offset, adjusted once. |
| Retries.OnlyForward | libwallet/src/api_impl/foreign.rs:147-238 | Over any retries a context never goes back a stage. |
| Retries.ConsumedAtMostOnce | libwallet/src/api_impl/foreign.rs:147-238 | Once the context is consumed every later attempt fails and changes nothing. |
| Retries.ChosenAtMostOnce | libwallet/src/api_impl/foreign.rs:175-212 | A stored late selection is the one all later attempts use; no other is stored. |
| Retries.SuccessAdjustsOnce | libwallet/src/api_impl/foreign.rs:147-238 | A success after failures adjusts the offset of the slate it was given once, by the stored context. |
| Decimal.DecInjective | impls/src/lifecycle/seed.rs:121-126 | Different numbers are written differently, so numbered names never coincide. |
| WalletDb.WalletBackend.constructor | libwallet/src/backend.rs:123-168 | A new database: the default account only. |
| WalletDb.WalletBackend.NextChild | libwallet/src/backend.rs:467-483 | Issues the current account's next key and moves its index on. |
| WalletDb.WalletBackend.NextTxLogId | libwallet/src/backend.rs:646-657 | Issues a parent's next log id and moves the counter on. |
| WalletDb.WalletBackend.NewAcctPath | libwallet/src/internal/keys.rs:61-102 | A new account lies one above the highest first component; a taken label is refused. |
| WalletDb.WalletBackend.CancelTxLogEntry | libwallet/src/internal/scan.rs:363-405 | Cancels the entry a record points to, if there is one. |
| WalletDb.WalletBackend.UnspendOutputs | libwallet/src/internal/scan.rs:552-570 | Record after record un-spent and its transaction cancelled. |
| WalletDb.WalletBackend.RestoreChunk | libwallet/src/internal/scan.rs:308-358 | One chunk continues the restoration of the chunks before it. |
| WalletDb.WalletBackend.RestoreMissingOutputs | libwallet/src/internal/scan.rs:295-360 | Restoring in chunks of a thousand is restoring one by one, and yields the largest child number found under each parent. |
| WalletDb.WalletBackend.DeleteOutputs | libwallet/src/internal/scan.rs:606-626 | Record after record deleted and its transaction cancelled. |
| WalletDb.WalletBackend.Classify | libwallet/src/internal/scan.rs:532-550 | One pass sorts chain outputs into missing, wrongly spent and locked by their first matching record. |
| WalletDb.WalletBackend.RestorePath | libwallet/src/internal/scan.rs:634-652 | One found parent is registered under the next label, if new, and its index raised past what was found. |
| WalletDb.WalletBackend.RestorePaths | libwallet/src/internal/scan.rs:629-652 | Unknown parents become numbered accounts and child indices are raised, in some order of the found parents. |
| WalletDb.WalletBackend.Scan | libwallet/src/internal/scan.rs:466-668 | The whole repair step, in both modes. |
| DbLaws.FindIff | libwallet/src/internal/scan.rs:536-538 | Looking an output up finds a record if and only if some record has its commitment. |
| DbLaws.HoldsCommitIff | libwallet/src/internal/updater.rs:77-88 | A record without a stored commitment stands for the one derived from its key and value. |
| DbLaws.UnspendLaw | libwallet/src/internal/scan.rs:552-570 | Exactly the named records become unspent, and nothing else of them changes. |
| DbLaws.RestoreLaw | libwallet/src/internal/scan.rs:308-358 | Exactly the keys of the restored outputs are written. |
| DbLaws.RestoredEach | libwallet/src/internal/scan.rs:308-358 | Each restored output has a record of its own pointing to a log entry of its own that was not there before. |
| ScanLaws.RaiseLaw | libwallet/src/internal/scan.rs:629-652 | Each found parent's index ends one above the largest child found, or stays if it was higher; nothing else moves. |
| ScanLaws.FoundExactly | libwallet/src/internal/scan.rs:317-355 | A parent is found if and only if something was restored under it, with the largest child number there. |
| ScanLaws.ScanOutputs | libwallet/src/internal/scan.rs:526-584 | What a scan leaves under every key. |
| ScanLaws.ScanRepairsIff | libwallet/src/internal/scan.rs:526-584 | After a scan every output on chain has exactly one record, not spent, and records not wrongly spent are unchanged, if and only if no unknown output clashes with a stored key. |
| ScanLaws.RepairedIsFixpoint | libwallet/src/internal/scan.rs:526-652 | A second scan of the same chain changes no output, log entry, counter or account. |
| ScanLaws.ScanConservesValue | libwallet/src/internal/scan.rs:308-358 | The log gains in credit exactly what the restored outputs are worth, each under its own fresh confirmed entry. |
| DestructiveScan.DestructiveOutcome | libwallet/src/internal/scan.rs:586-626 | What becomes of every record in the mode that deletes unconfirmed ones. |
| DestructiveScan.RecordSurvivesIff | libwallet/src/internal/scan.rs:606-626 | The record of an output on chain survives if and only if it was not unconfirmed, and is then neither spent nor locked. |
| RestoreLaws.ScanRestores | libwallet/src/internal/scan.rs:321-350 | The record of a restored output says everything the chain says, and its own log entry is confirmed, credits its value and counts one output. |
| RestoreLaws.ScanCancels | libwallet/src/internal/scan.rs:361-404 | Every old log entry stays; sent and received ones become cancelled exactly when a record the scan un-spends, unlocks or deletes names them. |
| RestoreLaws.ScanRaises | libwallet/src/internal/scan.rs:629-651 | Child indices go up to one more than the largest unknown child number, or not at all. |
| RestoreLaws.ScanConservesWorth | libwallet/src/internal/scan.rs:526-626 | Without clashes the records gain exactly the worth of unknown outputs and lose that of deleted unconfirmed records. |
| KeyFreshness.NextChildFresh | libwallet/src/backend.rs:467-483 | Under the invariant the next key was never issued and no stored output uses it. |
| KeyFreshness.ChildrenCount | libwallet/src/backend.rs:467-483 | Successive keys of an account count on without a gap and change nothing else. |
| KeyFreshness.NextLogIdFresh | libwallet/src/backend.rs:646-686 | Under the invariant the next log id of every parent is free. |
| KeyFreshness.LogIdsCount | libwallet/src/backend.rs:646-664 | So do successive log ids of a parent. |
| KeyFreshness.ScanningKeeps | libwallet/src/internal/scan.rs:629-652 | A completed scan in either mode keeps the invariant: stored keys and issued keys stay below their parent's index. |
| KeyFreshness.StepKeeps | libwallet/src/internal/keys.rs:61-116 | So does every other step: switching, creating accounts, issuing, storing, deleting, logging. |
| KeyFreshness.NothingIsReused | libwallet/src/backend.rs:467-483 | Over any run issued keys are distinct, the next key and the next log ids are new, and no two labels share a path. |
| KeyFreshness.InterruptedScanSafeIff | libwallet/src/internal/scan.rs:577-651 | A scan cut short after any restored output leaves stored keys below their index if and only if none of the restored reaches it. |
| KeyFreshness.InterruptedScanNotHealed | libwallet/src/internal/scan.rs:577-651 | Scanning again after such a cut changes nothing, so the index stays behind. |
| Digits.DigitsReadBack | libwallet/src/backend.rs:759-764 | A number that fits is determined by its digits. |
| Digits.DigitsRewritten | util/src/ov3.rs:85-87 | Digits are determined by the number they write. |
| Digits.LeadingDigit | libwallet/src/backend.rs:760-764 | The first digit counts most: numbers are written big-endian. |
| StoreKeys.StoredKeysIff | libwallet/src/backend.rs:556-602 | Byte keys of records coincide if and only if identifier and position do, with or without a position; byte keys of log entries if and only if parent and id do. |
| StoreKeys.KeyLayout | libwallet/src/backend.rs:760-764 | The bytes of a key: depth, four components with unused ones zero, then the number, all big-endian. |
| ChainScan.CollectChainOutputs | libwallet/src/internal/scan.rs:234-289 | The loop over pages ends and returns what one unpaged pass over the range returns. |
| ChainScan.CollectedExactly | libwallet/src/internal/scan.rs:247-290 | That is exactly the wallet's outputs at positions in the range, ascending and without repetition. |
| ChainScan.BetweenSplits | libwallet/src/internal/scan.rs:273-288 | Adjacent ranges collect what their union collects, in the same order. |
| Batches.BatchesTile | libwallet/src/api_impl/owner.rs:1192-1195 | Batches are consecutive, not empty, at most 10,001 heights long, and reach from start to tip. |
| Batches.EachHeightOnce | libwallet/src/api_impl/owner.rs:1192-1195 | A height is in exactly one batch if and only if it lies from start to tip. |
| Batches.CommittedLaw | libwallet/src/api_impl/owner.rs:1192-1220 | After any number of committed batches exactly the heights from the start to the marker have been added to those covered. |
| Batches.FullUpdate | libwallet/src/api_impl/owner.rs:1085-1220 | An uninterrupted update ends with the marker at the tip and rescans the whole window below the old marker. |
| Batches.UpdateCovers | libwallet/src/api_impl/owner.rs:1162-1220 | A full update covers exactly the heights from 2880 blocks below the marker, or below the tip for a wallet that needs no scan, to the tip. |
| Batches.MarkerMeansCovered | libwallet/src/api_impl/owner.rs:1162-1220 | Over any updates, tips and interruptions, every height from where any attempt began up to the marker has been covered. |
| Batches.AttemptKeepsGaplessIff | libwallet/src/api_impl/owner.rs:1015-1043 | One update or user's scan leaves no gap below the marker if and only if it skips no uncovered height; an update of a scanned wallet never does. |
| Batches.NeverAGapIff | libwallet/src/api_impl/owner.rs:1015-1043 | Over any run that mixes updates and user's scans there is never a gap if and only if no attempt skips an uncovered height. |
| AccountLabels.RaisedLabels | libwallet/src/internal/scan.rs:629-644 | What each label stands for after a scan registered the accounts it found. |
| AccountLabels.ScanKeepsLabelsIff | libwallet/src/internal/keys.rs:104-125 | Every registered label keeps its path over a scan in either mode if and only if none of the numbered labels the scan uses is taken. |
| BatchScanLaws.ScanKeepsHealthy | libwallet/src/internal/scan.rs:526-584 | Scanning part of a chain keeps unique commitments, consistent keys and log ids, and the absence of clashes for all outputs the wallet meets, also on other states of the chain. |
| BatchScanLaws.RepairedStays | libwallet/src/internal/scan.rs:526-584 | An output repaired by one batch stays repaired when others are scanned. |
| WalletUpdate.BatchIsPart | libwallet/src/internal/scan.rs:500-518 | What is collected for a batch is exactly the wallet's outputs at its heights. |
| WalletUpdate.Updater.CommitBatch | libwallet/src/api_impl/owner.rs:1194-1220 | One batch extends the repaired heights to its end and moves the marker there. |
| WalletUpdate.Updater.UpdateWalletState | libwallet/src/api_impl/owner.rs:1162-1220 | However many batches are committed, if the heights from any given one up to the start were repaired before, every output of the wallet from there to the saved marker then has exactly one record, not spent. |
| WalletUpdate.Updater.RunUpdates | libwallet/src/api_impl/owner_updater.rs:127-157 | Over any run of updates, each with its own chain and tip and interrupted after any batch, that stays so for the chain last scanned, as long as no reorganisation reaches below the start of the next update. |
| TomlMerge.RemoveKeys | config/src/config.rs:558-567 | Removes exactly the given keys. |
| TomlMerge.Update | config/src/config.rs:551-603 | The recursive update with its loop over keys computes the merge whose laws follow. |
| TomlMerge.UpdateKey | config/src/config.rs:569-602 | One key: descend where both sides are standard tables, replace or insert otherwise. |
| TomlLaws.OldKeys | config/src/config.rs:558-567 | In every table on both sides, an old key the new configuration lacks is gone with all beneath it if the old configuration knew it, and untouched if not. |
| TomlLaws.NewKeys | config/src/config.rs:569-602 | A new key is taken over with all beneath it unless it names a standard table on both sides. |
| TomlLaws.MergeReadsBackIff | config/src/config.rs:546-627 | Read through the schema the merged file equals the new configuration if and only if no schema field is left over. |
| TomlLaws.FixpointIff | config/src/config.rs:546-627 | Merging changes nothing if and only if the file already says what the configuration says. |
| TomlLaws.MergeIdempotent | config/src/config.rs:546-627 | Saving twice is saving once, also when the known keys are read back from the written file. |
| ConfigFile.SavedReadsBack | config/src/config.rs:526-627 | What is saved over any readable file is what the next load returns. |
| ConfigFile.ForeignSurvives | config/src/config.rs:546-627 | A user's own key keeps everything under it as long as its tables stay standard tables. |
| ConfigFile.OwnKeySurvivesIff | config/src/config.rs:575-600 | Saving the configuration just read keeps a user's own key, at any depth, if and only if no table on the way to it is written inline. |
| RegistryLaws.StepKeeps | config/src/config.rs:78-139 | Every step keeps the invariant, for any number of threads. |
| RegistryLaws.CacheIsFile | config/src/config.rs:51-139 | Whenever no save is between rename and publish, a cached configuration equals the file. |
| RegistryLaws.NoUpdateLost | config/src/config.rs:131-139 | The file reads as all edits that took effect applied in the order of the save lock. |
| RegistryLaws.SuccessIsKept | config/src/config.rs:706-736 | An update whose rename happened is in the history from then on. |
| RegistryLaws.NoStaleRead | config/src/config.rs:118-128 | A reader never gets a configuration older than the last update completed before it asked. |
| RegistryLaws.StaleLoadIsHarmless | config/src/config.rs:51-63 | A getter with an outdated load finds the cache occupied or a publish pending. |
| RegistryLaws.UserKeysSurvive | config/src/config.rs:706-736 | Over any run a user's own keys stay in the file as long as every saved configuration keeps their tables. |
| RegistryRuns.UpdateCanComplete | config/src/config.rs:131-139 | Whenever the lock is free an update can run to its end, with exactly this effect on file, cache and history. |
| RegistryRuns.UpdateCanFail | config/src/config.rs:706-736 | It can fail before the file is replaced and leaves nothing behind. |
| RegistryRuns.ReloadCanComplete | config/src/config.rs:110-115 | A reload can put what the file says into the cache. |
| RegistryRuns.GetterCanComplete | config/src/config.rs:118-128 | A getter that finds no entry can enter what the file says. |
| ConfigStore.Notify | config/src/config.rs:90-99 | Every listener is told, each reachable one by one signal on its channel; exactly the unreachable ones are collected. |
| ConfigStore.ConfigRegistry.AddListener | config/src/config.rs:141-150 | Listeners are added to cached paths only. |
| ConfigStore.ConfigRegistry.RemoveListener | config/src/config.rs:152-161 | Removes one listener of one path. |
| ConfigStore.ConfigRegistry.CacheLoaded | config/src/config.rs:51-63 | A cached configuration wins over a loaded one. |
| ConfigStore.ConfigRegistry.SetGlobal | config/src/config.rs:78-107 | Replaces the entry of this path only, signals every reachable listener once and keeps exactly those. |
| ConfigStore.ConfigRegistry.GetGlobal | config/src/config.rs:118-128 | From the cache if possible, else from the file into the cache; errors leave the cache alone. |
| ConfigStore.ConfigRegistry.ReloadGlobal | config/src/config.rs:110-115 | Afterwards cache and file agree and all listeners of the path have been told, none is lost but the unreachable, and other paths are untouched; errors change nothing and tell nobody. |
| ConfigStore.ConfigRegistry.UpdateGlobal | config/src/config.rs:131-139 | Success means file and cache hold the edited configuration and all listeners of the path have been told, with other paths untouched; failure changes nothing and tells nobody. |
| Mixnet.ApplyAllSums | libwallet/src/api_impl/owner.rs:1477-1513 | Servers acting in turn add up their excesses and fees. |
| Mixnet.CreateHops | libwallet/src/api_impl/owner.rs:1477-1513 | With enough value the hops lead exactly to the new output, for every choice of random excesses, if and only if there is a server or the blinding factor is unchanged; only the last carries the proof. |
| Mixnet.LockOutput | libwallet/src/api_impl/owner.rs:1524-1531 | The record looked up by key alone is locked, or nothing changes. |
| Mixnet.LocksSwappedIff | libwallet/src/api_impl/owner.rs:1524-1531 | That locks the swapped output if and only if its record has no position. |
| SeedFile.SeedDir.FreeBackupName | impls/src/lifecycle/seed.rs:114-126 | The search ends on every directory and finds the first candidate no file has. |
| SeedFile.SeedDir.BackupSeed | impls/src/lifecycle/seed.rs:114-133 | The seed file moves to that name and no other file changes, or nothing happens. |
| SeedFile.SeedDir.WriteSeed | impls/src/lifecycle/seed.rs:199-204 | Creating and filling the file, either of which may be the last thing to happen. |
| SeedFile.SeedDir.InitFile | impls/src/lifecycle/seed.rs:169-205 | Refuses an existing seed file; otherwise succeeds exactly with a good phrase and a complete write. |
| SeedFile.SeedDir.DeleteSeedFile | impls/src/lifecycle/seed.rs:241-254 | Deletes the seed file, if there is one, and nothing else; no seed is lost if and only if another file holds it. |
| SeedFile.SeedDir.RecoverFromPhrase | impls/src/lifecycle/seed.rs:135-167 | Succeeds exactly if backup, words and write do; the old seed file is moved to a free name before the words are looked at, so no seed is ever lost; every other file is kept. |
| SeedFile.SeedDir.ChangePassword | impls/src/lifecycle/default.rs:313-363 | At every point, after any failure or crash, some file opens with the old or the new password to the same seed; success means the seed file opens to that seed with the new password and no longer with another old one; all other files are kept. |
| SeedFile.SeedDir.Confirm | impls/src/lifecycle/default.rs:349-362 | The backup is dropped if and only if the new file opens to the same seed. |
| SeedFile.WhileAside | impls/src/lifecycle/default.rs:331-346 | Whatever the new file looks like, the backup still opens with the old password. |
| ContextStore.ApplyMasks | libwallet/src/backend.rs:733-737 | The loop masks every byte of both secrets with its own mask. |
| ContextStore.MaskedTwice | libwallet/src/backend.rs:368-371 | Masking twice is the identity. |
| ContextStore.ReadChunks | libwallet/src/types.rs:904-923 | Chunks within any limit give what one unlimited read gives. |
| ContextStore.ReadBytesLenPrefix | libwallet/src/types.rs:899-924 | The result does not depend on the reader's limit. |
| ContextStore.WrittenParses | libwallet/src/types.rs:489-504 | Writer and reader refuse the same sizes, and what is written is read back. |
| ContextStore.PrivateContexts.SavePrivateContext | libwallet/src/backend.rs:729-742 | A saved context is what a load for its slate yields from then on; other slates are not affected. |
| ContextStore.PrivateContexts.GetPrivateContext | libwallet/src/backend.rs:353-374 | A load with any reader limit yields what was saved. |
| ContextStore.PrivateContexts.DeletePrivateContext | libwallet/src/backend.rs:745-750 | Deletes one slate's context and no other. |
| MessageQueue.StatusQueue.Receive | libwallet/src/api_impl/owner_updater.rs:61-70 | Insert at the front and trim to the bound. |
| MessageQueue.StatusQueue.GetUpdaterMessages | api/src/owner.rs:2168-2172 | Splits the oldest messages off. |
| MessageQueue.QueueSizes | libwallet/src/api_impl/owner_updater.rs:61-70 | Only beyond ten thousand messages is the oldest dropped, and a request gets as many of the oldest as it asks for. |
| MessageQueue.NewestWindow | libwallet/src/api_impl/owner_updater.rs:61-70 | For every interleaving the queue is the newest stretch of the history, newest first and bounded, and deliveries are disjoint earlier stretches. |
| MessageQueue.HistoryIff | api/src/owner.rs:2168-2172 | Deliveries followed by the queue are the whole history if and only if nothing was trimmed; the count of lost messages is the count trimmed. |
| Base32.RoundTrip | util/src/ov3.rs:85-87 | Decoding an encoding gives the bytes back. |
| Base32.DecodedLength | util/src/ov3.rs:134-144 | Well-formed text decodes to five bytes a block, less what the padding of its blocks costs. |
| Base32.AlphabetIff | util/src/ov3.rs:85-87 | Exactly the characters of the alphabet are values, each the one at its place. |
| Onion.ToOv3Str | util/src/ov3.rs:72-87 | Key, checksum and version, encoded in lower case. |
| Onion.Parse | util/src/ov3.rs:104-155 | The parser as it rewrites its input. |
| Onion.AddressLength | util/src/ov3.rs:72-87 | Every address has 56 characters, small letters and the digits 2 to 7. |
| Onion.AddressInjective | util/src/ov3.rs:72-87 | Different keys have different addresses. |
| Onion.AcceptedIff | util/src/ov3.rs:101-156 | An input that is not hexadecimal is accepted for a key if and only if it normalises to that key's address. |
| Onion.AllFormsRead | util/src/ov3.rs:118-128 | In any case, with either scheme or none and with or without the suffix, an address parses to its key unless the input is hexadecimal. |
| Onion.HexIsKeyIff | util/src/ov3.rs:105-116 | Hexadecimal input is a key if and only if it has 32 bytes. |
| Onion.HttpRoundTrip | util/src/ov3.rs:90-92 | The form with scheme and suffix always parses to the key. |
| Onion.BareRoundTripIff | util/src/ov3.rs:104-116 | The bare address parses to the key if and only if it does not consist of hexadecimal digits. |
| Onion.SliceFailsIff | util/src/ov3.rs:134-144 | Taking 32 bytes of the decoded text fails if and only if the text is well formed and its blocks lose at least four bytes to padding. |
| ProofMessage.ReadBytes | libwallet/src/internal/tx.rs:466-473 | The byte loop reads a slice, or fails at the end of the message. |
| ProofMessage.Decode | libwallet/src/internal/tx.rs:461-480 | The decoder with its failures. |
| ProofMessage.MessageLayout | libwallet/src/internal/tx.rs:449-458 | Amount in eight bytes, most significant first, commitment, address. |
| ProofMessage.DecodesIff | libwallet/src/internal/tx.rs:449-480 | A message, whatever follows it, decodes to its parts if and only if its address is a point. |
| ProofMessage.MessagesDifferIff | libwallet/src/internal/tx.rs:449-458 | Two payments have the same message if and only if they are the same. |
| ChangeSplit.SplitChange | libwallet/src/internal/selection.rs:616-642 | All outputs but the last get equal parts; fewer coins than outputs divide by zero. |
| ChangeSplit.SplitAddsUpIff | libwallet/src/internal/selection.rs:626-635 | The outputs add up to the change if and only if what does not divide evenly is smaller than one part. |
| ChangeSplit.SplitLoses | libwallet/src/internal/selection.rs:626-635 | Ten split over four outputs adds up to eight. |
| ChangeSplit.SpendsIff | libwallet/src/internal/selection.rs:597-642 | A selection whose change is split this way covers amount, fee and change if and only if that condition holds. |
| ExchangeWitnesses.HeightLockedIsLost | libwallet/src/slate.rs:972-983 | A height-locked slate that finalises and comes back changed. |
| ExchangeWitnesses.LostRecordUnbalances | libwallet/src/internal/selection.rs:766-785 | A sender whose coin lost its record assembles books that do not balance. |
| ExchangeWitnesses.LostRecordFails | libwallet/src/api_impl/foreign.rs:214-230 | The sender whose coin lost its record fails to finalise the answer it gets. |
| ExchangeWitnesses.RetriedPaymentFails | libwallet/src/api_impl/owner.rs:768-800 | A payer that asks twice for an invoice gets a slate the issuer cannot finalise. |
| WalletWitnesses.ClashIsNotRepaired | libwallet/src/internal/scan.rs:338-350 | A scan stores an unknown output over a record of another value under the same key and position. |
| WalletWitnesses.UnconfirmedOnChainIsDeleted | libwallet/src/internal/scan.rs:606-626 | An unconfirmed record, which has no position yet, is deleted although its output is on chain. |
| WalletWitnesses.CutScanReissues | libwallet/src/internal/scan.rs:577-651 | After a scan is cut short, a stored key is the next to be issued. |
| WalletWitnesses.RestoredRecordIsNotLocked | libwallet/src/api_impl/owner.rs:1524-1531 | The record of a restored output is not found when it is to be locked. |
| WalletWitnesses.TakenLabelIsLost | libwallet/src/internal/scan.rs:634-644 | A scan that finds an output of a third account gives it the label of the user's second one. |
| FormatWitnesses.LateScanLeavesGap | libwallet/src/api_impl/owner.rs:1015-1043 | A scan from beyond the marker leaves a gap. |
| FormatWitnesses.InlineBridgeLosesKey | config/src/config.rs:575-600 | A key in an inline table inside `[tor]` is lost by saving what was read. |
| OnionWitnesses.HexKeyIsNotReadBack | util/src/ov3.rs:104-116 | A key, with the checksum SHA3-256 gives it, whose bare address is hexadecimal and not read back. |
| OnionWitnesses.KnownEncoding | util/src/ov3.rs:85-87 | A test vector of section 10 of RFC 4648. |
| OnionWitnesses.KnownDecoding | util/src/ov3.rs:134-144 | The vector for one byte of section 10 of RFC 4648 is decoded, and refused with a spare bit set. |
| OnionWitnesses.PaddingIff | util/src/ov3.rs:134-144 | A block is accepted with 0, 1, 3, 4 or 6 padding characters and no other number, and how many bytes it makes. |
| OnionWitnesses.PaddedStartFails | util/src/ov3.rs:134-144 | Text with one to seven padded blocks at its start makes the slice fail. |
| OnionWitnesses.PaddedEndFails | util/src/ov3.rs:134-144 | So does text with padded blocks at its end. |

## Left out

- ExchangeGuards.ReceivedAtMostOnce: about one account, because the log here is that of one account; the source looks for the slate only in the log of the account it receives for.
- SigningLaws.FinalizeIff: books and fee only, as in `Slates.Validate`.
- Slates.Slate.FinalizeTransaction: validates balance and cut-through only, for the same reason as `Slates.Validate`.
- SlateVersions.ListInputs: leaves the order of the list free, because bodies are sets here.
- SlateVersions.ListOutputs: leaves the order of the list free, because bodies are sets here.
- SlateVersions.CommitmentsOf: fixes that inputs precede outputs but not the order within each, for the same reason.
- Exchange.Wallet.InitSendTx: leaves out estimates and the payment proof's addresses, which do not enter the books.
- Exchange.Wallet.InitSendTxLate: takes the fee as an argument, because the selection that estimates it is a contract.
- Exchange.Wallet.ReceiveTx: leaves out the payment proof signature and the last write of the slate's state to the log.
- Exchange.Wallet.ProcessInvoiceTx: leaves out the caller's own expiry height, which only changes when a slate is refused.
- Exchange.Wallet.TxLockOutputs: records that inputs exist, not their status and log id, which the exchange does not read.
- Exchange.Wallet.FinalizeTx: leaves out the verification of a payment proof, whose signatures are not modelled.
- Exchange.Wallet.FinalizeStandardTx: leaves out the verification of a payment proof, whose signatures are not modelled.
- Slates.Validate: checks balance and cut-through only, because range proofs, weight, sorting and lock heights are the node's library.
- Exchange.Wallet.BuildSendTx: takes the selected coins and their fee as an argument, because which coins are selected and how the fee is computed are contracts here (`StandardRuns.Spends`, `StandardRuns.FeeSuffices`).
- InvoiceRuns.SelfInvoiceRunSettles: assumes the two drawn keys and nonces differ, because nonces are drawn at random; the constant nonces of the test generator are not modelled.
- StandardRuns.StandardRunSettles: assumes that no two commitments of the run coincide and that the keys and their sums are not zero, because those are negligible events of the curve.
- KeyFreshness.NothingIsReused: treats a scan call as atomic; what an interruption does is stated separately in `KeyFreshness.InterruptedScanSafeIff`.
- WalletUpdate.Updater.UpdateWalletState: assumes one state of the chain during one update, and an interruption only between batches; the refresh of outputs and transactions before it is left out.
- WalletUpdate.Updater.RunUpdates: assumes the same of each update, and that nothing else changes the records in between; waiting and the flags of the thread are left out.
- ChainScan.CollectChainOutputs: takes the node's answers as a function that serves a fixed chain; the answers are not modelled further.
- Registry.Next: covers one version-2 file; the migration of older files, which writes without the save lock, `initial_setup_wallet`, saving a stale object and edits by other programs are not steps.
- Onion.Parse: changes the case of Latin letters only; Unicode case mapping is left out, and text is measured in characters. Padding in every block is how the Base32 library of the source documents its decoder.
- ContextStore.PrivateContexts.SavePrivateContext: takes the JSON text form of a context as a codec that round-trips.
- SeedFile.SeedDir.InitFile: the test mode, which overwrites, and a freshly drawn seed are left out; encryption is the law that only the right password decrypts.
- Transaction bodies are sets of inputs and outputs; their order is that of the node's library.
- Elliptic curves, hashes, ciphers, BIP39 and key derivation appear only as functions and laws; the sign adjustment of nonces is left out.
- Payment proof signatures and their verification within the exchange.
- Listing records for one account, refreshing outputs and kernels from the node, expiry and cancellation of transactions.
- TOML formatting and comments, log-level rewriting, and file permissions.
- HTTP, JSON-RPC, Tor processes, listeners, the command line and slatepack armour.
- Timestamps, status texts, logging, and the width of counters: indices, heights and ids are unbounded numbers.

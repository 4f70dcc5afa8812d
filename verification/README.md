# Onboarding bridge: a verified model

A Dafny model of the code that moves money and governs it in this repository, with proofs about every input, every state and
every run. `dafny verify dfyconfig.toml` checks all of it.

## What is modelled

**The Soroban contract** (`contracts/onboarding-bridge/src/lib.rs`) is one state machine.

- `BridgeTypes` holds the storage layout, the errors, the entry points (`Call`) and the state a deployment starts in.
- `BridgeSpec` says what each entry point does to the storage, as functions. `Step` answers one call with a new state and a
  return value or an error, `Next` is the state afterwards (unchanged after an error, because the host rolls back) and `Run`
  folds it over a list of calls. Time and other token traffic (`Tick`, `TokenTransfer`, `Mint`) are calls too, so a run may mix
  anything with anything.
- `BridgeContract` is the contract in its own form: a class whose methods overwrite the storage fields step by step, in the
  source's order, with its loops and early returns. Every entry point is proved to do what `Step` says, to the last field.
- `BridgeGovernance` proves the invariant of every reachable state, and `BridgeWidths` that every stored integer fits its type;
  `BridgeSetup` what the arguments of `initialize` decide; `ProposalLifecycle` at-most-once execution, who approved, the
  active index and the incremental garbage collector; `BridgeDelay` which actions wait and when proposals expire;
  `GovernanceLiveness` when the multisig can act at all; `BridgeActions` exactly when a funding or an execution is accepted
  and what each action changes for later calls; `BridgeHistory` what accepted calls leave on record and what errors mean.
- `BridgeBooks` proves that every counter is a fold over the funding log; `BridgeArchive` what the archive cursor skips;
  `BridgeCustody` where the tokens are and that they cover the fees owed; `BridgeWithdrawals` what a withdrawal of "all" pays
  and strands; `BridgeFees` the rebate, the price of splitting a payment and the client's fee quote.
- `BridgeWitnesses` builds runs from deployment that reach each state in which the code does what its tests or documentation
  rule out.

**The services and the SDK**, one module or a few each: the canonical serializer and the hash-chained audit log
(`CanonicalJson`, `CanonicalJsonProofs`, `CanonicalJsonReader`, `AuditChain`), the response cache (`LruCache`, `LruRecency`),
the offline replay queue (`OfflineQueue`), the circuit breaker and the RPC failover behind it (`CircuitBreaker`, `RpcPool`),
cursor paging and the CSV export (`Transactions`, `CsvExport`), and the decimal printers and parser (`Amounts`, over
`Numerals`). The ones that change fields in place are classes, proved against a step function; the ones that are expressions
are functions. `FiniteSets`, `Subsequences` and `Options` are shared.

## Conventions

- `i128`, `u32` and `u64` are mathematical integers with the width written out at each operation that could pass it; the
  overflow panic, a failed `assert!` and a trap in the token contract are all the error `Panicked`.
- `transfer` follows SEP-41: it refuses a negative amount, missing funds and a receiver past `i128`.
- `start` at lib.rs:1019 has no definition in the source; it is read as the stored `NextArchiveRecordId` (lines 526, 1072).
  `execution_delay` at line 529 has none either and is never read back, so that write is dropped. Entry points declared without
  a `Result` whose bodies return `Err` are read as returning one.
- Clock readings, random draws and fresh ids are parameters. The hash is an arbitrary function: theorems that rest on its
  strength conclude "or these two logs exhibit a collision, or a text that hashes to the genesis value", and name the logs.

## Where the code differs from its tests and documentation

The model follows the code.

- A second `initialize` answers Ok and changes nothing (lib.rs:475-477; `InitializeAcceptedIff`); test.rs:1642-1649 expects a
  panic.
- A batch does not look at the pause flag (lib.rs:919-965; `PauseStopsSinglesOnly`, `PausedBatchGoesThrough`);
  test.rs:908-924 expects a refusal.
- The approval of an admin who was rotated out still counts (`OthersUntouched`, `RotatedOutApprovalCounts`);
  test.rs:1454-1476 expects it not to.
- A token that is not whitelisted accrues no per-token fee, and the display rate scales what a whitelisted one accrues
  (`TokenFeesFollowTheWhitelist`, `FundingTokenSurplus`); test.rs:2710-2733 expects the plain fee in both cases.
- `WithdrawFees` with amount 0 clears one token's counter but pays out the total over all tokens. It pays too much exactly
  when fees are outstanding in other tokens, and those can then be withdrawn only against fees charged later
  (`WithdrawAllPaysItsOwnIff`, `WithdrawAllStrandsTheOthers`, `LaterPaymentsComeFromLaterFees`, `WithdrawAllStrands`).
- The comment at lib.rs:1505-1515 says pruning removes the approval flags; those of rotated-out admins other than the proposer
  stay (`PruneIsExact`). They are harmless, because ids are never reused.
- `initialize` resets the scalar counters but not the records or per-key volumes, and funding does not require it to have
  happened: the books survive it exactly when nothing was funded before (`InitializeKeepsBooksIff`,
  `FundedBeforeInitialize`).
- Admin lists may repeat an address, and `threshold` is compared with the length of the list, not the number of distinct
  admins: the multisig can then be locked for good (`GovernanceIsLiveIff`, `RepeatedAdminLocksGovernance`,
  `RotationLocksGovernance`).
- The archive cursor advances by the requested count even past the last record; records that get a skipped id later are never
  archived (`BehindIsArchivedIff`, `SkippedStaysHot`, `ArchiveSkips`).
- docs/audit-log-integrity.md:24 says verification checks sequence continuity; the code does not (`AnyNumbersVerify`),
  though the numbers are hashed and a checkpoint holds its own in place (`PinnedNumberOccursOnce`).
- The fee × token-rate product can pass `i128` exactly when the fee cap is above 50% (`TokenRateFitsIff`), which a run of
  ordinary calls reaches (`TokenRatePanics`).
- A breaker configured with no half-open probes can wedge (`NeverWedgesIff`).
- The two forms of `stroopsToDecimal` differ on long integers with leading zeros and on text that is no integer
  (`StroopsFormsAgreeIff`); `formatStellarAmount` puts a minus sign inside the fraction of most negative amounts
  (`StellarAgreesIff`).

## Model

| member | source | states |
|---|---|---|
| `BridgeContract.OnboardingBridge.constructor` | contracts/onboarding-bridge/src/lib.rs:371-372 | before `initialize` every key reads as its `unwrap_or` default |
| `BridgeContract.OnboardingBridge.Initialize` | contracts/onboarding-bridge/src/lib.rs:466-558 | the whole new storage or the exact error, in the source's order of checks; nothing the second time |
| `BridgeContract.OnboardingBridge.Contains` | contracts/onboarding-bridge/src/lib.rs:1586-1593 | the scan finds an address exactly when the list holds it |
| `BridgeContract.OnboardingBridge.Rebate` | contracts/onboarding-bridge/src/lib.rs:374-402 | the tier loop computes the best discount, which `RebateIsTheMaximum` shows to be the maximum over qualifying tiers |
| `BridgeContract.OnboardingBridge.QuoteFee` | contracts/onboarding-bridge/src/lib.rs:786-793 | the fee, or a panic exactly when a u32 or i128 product is out of range |
| `BridgeContract.OnboardingBridge.MoveTokens` | contracts/onboarding-bridge/src/lib.rs:796-797 | a SEP-41 transfer succeeds exactly when the amount is non-negative, covered and leaves the receiver in i128 |
| `BridgeContract.OnboardingBridge.AccrueFee` | contracts/onboarding-bridge/src/lib.rs:798-827 | both fee accumulators after a funding, or a panic exactly on overflow |
| `BridgeContract.OnboardingBridge.Book` | contracts/onboarding-bridge/src/lib.rs:830-904 | the record and every counter written beside it, or a panic exactly when one would pass its width |
| `BridgeContract.OnboardingBridge.CountFunder` | contracts/onboarding-bridge/src/lib.rs:892-904 | a source is counted once, the first time it is seen |
| `BridgeContract.OnboardingBridge.FundInternal` | contracts/onboarding-bridge/src/lib.rs:755-917 | the funding path refines its specification: bounds, fee, two transfers, accumulators, record |
| `BridgeContract.OnboardingBridge.Fund` | contracts/onboarding-bridge/src/lib.rs:725-753 | whole new state and answer; an error leaves every key as it was |
| `BridgeContract.OnboardingBridge.RouteFromExchange` | contracts/onboarding-bridge/src/lib.rs:968-992 | whole new state and answer, as for a direct funding |
| `BridgeContract.OnboardingBridge.BatchFund` | contracts/onboarding-bridge/src/lib.rs:919-965 | all items or none, with the error of the first that fails |
| `BridgeContract.OnboardingBridge.BatchLoop` | contracts/onboarding-bridge/src/lib.rs:945-954 | the loop is the item-by-item fold, each item seeing the volume the earlier ones left |
| `BridgeContract.OnboardingBridge.ArchiveOldEntries` | contracts/onboarding-bridge/src/lib.rs:1005-1081 | the flags, the hot counter and both cursors after an archive call |
| `BridgeContract.OnboardingBridge.Propose` | contracts/onboarding-bridge/src/lib.rs:1113-1178 | a fresh id with its proposer's approval, stored and indexed, or the exact error |
| `BridgeContract.OnboardingBridge.Approve` | contracts/onboarding-bridge/src/lib.rs:1180-1225 | one more flag and one more on the count, or the exact error; a second approval panics |
| `BridgeContract.OnboardingBridge.Execute` | contracts/onboarding-bridge/src/lib.rs:1227-1466 | gate, mark, unindex, act; a failing action rolls all of it back |
| `BridgeContract.OnboardingBridge.Act` | contracts/onboarding-bridge/src/lib.rs:1290-1461 | the effect and the errors of each of the ten actions |
| `BridgeContract.OnboardingBridge.WithdrawFees` | contracts/onboarding-bridge/src/lib.rs:1338-1376 | what leaves the token's counter, the total and the bridge, including amount 0 |
| `BridgeContract.OnboardingBridge.GetActiveProposals` | contracts/onboarding-bridge/src/lib.rs:1475-1503 | the returned proposals and the rewritten index |
| `BridgeContract.OnboardingBridge.PruneProposals` | contracts/onboarding-bridge/src/lib.rs:1516-1583 | the loop with its early stop is the recursive sweep; count and cursor |
| `BridgeContract.OnboardingBridge.RemoveProposal` | contracts/onboarding-bridge/src/lib.rs:1550-1561 | a proposal goes with the flags of the current admins and of its proposer |
| `BridgeContract.BatchFails` | contracts/onboarding-bridge/src/lib.rs:946-954 | once an item fails, the batch fails with that error whatever follows |
| `BridgeSetup.ArgumentsAreStored` | contracts/onboarding-bridge/src/lib.rs:502-546 | an `initialize` that takes effect leaves admins, threshold, FeeBps, MaxFeeBps, MinAmount, MaxAmount and all four stored parameters equal to its arguments |
| `BridgeSetup.InitializeAcceptedIff` | contracts/onboarding-bridge/src/lib.rs:475-500 | exactly which arguments take effect, and that a second call answers Ok and changes nothing |
| `BridgeSetup.ThresholdArgumentDecides` | contracts/onboarding-bridge/src/lib.rs:503-505 | in every run after `initialize` without an executed threshold change, a live proposal is short of approvals exactly below as many distinct approvers as the argument says, and executes exactly from there |
| `BridgeSetup.LimitsBind` | contracts/onboarding-bridge/src/lib.rs:536-541 | in every run after `initialize`, a funding, routed or batch, with any amount outside the limits as given is refused |
| `BridgeSetup.LimitsAnswer` | contracts/onboarding-bridge/src/lib.rs:763-778 | and with which of the two errors |
| `BridgeHistory.RecordSaysWhatHappened` | contracts/onboarding-bridge/src/lib.rs:840-857 | the new record holds the call's source, target, token, amount, memo and ledger and the fee charged, under the next id, and no other record changes |
| `BridgeHistory.BatchIsItsSingles` | contracts/onboarding-bridge/src/lib.rs:931-964 | unless paused, a batch is accepted exactly when its payments made singly in turn all are, leaves the same state and reports the sum of their fees; else which check answers |
| `BridgeHistory.ErrorsAreTrue` | contracts/onboarding-bridge/src/lib.rs:412-1584 | no error lies: each of the named errors implies its condition, for every call |
| `BridgeHistory.NothingWithoutInitialize` | contracts/onboarding-bridge/src/lib.rs:1117-1121 | before `initialize` every governance call answers NotInitialized |
| `BridgeWidths.StepKeepsFit` | contracts/onboarding-bridge/src/lib.rs:779-904 | every call keeps every counter, balance, ledger and approval count within its fixed width |
| `BridgeWidths.ReachableFits` | contracts/onboarding-bridge/src/lib.rs:466-1583 | so every reachable state fits |
| `BridgeGovernance.StepKeepsInv` | contracts/onboarding-bridge/src/lib.rs:1113-1583 | every call keeps: stored ids are exactly NextPruneId..ProposalNonce, approval_count is the number of stored flags, the window is open, the index covers every live proposal, thresholds, fee caps and tiers are in range |
| `BridgeGovernance.ReachableInv` | contracts/onboarding-bridge/src/lib.rs:466-1583 | so does every state any run can reach from deployment |
| `BridgeGovernance.ActKeepsConfig` | contracts/onboarding-bridge/src/lib.rs:1291-1461 | no action breaks 1 ≤ threshold ≤ admins, FeeBps = params.fee_bps ≤ MaxFeeBps ≤ 10000, at most 50 tiers, discounts ≤ 5000, rates in 1000..20000 |
| `BridgeGovernance.LimitsNeverChange` | contracts/onboarding-bridge/src/lib.rs:506-509 | no call changes MaxFeeBps once initialized |
| `BridgeGovernance.LimitsAreForever` | contracts/onboarding-bridge/src/lib.rs:506-509 | nor does any run |
| `BridgeGovernance.ActFrame` | contracts/onboarding-bridge/src/lib.rs:1290-1461 | no action touches proposals, approvals, the index or the clock |
| `BridgeGovernance.MoneyFrame` | contracts/onboarding-bridge/src/lib.rs:725-992 | funding changes nothing but the books and the balances |
| `BridgeGovernance.LiveIdsExact` | contracts/onboarding-bridge/src/lib.rs:1485-1500 | the filter keeps exactly the stored, open ids, in order |
| `BridgeGovernance.SweepExact` | contracts/onboarding-bridge/src/lib.rs:1542-1576 | the pruning loop without its loop: a block of dead ids goes, and it stops at a live one, the scan limit or the end |
| `BridgeGovernance.TickKeeps` | contracts/onboarding-bridge/src/lib.rs:1241-1243 | time only ever closes windows, so a monotone ledger keeps the index complete |
| `ProposalLifecycle.ExecutedAtMostOnce` | contracts/onboarding-bridge/src/lib.rs:1241-1288 | in any run, with any rotations and prunes between, a second execution of an id is refused, and with which errors |
| `ProposalLifecycle.SpentKept` | contracts/onboarding-bridge/src/lib.rs:1132-1159 | an executed id stays spent under every call, because ids are never handed out twice |
| `ProposalLifecycle.FlagHasOrigin` | contracts/onboarding-bridge/src/lib.rs:1206-1212 | every stored approval goes back to an accepted call by that address while it was an admin |
| `ProposalLifecycle.ExecutionJustified` | contracts/onboarding-bridge/src/lib.rs:1227-1288 | at an execution, a threshold's worth of distinct addresses had each approved as admins, the ledger was ≤ expiry and, if sensitive, ≥ proposed_at + 10 |
| `BridgeDelay.EffectsWait` | contracts/onboarding-bridge/src/lib.rs:1251-1266 | an execution that changes balances, fee counters, FeeBps, the pause, the admins or the threshold happens at least ten ledgers after the proposal |
| `BridgeDelay.WhoHasToWait` | contracts/onboarding-bridge/src/lib.rs:1253-1266 | each of the six sensitive actions is refused with ExecutionTooSoon exactly before that, and the other four never are |
| `BridgeDelay.AtOnceIff` | contracts/onboarding-bridge/src/lib.rs:1253-1266 | a sole admin can execute in the ledger of the proposal exactly one of those four, if it can be carried out |
| `BridgeDelay.ProposeAcceptedIff` | contracts/onboarding-bridge/src/lib.rs:1117-1159 | who may propose for how long, the two expiry errors, and what is stored: a fresh id, one flag, expiry = ledger + blocks |
| `BridgeDelay.ExpiresAfterItsBlocks` | contracts/onboarding-bridge/src/lib.rs:1199-1243 | a proposal is open for exactly as many ledgers as it asked for, to approve and to execute |
| `BridgeHistory.ApproveAcceptedIff` | contracts/onboarding-bridge/src/lib.rs:1184-1217 | who may approve what, once each, and that exactly one flag and the count change |
| `ProposalLifecycle.OthersUntouched` | contracts/onboarding-bridge/src/lib.rs:1268-1288 | an execution leaves the index, and every other proposal, flag and index entry stays |
| `BridgeWitnesses.RotatedOutApprovalCounts` | contracts/onboarding-bridge/src/lib.rs:1247-1249 | a run in which an admin is rotated out and a proposal then executes at threshold 2 with that admin's approval as one of the two |
| `ProposalLifecycle.ActiveIsScan` | contracts/onboarding-bridge/src/lib.rs:1475-1503 | the index returned is exactly the live proposals, once each, in increasing id order |
| `ProposalLifecycle.LiveIsKept` | contracts/onboarding-bridge/src/lib.rs:1516-1583 | no call but its own execution, and no prune, removes or alters a live proposal, save counting an approval |
| `ProposalLifecycle.PruneIsExact` | contracts/onboarding-bridge/src/lib.rs:1516-1583 | pruned count = cursor advance ≤ max_scan, what is left is nextPruneId..nonce, nothing live goes, it stops for one of three reasons, and exactly which flags go |
| `ProposalLifecycle.PruneIsAccepted` | contracts/onboarding-bridge/src/lib.rs:1516-1583 | a prune of an initialized contract is accepted short of the last id |
| `ProposalLifecycle.SweepSplits` | contracts/onboarding-bridge/src/lib.rs:1542-1576 | a sweep of a + b scans is a sweep of a followed by a sweep of b |
| `ProposalLifecycle.PruneComposes` | contracts/onboarding-bridge/src/lib.rs:1516-1583 | at one ledger, whenever prune(a + b) is accepted, prune(a) then prune(b) are too, leave the same state, and their counts add up |
| `GovernanceLiveness.GovernanceIsLiveIff` | contracts/onboarding-bridge/src/lib.rs:1113-1266 | from any initialized reachable state, some future run gets a proposal past the gate exactly when a new one can still be made and the distinct admins reach the threshold, or the distinct approvers and admins of a live one do |
| `GovernanceLiveness.StuckForever` | contracts/onboarding-bridge/src/lib.rs:1247-1249 | otherwise no run ever gets out, rotated-out approvers and dead flags included |
| `GovernanceLiveness.SomethingExecutesIff` | contracts/onboarding-bridge/src/lib.rs:1227-1266 | while proposing is possible and live proposals carry flags of current admins only, some future run executes something exactly when the threshold is at most the number of distinct admins |
| `GovernanceLiveness.LiveCanPass` | contracts/onboarding-bridge/src/lib.rs:1180-1266 | a live proposal with enough voters gets past the gate after the missing approvals and a wait |
| `GovernanceLiveness.CanPass` | contracts/onboarding-bridge/src/lib.rs:1113-1288 | while an id and ten ledgers are left, an explicit run of propose, approvals and a wait makes an execution succeed |
| `GovernanceLiveness.RepeatedAdminLocksGovernance` | contracts/onboarding-bridge/src/lib.rs:478-500 | an accepted `initialize` after which nothing can ever execute |
| `BridgeWitnesses.RotationLocksGovernance` | contracts/onboarding-bridge/src/lib.rs:1387-1406 | an accepted rotation after which nothing can ever execute, with the flag of a rotated-out approver still stored |
| `BridgeActions.FundAcceptedIff` | contracts/onboarding-bridge/src/lib.rs:725-917 | in a reachable state a funding is accepted exactly under the visible bounds, when the state it leaves fits its widths and two intermediate results do; the fee arithmetic and the second transfer never refuse |
| `BridgeActions.ExecutesIff` | contracts/onboarding-bridge/src/lib.rs:1227-1461 | an execution succeeds exactly when stored, open, approved by enough distinct addresses, old enough if sensitive, and its action's own condition holds |
| `BridgeActions.ExecutableAfterIff` | contracts/onboarding-bridge/src/lib.rs:1241-1266 | exactly which waits make a stored proposal executable |
| `BridgeActions.WaitingOpensTheWindow` | contracts/onboarding-bridge/src/lib.rs:1125-1151 | the window is never empty: every live proposal with enough approvals and an action that can be carried out executes after some wait |
| `BridgeGovernance.ActSettings` | contracts/onboarding-bridge/src/lib.rs:1290-1461 | every setting is changed by its own action only, to what that action says, and the three limits by none |
| `BridgeActions.SettingsTakeEffect` | contracts/onboarding-bridge/src/lib.rs:1318-1406 | what an executed pause, unpause, rotation, whitelist or rate does to the calls that follow |
| `BridgeActions.ThresholdTakesEffect` | contracts/onboarding-bridge/src/lib.rs:1407-1427 | after a threshold change the new number binds proposals already stored |
| `BridgeActions.FeeTakesEffect` | contracts/onboarding-bridge/src/lib.rs:1291-1317 | after a fee change no funding pays more than the new rate, and one without a rebate pays exactly it |
| `BridgeActions.TierTakesEffect` | contracts/onboarding-bridge/src/lib.rs:1432-1460 | a new tier grants its discount to every volume at or above its threshold and leaves the other tiers alone |
| `BridgeActions.TierLowersTheFee` | contracts/onboarding-bridge/src/lib.rs:1432-1460 | the next funding by a source at or above the tier's threshold pays at most the fee with that discount off, and exactly that when no tier offers more |
| `BridgeActions.TokenFeesFollowTheWhitelist` | contracts/onboarding-bridge/src/lib.rs:811-826 | a funding credits only its own token's counter, only while whitelisted, with the fee at the token's rate rounded down |
| `BridgeBooks.CountersAreFolds` | contracts/onboarding-bridge/src/lib.rs:1087-1111 | in every run in which nothing is funded before `initialize`: counts, volumes by token and user, funders and hot records are folds over the log, and fees held plus fees paid are all fees ever charged |
| `BridgeBooks.StepAccounted` | contracts/onboarding-bridge/src/lib.rs:798-904 | every call keeps the folds, only appends to the log or flips an archived flag, and balances fees charged against fees held and paid |
| `BridgeBooks.FundKeeps` | contracts/onboarding-bridge/src/lib.rs:835-904 | a funding appends exactly its own record |
| `BridgeBooks.BatchKeeps` | contracts/onboarding-bridge/src/lib.rs:945-964 | a batch appends one record per item and reports the sum of their fees |
| `BridgeBooks.ArchiveExact` | contracts/onboarding-bridge/src/lib.rs:1008-1072 | an archive call flags exactly the next min(count, FundingCount) ids that have a record and changes nothing else in the log |
| `BridgeHistory.ArchiveCounts` | contracts/onboarding-bridge/src/lib.rs:1050-1072 | an executed archive call counts one batch and moves the cursor by min(count, FundingCount) |
| `BridgeBooks.ArchiveRangeExact` | contracts/onboarding-bridge/src/lib.rs:1020-1048 | the hot counter stays the number of unflagged records, so the saturating subtraction never saturates |
| `BridgeArchive.BehindIsArchivedIff` | contracts/onboarding-bridge/src/lib.rs:1013-1072 | in a run, every record behind the archive cursor is archived exactly when no record was added while the cursor was ahead of the next id |
| `BridgeArchive.SkippedStaysHot` | contracts/onboarding-bridge/src/lib.rs:1020-1072 | a record the cursor skipped is never archived in any later run |
| `BridgeWitnesses.ArchiveSkips` | contracts/onboarding-bridge/src/lib.rs:1013-1072 | two archive calls on one record, then a funding: record 2 stays unarchived for ever |
| `BridgeBooks.InitializeKeepsBooksIff` | contracts/onboarding-bridge/src/lib.rs:510-546 | an effective `initialize` keeps the books exactly when nothing was funded before, and how they break otherwise |
| `BridgeWitnesses.FundedBeforeInitialize` | contracts/onboarding-bridge/src/lib.rs:763-772 | a funding accepted before an `initialize` that takes effect and breaks the books |
| `BridgeBooks.FeeInRange` | contracts/onboarding-bridge/src/lib.rs:779-793 | for every admissible amount no product overflows, 0 ≤ fee ≤ amount and the effective rate is at least half of FeeBps |
| `BridgeBooks.TokenRateFitsIff` | contracts/onboarding-bridge/src/lib.rs:812-813 | the fee × rate product fits i128 for every admissible amount, fee rate up to the cap and display rate exactly when the cap is at most 5000 |
| `BridgeBooks.TokenRateFits` | contracts/onboarding-bridge/src/lib.rs:812-813 | from a state with such a cap, no funding in any later state of any run panics for that product |
| `BridgeWitnesses.TokenRatePanics` | contracts/onboarding-bridge/src/lib.rs:811-813 | under every cap above 5000, a run after which a funding panics for that product alone: before the rate was raised it is accepted, and nothing else differs |
| `BridgeCustody.MovedExact` | contracts/onboarding-bridge/src/lib.rs:796-828 | a transfer debits one holder and credits one other by the same amount, and conserves everything else |
| `BridgeCustody.FundMovesExactly` | contracts/onboarding-bridge/src/lib.rs:795-828 | for every token and holder: the source pays the amount, the bridge keeps the fee, the target gets the rest |
| `BridgeCustody.FundingSurplus` | contracts/onboarding-bridge/src/lib.rs:795-828 | how holdings minus fees owed move in a funding, also when the bridge is its own source or target |
| `BridgeCustody.WithdrawCustody` | contracts/onboarding-bridge/src/lib.rs:1338-1376 | a withdrawal, whatever its amount, leaves holdings at or above fees owed |
| `BridgeHistory.WithdrawalPaysExactly` | contracts/onboarding-bridge/src/lib.rs:1338-1376 | an executed withdrawal pays its receiver and no one else, in its token, what it takes off the total, and takes off the token's counter what was asked |
| `BridgeCustody.CustodyHolds` | contracts/onboarding-bridge/src/lib.rs:795-828 | over any run whose funding sources are not the bridge, its holdings over all tokens cover AccumulatedFees |
| `BridgeCustody.FundingTokenSurplus` | contracts/onboarding-bridge/src/lib.rs:811-828 | how one token's holdings minus its counter move, by what the display rate adds |
| `BridgeCustody.WithdrawTokenCustody` | contracts/onboarding-bridge/src/lib.rs:1338-1376 | a withdrawal keeps each counter within that token's holdings, including amount 0 |
| `BridgeCustody.TokenCustodyHolds` | contracts/onboarding-bridge/src/lib.rs:1328-1375 | while no rate above 10000 was ever in force, each AccumulatedFeesByToken is covered by that token's balance |
| `BridgeWithdrawals.AccountSplits` | contracts/onboarding-bridge/src/lib.rs:799-809 | in every run the account is what was charged and not yet paid in a given token plus the same over all others, by the log, whatever the counters say |
| `BridgeWithdrawals.WithdrawAllPaysItsOwnIff` | contracts/onboarding-bridge/src/lib.rs:1345-1368 | an executed amount 0 pays what is outstanding in its token exactly when nothing is outstanding elsewhere, and pays its counter exactly when what is outstanding elsewhere and what the token accrued uncounted cancel out |
| `BridgeWithdrawals.WithdrawAllStrandsTheOthers` | contracts/onboarding-bridge/src/lib.rs:1345-1368 | after it every other token keeps its counter, but each amount is refused and 0 pays nothing and wipes it |
| `BridgeWithdrawals.LaterPaymentsComeFromLaterFees` | contracts/onboarding-bridge/src/lib.rs:1354-1366 | once the account is empty, all later payments together are at most the fees charged later |
| `BridgeWitnesses.WithdrawAllStrands` | contracts/onboarding-bridge/src/lib.rs:1338-1376 | a run with two tokens, one unit charged in each: amount 0 pays two units of the first and strands the unit of the second |
| `BridgeFees.RebateIsTheMaximum` | contracts/onboarding-bridge/src/lib.rs:385-401 | the discount is the maximum over qualifying tiers, or 0 |
| `BridgeFees.RebateGrowsWithVolume` | contracts/onboarding-bridge/src/lib.rs:397-399 | more volume never means a smaller rebate |
| `BridgeFees.ChargesTheReducedShare` | contracts/onboarding-bridge/src/lib.rs:786-793 | an accepted funding is charged exactly its share: the best qualifying discount off FeeBps, and that rate on the amount, each rounded down |
| `BridgeFees.ShareIsUnique` | contracts/onboarding-bridge/src/lib.rs:786-793 | those three conditions determine the discount, the rate and the fee |
| `BridgeFees.SplittingNeverCostsMore` | contracts/onboarding-bridge/src/lib.rs:945-954 | a batch in one token is charged at most the fee on the sum at the discount the source started with |
| `BridgeFees.PauseStopsSinglesOnly` | contracts/onboarding-bridge/src/lib.rs:739-746 | a pause refuses every single and routed funding, and a batch answers alike paused or not |
| `BridgeWitnesses.PausedBatchGoesThrough` | contracts/onboarding-bridge/src/lib.rs:919-965 | a reachable paused state that accepts a batch of one and refuses the same payment made singly |
| `BridgeFees.FundIgnoresPause` | contracts/onboarding-bridge/src/lib.rs:755-917 | the shared funding path commutes with the pause flag |
| `BridgeFees.QuoteBoundsTheFee` | sdk/src/utils.ts:70-88 | the client's quote at the contract's rate is never below the charge, equals it without a rebate and is at most twice it plus one |
| `CanonicalJsonProofs.StringifyInjectiveUpToKeyOrder` | api/src/services/auditLog.ts:50-58 | two JSON values have the same text exactly when they are equal up to object key order |
| `CanonicalJsonReader.StringifyRoundTrip` | api/src/services/auditLog.ts:50-58 | a reader for RFC 8259 texts gives back every value, with its object keys in code-unit order, and reads the text to its end |
| `CanonicalJsonReader.ReadsBack` | api/src/services/auditLog.ts:50-58 | also in front of any text that may follow a value |
| `CanonicalJsonProofs.SameTextSameValue` | api/src/services/auditLog.ts:50-58 | no document continues two different values: equal text followed by a delimiter means equal value and equal rest |
| `CanonicalJsonProofs.SameValueSameText` | api/src/services/auditLog.ts:54-57 | key order does not show in the text |
| `CanonicalJsonProofs.EscapeRoundTrip` | api/src/services/auditLog.ts:51 | a reader for section 7 of RFC 8259 recovers every string, lone surrogates included |
| `CanonicalJsonProofs.QuotePrefixFree` | api/src/services/auditLog.ts:56 | no text continues two different quoted strings |
| `CanonicalJsonProofs.SortedUnique` | api/src/services/auditLog.ts:54-55 | the sorted key list depends on the key set alone |
| `CanonicalJsonProofs.LessIff` | api/src/services/auditLog.ts:54-55 | keys are ordered by the first code unit that differs, a proper prefix first |
| `CanonicalJsonProofs.EscapesAsWritten` | api/src/services/auditLog.ts:51 | the text of every unit that stands alone: the short escapes, four lower-case hex digits for other controls, itself otherwise |
| `CanonicalJsonReader.GrammarCharacters` | api/src/services/auditLog.ts:51-57 | the punctuation and the literals, as characters |
| `AuditChain.MaterialInjective` | api/src/services/auditLog.ts:64-75 | the hashed text determines every hashed field |
| `AuditChain.NamesAsWritten` | api/src/services/auditLog.ts:65-74 | the names of the eight hashed fields |
| `AuditChain.ConstantsAsWritten` | api/src/services/auditLog.ts:46-47 | 64 zeros and seven years of 365 days |
| `AuditChain.VerifyAuditChain` | api/src/services/auditLog.ts:89-151 | valid exactly when every entry links, carries its own hash and agrees with its checkpoint; the errors of all entries in order |
| `AuditChain.NoErrorsIff` | api/src/services/auditLog.ts:103-146 | no error is reported exactly when every entry passes the three conditions |
| `AuditChain.ErrorsAreExact` | api/src/services/auditLog.ts:103-143 | each of the three messages is reported exactly for the entries it is true of |
| `AuditChain.IndexCheckpoints` | api/src/services/auditLog.ts:95-99 | the last checkpoint of a sequence counts |
| `AuditChain.IntegrityAuditLog.Append` | api/src/services/auditLog.ts:262-287 | the entry appended, field by field, the checkpoint made at the interval, and a log that still verifies |
| `AuditChain.IntegrityAuditLog.CreateCheckpoint` | api/src/services/auditLog.ts:361-375 | one checkpoint more, unless the same one is there |
| `AuditChain.IntegrityAuditLog.Verify` | api/src/services/auditLog.ts:308-310 | whatever was appended and checkpointed, the log verifies |
| `AuditChain.SameEndSameLog` | api/src/services/auditLog.ts:101-143 | two logs that verify, each against its own checkpoints, and end in the same hash are equal entry by entry, or exhibit a break of the hash |
| `AuditChain.CheckpointPinsPrefix` | api/src/services/auditLog.ts:133-140 | two verifying logs whose checkpoints share one agree on everything up to it, once both reach its sequence |
| `AuditChain.EditIsDetected` | api/src/services/auditLog.ts:112-131 | rewriting any entry but the last, in a log that still verifies, changed nothing that is hashed |
| `AuditChain.RearrangedVerifiesIff` | api/src/services/auditLog.ts:104-110 | deleting, repeating or reordering entries is detected exactly when the result is not a prefix |
| `AuditChain.AnyNumbersVerify` | api/src/services/auditLog.ts:103-143 | for every list of sequence numbers, with gaps, repeats or out of order, a log with exactly those verifies against any checkpoints for other numbers |
| `AuditChain.PinnedNumberOccursOnce` | api/src/services/auditLog.ts:133-140 | the numbers matter only through the checkpoints: one with a checkpoint occurs at most once in a verifying log |
| `LruCache.SimpleCache.Get` | sdk/src/cache.ts:22-48 | the reply and the whole new order of entries: dead ones go, hits move to the end |
| `LruCache.SimpleCache.Set` | sdk/src/cache.ts:50-74 | the whole new order: overwrite, evict the first when full, append |
| `LruCache.SimpleCache.Invalidate` | sdk/src/cache.ts:76-78 | the whole new order |
| `LruCache.SimpleCache.Clear` | sdk/src/cache.ts:80-82 | the cache is empty |
| `LruCache.HoldsOnlyLastSet` | sdk/src/cache.ts:56-70 | over any history: keys once each, at most the capacity, and each entry the one last set for its key |
| `LruCache.HitIsLastSet` | sdk/src/cache.ts:28-47 | a hit is the value last set, inside its ttl, or marked stale and inside twice the ttl with stale serving on |
| `LruCache.GetHitsIff` | sdk/src/cache.ts:28-47 | a get of a held key hits exactly while its last set is inside the ttl, or inside twice that with stale serving on, with the stale flag exactly after the ttl |
| `LruCache.GetMissDrops` | sdk/src/cache.ts:23-35 | after a miss the key is not held |
| `LruCache.BiggerCacheIncludesSmaller` | sdk/src/cache.ts:22-82 | same history, capacities n ≤ m: the small order is a subsequence of the large one and every small hit is the same large hit |
| `LruRecency.TouchMovesToTheEnd` | sdk/src/cache.ts:37-41 | a set, and a get that hits, make their key the most recent |
| `LruRecency.RecentlyUsedIsKept` | sdk/src/cache.ts:58-63 | a key just used stays while fewer than the capacity of other keys are set or looked up |
| `LruRecency.SetIsServed` | sdk/src/cache.ts:22-74 | after a set and calls about fewer than the capacity of other keys, a get answers with the value exactly while it can be served, fresh or stale |
| `LruRecency.LeastRecentlyUsedGoesIff` | sdk/src/cache.ts:56-70 | while other keys are set, it is still held exactly when fewer than the capacity of them were different |
| `OfflineQueue.Keyed` | sdk/src/offline.ts:95-98 | a request that needs an idempotency key gets one, and a caller's own key is never replaced |
| `OfflineQueue.NeedsKeyIff` | sdk/src/offline.ts:15-20 | which requests need a key: a POST to one of the four non-idempotent routes |
| `OfflineQueue.OfflineQueue.Enqueue` | sdk/src/offline.ts:79-111 | accepted exactly below the size limit; the whole new queue |
| `OfflineQueue.OfflineQueue.StartReplay` | sdk/src/offline.ts:153-163 | one replay at a time, over a snapshot of the queue |
| `OfflineQueue.OfflineQueue.Settle` | sdk/src/offline.ts:165-185 | the whole new queue after each way an entry can end |
| `OfflineQueue.OfflineQueue.Remove` | sdk/src/offline.ts:205-208 | the first entry with that id goes, the others keep their order |
| `OfflineQueue.OfflineQueue.FinishReplay` | sdk/src/offline.ts:187-192 | the replaying flag falls once the snapshot is done |
| `OfflineQueue.OfflineQueue.ClearQueue` | sdk/src/offline.ts:124-127 | nothing is pending afterwards |
| `OfflineQueue.StepKeepsInv` | sdk/src/offline.ts:153-208 | any interleaving of enqueues, clears and replay steps keeps the partition and the attempt counts |
| `OfflineQueue.EntriesAreConserved` | sdk/src/offline.ts:79-208 | each accepted entry is in exactly one of pending, delivered, dead-lettered (or was cleared), is delivered at most once, and waits in order of acceptance with its request unchanged |
| `OfflineQueue.RetriesCarryTheirKey` | sdk/src/offline.ts:89-106 | nothing queued or about to be executed lacks the key it needs, and it is the key it was accepted with |
| `OfflineQueue.ReplayWalksItsSnapshot` | sdk/src/offline.ts:160-165 | no call makes a replay repeat an entry or take one that came later |
| `OfflineQueue.AttemptsAreBounded` | sdk/src/offline.ts:176-181 | an entry is attempted at most max(1, maxRetries) times from retry count 0 |
| `OfflineQueue.DeadLettersAreDue` | sdk/src/offline.ts:170-184 | in any run a dead-lettered entry was refused for good, or its attempts equal max(1, maxRetries) counted from its initial retry count, and it shows them |
| `OfflineQueue.RetryKeepsItsPlace` | sdk/src/offline.ts:176-184 | a retryable failure with retries left keeps the entry in its place with one more on its count and changes nothing else |
| `OfflineQueue.ReplaysDrain` | sdk/src/offline.ts:153-192 | max(1, maxRetries) full replays with nothing new empty the queue, whatever the outcomes |
| `CircuitBreaker.CircuitBreaker.Begin` | api/src/circuit-breaker.ts:42-62 | admission and the whole new state |
| `CircuitBreaker.CircuitBreaker.Overlap` | api/src/circuit-breaker.ts:42-92 | what other calls do at the breaker while one admitted call stays in flight |
| `CircuitBreaker.CircuitBreaker.OnSuccess` | api/src/circuit-breaker.ts:69-81 | the whole new state after a call returns |
| `CircuitBreaker.CircuitBreaker.OnFailure` | api/src/circuit-breaker.ts:83-92 | the whole new state after a call fails |
| `CircuitBreaker.CircuitBreaker.TransitionTo` | api/src/circuit-breaker.ts:94-101 | half-open starts with its counters at 0 |
| `CircuitBreaker.ReachableInv` | api/src/circuit-breaker.ts:42-101 | under any overlap: below the threshold while closed, no failures and at most the allowed probes while half-open, and at the limit a call is in flight |
| `CircuitBreaker.TripsIff` | api/src/circuit-breaker.ts:78-91 | a closed breaker opens exactly on the failure that brings the streak since the last success to the threshold |
| `CircuitBreaker.OpenAdmitsIff` | api/src/circuit-breaker.ts:43-49 | an open breaker admits exactly from resetTimeout after the last failure on |
| `CircuitBreaker.TimeoutCountsFromLastFailure` | api/src/circuit-breaker.ts:43-88 | the last failure is the last call that failed in whatever state, and the timeout runs from it |
| `CircuitBreaker.CompletionLeavesTheLimit` | api/src/circuit-breaker.ts:71-91 | at the limit the first completion closes or opens it |
| `CircuitBreaker.FailingProbeOpens` | api/src/circuit-breaker.ts:83-92 | any failing probe opens the breaker for the whole timeout, however many are allowed |
| `CircuitBreaker.SuccessClears` | api/src/circuit-breaker.ts:69-81 | a success clears a closed breaker's failures, leaves an open one open, and closes a half-open one exactly at its limit |
| `CircuitBreaker.NeverWedgesIff` | api/src/circuit-breaker.ts:42-101 | no reachable idle state refuses for ever, exactly when at least one probe is allowed |
| `CircuitBreaker.ClosesAfterExactly` | api/src/circuit-breaker.ts:69-81 | without overlap it closes after exactly halfOpenMaxRequests successes |
| `RpcPool.RpcPool.SelectProvider` | api/src/services/rpcPool.ts:80-106 | the chosen provider and the new round-robin index under each strategy |
| `RpcPool.RpcPool.FastestAmong` | api/src/services/rpcPool.ts:89-93 | the reduction over measured providers |
| `RpcPool.SelectionIsSound` | api/src/services/rpcPool.ts:80-94 | a healthy provider is chosen whenever there is one, and the latency strategy chooses one no slower than any measured healthy one |
| `RpcPool.EveryHealthyIsDrawn` | api/src/services/rpcPool.ts:97-98 | every healthy provider is drawn by some random number |
| `RpcPool.FallsBackToTheFirst` | api/src/services/rpcPool.ts:82-85 | with no healthy provider the first is taken and the index stays |
| `RpcPool.RpcPool.MarkFailure` | api/src/services/rpcPool.ts:108-122 | the provider's whole new record |
| `RpcPool.GoesUnhealthyIff` | api/src/services/rpcPool.ts:108-152 | an answer leaves a provider healthy exactly when it was and the answer is good or the failures in a row stay below the threshold; and every counter |
| `RpcPool.StreakDecides` | api/src/services/rpcPool.ts:108-122 | over any row of answers, a provider that started healthy is healthy exactly when no streak of failures reached the threshold |
| `RpcPool.RpcPool.ExecuteWithFailover` | api/src/services/rpcPool.ts:129-158 | the attempts in order, the outcome and the whole pool afterwards, under arbitrary interference during each await |
| `RpcPool.RpcPool.PickUntried` | api/src/services/rpcPool.ts:135-140 | the selected provider unless tried, else the first untried, else none |
| `RpcPool.FailoverIsComplete` | api/src/services/rpcPool.ts:129-158 | whatever the health flags, no URL is asked twice and a call fails only after every URL has failed it |
| `RpcPool.FailureTriedEveryProvider` | api/src/services/rpcPool.ts:134-157 | with distinct URLs a failing call asked every provider exactly once, in vain |
| `RpcPool.FailoverKeepsHealth` | api/src/services/rpcPool.ts:108-155 | healthy always means fewer failures in a row than the threshold |
| `RpcPool.RpcPool.RunHealthChecks` | api/src/services/rpcPool.ts:56-74 | the whole pool after a sweep, under arbitrary interference while each probe is awaited |
| `RpcPool.SweepKeepsHealth` | api/src/services/rpcPool.ts:58-72 | a sweep keeps healthy meaning fewer failures in a row than the threshold, under that interference |
| `RpcPool.SweepRecoversIff` | api/src/services/rpcPool.ts:58-72 | undisturbed, a sweep brings back exactly the rested providers that answer, and every record afterwards |
| `RpcPool.RpcPool.Execute` | api/src/services/rpcPool.ts:124-127 | with other calls overlapping at the pool and at the breaker, the breaker sees one failure exactly when the failover gave up, and nothing is asked when it refuses |
| `RpcPool.UndisturbedCall` | api/src/services/rpcPool.ts:99-104 | an answered call asks the provider at the index, records the answer there only and moves on by one |
| `RpcPool.RoundRobinVisitsAll` | api/src/services/rpcPool.ts:99-104 | with all n providers healthy and answering, any n calls in a row ask each once, wherever the index stood |
| `Transactions.All` | sdk/src/pagination.ts:13-38 | it ends; unless aborted it returns the filtered list as of the last page, in order, without gap or repeat, while the store grows between fetches; aborted it returns a prefix of that list, or rejects while throttling |
| `Transactions.PageContinues` | api/src/services/transactions.ts:157-169 | a page is the next stretch of the list as it is now, of at most the limit, with a cursor exactly when some is left |
| `Transactions.CursorResumes` | api/src/services/transactions.ts:158-160 | a cursor points just past its page however much the list has grown |
| `Transactions.OffsetPage` | api/src/services/transactions.ts:157-166 | without a cursor a page is the stretch from the offset on; with one the offset counts for nothing |
| `Transactions.UnknownCursorStartsOver` | api/src/services/transactions.ts:158-160 | a cursor that no listed transaction has starts over |
| `Transactions.OffsetPagesTile` | api/src/services/transactions.ts:161-165 | pages at multiples of the limit tile the list |
| `CsvExport.ExportRoundTrip` | api/src/services/transactions.ts:175-191 | a reader by section 2 of RFC 4180, with LF line ends, gets back the header and under each column the field of every row |
| `CsvExport.FieldRoundTrip` | api/src/services/transactions.ts:178-184 | a field comes back whatever commas, quotes, CR or LF it holds |
| `CsvExport.RowRoundTrip` | api/src/services/transactions.ts:186-190 | a row in front of the rest of a document reads as one more record |
| `Amounts.ParseOfFormat` | sdk/src/token.ts:99-118 | printing and parsing back gives the canonical form, for every integer text and number of decimals |
| `Amounts.ParseExact` | sdk/src/token.ts:128-157 | parsing scales the decimal to the smallest unit, exactly |
| `Amounts.ParseAcceptsIff` | sdk/src/token.ts:129-148 | accepted exactly when it is a decimal text with at most that many fraction digits |
| `Amounts.WholeUnitsRoundTrip` | api/src/services/cex.ts:50-78 | the exchange form in a known asset, trailing zeros stripped, parses back to the amount at its decimals; an unknown asset or other text comes back as it is |
| `Amounts.OneWholeUnit` | api/src/services/cex.ts:50-55 | ten to the seventh stroops of XLM or USDC, eighth of BTC and eighteenth of ETH print as 1 |
| `Amounts.UnknownAsset` | api/src/services/cex.ts:66-70 | any other symbol comes back unchanged |
| `Amounts.StroopsFormsAgreeIff` | cex/withdrawal-router.ts:9-25 | on any text, the division and slicing forms agree exactly on empty text, text with a point, and integers of at most eight digits or without a leading zero |
| `Amounts.StellarAgreesIff` | sdk/src/utils.ts:98-111 | it prints what the token printer prints at 7 decimals exactly on text without a minus sign and on negative whole units |

## Left out

- Contract host: TTL extension, events and `require_auth` (treated as given); token contracts make no callbacks, so the temporary reentrancy guard has nothing to guard.
- Contract getters: they read one key each; `get_proposal` reads instance storage (lib.rs:1468-1473), where proposals are never written.
- Archive hash: its content and the stored `ArchivedHash` values; the archive id counter is modelled.
- `is_contract_address`: strkeys are a datatype with an account and a contract case.
- SHA-256, HMAC and signatures: the audit hash is an uninterpreted function.
- Audit service: database loading and saving, publication of checkpoints to a URL (its completion is a later `CreateCheckpoint`), a checkpoint's `publisher` and `publicationRef`, listing and export, and a caller that mutates a payload object after appending it.
- Canonical serializer: numbers are integers; fractions, exponents and `undefined` values are not modelled.
- Cache: debug output.
- Offline queue: persistence, health timer, `serverOnline`, event and drain handlers and timestamps; ids are assumed fresh, and the queue found in storage is taken as loaded before the first call.
- `Transactions.All`: the filter is an arbitrary predicate, because `parseAmount` is not part of this model; `fetchParallel`; negative limits.
- `Amounts.WholeUnitsRoundTrip`: which letters `toUpperCase` changes; it is an arbitrary function of the symbol.
- `Amounts.StroopsFormsAgreeIff`: which other texts the BigInt constructor accepts; it is an arbitrary function that reads optionally signed digits as their number.
- `BridgeFees.QuoteBoundsTheFee`: fee rates that are not integers, which the client rejects.
- Idempotency middleware, the Redis cache, webhooks, rate limiting, Express routes, Redis, Postgres and queue plumbing, React hooks, websocket and SDK event streams, shutdown, IP allow-lists, configuration and localisation: plumbing, or guarantees that rest on systems outside the code.

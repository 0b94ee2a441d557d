# Verified model of the ACTL money pipeline

ACTL is a merchant-side money pipeline: a buyer's agent proposes a purchase under a
mandate, a gate reserves budget and creates a provider order, a saga settles or
undoes it, and every step is written to a tamper-evident audit log.  This project
models that pipeline in Dafny and proves what it is meant to guarantee.

| file | models |
|---|---|
| `Digests.dfy` | SHA-256 as a free, collision-free term; hash columns |
| `Merkle.dfy` | Merkle roots, against section 2.1 of RFC 6962 |
| `CanonicalNumber.dfy`, `CanonicalKeys.dfy`, `CanonicalJson.dfy`, `CanonicalRaises.dfy` | the RFC 8785 printer, a reader that undoes it, and where it raises |
| `AuditChain.dfy` | the hash chain, the append service, the range verifier |
| `AuditHistory.dfy`, `AuditTamper.dfy`, `AuditBundle.dfy` | interleaved appends, tamper evidence, the standalone bundle verifier |
| `Ledger.dfy`, `LedgerInterleaving.dfy` | the append-only ledger and its row-locked transactions |
| `Mandate.dfy` | the mandate lifecycle |
| `Purchase.dfy` | the gate and `begin_purchase`, in one process |
| `OrderCreation.dfy` | idempotent order creation by any number of callers |
| `Settlement.dfy`, `SagaService.dfy` | `complete_purchase`: as a machine over its transactions, and as written |
| `Policy.dfy` | the policy engine and its twelve rules |
| `PriceFreshness.dfy` | quotes, price changes, proposals, and what passes the gate |
| `PurchaseFlow.dfy` | a purchase from its request to its end |
| `TokenBucket.dfy`, `ReplayNonce.dfy`, `Breaker.dfy` | the timed machines |

Conventions.  A protocol is a state and a step function; a run is any sequence of
steps, a step that is not enabled does nothing, and results hold for all runs.  A
class keeps the fields of the program's object; its methods are tied to functions
about which the results are stated.  The idempotency key is injective in mandate,
intent and attempt number, and the intent fixes the total; where the ledger's book
needs the mandate and the amount passed with a key to be the ones the key was made
from, that is what `handle_order_propose` establishes (`PurchaseFlow.ProposedAgrees`).

What the proofs found:

- A charge can be orphaned.  If the refund raises after a capture whose reservation
  was swept, the saga stays open; when the mandate is then revoked, the next call
  voids and reports COMPENSATED while the provider keeps the money
  (`Settlement.OrphanedChargeExists`).  `Settlement.SafeIsExact` gives the exact
  condition under which a call cannot end so.
- The refund key is per saga.  The port does not say what a provider does when the
  key, once used, comes with another payment; that is an input here.  If the provider
  takes it for a repetition, a second payment under one saga is kept while the saga
  says COMPENSATED, and no run ever refunds it (`Settlement.SecondPaymentExists`,
  `Settlement.SpentKeyStaysSpent`); if it refunds all the same, as the simulator adapter
  does, nothing is kept (`Settlement.SecondPayment`).
- The exporter filters checkpoints by their recorded start, the range verifier by
  their end.  The two agree whatever the roots exactly when no due checkpoint in the
  range is recorded to start before 1 (`AuditBundle.AgreementIsExact`).
- From 10^21 on, an int and a float that are equal print differently
  (`CanonicalNumber.IntAndFloatTexts`, `CanonicalNumber.PowersOfTen`).
- The mandate module's comment says that every trigger on a revoked mandate raises;
  in the code a second revocation is accepted (`Mandate.RevokedIsASink`).
- The circuit breaker promises exactly one trial call while half open.  Any call that
  ends clears the trial flag, so an earlier call that is still inside lets a second trial
  in beside the first; `Breaker.OneTrialIsExact` says that this is the only way.
- A catalogue seeding write sets a price without a new version, so G5 alone does not
  see it.  Rule `price.delta` of the policy engine catches it for a proposal made
  afterwards, within the mandate's tolerance; a request already under way is past that
  rule.  `PriceFreshness.SeedingIsExact` says exactly which writes let a stale price
  through the gates.

## Model

| member | source | states |
|---|---|---|
| LedgerInterleaving.NeverOverspent | src/actl/application/ledger_service.py:104-141 | In a step-level machine (lock, read rows, read balances, insert, commit, roll back) with any number of interleaved reserve, capture, release, reverse and sweep transactions, every committed table has reserved + settled <= the cap of every mandate |
| LedgerInterleaving.AlwaysABook | src/actl/application/ledger_service.py:104-279 | Every committed table of such a run refines a map key -> phase: each key has one of the five legal histories, reserved and settled are the non-negative sums over held and over captured keys, and the three buckets of a mandate net to zero |
| LedgerInterleaving.RunKeeps | src/actl/application/ledger_service.py:104-279 | The invariant behind both: what a lock owner has read stays true until it inserts, and uncommitted rows touch only locked mandates |
| LedgerInterleaving.AloneExecutes | src/actl/application/ledger_service.py:104-215 | A transaction that finds its mandate unlocked and runs one operation to its commit leaves exactly the committed table that the operation leaves, and no lock of its own |
| LedgerInterleaving.AloneSweeps | src/actl/application/ledger_service.py:236-279 | The same for the sweep of one held key, whose mandate and amount are read off its reservation row |
| LedgerInterleaving.CommittedStays | src/actl/application/ledger_service.py:69-87 | In every run, from every point on, the committed rows stay a prefix of the table: none is lost, changed or moved |
| LedgerInterleaving.RollbackDiscards | src/actl/application/ledger_service.py:104-279 | A rollback leaves the committed table as it is, and neither rows nor a lock of its transaction |
| LedgerInterleaving.PendingStays | src/actl/application/ledger_service.py:69-87 | What a transaction has inserted stays its own through every step but its own commit or rollback |
| LedgerInterleaving.CommitIsDurable | src/actl/application/ledger_service.py:69-87 | Right after a commit in any run the table is the one before with all that the transaction had inserted |
| Ledger.ExecuteRefines | src/actl/application/ledger_service.py:104-215 | Reserve, capture, release and reverse over rows answer and act as the four operations on the abstract book |
| Ledger.BalanceIsTotal | src/actl/application/ledger_service.py:90-101 | A balance netted from the rows is the sum over the book of what each key contributes to that account |
| Ledger.BucketsNetToZero | src/actl/domain/ledger/model.py:34-67 | Available, reserved and settled of a mandate always net to zero |
| Ledger.LedgerService.NetBalance | src/actl/domain/ledger/model.py:70-77 | The accumulating loop nets exactly the listed movements of an account |
| Ledger.LedgerService.Reserve | src/actl/application/ledger_service.py:104-141 | The reply and the rows posted, by the rows the key has and the balances: True without a change for a known key, the credit on available and the debit on reserved if reserved + settled + amount stays within the cap, else False; tied to the operation that refines the book |
| Ledger.LedgerService.Capture | src/actl/application/ledger_service.py:143-166 | The reply and the rows posted, by the kinds of row the key has: reserved to settled for a held key, True without a change for a captured one, False after a release or an expiry; tied to the operation that refines the book |
| Ledger.LedgerService.ReverseSettlement | src/actl/application/ledger_service.py:168-192 | The reply and the rows posted, by the kinds of row the key has: settled to available once after a capture; tied to the operation that refines the book |
| Ledger.LedgerService.Release | src/actl/application/ledger_service.py:194-215 | The reply and the rows posted, by the kinds of row the key has: reserved to available for a held key, True without a change for a released one, False after a capture or an expiry; tied to the operation that refines the book |
| Ledger.LedgerService.Sweep | src/actl/application/ledger_service.py:217-279 | For any scanned list of keys, stale or with duplicates: exactly the held ones are expired, each once and each with its audit entry; no other key moves; a halt changes nothing |
| Ledger.HeldState | src/actl/application/ledger_service.py:56-66 | The state read off the row kinds is HELD exactly for keys that the book holds |
| Merkle.MerkleRoot | src/actl/domain/audit/merkle.py:30-49 | The level-by-level loop with lone-node promotion returns the tree hash of section 2.1 of RFC 6962, written out with its own one-byte prefixes and left before right, for every non-empty list, raises exactly on the empty one, and terminates |
| Merkle.PairUpKeepsJoin | src/actl/domain/audit/merkle.py:38-48 | Pairing neighbours one level up leaves the split-at-a-power-of-two hash unchanged |
| Merkle.RootDeterminesEntries | src/actl/domain/audit/merkle.py:18-49 | Equal roots imply equal leaf lists, without assuming equal lengths |
| CanonicalNumber.NumberRoundTrip | src/actl/domain/audit/canonical.py:73-97 | The text is laid out by ECMAScript's rules (section 3.2.2.3 of RFC 8785): exponent form exactly outside 10^-6 to 10^21, then with one digit before the point and n - 1 as exponent; a reader gets back exactly digits * 10^exponent from it |
| CanonicalNumber.PlainSamples | src/actl/domain/audit/canonical.py:79-92 | Texts of negative zero, of the smallest number in plain form and of a negative fraction |
| CanonicalNumber.ExponentSamples | src/actl/domain/audit/canonical.py:93-96 | Texts of the powers of ten just outside the plain range, with the sign of the exponent |
| CanonicalNumber.NumberTextDetermines | src/actl/domain/audit/canonical.py:73-97 | Different digits, exponents or signs give different texts |
| CanonicalNumber.NormalKeepsValue | src/actl/domain/audit/canonical.py:82-86 | Dropping zeros at either end does not change the number denoted, so the normal form stands for the value |
| CanonicalNumber.IntRoundTrip | src/actl/domain/audit/canonical.py:47-48 | An integer text reads back as that integer, with nothing left of it |
| CanonicalNumber.IntAndFloatTexts | src/actl/domain/audit/canonical.py:47-50 | A numerically equal int and float print alike exactly when the number has at most 21 digits before the point |
| CanonicalNumber.PowersOfTen | src/actl/domain/audit/canonical.py:87-96 | 10^n as an int and as a float print alike exactly for n <= 20, so 10^21 and 1e21 do not |
| CanonicalKeys.KeyLessIsUnitOrder | src/actl/domain/audit/canonical.py:52-52 | Comparing the big-endian UTF-16 bytes puts the key first whose code unit is smaller where the two part, or which ends there (section 3.2.3 of RFC 8785) |
| CanonicalKeys.UnitsDecode | src/actl/domain/audit/canonical.py:52-52 | The code units of a character are the character or its surrogate pair |
| CanonicalKeys.KeyOrder | src/actl/domain/audit/canonical.py:52-52 | That order is total and asymmetric on strings, also beyond the basic plane |
| CanonicalJson.EncodeString | src/actl/domain/audit/canonical.py:60-70 | The appending loop builds the escaped text of the string |
| CanonicalJson.CharText | src/actl/domain/audit/canonical.py:22-30 | The seven short escapes, a lower-case u00xx for every other control character, and every other character unchanged (section 3.2.2.2 of RFC 8785) |
| CanonicalJson.ValueText | src/actl/domain/audit/canonical.py:38-57 | The text of each literal, of an array and of an object: brackets around its parts with a comma between neighbours and no space |
| CanonicalJson.SortedIsAscending | src/actl/domain/audit/canonical.py:51-54 | The printed members are exactly the given ones, in strictly ascending order of their keys |
| CanonicalJson.StringRoundTrip | src/actl/domain/audit/canonical.py:60-70 | The escapes can be undone: a reader gets back the string and the rest of the text |
| CanonicalJson.ValueRoundTrip | src/actl/domain/audit/canonical.py:38-57 | Canonical JSON can be undone for every nested value, up to key order and numeric equality of ints and floats |
| CanonicalJson.TextDetermines | src/actl/domain/audit/canonical.py:33-57 | Equal canonical text means equal values |
| CanonicalRaises.JcsRaises | src/actl/domain/audit/canonical.py:33-57 | The recursion of `_encode` with its exceptions raises exactly on values with a NaN, an infinity or a value of another type at any depth; anything else it prints as the printer does and it reads back whole |
| CanonicalJson.OrderIrrelevant | src/actl/domain/audit/canonical.py:51-54 | Reordering the keys of maps at any depth never changes the text |
| AuditChain.AuditLog.AppendEntry | src/actl/application/audit_service.py:43-96 | On an honest log an append never raises, adds one row and leaves an honest log: gapless from 1, hash-linked, a right checkpoint at exactly the multiples of N; the row's hash is SHA-256 of the previous row's hash, 32 zero bytes at first, followed by the payload's hash |
| AuditChain.AuditLog.WriteCheckpoint | src/actl/application/audit_service.py:99-131 | Idempotent per segment; which error is raised and when; otherwise the RFC 6962 root of the segment's hashes is stored |
| AuditChain.HonestExtends | src/actl/application/audit_service.py:62-96 | The next row and its checkpoint extend an honest log, and the segment to be checkpointed is always complete |
| AuditChain.VerifyChain | src/actl/application/audit_service.py:158-260 | Passes exactly when every row carries the next number and both right hashes and every due stored checkpoint has the right root; otherwise names the first row that does not and counts the rows before it |
| AuditChain.MatchingIsAscending | src/actl/application/audit_service.py:220-245 | The reported checkpoints are exactly the due and stored ones, in order |
| AuditHistory.AlwaysHonest | src/actl/application/audit_service.py:43-131 | Over any interleaving of appending transactions under the advisory lock, with rollbacks, every committed log is honest and no append raises |
| AuditHistory.AloneAppends | src/actl/application/audit_service.py:43-96 | An append that finds the lock free ends with its payload in one new last committed row, at a boundary too |
| AuditHistory.StepCommits | src/actl/application/audit_service.py:43-131 | Only a commit adds rows, those that its transaction inserted; a rollback leaves neither row, checkpoint nor lock |
| AuditHistory.CommittedStays | src/actl/application/audit_service.py:43-131 | In every run the committed rows stay a prefix of the log |
| AuditHistory.HonestAccepts | src/actl/application/audit_service.py:158-260 | Every range 1 <= from <= to <= tail of an honest log is accepted whole, matching exactly the multiples k of N with from + N - 1 <= k <= to |
| AuditTamper.HeadDetermines | src/actl/domain/audit/chain.py:16-28 | From genesis, one head hash fixes the length and every payload hash |
| AuditTamper.HashDetermines | src/actl/domain/audit/chain.py:20-22 | A payload's hash is SHA-256 of its canonical text alone, and payloads with one hash have one text and one value |
| AuditTamper.SameHeadSameHistory | src/actl/application/audit_service.py:158-260 | Two logs accepted from 1 with the same head hold the same canonical payloads, position by position |
| AuditTamper.SameRootSameHistory | src/actl/application/audit_service.py:220-245 | Two logs accepted from 1 that store the same Merkle root at a due boundary k hold the same canonical payloads at 1 to k |
| AuditTamper.TamperedPayloadFound | src/actl/application/audit_service.py:199-217 | Changing row s of an honest log under its old hashes is found exactly when it changes the canonical text, and then at s with s - 1 rows verified; columns outside the hash never matter |
| AuditBundle.VerifyBundle | scripts/export_audit_bundle.py:87-164 | Exit code 0 exactly for bundles whose rows, checkpoints and head are right from the start the script assumes |
| AuditBundle.FullExportAgrees | scripts/export_audit_bundle.py:217-219 | A bundle exported from 1 is accepted exactly when the range verifier accepts the same rows and the head matches, provided no due checkpoint in the range is recorded to start before 1 |
| AuditBundle.AgreementIsExact | scripts/export_audit_bundle.py:217-219 | That proviso is exact: on every linked log the two verifiers agree for every column of roots if and only if it holds |
| AuditBundle.MovedCheckpointDiffers | scripts/export_audit_bundle.py:217-219 | At every boundary of every linked log: a checkpoint recorded to start before 1 is dropped by the export filter, so with a wrong root the bundle passes and the range verifier fails |
| AuditBundle.PartialExportAccepted | scripts/export_audit_bundle.py:98-114 | For any range and any checkpoint table, acceptance by the range verifier with the right head carries over to the bundle |
| AuditBundle.HonestExportAccepted | scripts/export_audit_bundle.py:173-260 | Every range of an honest log exports to an accepted bundle |
| AuditBundle.BundleHeadDetermines | scripts/export_audit_bundle.py:153-157 | Two accepted bundles from 1 with one published head hold the same payloads |
| Mandate.FireIsTarget | src/actl/domain/mandate/state_machine.py:81-122 | The table search is the lifecycle relation: at most one row applies, and its guard decides |
| Mandate.FireSays | src/actl/domain/mandate/state_machine.py:46-89 | Each transition with its guard written out, and that every other pair of status and trigger is an invalid transition |
| Mandate.NeverWidens | src/actl/domain/mandate/state_machine.py:81-89 | Along any lifecycle a later status is strictly further on, or both are REVOKED |
| Mandate.RevokedIsASink | src/actl/domain/mandate/state_machine.py:111-122 | A second revocation of a revoked mandate is accepted; every other trigger raises (the module's comment says all do) |
| Settlement.NoOrphanedCharge | src/actl/application/orchestrator/saga.py:147-344 | Over any number of non-overlapping calls, with sweeps and mandate changes anywhere between transactions and whatever the provider does with a spent refund key: whenever a call returns, the purchase is settled and charged, or undone, refunded and FAILED, provided no refund raised and no call stopped part-way |
| Settlement.SafeIsExact | src/actl/application/orchestrator/saga.py:147-344 | Exact condition for one call, for each way a provider may answer a spent refund key: it ends well however it goes if and only if, when it begins, nothing was captured or all is refunded and the order FAILED, and, where the provider swallows a spent key, the call cannot capture a payment that the key no longer refunds |
| Settlement.SafeRunsEndWell | src/actl/application/orchestrator/saga.py:147-344 | With calls that stop anywhere and refunds that raise: every return in a run of safe calls is good |
| Settlement.OrphanedChargeExists | src/actl/application/orchestrator/saga.py:176-194 | The proviso is needed: after a raising refund, a revocation makes the next call report COMPENSATED while the provider keeps the money |
| Settlement.SecondPayment | src/actl/application/compensations.py:153-159 | What a second payment after a refunded first one comes to: kept under COMPENSATED where the provider swallows the spent key, refunded where it refunds all the same, outstanding with the call raised where it refuses |
| Settlement.SecondPaymentExists | src/actl/application/compensations.py:153-159 | Such a second payment is reachable from the start: a call that stops right after its refund, then a call with another payment |
| Settlement.SpentKeyStaysSpent | src/actl/application/compensations.py:153-159 | Where the provider swallows a spent key, what was refunded never changes again in any run |
| Settlement.MarksAreTransitions | src/actl/application/compensations.py:69-77 | Closing and settling a mandate are the lifecycle's own transitions, whose guards always hold there |
| Settlement.LedgerStepIsLocal | src/actl/application/ledger_service.py:143-215 | A ledger operation on a key does the same in every book and touches no other key |
| SagaService.SagaStore.CompletePurchase | src/actl/application/orchestrator/saga.py:147-344 | The call as written, over the ledger's rows, with sweeps, mandate changes or a stop before any of its steps: each execution is a run of the machine, and from a safe start a return is good; a resolved saga is returned untouched; a declined payment is never captured; it raises only where a fetch or a refund raises or is refused or it is stopped; left alone, every combination of mandate status, authorization, signature, capture, reservation and refund has its stated end, COMPLETED among them |
| PurchaseFlow.OpenSaga | src/actl/application/orchestrator/saga.py:80-144 | `begin_purchase` of a fresh key over rows that refine a book ends exactly where the settlement machine starts, or with no balance moved |
| PurchaseFlow.BuyAndComplete | src/actl/application/orchestrator/saga.py:80-344 | A purchase from request to end: never begun with no balance moved, still open, or over and settled and charged or undone and not charged; with a declined payment never charged, and left alone with a good one settled and charged |
| PurchaseFlow.ProposedAgrees | src/actl/application/agents/merchant.py:265-275 | Every request ever made from a proposal asks for the positive total that its key was made from |
| SagaService.SagaStore.VoidOrderAndReleaseReservation | src/actl/application/compensations.py:80-126 | C2 and C1 as one transaction, tied to the machine's step |
| SagaService.SagaStore.ReverseSettlement | src/actl/application/compensations.py:161-189 | C5's transaction, tied to the machine's step |
| SagaService.SagaStore.SettleCapture | src/actl/application/orchestrator/saga.py:280-336 | S5's transaction: settled and COMPLETED together, or on to the refund |
| OrderCreation.OneCallerReachesProvider | src/actl/application/payment_service.py:146-216 | Over any interleaving of callers with one key, including ones that stop, or whose first or second transaction rolls back and is retried, at most one caller ever calls the provider |
| OrderCreation.EveryReturnIsThatOrder | src/actl/application/payment_service.py:146-254 | Every caller that returns an order returns that caller's order, with the provider's id already set |
| OrderCreation.FinishedForGood | src/actl/application/payment_service.py:147-166 | A key never leaves COMPLETED or FAILED, and its order stays as it is |
| OrderCreation.WriteAhead | src/actl/application/gate.py:260-279 | Whenever the provider has been called, the committed log holds budget.reserved and after it that caller's payment.intent, and its key is on the ledger's book |
| OrderCreation.AloneGetsOrder | src/actl/application/payment_service.py:146-254 | A caller left alone with an unused key ends with its own order, the provider's id on it, the key COMPLETED and both write-ahead entries in the log, in order |
| OrderCreation.AloneFails | src/actl/application/payment_service.py:212-242 | If the provider fails, the caller ends so, the key is FAILED and the order failed without a provider id |
| OrderCreation.LaterCallerGetsIt | src/actl/application/payment_service.py:146-152 | A caller after a completed attempt gets that order as a duplicate, and the provider is left alone |
| OrderCreation.RollbackStartsOver | src/actl/application/payment_service.py:146-254 | A rolled-back claim frees the key and leaves no trace, and its caller starts over; so does the owner whose second transaction fails |
| OrderCreation.PollLearns | src/actl/application/payment_service.py:266-278 | A poll of the machine ends the wait on a failed key, on a completed key with its order, and at the fortieth poll, and otherwise goes on |
| OrderCreation.ReservationRowsExist | src/actl/application/ledger_service.py:130-141 | A key on the book has its two reservation rows in the ledger, before all its other rows |
| OrderCreation.BoundedWait | src/actl/application/payment_service.py:257-283 | A waiting caller has ended after forty polls, whatever the owner of the key does |
| OrderCreation.AwaitInFlightCompletion | src/actl/application/payment_service.py:257-283 | The loop over `waited`: no poll but the last sees a finished key; a FAILED sight ends in the attempt's failure, a COMPLETED one with its order in that order as a duplicate, and only after forty polls there is a timeout |
| Purchase.PurchaseService.AttemptG1ThroughG5 | src/actl/application/gate.py:156-279 | Passes exactly when all gates admit and the budget suffices, with the reservation, the status and the entry committed; otherwise gives the reason of the first failing gate and rolls everything back |
| Purchase.PurchaseService.CreateProviderOrder | src/actl/application/payment_service.py:111-254 | Answer and new tables, field by field, for a fresh, finished, failed or running key, and for a taken attempt number: the new order with the provider's id, or failed without one, and payment.intent in the log |
| Purchase.PurchaseService.ReleaseReservationAndMarkCompensated | src/actl/application/compensations.py:27-77 | C1 for any key and amount: the ledger's release, the audit entry, and the mandate closed if it is there and executing |
| Purchase.PurchaseService.RunG6G7Execute | src/actl/application/gate.py:282-394 | Verdict, reason code, order and duplicate flag for every outcome; a failed first attempt releases the reservation, a replay touches nothing |
| Purchase.PurchaseService.ExecuteMoneyAction | src/actl/application/gate.py:89-153 | Halt and shape checks first, then the first failing gate's reason, then the order's outcome; on a fresh key allowed if and only if every condition holds |
| Purchase.PurchaseService.BeginPurchase | src/actl/application/orchestrator/saga.py:80-144 | For any amount: on a fresh key ends awaiting authorization with exactly the amount newly held, the order under the provider's id and the two write-ahead entries in the log, or failed with reserved and settled of every mandate unchanged, and which of the two; a resolved saga is returned untouched |
| Purchase.FreshReservation | src/actl/application/ledger_service.py:104-141 | A reservation under a key without rows holds exactly its amount, and releasing it gives exactly that back |
| Policy.Evaluate | src/actl/domain/policy/engine.py:40-70 | The loop over the twelve rules allows exactly if every comparison, written out over the fields of mandate, intent and context, holds, and otherwise lists the codes of all failing rules in order |
| Policy.FailuresSay | src/actl/domain/policy/rules.py:91-251 | The reason codes of any request: which comparison each code stands for, in the engine's order |
| Policy.DriftIsMeasured | src/actl/domain/policy/rules.py:191-211 | The floored quotient of the price rule is within the tolerance exactly if the change is less than the next hundredth of a percent, for quoted totals of either sign and zero |
| Policy.AllowsIsAll | src/actl/domain/policy/rules.py:238-251 | The rule table misses no rule: no failure over it means that each of the twelve passes |
| PriceFreshness.NeverAStalePrice | src/actl/application/gate.py:239-245 | In any run of quotes, version-bumping price changes, proposals, mandate changes, passing time and seeding writes that agree with all current quotes: whenever G5 passes a proposed request, its amount is the item's current price times the quoted nights |
| PriceFreshness.HarmlessRunNeverStale | src/actl/application/gate.py:170-245 | With the policy engine and all gates but the budget in play, the same holds of every admitted request if no seeding write is harmful: none contradicts a current quote on which a request can still be admitted or a proposal still be allowed at the price written |
| PriceFreshness.GateChargesCurrentPrice | src/actl/application/agents/merchant.py:262-275 | When the gates of the purchase service admit a proposed request, it charges the current price, and the amount is the total that its idempotency key was made from |
| PriceFreshness.SeedingIsExact | src/actl/infrastructure/db/repositories/catalog.py:67-86 | That condition is exact: a seeding write keeps stale prices from passing the gates in all that may follow if and only if it is not harmful |
| PriceFreshness.HarmfulSeedDefeats | src/actl/infrastructure/db/repositories/catalog.py:67-86 | After any harmful write there is a run, of the lifecycle, the clock and at most one proposal that the engine allows, that gets the old price past the gates |
| PriceFreshness.Merchant.CreateQuote | src/actl/application/catalog_service.py:163-246 | When a quote is issued, and every field of it: price, nights, total, the global version and the expiry; and its audit entry |
| PriceFreshness.Merchant.MutatePrice | src/actl/application/catalog_service.py:249-283 | When a price changes, and that then the item alone has it, under a version one higher |
| PriceFreshness.Merchant.CheckProposal | src/actl/application/agents/merchant.py:167-231 | The checks before the engine pass exactly if the buyer names a live mandate and its own quote and claims what the merchant derives; otherwise each reason has its stated cause |
| PriceFreshness.Merchant.HandleOrderPropose | src/actl/application/agents/merchant.py:145-275 | Exactly which proposals become requests, over the fields of quote, item, mandate and claims, and with which fields; the reason of the first failing check with nothing changed, or the policy engine's decision stored with its audit entry |
| TokenBucket.StretchBound | src/actl/infrastructure/cache/rate_limit.py:47-93 | Any stretch of calls from any reachable bucket grants at most capacity + rate * elapsed + one epsilon |
| TokenBucket.Conservation | src/actl/infrastructure/cache/rate_limit.py:62-83 | Granted so far plus what is left never exceeds one full bucket plus the refill since the first call |
| TokenBucket.WaitingIsEnough | src/actl/infrastructure/cache/rate_limit.py:62-83 | In any run a request within the capacity is allowed once the refill since the last call alone would pay for it, and always on a fresh key |
| TokenBucket.FullBucket | src/actl/infrastructure/cache/rate_limit.py:62-83 | On a missing key or after a minute, a request is allowed exactly up to the capacity |
| TokenBucket.DropsNeverShow | src/actl/infrastructure/cache/rate_limit.py:35-39 | Dropping the key after 120 idle seconds changes no answer and no balance over a whole run |
| TokenBucket.TokenBucketLimiter.TryAcquire | src/actl/infrastructure/cache/rate_limit.py:121-135 | The script's answer and stored fields, in terms of the stored ones and the capped refill, and tied to the function the bounds are about |
| ReplayNonce.AcceptedAtMostOnce | src/actl/application/agents/envelope_service.py:47-138 | One envelope is accepted at most once in a run of any length, although nonces are forgotten |
| ReplayNonce.AcceptedStampsAreApart | src/actl/application/agents/envelope_service.py:113-136 | Two accepted envelopes with one message id carry timestamps at least ttl - 2 * skew apart (360 s as deployed) |
| ReplayNonce.WindowsAreExact | src/actl/infrastructure/cache/nonce.py:16-42 | Replays are impossible if and only if the time to live exceeds twice the skew window |
| ReplayNonce.ClaimLasts | src/actl/infrastructure/cache/nonce.py:34-42 | A won claim stays for its time to live, whatever else is verified meanwhile |
| ReplayNonce.EnvelopeVerifier.VerifyEnvelope | src/actl/application/agents/envelope_service.py:47-138 | Verified exactly if the protocol, the signature and its algorithm, the sender's identity, its dates and its secret, the cache, the id and the skew are all as required; which failure gives which reason; and that only a claimed id changes the nonces, the claim coming before the skew check |
| Breaker.RefusedByHistory | src/actl/platform/breaker.py:43-79 | In every sequential run a call is refused exactly when at least `failure_threshold` failures follow the last success and the last of them is less than the timeout ago |
| Breaker.OverlappingAgrees | src/actl/platform/breaker.py:43-79 | However calls overlap: OPEN iff that many consecutive failures iff the opening time is set, to the last failure; a call is refused exactly before the timeout or when a trial was let in since any call ended |
| Breaker.LoneTrial | src/actl/platform/breaker.py:55-68 | A trial let in while no other call is inside stays alone until it ends, whoever asks |
| Breaker.OneTrialIsExact | src/actl/platform/breaker.py:29-31 | The promised single trial call is kept if and only if no other call is inside when the trial is let in: the end of any call clears the flag |
| Breaker.CrowdedTrialExists | src/actl/platform/breaker.py:55-68 | A trial beside an earlier call is within reach: of two calls inside one fails, and the timeout passes |
| Breaker.CircuitBreaker.Call | src/actl/platform/breaker.py:51-68 | One whole call changes the fields as the function that the history results are about |

## Left out

- NoOrphanedCharge: as claimed for every run it is false of the code, see `OrphanedChargeExists`; the proviso (no raising refund, no stop part-way) is refined to the exact condition in `SafeIsExact`.
- FullExportAgrees: false of the code for some checkpoint tables; `AgreementIsExact` gives the tables.
- SafeIsExact: repeating a capture, or a refund of the same payment under the same key, is taken to change nothing; the adapters leave both to the provider.  A refund whose key was used for another payment is an input with three answers.
- NeverAStalePrice: quoting, price changes, proposals, seeding writes and the gate's checks are each one atomic step.
- SeedingIsExact: about the gates G1, G2, G3 and G5 at one moment, with the committed total free to be zero; the budget check G4 and the order insert may still refuse what these admit.
- AwaitInFlightCompletion: `waited` is an exact real, so rounding of repeated additions of 0.05 is not modelled.
- StretchBound: tokens and times are exact reals, the rate limit is positive, the clock does not go back, and Redis keeps the same clock.
- AcceptedAtMostOnce: Redis and the program share one non-decreasing clock, and each verification is one atomic step.
- BeginPurchase: one caller with nothing else at work; what other callers of the same key may do in between is in `OrderCreation`, and of other keys in `LedgerInterleaving`.
- SafeRunsEndWell: REVOKED is taken to be a sink for other transactions too; the gate reads the status before it holds the row lock, so in the program another saga's gate could write EXECUTING over a revocation that commits in between.
- CompletePurchase: overlapping calls for one saga are outside the model, as is a missing saga row.
- Two sagas under one mandate: the mandate's status is only read and moved; no balance is claimed from it.
- Bit-level SHA-256, HMAC and Ed25519: a digest is a free term, and signature checks are abstract functions or flags.
- Hexadecimal digest text: a stored hash is the text that the program writes for a digest, another spelling that parses to one, or text that does not parse; the digits are not modelled.
- Shortest decimal digits of a binary float: the digits are part of the float value.
- Unpaired surrogates and UTF-8 encoding: canonical text is hashed as text.
- Account name text and the parsing of a mandate id out of it: an account is a pair of mandate and bucket.
- Sweep: the scan for old reservations by age is not modelled; a sweep gets an arbitrary list of keys.
- Deadlock retries and their delays: a rolled-back transaction starts again; the number of retries is not bounded.
- Webhooks and reconciliation: they may also move orders, outside the runs considered for a saga.
- The durable integrity halt: a flag that the gate and the sweep read; who trips it is not modelled.
- HandleOrderPropose: the committed total that the engine reads is an input, any number from zero up; how other purchases move it is in `Ledger`.
- The bundle's file manifest and its JSON files: the verifier starts from parsed rows, checkpoints and metadata.
- Anchoring of checkpoint roots, metrics, tracing, narration, LLM clients, the web front end, routers and migrations.

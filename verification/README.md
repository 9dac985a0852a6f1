# Proofs about the ArcLayer Runner and its indexer

The Runner lets autonomous agents write to a blockchain through a wallet adapter; the indexer follows the contracts
those writes go to. This project models the parts of both that keep money and history safe, and proves what they promise
over whole runs.

- **Execution gateway** (`Journal`, `Spend`, `Calendar`, `WriteResults`, `Gateway`, `GatewayRuns`, `GatewayTheorems`,
  `GatewayCrash`, `GatewayHashes`, `GatewayAnswers`, `GatewayEffects`, `SpendRules`, `OperationStates`). Every write
  passes `execute`, an idempotent boundary over a SQLite journal with idempotency keys and wallet and job locks, fronted
  by in-memory maps and a spend ledger. `execute` has one await, so it is two atomic steps; calls interleave freely with
  reconciliation, receipts, crashes at any point and restarts. Main results: what execute answers and leaves, in every
  reachable state; the memory is only a cache, one live operation per lock and key, at most one call per key without a
  recorded failure, exactly when a crash lets a request run again, spending within the policy, rows on the declared
  state machine.
- **Canonical documents** (`SortedEntries`, `Numbers`, `Json`, `JsonNumbers`, `JsonStrings`, `JsonTrees`,
  `JsonRoundTrip`, `CanonicalJson`, `CanonicalText`, `Schemas`, `CanonicalCodec`, `AcceptedDocuments`,
  `EncodedDocuments`, `JsonSizes`, `JobEnvelope`, `UndefinedFields`, `Deliverable`). The key-sorting printer with the
  number layouts of Number::toString (section 6.1.6.1.20 of ECMAScript), JSON.parse by sections 2 to 7 of RFC 8259, the
  schema checks, and encode and decode of job envelopes and deliverables. A finite double is the decimal it is printed
  as, and rounding to doubles is a parameter, so the results hold for whatever rounding there is. Main results:
  JSON.parse reads exactly the grammar; the very text of every value; the printer decides equality up to key order;
  decode inverts encode exactly on values without undefined; which documents are accepted, member by member.
- **USDC amounts** (`Decimal`, `Usdc`). Four parsers and two printers of decimal strings, exact and in agreement.
- **Approvals** (`ApprovalStates`, `ApprovalStore`, `ApprovalManager`, `ApprovalRuns`, `ApprovalOutcomes`,
  `Registration`). A compare-and-set state machine with expiry on read, and the ERC-8004 registration flow whose retries
  must never send a second transaction: at most one over every run, and where every reply leads.
- **Indexer** (`Ingest`, `ProjectionStore`, `SyncCycle`, `SyncProgress`, `WorkerPool`). Range splitting under RPC
  failure, cursors and crashes, aggregates recomputed only where named, and the worker pool.
- **Replay protection and x402** (`NonceStore`, `X402`, `X402Rules`, `X402Retries`, `X402Money`). The timed nonce store
  with the timestamp check, and the event-sourced spending ledger with its limits, its exact account against the money
  that moved, and retries of unresolved payments.

Each class performs the statements of the code on its own fields, and its methods equate the whole new state with a
function of the old one; the theorems are about those functions, over every run of them. Clocks, fresh ids, the wallet,
the RPC node, the console and the scheduler are parameters, so a theorem holds for everything they may answer. A string
that the code tests for truthiness is "" here when it is absent. `dafny verify dfyconfig.toml` checks the whole project.

## Where the code and its comments differ

- `apps/arclayer-runner/src/operation-journal.ts:484-486` says an operation that was executing at shutdown becomes
  `unknown`. The journal never records `executing` (`apps/arclayer-runner/src/execution-gateway.ts:519` writes memory
  only), so such an operation is recovered to `failed` and its request may run again. The model follows the code;
  `GatewayCrash.CrashRepeatsIff` says exactly when the request runs again,
  `GatewayTheorems.CrashDuringCallAllowsASecond` gives a concrete run, and the at-most-once results name the crash.
- `apps/arclayer-runner/src/execution-gateway.ts:618` takes a reconciled hash into memory for every outcome, the journal
  only for `confirmed`. `GatewayTheorems.MemoryIsOnlyACache` therefore compares replays without the hash, and
  `GatewayHashes.MemoryDoesNotShow` with it, in the runs where no such reconciliation brings a new hash.
- `packages/runner-core/src/approval.ts:71` allows only `executing` after `approved`;
  `apps/arclayer-runner/src/approval-store.ts:525-537` also expires approved rows. `ApprovalStates.Moves` is the table
  plus that edge.
- `packages/runner-core/src/nonce-store.ts:4` says a nonce cannot be reused within its life. That makes a signed request
  acceptable at most once exactly when the life exceeds twice the timestamp skew plus the time between the two checks
  (`NonceStore.ReplayBound`); one skew is enough when timestamps are never ahead of the clock. The defaults for life and
  skew are equal (`apps/arclayer-runner/src/http.ts:130-131`).
- `packages/runner-core/src/ledger.ts:161-174` sums "successful payment amounts", but counts every attempt of a key that
  has succeeded, earlier failed ones too. `X402Retries.SumIsPaidIff` gives the exact excess, `X402Money.SumIsNotPaid` an
  input.
- `apps/arclayer-runner/src/services.ts:1968-1972` leaves a payment of unknown outcome pending so that a retry does not
  pay again. `hasPendingAttempt` takes an earlier failure of the key for its end, so that holds exactly for keys that
  have never failed (`X402Retries.UnresolvedIsPaidAgainIff`); `X402Money.UnresolvedIsPaidAgain` gives three payments.
- In `apps/arclayer-runner/src/services.ts:1951-2021` a settled payment whose receipt cannot be stored is recorded as a
  failure, so its key can be paid again, and its amount is in no sum until the key succeeds.
  `X402Money.MovedAgainstPaid` and `X402Money.PaidAgainIff` say exactly by how much and when, `X402Money.PaidTwice`
  gives two payments.
- `canonicalStringify` prints undefined as null, so a document with undefined does not decode to itself
  (`UndefinedFields.UndefinedIsLost`).

## Model

| member | source | states |
|---|---|---|
| GatewayTheorems.MemoryIsOnlyACache | apps/arclayer-runner/src/execution-gateway.ts:273-475 | in every reachable state, for every call on a supported chain, execute gives the same reply (replay with the same operation, in progress, reconciliation required, key reused, lock conflict, refused, run), the hash of a replay aside, and the same tables, ledger and ids as it would with both in-memory maps empty, although a restart reloads only some rows |
| GatewayAnswers.ExecuteAnswers | apps/arclayer-runner/src/execution-gateway.ts:341-525 | in every reachable state, what execute answers on a supported chain, from the rows, the ledger and the policy alone: a confirmed operation of the request is replayed, an unknown one must be reconciled, any other standing one is in progress, a key used by another request is refused, and so is a request in whose way an operation stands that is not over; otherwise executeFn is called exactly when a wallet is named and every rule of the policy is kept, and a refusal names the first rule that is not |
| GatewayAnswers.SupportedMeaning | apps/arclayer-runner/src/execution-gateway.ts:121-130 | a chain is supported exactly when its id is given or its name is one of four, in any case of letters |
| GatewayAnswers.UnsupportedAnswer | apps/arclayer-runner/src/execution-gateway.ts:402 | on another chain a request memory has no answer to is told so, and reserves nothing |
| GatewayEffects.ExecuteLeaves | apps/arclayer-runner/src/execution-gateway.ts:341-525 | what execute leaves up to the call, in every reachable state: the failed or cancelled row of the same request is gone, every other row as it was, a new row exactly for an admitted request, created or failed without a wallet; one reservation exactly for a call under a policy with an amount; and the record memory then has |
| GatewayEffects.SuccessIsReplayed | apps/arclayer-runner/src/execution-gateway.ts:352-361 | over every run: once a write has succeeded with a hash, its operation is confirmed with that hash for ever and holds no lock, and the same request is answered with a replay of that very hash in every later state, crashes and restarts included |
| GatewayEffects.FinishLeaves | apps/arclayer-runner/src/execution-gateway.ts:530-561 | settling changes the operation's own row and record to the state and hash of the result, and nothing else |
| GatewayEffects.ReconcileLeaves | apps/arclayer-runner/src/execution-gateway.ts:600-635 | a reconciliation changes a row exactly when memory has the operation as broadcast or unknown, to the state the operator gives, with the hash for confirmed only |
| GatewayEffects.ReceiptLeaves | apps/arclayer-runner/src/execution-gateway.ts:648-656 | a receipt changes its operation's row only, to the state memory has or confirmed |
| GatewayEffects.RestartLeaves | apps/arclayer-runner/src/operation-journal.ts:490-528 | a restart fails what was not yet executing, makes unknown what was, keeps the rest, and has every uncertain row back in memory as it stands |
| GatewayTheorems.CacheShowsIff | apps/arclayer-runner/src/execution-gateway.ts:346-402 | on any chain, that equivalence holds exactly when the chain is supported or memory has nothing decisive on the key: memory is consulted before the chain is resolved |
| GatewayTheorems.CacheShows | apps/arclayer-runner/src/execution-gateway.ts:346-402 | such a call exists after one step: a write is executing, and its request comes again without a known chain; it is told in progress, with empty maps unsupported chain |
| GatewayTheorems.CallsAreSeparatedByFailure | apps/arclayer-runner/src/execution-gateway.ts:346-479 | over every run, between two calls of executeFn for one idempotency key a step failed the first operation: a recorded failure or cancellation, an operator's reconciliation as failed, or a crash that caught its row before `executing` |
| GatewayTheorems.ConfirmedForEver | apps/arclayer-runner/src/execution-gateway.ts:352-361 | once confirmed an operation stays confirmed in every later state, restarts included, and no later step calls executeFn for its key |
| GatewayTheorems.UncertainNeedsReconciliation | apps/arclayer-runner/src/execution-gateway.ts:600-635 | once broadcast or unknown, a key is called for again only after an operator reconciled the operation as failed |
| GatewayCrash.CrashRepeatsIff | apps/arclayer-runner/src/operation-journal.ts:484-523 | for a process that dies while executeFn runs, in any reachable state: after the restart the same request runs executeFn again exactly when its row was still before `executing` and the request passes the chain, wallet and policy checks; where the row says `executing`, as it does only once a receipt was linked, the request on a supported chain is told to reconcile |
| GatewayTheorems.CrashDuringCallAllowsASecond | apps/arclayer-runner/src/operation-journal.ts:484-509 | a concrete such run: the row is still `created` while executeFn runs, the crash fails it and the same request runs executeFn a second time |
| GatewayTheorems.NoCallWhileLive | apps/arclayer-runner/src/execution-gateway.ts:410-475 | in any state that satisfies the invariant, no step calls executeFn for a key whose operation is neither failed nor cancelled |
| GatewayTheorems.OneLiveOperationPerLock | apps/arclayer-runner/src/operation-journal.ts:239-335 | in every reachable state no two operations have one idempotency key, and no two non-terminal ones share a lower-cased wallet or a job |
| GatewayTheorems.LocksAreExact | apps/arclayer-runner/src/operation-journal.ts:413-417 | in every reachable state a wallet or job is locked by an operation exactly when the operation asked for it and is not terminal |
| GatewayTheorems.RowsFollowTheMachine | packages/runner-core/src/operation.ts:38-60 | over every run a row's states are related by the reflexive-transitive closure of the declared transitions, a terminal row never changes state, and a deleted id never returns |
| GatewayTheorems.SpendIsCapped | apps/arclayer-runner/src/services.ts:181-207 | in every reachable state the reserved sum of every wallet, UTC day and UTC month is within the daily and monthly limits, the clock being read for each sum and again for the reservation and only assumed not to run backwards |
| GatewayTheorems.OneReservationPerCall | apps/arclayer-runner/src/execution-gateway.ts:495-515 | a call made under the policy with a non-zero amount has, in every later state, exactly one reservation, of that amount, which parses and is at most the per-transaction limit |
| GatewayHashes.ReconcileKeepsHashesIff | apps/arclayer-runner/src/execution-gateway.ts:614-618 | reconcileBroadcast keeps memory and journal agreed on transaction hashes exactly when it brings no new hash with an outcome other than confirmed |
| GatewayHashes.HashesPart | apps/arclayer-runner/src/execution-gateway.ts:614-618 | such a run exists: a write that timed out is reconciled as failed with a hash, and memory and journal no longer agree |
| GatewayHashes.RunsAgreeOnHashes | apps/arclayer-runner/src/execution-gateway.ts:532-656 | over every run without such a reconciliation, crashes and restarts included, memory and journal agree on every hash |
| GatewayHashes.MemoryDoesNotShow | apps/arclayer-runner/src/execution-gateway.ts:273-475 | in those runs a call on a supported chain gets the very reply, the hash of a replay included, that it would get with both maps empty |
| GatewayRuns.StepKeepsInv | apps/arclayer-runner/src/execution-gateway.ts:341-656 | every step of the gateway, crashes inside the synchronous part of a call included, keeps the invariant: sound keys and locks, and memory records that match their rows |
| GatewayRuns.DecideSpec | apps/arclayer-runner/src/execution-gateway.ts:346-475 | what the idempotency part of execute does to the tables and memory: it purges only failed or cancelled rows, and admits only a key that no row then holds |
| GatewayRuns.CompositeInjective | apps/arclayer-runner/src/execution-gateway.ts:347 | the composite text of key and params hash separates all pairs when the hash has no colon |
| Gateway.ExecutionGateway.constructor | apps/arclayer-runner/src/execution-gateway.ts:227-267 | a new process recovers the journal and reloads memory: the restart step on the same stores |
| Gateway.ExecutionGateway.ReloadFromJournal | apps/arclayer-runner/src/execution-gateway.ts:273-337 | memory holds the given confirmed rows and all uncertain ones, later entries replacing earlier ones |
| Gateway.ExecutionGateway.AdmitOperation | apps/arclayer-runner/src/execution-gateway.ts:402-479 | the outcome of creating an operation, with one retry after a purge, on journal and memory |
| Gateway.ExecutionGateway.ConsultIndex | apps/arclayer-runner/src/execution-gateway.ts:347-390 | the in-memory check: an answer, a purge of a failed or cancelled operation from memory and journal, or no change |
| Gateway.ExecutionGateway.AssertAllowed | apps/arclayer-runner/src/services.ts:182-192 | the policy guard over both exact window sums of the ledger |
| Gateway.ExecutionGateway.StartWrite | apps/arclayer-runner/src/execution-gateway.ts:481-525 | wallet check, policy, reservation and call, as the Continue step on the whole state |
| Gateway.ExecutionGateway.ExecuteUntilCall | apps/arclayer-runner/src/execution-gateway.ts:341-525 | the whole new state and reply of execute up to the call of executeFn equal the Begin step |
| Gateway.ExecutionGateway.ExecuteAfterCall | apps/arclayer-runner/src/execution-gateway.ts:530-561 | the whole new state after executeFn settles equals the Finish step |
| Gateway.ExecutionGateway.ReconcileBroadcast | apps/arclayer-runner/src/execution-gateway.ts:600-635 | the whole new state equals the Reconcile step; not found exactly when memory has no such operation |
| Gateway.ExecutionGateway.LinkReceipt | apps/arclayer-runner/src/execution-gateway.ts:648-656 | the journal is finalized to the state memory believes in, confirmed when it knows nothing |
| WriteResults.ClassificationIsConservative | apps/arclayer-runner/src/execution-gateway.ts:132-186 | a write is never classified as pre-broadcast, confirmed and broadcast always carry a hash, a result is retryable only when it reported an error or a failed or cancelled state itself, and an exception is unknown or failed |
| WriteResults.ResultMeaning | apps/arclayer-runner/src/execution-gateway.ts:132-186 | each answer to a result, exactly and from its fields: failed for an error or a failed, denied or reverted state, cancelled for a cancelled one; otherwise confirmed with a hash and a word of success, broadcast with a hash alone, unknown without; words in any case of letters, and the hash from the first of its four places that has one |
| WriteResults.ErrorMeaning | apps/arclayer-runner/src/execution-gateway.ts:136-151 | an exception is unknown exactly for an abort, a killed process, or a message that mentions a time-out or an abort in any case of letters; failed otherwise |
| Journal.OperationJournal.CreateOperationWithLocks | apps/arclayer-runner/src/operation-journal.ts:235-338 | all or nothing: the tables and the error equal those of the creation transaction |
| Journal.OperationJournal.FinalizeOperation | apps/arclayer-runner/src/operation-journal.ts:347-421 | state and hash are updated and locks released for terminal states, nothing else changes |
| Journal.OperationJournal.DeleteOperation | apps/arclayer-runner/src/operation-journal.ts:449-459 | the operation, its key and its locks are gone, nothing else changes |
| Journal.OperationJournal.ReconcileOperation | apps/arclayer-runner/src/operation-journal.ts:558-610 | state, hash for confirmed only, and locks after a reconciliation |
| Journal.OperationJournal.ReleaseLocks | apps/arclayer-runner/src/operation-journal.ts:650-655 | exactly the locks of the operation are released |
| Journal.OperationJournal.FailPreBroadcast | apps/arclayer-runner/src/operation-journal.ts:495-509 | the first recovery loop fails every created, prepared or reserved row, releases its locks, and reports exactly those rows |
| Journal.OperationJournal.MarkExecutingUnknown | apps/arclayer-runner/src/operation-journal.ts:511-523 | the second recovery loop turns every executing row unknown, keeps its locks, and reports exactly those rows |
| Journal.OperationJournal.RecoverNonTerminalOperations | apps/arclayer-runner/src/operation-journal.ts:490-528 | both loops together equal recovery of all rows at once |
| Journal.LockExclusion | apps/arclayer-runner/src/operation-journal.ts:266-286 | with sound tables, two non-terminal operations that share a wallet, a job or a key are one |
| Journal.CreateKeepsSound | apps/arclayer-runner/src/operation-journal.ts:239-335 | creation keeps keys one-to-one with operations and locks exactly with those who want them |
| Journal.DeleteKeepsSound | apps/arclayer-runner/src/operation-journal.ts:449-459 | deletion keeps that and frees the idempotency key for any params hash |
| Journal.FinalizeKeepsSoundIff | apps/arclayer-runner/src/operation-journal.ts:347-421 | finalize, which has no state guard, keeps it exactly when it does not take a lock-asking row out of a terminal state |
| Journal.RecoverKeepsSound | apps/arclayer-runner/src/operation-journal.ts:490-528 | startup recovery keeps it |
| Journal.ReconcileIsFinalize | apps/arclayer-runner/src/operation-journal.ts:558-610 | a reconciliation acts on state, hash and locks as the corresponding finalize |
| OperationStates.ChainsAreShort | packages/runner-core/src/operation.ts:38-50 | no chain of declared transitions has more than six steps |
| OperationStates.LongestChain | packages/runner-core/src/operation.ts:38-50 | there is a chain of six |
| OperationStates.LaterIsReaches | packages/runner-core/src/operation.ts:38-60 | the table of later states is exactly the reflexive-transitive closure of the declared transitions |
| OperationStates.TerminalIsFinal | packages/runner-core/src/operation.ts:25-34 | a terminal state reaches only itself |
| Spend.SpendLedger.Spent | apps/arclayer-runner/src/spend-ledger.ts:42-72 | the printed exact sum of the counted entries of the window, or an error when a counted amount is malformed |
| Spend.GuardMeaning | apps/arclayer-runner/src/spend-policy.ts:49-111 | an accepted check means, in exact micros, amount within the per-transaction limit and both window sums plus amount within theirs; it rests on the printer and parser round trip |
| SpendRules.GuardNamesFirst | apps/arclayer-runner/src/spend-policy.ts:49-111 | the answer of the check, exactly: the error of the first of fifteen rules, in the order of the code, that the write breaks; the rules are said in exact micros and over the ledger's entries themselves |
| SpendRules.GuardAcceptsIff | apps/arclayer-runner/src/spend-policy.ts:49-111 | a write is accepted exactly when it keeps all fifteen: readable ledger, active policy, method not blocked and listed, contract listed, readable amounts, the per-transaction, daily, monthly and job-budget limits, a readable threshold it is not above, and the x402, gateway and EOA conditions |
| SpendRules.SpentIsSum | apps/arclayer-runner/src/spend-ledger.ts:42-72 | getSpent fails exactly when an entry that counts is unreadable, and otherwise prints what reads as the exact sum of the reservations and confirmed writes of the wallet in the window |
| Spend.ReserveKeepsWindow | apps/arclayer-runner/src/services.ts:181-207 | also when the clock enters a new day or month between the check and the reservation, the window the reservation falls in stays within its limit |
| Spend.ReserveKeepsCap | apps/arclayer-runner/src/services.ts:181-207 | reserving a just accepted amount keeps every window of every wallet within its limit |
| Usdc.DecimalToMicrosIsFloor | packages/runner-core/src/policy.ts:13-17 | decimalToMicros is floor(10^6 x) for any number of fraction digits |
| Usdc.ParsersAgree | packages/runner-core/src/job-envelope.ts:326-333 | on every amount of at most six fraction digits all four parsers give the one exact value; on other texts the two anchored ones refuse, and the spend-policy one accepts exactly the empty text and trimmed amounts |
| Usdc.ConcatenatedDigits | packages/langchain-adapter/src/tools.ts:325-334 | one number of whole digits followed by six padded fraction digits equals whole times 10^6 plus fraction |
| Usdc.MicrosRoundTrip | apps/arclayer-runner/src/spend-policy.ts:32-47 | usdcToMicros inverts microsToUsdc for every n |
| Usdc.AtomicRoundTrip | packages/runner-core/src/job-envelope.ts:326-343 | parseUsdcToAtomic inverts atomicToUsdc for every n |
| Usdc.PrintersAgreeOnValue | packages/runner-core/src/job-envelope.ts:338-343 | printing the exact value of any amount with either printer and parsing it again gives the value of the amount |
| Usdc.ClampIsMinimum | packages/langchain-adapter/src/tools.ts:344-354 | clampBudgetToPolicyMax keeps the suggested text unless its exact value is the larger, then returns the maximum; it refuses exactly when one of them is no amount |
| Usdc.TrimSpec | apps/arclayer-runner/src/spend-policy.ts:34 | trimming takes white space off both ends, and all of it |
| Usdc.SpacesAre | apps/arclayer-runner/src/spend-policy.ts:34 | white space is the 25 code points String.trim removes |
| JsonRoundTrip.StringRoundTrip | packages/runner-core/src/job-envelope.ts:129 | an escaped string is read back unit by unit, lone surrogates included, whatever follows it |
| JsonRoundTrip.PrintReads | packages/runner-core/src/job-envelope.ts:127-142 | prefix-freeness: the printed text of any value, followed by anything that cannot extend a number, is read back as its normal form and leaves what follows |
| JsonRoundTrip.ParsePrint | packages/runner-core/src/deliverable.ts:79-94 | parsing a printed value, whose numbers are doubles, gives its normal form: keys sorted, null for undefined |
| CanonicalJson.PrintDecidesEquality | packages/runner-core/src/job-envelope.ts:127-142 | two values without repeated keys, with any finite doubles, print to the same text exactly when they are equal up to object key order, undefined counting as null |
| Numbers.NormalizeDecidesValue | packages/runner-core/src/job-envelope.ts:130 | two decimals have one canonical form exactly when they have one value |
| JsonNumbers.PrintedNumberReads | packages/runner-core/src/job-envelope.ts:130 | the text String(n) gives a number, in each of its layouts (integer, point, small fraction, exponent), is read back as exactly that number, whatever follows it that cannot extend it |
| JsonNumbers.ParsesToValue | packages/runner-core/src/job-envelope.ts:181 | every number that section 6 of RFC 8259 allows, with either sign, any fraction and any exponent, is read at its exact value and then rounded |
| JsonTrees.ParsesExactlyJson | packages/runner-core/src/job-envelope.ts:181 | JSON.parse reads exactly the texts of the grammar of sections 2 to 7 of RFC 8259, white space, escapes and number notations included, each as the value it writes with its numbers rounded; everything else is refused |
| JsonTrees.TreeReads | packages/runner-core/src/job-envelope.ts:181 | however a value is written, it is read as that value in every context that does not continue it |
| JsonTrees.LastWinsMeaning | packages/runner-core/src/job-envelope.ts:181 | of members with one key an object keeps exactly the last |
| JsonStrings.StringNotationsRead | packages/runner-core/src/job-envelope.ts:181 | however its units are written, raw, as a short escape or as four hexadecimal digits in either case, a string is read as them |
| JsonNumbers.NotationsReadAlike | packages/runner-core/src/job-envelope.ts:181 | two notations are read as one exact value exactly when they have it, and then JSON.parse gives the same number |
| CanonicalJson.DecodeEncode | packages/runner-core/src/job-envelope.ts:152-164 | a value is the same as its decoded text, up to key order, exactly when it holds no undefined; the decoded value always prints to the same text |
| CanonicalJson.TextsOfOneValueReencodeAlike | packages/runner-core/src/job-envelope.ts:168-202 | two JSON texts denote one value, after each number is rounded to a double, exactly when they re-encode to the same text, whatever their spacing, escapes, number notations, repeated keys and key order |
| CanonicalJson.ParsedIsClean | packages/runner-core/src/job-envelope.ts:181 | JSON.parse yields no repeated key, no undefined, and only doubles |
| SortedEntries.SortSpec | packages/runner-core/src/job-envelope.ts:135 | sorting distinct keys yields the ascending arrangement of the same entries |
| SortedEntries.LessIsPrecedes | packages/runner-core/src/job-envelope.ts:135 | the order of keys is by code units: at the first place where they differ the smaller unit comes first, and a text before every longer one it begins |
| CanonicalText.PrintedObject | packages/runner-core/src/job-envelope.ts:134-140 | the very text of an object: its members, ascending by code units, as quoted key, colon and value, separated by commas, between braces |
| CanonicalText.PrintedList | packages/runner-core/src/job-envelope.ts:131-133 | the very text of an array |
| CanonicalText.PrintedString | packages/runner-core/src/job-envelope.ts:129 | the very text of a string, unit by unit: the seven short escapes, four lower-case hexadecimal digits for other controls and lone surrogates, and the unit itself otherwise |
| CanonicalText.PrintedNumber | packages/runner-core/src/job-envelope.ts:130 | the very text of a number: sign, and its digits in the layout that the place of its point calls for |
| CanonicalText.ExponentFrom | packages/runner-core/src/job-envelope.ts:130 | an exponent is printed exactly for numbers from 10^21 on and below 10^-6 |
| CanonicalText.PrintedWords | packages/runner-core/src/job-envelope.ts:128-130 | null for null and undefined, true and false for booleans |
| CanonicalText.PrintedZero | packages/runner-core/src/job-envelope.ts:130 | zero is printed as 0 |
| SortedEntries.SortIsCanonical | packages/runner-core/src/job-envelope.ts:135 | two arrangements of the same entries sort to one list |
| Schemas.ValidateIsIdempotent | packages/runner-core/src/job-envelope.ts:82-103 | parsing the result of a schema parse returns it unchanged |
| Schemas.ValidateRespectsSame | packages/runner-core/src/job-envelope.ts:153 | values equal up to key order are refused alike or parse to values equal up to key order |
| Schemas.ValidatedIsWellFormed | packages/runner-core/src/job-envelope.ts:153 | a parsed value repeats no key, and holds undefined only if its input did |
| CanonicalCodec.RoundTrip | packages/runner-core/src/job-envelope.ts:152-202 | for any schema and size limit: decoding an encoded value returns the validated value exactly when that holds no undefined, and then encodes to the same text again |
| CanonicalCodec.TextsReencodeAlike | packages/runner-core/src/job-envelope.ts:168-202 | two JSON texts of one value are refused alike, or decode to values that encode to the same result |
| CanonicalCodec.EncodingDecidesEquality | packages/runner-core/src/job-envelope.ts:152-164 | two values encode to one text exactly when what validation makes of them is equal up to key order |
| JobEnvelope.EnvelopeRoundTrip | packages/runner-core/src/job-envelope.ts:152-202 | encodeJobEnvelope then decodeJobEnvelope returns the validated envelope exactly when it holds no undefined; the text is a fixed point |
| UndefinedFields.UndefinedIsLost | packages/runner-core/src/job-envelope.ts:127-202 | a valid envelope whose four absent fields are present with the value undefined is encoded, and not decoded to itself |
| JobEnvelope.DecodeIsCanonical | packages/runner-core/src/job-envelope.ts:186-201 | the checks before the schema refuse nothing the schema would accept |
| AcceptedDocuments.EnvelopeAccepts | packages/runner-core/src/job-envelope.ts:22-103 | which values are job envelopes, member by member: exactly those with the schema and version, a task, one to thirty-two criteria, one of three output formats or none, payable commercial terms, and well-formed payment delegation and metadata if any |
| AcceptedDocuments.DeliverableAccepts | packages/runner-core/src/deliverable.ts:23-64 | which values are deliverables, member by member |
| EncodedDocuments.EnvelopeEncodesIff | packages/runner-core/src/job-envelope.ts:152-164 | encodeJobEnvelope refuses exactly what is no job envelope, then what has more than 32768 octets of UTF-8, and otherwise yields the printed text of the validated envelope |
| EncodedDocuments.EnvelopeDecodesIff | packages/runner-core/src/job-envelope.ts:176-202 | decodeJobEnvelope accepts exactly the JSON texts of job envelopes |
| EncodedDocuments.DeliverableEncodesIff | packages/runner-core/src/deliverable.ts:106-125 | canonicalizeDeliverable likewise, up to 1048576 octets |
| EncodedDocuments.LengthIsOctets | packages/runner-core/src/job-envelope.ts:156 | the length that is checked is the number of UTF-8 octets, a lone surrogate counting as U+FFFD |
| AcceptedDocuments.ShapeKeepsNamed | packages/runner-core/src/job-envelope.ts:82-103 | what an object schema keeps: exactly the members it names, each with its own validated value |
| JobEnvelope.DecodedBudgetIsPayable | packages/runner-core/src/job-envelope.ts:313-333 | the budget of every decoded envelope parses exactly, above zero and up to a million USDC |
| Deliverable.DeliverableRoundTrip | packages/runner-core/src/deliverable.ts:106-197 | canonicalizeDeliverable then decodeDeliverable returns the validated deliverable exactly when it holds no undefined; the text is a fixed point |
| Deliverable.ArtifactCheckIsRedundant | packages/runner-core/src/deliverable.ts:109-114 | the artifact count check never fires after the schema has passed |
| ApprovalStore.FinalIsForEver | packages/runner-core/src/approval.ts:73-77 | executed, failed, rejected, cancelled and expired are absorbing: no sequence of statements changes such a row |
| ApprovalStore.ExecutingIsEnteredOnce | apps/arclayer-runner/src/approval-store.ts:351-396 | in any sequence of statements with any clock readings, executing is entered at most once and strictly before the expiry time |
| ApprovalStore.ExecutedOnlyViaExecuting | apps/arclayer-runner/src/approval-store.ts:401-422 | a row becomes executed only after a statement that moved it into executing |
| ApprovalStore.OneStatement | packages/runner-core/src/approval.ts:69-82 | every statement makes no move, a declared one, or the one undeclared move from approved to expired |
| ApprovalStates.FinalIsStuck | packages/runner-core/src/approval.ts:69-82 | the final states are exactly those without any move |
| ApprovalStore.ApprovalStore.Get | apps/arclayer-runner/src/approval-store.ts:220-229 | the row is expired when due, and returned as it then is |
| ApprovalStore.ApprovalStore.CheckAndExpire | apps/arclayer-runner/src/approval-store.ts:525-537 | pending and approved rows expire at their expiry time, others never |
| ApprovalStore.ApprovalStore.TransitionToApproved | apps/arclayer-runner/src/approval-store.ts:327-345 | the guarded statement and the re-read, as a change of the table and an answer |
| ApprovalStore.ApprovalStore.TransitionFromApprovedToExecuting | apps/arclayer-runner/src/approval-store.ts:351-370 | likewise, only before expiry |
| ApprovalStore.ApprovalStore.TransitionToExecuting | apps/arclayer-runner/src/approval-store.ts:377-396 | likewise from pending, only before expiry |
| ApprovalStore.ApprovalStore.TransitionToExecuted | apps/arclayer-runner/src/approval-store.ts:401-422 | an executing row becomes executed with hash, result and operation id |
| ApprovalStore.ApprovalStore.SaveExecutingRetryMetadata | apps/arclayer-runner/src/approval-store.ts:429-436 | an executing row takes the retry metadata and stays executing |
| ApprovalStore.ApprovalStore.TransitionToFailed | apps/arclayer-runner/src/approval-store.ts:441-451 | an executing row fails and keeps its result |
| ApprovalStore.ApprovalStore.TransitionToFailedWithResult | apps/arclayer-runner/src/approval-store.ts:457-475 | an executing row fails and takes the result and its hash |
| ApprovalStore.ApprovalStore.TransitionToRejected | apps/arclayer-runner/src/approval-store.ts:480-498 | a pending row is rejected |
| ApprovalStore.ApprovalStore.TransitionToCancelled | apps/arclayer-runner/src/approval-store.ts:503-521 | a pending row is cancelled |
| ApprovalRuns.RegisteredAtMostOnce | apps/arclayer-runner/src/approval-manager.ts:588-865 | over every interleaving of approve, execute, retry, replies, exceptions, aborts and crashes the registration service is called without skipOnChainTxHash at most once per approval |
| ApprovalRuns.HashIsPermanent | apps/arclayer-runner/src/approval-manager.ts:588-865 | once a transaction hash is recorded, every later state of the approval carries the same one in tx_hash or result_json |
| ApprovalRuns.ReturnedHashIsRecorded | apps/arclayer-runner/src/approval-manager.ts:758-850 | a hash that a first execution returns is recorded, whatever else the reply says |
| ApprovalRuns.RetriesCarryTheHash | apps/arclayer-runner/src/approval-manager.ts:634-646 | every retry in flight passes the recorded hash on |
| ApprovalOutcomes.FirstReplyDecides | apps/arclayer-runner/src/approval-manager.ts:758-850 | over every run, what the reply to the first execution leads to: executed with its hash when the agent is registered and visible; executing with the hash kept when the reply is pending; failed with the reason and the hash otherwise |
| ApprovalOutcomes.RetryReplyDecides | apps/arclayer-runner/src/approval-manager.ts:646-715 | the same for the reply to a retry, with the recorded hash; an approval that has ended meanwhile is not changed |
| ApprovalOutcomes.PendingIsRetried | apps/arclayer-runner/src/approval-manager.ts:628-646 | after a pending reply with a hash, the next execution that is not aborted retries with that very hash and writes nothing; after one without, it does nothing |
| ApprovalOutcomes.GenericEnds | apps/arclayer-runner/src/approval-manager.ts:359-381 | the reply to the generic approve: executed with hash and operation id when ok, failed with the reason otherwise |
| ApprovalOutcomes.ThrowEnds | apps/arclayer-runner/src/approval-manager.ts:860-864 | an exception fails the approval with the first 500 characters of its message and keeps what was saved |
| ApprovalOutcomes.FirstCallIff | apps/arclayer-runner/src/approval-manager.ts:722-756 | the wallet is asked exactly for an approved registration that has not expired, unless aborted |
| ApprovalOutcomes.RetryIff | apps/arclayer-runner/src/approval-manager.ts:628-646 | a retry is made exactly for an executing registration saved as pending with a hash, unless aborted |
| ApprovalOutcomes.ExecuteLeaves | apps/arclayer-runner/src/approval-manager.ts:727-756 | an execution leaves an approved row executing, failed when aborted, and otherwise at most expired |
| ApprovalOutcomes.GenericCallIff | apps/arclayer-runner/src/approval-manager.ts:236-350 | approve calls the service exactly for the owner, with the right request hash and chain, on a pending row that has not expired |
| ApprovalOutcomes.ApproveByIdLeaves | apps/arclayer-runner/src/approval-manager.ts:491-507 | where it leaves the row: approved exactly from a pending registration that has not expired |
| ApprovalOutcomes.RejectByIdLeaves | apps/arclayer-runner/src/approval-manager.ts:510-526 | where it leaves the row: rejected with the reason exactly from a pending registration that has not expired |
| ApprovalOutcomes.RejectLeaves | apps/arclayer-runner/src/approval-manager.ts:406-437 | a row becomes rejected exactly by its owner while it is pending and has not expired |
| ApprovalOutcomes.CancelLeaves | apps/arclayer-runner/src/approval-manager.ts:441-472 | a row becomes cancelled exactly by its owner while it is pending and has not expired |
| ApprovalOutcomes.TransitionAnswers | apps/arclayer-runner/src/approval-store.ts:300-340 | a guarded transition says that it moved the row exactly when the row stood in its state, alive where that matters |
| ApprovalOutcomes.TransitionHandsOut | apps/arclayer-runner/src/approval-store.ts:323-345 | and hands out the row as it then stands, expiry on the re-read included |
| ApprovalManager.ApprovalManager.Reject | apps/arclayer-runner/src/approval-manager.ts:406-437 | the statements performed equal the plan; ok exactly for the owner of a pending approval |
| ApprovalManager.ApprovalManager.Cancel | apps/arclayer-runner/src/approval-manager.ts:441-472 | the statements performed equal the plan; ok exactly for the owner of a pending approval |
| ApprovalManager.ApprovalManager.BeginApprove | apps/arclayer-runner/src/approval-manager.ts:236-350 | statements and service call of approve up to its await |
| ApprovalManager.ApprovalManager.FinishApprove | apps/arclayer-runner/src/approval-manager.ts:359-381 | what approve writes for a reply |
| ApprovalManager.ApprovalManager.BeginExecute | apps/arclayer-runner/src/approval-manager.ts:588-756 | statements and service call of executeErc8004Registration up to its await, retry and abort included |
| ApprovalManager.ApprovalManager.FinishFirst | apps/arclayer-runner/src/approval-manager.ts:758-850 | what a first execution writes for a reply, in all its cases |
| ApprovalManager.ApprovalManager.FinishRetry | apps/arclayer-runner/src/approval-manager.ts:646-715 | what a retry writes for a reply, in all its cases |
| ApprovalManager.ApprovalManager.FinishWithError | apps/arclayer-runner/src/approval-manager.ts:860-864 | an exception fails an executing approval and keeps its result |
| ApprovalManager.ApprovalManager.ApproveById | apps/arclayer-runner/src/approval-manager.ts:491-507 | the statements performed equal the plan; ok exactly for a registration that is still pending after expiry on read |
| ApprovalManager.ApprovalManager.RejectById | apps/arclayer-runner/src/approval-manager.ts:510-526 | the statements performed equal the plan; ok exactly for a registration that is still pending after expiry on read |
| Registration.RegisterErc8004WithApproval | apps/arclayer-runner/src/services.ts:1646-1859 | the wallet is asked at most once and never with a hash passed in; every early ending has its own reply; past it the known hash is always in the reply, success means the console accepted, and a retryable reply comes from a network error or the twelfth attempt |
| Registration.Sync | apps/arclayer-runner/src/services.ts:1763-1858 | the loop ends with an abort, or with the reply to the first answer that is not a retryable 425, or to the twelfth |
| Registration.EarlyMeaning | apps/arclayer-runner/src/services.ts:1666-1762 | every ending before the sync loop, in the order of the checks: no metadata, no or a bad console URL, no secret, preflight, signer mismatch, the wallet's exception or refusal, no hash; and the hash that is known when there is none |
| Registration.EndingMeaning | apps/arclayer-runner/src/services.ts:1763-1858 | the reply on the console's last answer: success exactly when it accepted, pending when it could not be reached or has not seen the transaction, a refusal with its code otherwise; the hash in all of them |
| Ingest.FetchIsWhole | indexer/src/ingest.ts:84-111 | whatever ranges fail, a fetch that returns has the events of the whole range in block order, as one good call would |
| Ingest.FetchFailsAtMinimum | indexer/src/ingest.ts:92-97 | a fetch fails only on a range of at most 501 blocks, inside its own, that failed by itself |
| Ingest.FetchedEvents | indexer/src/ingest.ts:117-149 | a fetch that returns has exactly the wanted events of the range, ordered by block and log index |
| Ingest.FetchedInAnyOrder | indexer/src/ingest.ts:117-149 | whatever order the node lists events in, a fetch that returns has the wanted ones, each as often as the node has it, by block and log index |
| Ingest.FailingRange | indexer/src/ingest.ts:92-111 | a failing range of at most 501 blocks is final; a larger one comes to its two halves |
| Ingest.ToBlockMeaning | indexer/src/sync-range.ts:1-4 | the last block of a cycle is the latest, or as far as the range allows |
| SyncCycle.SyncCoversWithCrashes | indexer/src/server.ts:96-159 | over every run of cycles, with any tips, failures and crash points, the stored events of both streams are exactly the wanted ones of all blocks from the start to some block at or past the cursor, one row per key, and all aggregates are right |
| SyncCycle.CursorsAdvance | indexer/src/server.ts:149-159 | a cursor never moves backwards or past the tip |
| SyncProgress.JobsCatchUp | indexer/src/server.ts:149-156 | after n good cycles the next job block is n ranges further, or just past the tip |
| SyncProgress.FeedbackCatchesUp | indexer/src/server.ts:157-158 | and so is the next block of the reputation stream |
| SyncProgress.JobsAreStored | indexer/src/server.ts:96-156 | by then the job rows are exactly the wanted events of all blocks before the next one, or up to a later block that was held before |
| SyncProgress.FeedbackIsStored | indexer/src/server.ts:96-158 | and so are the feedback rows |
| SyncProgress.SyncCatchesUp | indexer/src/server.ts:80-170 | from whatever a run with failures and crashes has left, enough good cycles bring both cursors to the tip with everything up to it stored |
| SyncProgress.FailedCycleChangesNothing | indexer/src/server.ts:96-148 | a cycle that fails before its commit changes nothing |
| SyncProgress.DyingLeavesCursors | indexer/src/server.ts:140-159 | a process that dies after the commit leaves the batch stored and the cursors it had not yet written |
| SyncProgress.OffStreamsStay | indexer/src/server.ts:96-159 | a stream that is not indexed keeps its rows and its cursor |
| SyncCycle.Extend | indexer/src/db.ts:241-248 | storing a range that overlaps what is held leaves exactly the events of the joined blocks |
| SyncCycle.Indexer.RunSyncCycle | indexer/src/server.ts:80-170 | the whole new database equals the cycle step; a cycle that finds another running only counts a skip |
| SyncCycle.Indexer.SyncProjectionStore | indexer/src/db.ts:405-508 | both batches are upserted and the named agents recomputed, as one change |
| SyncCycle.Indexer.RecomputeReputationAggregate | indexer/src/db.ts:308-343 | the agent's row becomes the summary of its ordered events, or stays when it has none |
| ProjectionStore.SyncKeepsAggregates | indexer/src/db.ts:467-499 | after every batch each agent's row is the count, sum, zero-truncated average and (block, logIndex, txHash)-last of all its stored events, though only named agents are recomputed, when an event key determines its agent |
| ProjectionStore.ForeignKeyLeavesAggregateStale | indexer/src/db.ts:259-275 | without that assumption it fails, always: whenever a store with right aggregates gets an event under the key of a stored row of another agent, with another score, some aggregate is wrong afterwards |
| ProjectionStore.RecomputedIsRight | indexer/src/db.ts:308-343 | summarizing the ordered rows gives the order-free description: count, sum, average and latest row |
| ProjectionStore.UpsertAllAdds | indexer/src/db.ts:241-275 | where a key determines its event, upserting a batch adds exactly its events |
| WorkerPool.MapWithLimit | indexer/src/rpc-limit.ts:39-66 | under every schedule the pool ends, each index is called exactly once in order, each result is that of its call or null, and at most max(1, min(limit, n)) calls are in flight |
| WorkerPool.Pool.Take | indexer/src/rpc-limit.ts:47-52 | a worker takes the next index and starts its call, or returns when there is none; the pool stays valid and nearer its end |
| WorkerPool.Pool.Settle | indexer/src/rpc-limit.ts:51-59 | a finished call's result, or null, is written in place at its index; the pool stays valid and nearer its end |
| NonceStore.ReplayBound | apps/arclayer-runner/src/http.ts:153-164 | a signed request can be accepted twice in some run exactly when the nonce life is at most twice the skew plus the time between the two checks |
| NonceStore.ReplayIsRefused | packages/runner-core/src/auth.ts:104-121 | for one request the bound is the skew, plus how far its timestamp was ahead when first accepted, plus that time |
| NonceStore.AcceptedIff | packages/runner-core/src/auth.ts:104-121 | a request is accepted exactly when it is signed, its timestamp is within the skew on either side, and its nonce is not remembered; then that nonce, and no other, is remembered for its life |
| NonceStore.MarkMeaning | packages/runner-core/src/nonce-store.ts:42-60 | checkAndMark answers new exactly for a nonce not remembered, and then remembers it for its life |
| NonceStore.AskAndCleanMeaning | packages/runner-core/src/nonce-store.ts:66-82 | has changes nothing; cleanup keeps exactly what is still remembered |
| NonceStore.CleanupIsTransparent | packages/runner-core/src/nonce-store.ts:42-82 | cleanup at any points of a run changes no answer of has or checkAndMark |
| NonceStore.NonceStore.CheckAndMark | packages/runner-core/src/nonce-store.ts:42-60 | refused exactly when the key is live at the check; otherwise marked until mark time plus life |
| NonceStore.NonceStore.Cleanup | packages/runner-core/src/nonce-store.ts:75-82 | exactly the expired entries are removed, in whatever order the keys are visited |
| X402.SumsBoundPaid | packages/runner-core/src/ledger.ts:165-188 | the sums the limits are computed from always bound what was paid, in every window |
| X402.FailedAttemptsCount | packages/runner-core/src/ledger.ts:165-174 | whenever a payment of a key is rejected and the next one of the key settles, both within a window, its sum is both amounts and what was paid is the second |
| X402.LimitsHold | packages/runner-core/src/policy.ts:114-154 | for payments that follow one another, with a clock that does not run backwards, the amounts of succeeded attempts of any day or month never exceed its limit, also when a payment crosses midnight between its check and its attempt |
| X402.PayKeepsLimit | packages/runner-core/src/policy.ts:114-154 | one payment on any ledger keeps what was paid in any window within its limit, given that the sums bound what was paid and nothing is dated after its check |
| X402.SettledStep | packages/runner-core/src/ledger.ts:92-106 | an attempt and its success raise what was paid in every window that holds the attempt by its amount, and the sum the limits use by at least as much |
| X402.UnsettledStep | packages/runner-core/src/ledger.ts:66-125 | an attempt or failure event changes nothing paid in any window, and lowers no sum |
| X402.NoKeySucceedsTwice | apps/arclayer-runner/src/services.ts:1895-1908 | no key has two success events |
| X402Rules.ReachesWalletIff | apps/arclayer-runner/src/services.ts:1889-1923 | a payment reaches the wallet exactly when it passes every check: enabled, wallet, listed host, exact amount within the per-payment limit, key neither completed nor in progress, and the exact sums with it within the daily and monthly limits |
| X402Rules.StoppedByFirst | apps/arclayer-runner/src/services.ts:1889-1923 | otherwise it is told the first check, in their order, that it does not pass |
| X402Rules.BadAmountIsRefused | apps/arclayer-runner/src/services.ts:1890 | a payment whose amount is no decimal is refused before anything else, and leaves no trace |
| X402Rules.PayLeaves | apps/arclayer-runner/src/services.ts:1924-2033 | what a payment leaves in the ledger, for each way it can end |
| X402Rules.AnswerMeaning | apps/arclayer-runner/src/services.ts:1924-2033 | how it is answered, for each way it can end |
| X402Rules.BatchMeaning | packages/runner-core/src/policy.ts:85-108 | a batch passes exactly when each of its payments is enabled, listed and within the per-payment limit |
| X402Rules.TotalMeaning | packages/runner-core/src/policy.ts:94-107 | the total of a batch is the sum of its exact amounts |
| X402Retries.SumIsPaidIff | packages/runner-core/src/ledger.ts:161-188 | over every run the sum of a window is exactly what was paid in it plus the superseded attempts in it, those of succeeded keys that a later attempt of the key followed; it is the amount paid exactly when these are all zero |
| X402Retries.UnresolvedIsPaidAgainIff | packages/runner-core/src/ledger.ts:137-149 | after every run in which the last event of a key is an attempt, a payment of the key reaches the wallet exactly when the key has a failure event and the payment passes the checks that do not look at the key; without a failure it is answered as in progress and changes nothing |
| X402Retries.PendingForEver | apps/arclayer-runner/src/services.ts:1910-1917 | a key with an attempt and no failure or success stays so over all later payments, none of which goes through under it |
| X402Money.UnresolvedIsPaidAgain | apps/arclayer-runner/src/services.ts:1968-1972 | three payments of one key that show it: rejected, timed out with the money gone, and then one that reaches the wallet |
| X402Money.SumIsNotPaid | packages/runner-core/src/ledger.ts:161-174 | two payments of one key that show it: rejected, then settled; one USDC is paid and the sum is two |
| X402Money.MovedAgainstPaid | apps/arclayer-runner/src/services.ts:1924-2033 | over every run and window, with receipts that may fail to be stored and time-outs that may hide a payment: the money that left the wallet plus the recorded payments that moved none is what the ledger has as paid plus the moved payments it has no success for |
| X402Money.MovedIsLimited | apps/arclayer-runner/src/services.ts:1924-2033 | so the money that leaves the wallet in a day or month exceeds its limit at most by what the ledger has no success for |
| X402Money.EventsComeFromPayments | apps/arclayer-runner/src/services.ts:1924-2033 | the ledger has an attempt, a success or a failure of a key exactly when some payment of the key reached the wallet, reached it and was recorded, or reached it and ended as a failure |
| X402Money.PaidAgainIff | apps/arclayer-runner/src/services.ts:1895-2033 | once a payment of a key has reached the wallet, money moved or not, another of the key reaches it exactly when some payment of the key ended as a failure, none as a success, and the other checks pass |
| X402Money.PaidTwice | apps/arclayer-runner/src/services.ts:1951-2021 | two payments of one key that show it: the first settles and its receipt cannot be stored, the second settles; two USDC leave the wallet under a daily limit of one |
| X402.PaymentService.PayX402 | apps/arclayer-runner/src/services.ts:1889-2034 | the whole new ledger and the answer equal the payment step, in all its refusals and outcomes |
| X402.PaymentService.PayService | apps/arclayer-runner/src/services.ts:1924-2033 | from the attempt on: the events recorded and the answer, for each way the wallet's call and the storing of the receipt can end |
| X402.PaymentService.BatchAllowed | packages/runner-core/src/policy.ts:85-108 | true exactly when the batch is small enough, each payment is allowed, and the exact total is within the batch limit |

## Left out

- Compact results, `resultCache`, error codes and messages, receipts metadata and timestamps of the journal: they decide nothing.
- The order of the reload (newest first, by timestamp): the results hold for every bounded list of confirmed rows.
- Failures of the SQLite files and of appending to the spend ledger; several processes on one journal or ledger file.
- GatewayTheorems.SpendIsCapped: the clock does not run backwards, the policy of a wallet does not change during the run, and a ledger write does not fail.
- GatewayTheorems.CallsAreSeparatedByFailure: a crash during executeFn counts as a failure of its own, because the code recovers it so.
- WriteResults.ClassificationIsConservative: the first hash in stdout is a field of the result; the search for it is not modelled. Letters outside ASCII are not folded.
- Approval of a write through the spend policy (`requireApprovalAboveUsdc`) is a refusal here; who approves it is not modelled.
- Usdc.DecimalToMicrosIsFloor: for texts that match the decimal pattern its callers require; signs, hexadecimal and white space that BigInt also reads are not modelled.
- JsonRoundTrip.ParsePrint: numbers are finite. A text whose number overflows, which JSON.parse reads as Infinity, and the values Infinity and NaN, which print as words that JSON.parse refuses, are not modelled; the two zeros are one, as they are for === and String. Which double a decimal rounds to is a parameter.
- An object is its list of members, so the order JavaScript gives to integer-like keys is not modelled (the printer sorts them).
- Zod's URL and date-time checks are parameters; error texts of validation, `validateJobEnvelope`, `isJobEnvelope` and the hashes of canonical texts add nothing to the round trip.
- `packages/runner-core/src/hash.ts` repeats the canonical printer and would repeat its proofs.
- ApprovalRuns.RegisteredAtMostOnce: per approval; that a second approval for the same agent is refused (`findExistingByErc8004Signature`) is not modelled. `approveAndExecuteErc8004` is its two parts in sequence. In the generic path this action always throws, so a reply there is not possible.
- ApprovalManager.ApprovalManager.BeginApprove: parsing and schema checks of the stored parameters are part of the call that may throw.
- Registration.RegisterErc8004WithApproval: reply texts are short codes; the token and agent ids the console returns are not modelled.
- Idempotent creation of approvals, listing, and rendered messages.
- Ingest.FetchIsWhole: an RPC call returns the logs of its range or fails; a node that answers wrongly is not modelled. Which of two failing halves reports its error first is fixed to the left one.
- Ingest.FetchedEvents: for a node that lists each block by ascending log index.
- SyncCycle.SyncCoversWithCrashes: a fixed chain (no reorganisation), and a key that determines its event. The agent stream, whose cursor is seeded from the job cursor, and the job and agent projections computed by the SDK are not modelled.
- ProjectionStore.SyncKeepsAggregates: scores are integers, not their decimal text.
- ProjectionStore.ForeignKeyLeavesAggregateStale: a key is the transaction hash and log index of an event. On a fixed chain it determines the event, so the case can only arise when the chain is reorganised, or from a node that answers wrongly.
- WorkerPool.MapWithLimit: the timeout of one call is part of the call's outcome; a pool over calls that never settle does not end.
- NonceStore.ReplayBound: a restart empties the store and is outside one run. The signature is a yes or no.
- X402.LimitsHold: payments in sequence and a clock that does not run backwards; `withKeyLock` gives no mutual exclusion and nothing is claimed for overlapping payments. Failures of writing the ledger file are not modelled; those of storing a receipt are.
- MCP call slots, task idempotency, identity files, wallet adapters, HTTP routing, prompts, roles, redaction and the Console.

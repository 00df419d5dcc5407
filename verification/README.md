# A verified model of the invoicing library and the tenant server

This project models, in Dafny 4.11, the parts of the repository whose correctness depends on more than one function:
the hash chain of issued invoices, tenant onboarding under concurrency, idempotency slots, path updates on XML
documents, the hash that survives signing, redaction of cyclic object graphs, the money arithmetic, the byte and bit
encoders, template filling and the HTTP retry loop. `dafny verify dfyconfig.toml` checks all of it.

Objects whose methods update fields are classes with `modifies` clauses, and each method is proved against a function
of the old state. Protocols that interleave (issuing, onboarding, idempotency) are event machines: `Next(s, e)` is one
atomic step, a run is any `seq<Event>`, and the theorems quantify over all runs. The methods and the machines share
the same functions (`Recorded`, `AfterSetState`, `AfterBegin`, `AfterCommit`, …), so a property of the function is a
property of both. `OnboardSystem` puts the semaphore, the idempotency slots and the onboarding lock into one machine
for any number of requests at once.

| Files | Subject |
|---|---|
| `InvoiceStorage`, `StorageAdapter`, `Issuance`, `Issuers` | the storage adapter, the issuers, the hash chain and the counters |
| `TenantRegistry`, `Onboarding`, `OnboardingRun` | tenants, the onboarding machine and one sequential run |
| `OnboardingExclusion`, `OnboardingRivals`, `OnboardingRaces`, `OnboardingLifecycle` | when claims stay with their holders, when a second run can become active, complete runs on which one does, and what every run keeps |
| `Idempotency`, `Semaphores`, `OnboardRoute`, `OnboardSystem` | idempotency slots, permits, one onboarding request and any number of them interleaved |
| `XmlTree`, `XmlLaws`, `XmlDocument`, `InvoicePaths`, `InvoiceHash`, `Signing`, `SignedDocument`, `BuiltInvoice` | XML documents, filling in an invoice, hashing and signing |
| `SensitiveKeys`, `Redaction` | which keys hold secrets, and copying an object graph without them |
| `FixedNoRounding`, `TaxArithmetic`, `MoneyText`, `TaxDue`, `TaxConservation` | truncated amounts, line and document totals |
| `Tlv`, `Base32`, `ApiToken`, `Decimal` | encoders, API tokens, decimal numerals |
| `TemplateFill`, `InvoiceText`, `InvoiceTemplate`, `InvoicePlaces` | chains of `String.replace`, and the simplified tax invoice with its literal text |
| `HttpRetry` | the retry loop |
| `Options`, `Collections`, `Powers`, `Octets` | shared types and functions |

## What turned out to depend on a condition

Where a promise of the documentation or of a comment does not hold for all inputs, the model keeps the code, and a
lemma says exactly when it holds.

- Chain of invoices. The mutexes of the adapter cover single operations. The records of a scope and kind form one
  linear chain if and only if no invoice is recorded inside another one's read-to-record window
  (`Issuance.LinearIffNeverOverlaps`); two issuers that both read first always fork it
  (`Issuance.InterleavedReadersFork`). Without that hypothesis every record still traces back to the base hash.
- `recordInvoice` is described as idempotent on the invoice id. A repeat is accepted if and only if the status is still
  the one in the payload (`InvoiceStorage.RetryAcceptedIffStatusUnchanged`).
- Counters are keyed by month, although `packages/core/src/types/storage.ts:8-10` speaks of one strictly monotonic
  counter. Sequences are gapless per scope and month; over a whole scope they are strictly monotonic if and only if all
  its tickets are of one month (`Issuance.MonotonicIffOneMonth`); a second month starts at 1 again
  (`InvoiceStorage.NewMonthRestarts`). Two months can print one default serial if and only if the text of the shorter
  one is a proper prefix of the other one's and no zero follows it there (`InvoiceStorage.SerialsClashIff`), which
  never happens between years of equally many digits (`InvoiceStorage.SameLengthNeverClashes`).
- Onboarding lock. Final writes are unconditional. A step takes no claim away when the clock stays below the deadline
  of every active run, claims are fresh when they are acquired, and an unlock or a late audit failure meets no active
  run. Throughout a run of the system no two runs are active on one tenant, and none that is active could be joined by
  a further one, if and only if no step takes a claim away (`OnboardingRivals.SafeIffClaimsKept`); the same steps decide
  whether every active run owns its claim (`OnboardingExclusion.ExclusiveIffClaimsKept`). That no two runs happen to be
  active at once is less: a lone run may outlive its claim (`OnboardingRaces.LoneRunMayExpire`). A forced unlock of a
  dead holder is harmless, however fresh the claim (`OnboardingExclusion.ForcedUnlockOfDeadHolder`). But the unlock
  route reads the claim and writes the state in two awaited steps, and even an unforced unlock can take a fresh claim
  away (`OnboardingRaces.UnforcedUnlockCounterexample` is a complete run). Without a transactional unit of work the
  audit row is written after the promotion, although a comment in `run.ts` calls the state change the last write; if
  the audit write then fails, the failure path can take a newer claim away (`OnboardingRaces.LateAuditCounterexample`
  is a complete run). A comment there also says that acquiring clears `lastError`; it leaves none if and only if there
  was none (`OnboardingLifecycle.AcquiringLeavesNoErrorIff`).
- Idempotency slots. Throughout a run no two callers work on one key, and none that works could be joined by a further
  one, if and only if no claim expires under its holder (`Idempotency.SafeIffSlotsKept`); the same steps decide whether
  every working caller owns its slot (`Idempotency.ExclusiveIffSlotsKept`). A lone caller may outlive its claim
  (`Idempotency.LoneCallerMayExpire`), but then it frees the slot of the next one, and a third can start
  (`Idempotency.StaleReleaseCounterexample` is a complete run).
- XML paths. `set` drops one empty segment at the end of the parent path, and a walk drops one at the end of the whole
  path. A path reads back what was set at it, in every document, if and only if it is refused or its last two segments
  are both empty or both non-empty (`XmlLaws.ReadsBackIffClean`). `delete("")` reports success and deletes nothing.
- Signing. A placeholder is replaced at its first occurrence in the whole document. The hash stays the same if and only
  if that occurrence is outside the hashed parts, or nothing changes (`Signing.InjectionKeepsHashedIff`); a serial
  number that spells the QR placeholder is an input for which it does not (`Signing.PlaceholderInSerialNumber`). What
  the builder writes never brings a placeholder into the hashed parts (`BuiltInvoice.BuiltInvoiceKeepsHash`).
- Money. The document's tax is computed from untruncated line amounts, a line's tax from the truncated one. A (line,
  tax) pair crosses when the tax on the part of a cent that the line drops completes a cent of the line's own tax. For
  percentages from 0 to 100 the two sums differ by exactly the number of crossing pairs with an amount that is not
  negative less the number of the others, so they agree if and only if these are equal
  (`TaxConservation.TaxesAgreeIff`). 33.339 at 15% is a pair that crosses (`TaxConservation.DriftIsReached`).
- `toFixedNoRounding` truncates toward zero if and only if the number is printed without an exponent
  (`FixedNoRounding.TruncatesIffNoExponent`), and the text with two places then reads back as the truncation that the
  tax arithmetic uses (`MoneyText.TextIsTruncationIff`). NaN and infinities give "0.00" for every number of places.
- Redaction drops an own key `__proto__`; the keys of an object are kept if and only if it has none
  (`Redaction.KeysKept`).
- Tokens parse if and only if the tenant reference is in `[a-z0-9-]+` (`ApiToken.ParsesIffRef`).
- The HTTP client also retries a response with a client error when its body cannot be read; with a negative retry
  count nothing is fetched and the throw after the loop is reached, otherwise never.

## Hypotheses

- Clocks, random numbers, the network, the handshake with the gateway, ciphers, hashes and canonicalisation are
  parameters. Where a theorem needs it, the invoice hash is collision-free and never the base hash, decryption undoes
  encryption, and printing and parsing XML are inverse.
- That a committed response is replayed assumes a clock that does not run backwards and claims that do not expire
  under their holders (`Idempotency.IsOrderly`).
- Amounts are exact decimals, printed without an exponent and counted in cents as real numbers; the error of binary
  floating point is not modelled.
- Scopes contain no colon, months are numbered 1 to 12 and years are not negative, where keys or serials are compared.

## Model

| member | source | states |
|---|---|---|
| Redaction.RedactSecrets | packages/server/src/audit/redact.ts:83-85 | For every finite object graph, cyclic or shared, the call ends, writes no existing object, and returns the image of its input under a memo table of fresh, finished copies |
| Redaction.Walk | packages/server/src/audit/redact.ts:124-169 | Each call only adds finished copies to the memo table, one per container, and returns the image of its argument: a stub for binary data, the same leaf, or the copy |
| Redaction.VisiblePathMirrored | packages/server/src/audit/redact.ts:124-169 | Along any path without sensitive keys, through any number of cycles, input and result agree: the same steps exist and lead to a value and its image |
| Redaction.SensitiveKeyRedacted | packages/server/src/audit/redact.ts:158-166 | Under a sensitive key, at any depth, the result holds the redaction marker and nothing else |
| Redaction.ReachedIsVisibleOrRedacted | packages/server/src/audit/redact.ts:158-166 | Nothing in the result lies beyond a sensitive key |
| Redaction.NoBinaryReachable | packages/server/src/audit/redact.ts:131-141 | No path of the result ends in a binary view; every object reached is a pass-through leaf or one of the copies |
| Redaction.SharingPreserved | packages/server/src/audit/redact.ts:124-169 | Two paths meet in one container of the result exactly when they meet in the input |
| Redaction.KeysKept | packages/server/src/audit/redact.ts:158-166 | A copied object has the keys of the original in order if and only if none of them is `__proto__` |
| SensitiveKeys.SensitivityIgnoresCase | packages/server/src/audit/redact.ts:72-76 | Keys that differ in the case of ASCII letters only are treated alike |
| SensitiveKeys.ListedWordsAreSensitive | packages/server/src/audit/redact.ts:18-61 | Each of the thirty words, with any of its letters in upper case, is a sensitive key |
| SensitiveKeys.KeysWithWordsAreSensitive | packages/server/src/audit/redact.ts:63-75 | Whatever stands around it, a key that holds "secret", "token" or "password" in any case is sensitive |
| SensitiveKeys.SensitiveIffSpelled | packages/server/src/audit/redact.ts:72-76 | A key is sensitive if and only if it is a listed word or holds one of the three, in any case |
| SensitiveKeys.ReferenceIsNotSensitive | packages/server/src/audit/redact.ts:72-76 | The key "tenantRef" is not sensitive |
| Redaction.SecretsRedacted | packages/server/src/audit/redact.ts:158-166 | At any depth, under a key that spells a listed word or holds one of the three, the result holds "[REDACTED]" |
| Redaction.BinaryIsStubbed | packages/server/src/audit/redact.ts:131-141 | At any depth, a binary view of n bytes is replaced by the text "[REDACTED:Buffer/n]" |
| InvoiceStorage.HeadIsLastLogged | packages/storage-memory/src/adapter.ts:170-198 | After any calls each chain head, per kind and for any kind, is the hash of the last first-time record of its chain, or the base hash |
| InvoiceStorage.RowsMatchLog | packages/storage-memory/src/adapter.ts:180-232 | The stored rows are exactly the first-time records, with the status the calls leave them in |
| InvoiceStorage.RecordOutcome | packages/storage-memory/src/adapter.ts:180-198 | A record is stored if and only if its id is new; an equal repeat and a conflict change nothing |
| InvoiceStorage.RetryAcceptedIffStatusUnchanged | packages/storage-memory/src/adapter.ts:180-249 | Repeating the first call for an invoice changes nothing and is accepted if and only if its status is still that of the payload |
| InvoiceStorage.StatusNeverMovesHeads | packages/storage-memory/src/adapter.ts:206-228 | A status update moves no chain head and logs nothing |
| InvoiceStorage.RecordMovesOwnKindOnly | packages/storage-memory/src/adapter.ts:180-198 | Recording an invoice moves no head of another kind; so Phase 1 records move no Phase 2 chain |
| InvoiceStorage.SequenceIsRank | packages/storage-memory/src/adapter.ts:151-168 | The sequence on a ticket is its rank among the tickets of its scope and month |
| InvoiceStorage.SerialsDistinct | packages/storage-memory/src/adapter.ts:62-63 | Two tickets of one scope print the same serial only when their months clash, also past 999999 |
| InvoiceStorage.SerialInjective | packages/storage-memory/src/adapter.ts:62-63 | A default serial determines year, month and sequence, in every year, unless the two months clash |
| InvoiceStorage.SerialsClashIff | packages/storage-memory/src/adapter.ts:62-63 | Two different months can print one serial if and only if the text of the shorter one is a proper prefix of the other one's and no zero follows it there |
| InvoiceStorage.SerialIsNumber | packages/storage-memory/src/adapter.ts:62-63 | For four-digit years and sequences up to 999999 a serial has twelve digits and reads as the number YYYYMM###### |
| InvoiceStorage.SerialClashBeyondFourDigitYears | packages/storage-memory/src/adapter.ts:62-63 | One such clash, with a year of five digits |
| InvoiceStorage.SameLengthNeverClashes | packages/storage-memory/src/adapter.ts:62-63 | Months of years with equally many digits never clash |
| InvoiceStorage.CounterKeyInjective | packages/storage-memory/src/adapter.ts:95-108 | Different scopes or months have different counters, in every year |
| InvoiceStorage.MonotonicIffOneKey | packages/core/src/types/storage.ts:8-10 | The sequences of a scope increase strictly in the order of the tickets if and only if all its tickets come from one counter |
| InvoiceStorage.NewMonthRestarts | packages/storage-memory/src/adapter.ts:151-168 | The first ticket of a second month has sequence 1 again, so the scope's counter is not monotonic |
| StorageAdapter.MemoryStorageAdapter.IncrementCounter | packages/storage-memory/src/adapter.ts:151-168 | Returns the next sequence and its serial, and keeps the sequences of every scope and month gapless |
| StorageAdapter.MemoryStorageAdapter.GetPreviousHash | packages/storage-memory/src/adapter.ts:170-178 | Returns the head of the chain, which is the hash of the last record the history logs for it |
| StorageAdapter.MemoryStorageAdapter.RecordInvoice | packages/storage-memory/src/adapter.ts:180-198 | The store changes as `Recorded` says, and the call joins the history |
| StorageAdapter.MemoryStorageAdapter.LoadInvoice | packages/storage-memory/src/adapter.ts:200-204 | Finds a row if and only if the history records its id |
| StorageAdapter.MemoryStorageAdapter.UpdateInvoiceStatus | packages/storage-memory/src/adapter.ts:206-228 | Updates the status of a known invoice and changes nothing for an unknown one; the call joins the history of a known scope, and no history changes otherwise |
| Issuance.InvAlways | packages/core/src/issue/issue-simplified-invoice.ts:122-170 | Under every interleaving the store matches its call history, counters are gapless, and every Phase 2 record links to the base or to an earlier record of its chain |
| Issuance.EveryRecordTracesToBase | packages/core/src/issue/issue-simplified-invoice.ts:122-170 | Under every interleaving each Phase 2 record reaches the base hash by finitely many links through earlier records of its scope and kind |
| Issuance.ChainHashesDistinct | packages/core/src/issue/issue-simplified-invoice.ts:122-170 | With collision-free hashes, no two records of a chain have the same hash, and none has the base hash |
| Issuance.LinearIffNeverOverlaps | packages/core/src/issue/issue-simplified-invoice.ts:126-162 | The records of a scope and kind form one linear chain in record order if and only if no invoice of the chain was recorded inside another one's read-to-record window |
| Issuance.SerialisedIssuanceIsLinear | packages/core/src/issue/issue-simplified-invoice.ts:126-162 | Issuers that take turns between reading the head and recording produce one linear chain |
| Issuance.InterleavedReadersFork | packages/core/src/issue/issue-simplified-invoice.ts:126-162 | Two issuers that both read before either records give their records the same predecessor |
| Issuance.CountersRunGapless | packages/storage-memory/src/adapter.ts:151-168 | Under every interleaving the sequences handed out for a scope and month are 1, 2, …, n in order |
| Issuance.RecordsCarryTickets | packages/core/src/issue/issue-simplified-invoice.ts:148-160 | Under every interleaving each record of a chain, of whatever kind, carries the number and serial of a ticket of its scope, and the uuid, contents, hash and status that issuing gives it |
| Issuance.RecordSerialsDistinct | packages/core/src/issue/issue-simplified-invoice.ts:148-160 | Under every interleaving two records of one scope never have both number and serial in common, and share a serial only when the months of their tickets clash |
| Issuance.IssuedSerialsDistinct | packages/storage-memory/src/adapter.ts:151-168 | Under every interleaving two tickets of one scope print the same serial only when their months clash |
| Issuance.FourDigitSerialsDistinct | packages/storage-memory/src/adapter.ts:62-63 | Under every interleaving no two tickets of one scope print the same serial in years of four digits |
| Issuance.MonotonicIffOneMonth | packages/core/src/types/storage.ts:8-10 | Under every interleaving the sequences of a scope increase strictly if and only if all its tickets are of one month |
| Issuers.StepsInARow | packages/core/src/issue/issue-simplified-invoice.ts:122-170 | The steps of one issuer in the interleaving model, run in a row, do what the sequential issuer does |
| Issuers.IssuePhase2 | packages/core/src/issue/issue-simplified-invoice.ts:122-170 | Run alone, an issuer takes the next number of its scope and month and records the invoice under it, with the serial of that number, its uuid, time and contents, and pending; it extends its chain by that record, linked to the last one; a scope mismatch changes nothing |
| Issuers.IssuePhase1 | packages/core/src/issue/issue-phase1-invoice.ts:63-109 | The same for Phase 1, with the base hash: it moves no chain of another kind, and resets the head for any kind to the base hash |
| TenantRegistry.TenantStore.Create | packages/server/src/tenants/registry-memory.ts:126-153 | Creates a tenant in the first state with the given profile and nothing else, unless the reference was ever used, deleted ones included |
| TenantRegistry.TenantStore.SetState | packages/server/src/tenants/registry-memory.ts:203-247 | The compare-and-swap: refused for an unknown or deleted tenant and while another claim is fresh, and otherwise the record with the new state and claim |
| TenantRegistry.TenantStore.SoftDelete | packages/server/src/tenants/registry-memory.ts:276-294 | Revokes a live tenant, and tells an unknown one from a deleted one |
| TenantRegistry.CredentialVault.Put | packages/server/src/tenants/registry-memory.ts:322-343 | When decryption undoes encryption, the answer for this reference is what was put, absent optional fields included; the answers for all other references stay |
| TenantRegistry.CredentialVault.Get | packages/server/src/tenants/registry-memory.ts:345-367 | Absent without a row; the one material whose every field is the decryption of the row's; a decryption failure if and only if some field does not decrypt |
| OnboardingExclusion.StepKeepsExclusionIff | packages/server/src/onboarding/run.ts:247-397 | About owning the claim: from a state in which every active run owns its tenant's fresh claim alone, a step keeps that so if and only if it takes no claim away |
| OnboardingExclusion.ExclusiveIffClaimsKept | packages/server/src/onboarding/run.ts:247-397 | About owning the claim: every active run owns its tenant's fresh claim alone throughout a run of the whole system if and only if no step takes a claim away, with no assumption on the clock |
| OnboardingRivals.SafeIffClaimsKept | packages/server/src/onboarding/run.ts:209-397 | About a second active run: throughout a run of the whole system no two runs are active on one tenant, and no further run that starts and makes its four attempts becomes active beside one, if and only if no step takes a claim away |
| OnboardingRivals.ExposedAdmitsRival | packages/server/src/onboarding/run.ts:209-272 | In every state that satisfies the lifecycle invariant, an active run on a live tenant without a fresh claim is joined by the next run that starts |
| OnboardingRaces.LoneRunMayExpire | packages/server/src/onboarding/run.ts:209-272 | A complete run on which a lone run loses its claim and still no two runs are active |
| OnboardingExclusion.AtMostOneActiveRun | packages/server/src/onboarding/run.ts:247-397 | When no step takes a claim away, at most one non-crashed run per tenant is between acquiring the lock and its final state change |
| OnboardingExclusion.ImmediateUnlockKeepsClaims | packages/server/src/routes/admin-onboard.ts:428-466 | An unforced unlock whose write follows its check at once takes no claim away |
| OnboardingExclusion.ForcedUnlockOfDeadHolder | packages/server/src/routes/admin-onboard.ts:428-466 | A forced unlock of a crashed holder takes no claim away, however fresh the claim is |
| OnboardingLifecycle.OnboardingAcquirableIffStale | packages/server/src/tenants/registry-memory.ts:203-247 | An attempt on a tenant in onboarding succeeds if and only if the claim is stale |
| OnboardingLifecycle.AcquiringLeavesNoErrorIff | packages/server/src/onboarding/run.ts:238-264 | A tenant that has just been acquired has no last error if and only if it had none before |
| OnboardingLifecycle.NoTenantIsStuck | packages/server/src/onboarding/run.ts:209-272 | From every reachable state a fresh run on a live tenant holds the lock after its four attempts if and only if no claim is fresh when it starts |
| OnboardingLifecycle.CrashedClaimRecoverable | packages/server/src/onboarding/run.ts:209-272 | When an active run crashes in any reachable state, a fresh run gets the lock if and only if the crashed one's claim is no longer fresh |
| OnboardingRaces.UnlockBetweenCheckAndWriteBreaksExclusion | packages/server/src/routes/admin-onboard.ts:428-466 | If a run is active in any phase when an unlock is written, a waiting run enters beside it in at most two attempts |
| OnboardingRaces.UnforcedUnlockCounterexample | packages/server/src/routes/admin-onboard.ts:428-466 | A complete run without force, in which two runs are active on one tenant |
| OnboardingRaces.LateAuditFailureBreaksExclusion | packages/server/src/onboarding/run.ts:335-379 | An audit write that fails after promotion takes the claim of a run active in any phase away, and a waiting run enters beside it |
| OnboardingRaces.LateAuditCounterexample | packages/server/src/onboarding/run.ts:335-379 | A complete run without any unlock, within one instant, in which two runs are active on one tenant |
| OnboardingLifecycle.LifecycleAlways | packages/server/src/onboarding/run.ts:334-397 | In every reachable state a production-ready tenant has stored material and an expiry, claim fields appear in onboarding or revoked records only, and a record is revoked if and only if it is deleted |
| OnboardingLifecycle.RevokedForever | packages/server/src/tenants/registry-memory.ts:117-132 | Once deleted, a tenant's record never changes again and its reference is never created again |
| OnboardingRun.AcquireLock | packages/server/src/onboarding/run.ts:247-264 | The loop acquires if and only if the tenant is live and its state or its stale claim allows it, by one write at most |
| OnboardingRun.RunOnboarding | packages/server/src/onboarding/run.ts:209-398 | When each outcome occurs, what message a failure has, and what each leaves: the promoted record and its material, the failed one without a claim, or no change; other tenants are untouched |
| Idempotency.IdempotencyStore.Begin | packages/server/src/middleware/idempotency.ts:104-125 | Claims a key that is free or expired, and otherwise reports the work in flight or the committed response |
| Idempotency.IdempotencyStore.Commit | packages/server/src/middleware/idempotency.ts:126-134 | Stores the response for an existing entry, and refuses a key without one |
| Idempotency.BeginOutcome | packages/server/src/middleware/idempotency.ts:104-125 | A new caller works if and only if the key has no entry or an expired one, is turned away by work in flight, and gets a committed response |
| Idempotency.OthersTurnedAway | packages/server/src/middleware/idempotency.ts:104-125 | While no claim expires under its holder, every other caller of a working caller's key is turned away |
| Idempotency.StepKeepsExclusionIff | packages/server/src/middleware/idempotency.ts:101-139 | About owning the slot: from a state in which every working caller holds its own unexpired slot, a step keeps that so if and only if it lets no claim expire |
| Idempotency.ExclusiveIffSlotsKept | packages/server/src/middleware/idempotency.ts:101-139 | About owning the slot: every working caller holds its own unexpired slot throughout a run if and only if no claim expires under its holder; the clock may otherwise do what it likes |
| Idempotency.SafeIffSlotsKept | packages/server/src/middleware/idempotency.ts:101-139 | About a second working caller: throughout a run no two callers work on one key, and no further caller of the key would work beside one, if and only if no claim expires under its holder |
| Idempotency.LoneCallerMayExpire | packages/server/src/middleware/idempotency.ts:101-139 | A complete run on which a lone caller outlives its claim and still no two callers work |
| Idempotency.AtMostOneWorking | packages/server/src/middleware/idempotency.ts:101-139 | When no claim expires under its holder, at most one caller per key is between claim and finish, over all interleavings |
| Idempotency.CommittedResponseReplayed | packages/server/src/middleware/idempotency.ts:101-139 | After a commit every caller of the key within the time to live gets exactly that response, whatever happens in between |
| Idempotency.StaleReleaseFreesForeignSlot | packages/server/src/middleware/idempotency.ts:135-137 | A caller that outlives its claim frees the slot of another one, and a third can start |
| Idempotency.StaleReleaseCounterexample | packages/server/src/middleware/idempotency.ts:101-139 | The complete run: claim, clock to the deadline, claim, late release, claim, and two callers work on one key |
| Semaphores.Semaphore.TryAcquire | packages/server/src/middleware/semaphore.ts:41-50 | Hands out a new permit unless as many are outstanding as the capacity |
| Semaphores.Semaphore.Release | packages/server/src/middleware/semaphore.ts:45-49 | Gives a slot back once; releasing again has no effect |
| Semaphores.CreateSemaphore | packages/server/src/middleware/semaphore.ts:35-56 | Makes a semaphore if and only if the capacity is a positive integer; zero, fractions, NaN and the infinities are refused |
| OnboardRoute.HandleOnboard | packages/server/src/routes/admin-onboard.ts:193-283 | The reply is a success if and only if there is room, the request is well formed and first under its key, the tenant can be acquired, and handshake and audit row succeed; otherwise it says what the run says; registry and vault are as that result leaves them; the semaphore slot is given back, and the idempotency slot is committed with the reply that is sent, freed, or left alone |
| OnboardSystem.AdmittedIffRoom | packages/server/src/routes/admin-onboard.ts:193-377 | A new request is admitted if and only if there is room for it |
| OnboardSystem.WorksIffFirst | packages/server/src/routes/admin-onboard.ts:193-377 | In every reachable state an admitted request works if and only if it has no key or no fresh entry stands under its key |
| OnboardSystem.RunsAndSucceeds | packages/server/src/routes/admin-onboard.ts:193-377 | In every reachable state a working request can start its run, and a run that is promoted and audited makes its request succeed |
| OnboardSystem.HandshakesWithinCapacity | packages/server/src/routes/admin-onboard.ts:193-377 | Under every interleaving of any number of requests the runs that hold a tenant lock belong to requests at work, and these are at most as many as the semaphore allows |
| OnboardSystem.OneRequestPerKey | packages/server/src/routes/admin-onboard.ts:193-377 | While no slot expires under its holder, at most one request per idempotency key is between check and commit |
| OnboardSystem.OneRunPerTenant | packages/server/src/routes/admin-onboard.ts:193-377 | While no step takes a claim away, at most one request per tenant is inside the lock |
| OnboardSystem.CommitFindsItsSlot | packages/server/src/routes/admin-onboard.ts:193-377 | While no slot expires under its holder, the commit of a successful request finds the entry it claimed, so it is never refused |
| OnboardSystem.NoPermitIsLost | packages/server/src/routes/admin-onboard.ts:193-377 | From every reachable state a request that holds a permit, and whose run has not crashed, can give it back by its own steps alone |
| OnboardSystem.LaterRequestReplays | packages/server/src/routes/admin-onboard.ts:193-377 | After a request has committed its response, every later request with the same key that is admitted within the time to live gets exactly that response and does not work |
| XmlTree.GetElementWalksTags | packages/core/src/xml/document.ts:154-192 | The recursive descent visits the segments of the path without one trailing empty segment |
| XmlLaws.SetThenGet | packages/core/src/xml/document.ts:203-324 | A successful overwrite at a clean path is what a query of the path returns |
| XmlLaws.ReadsBackIffClean | packages/core/src/xml/document.ts:281-324 | Every successful overwrite of a path is read back in every document, if and only if the path is refused or its last two segments are both empty or both not |
| XmlLaws.SetLeavesOthersAlone | packages/core/src/xml/document.ts:281-324 | A path that leaves the written one at some segment returns what it did before |
| XmlLaws.AppendsAccumulate | packages/core/src/xml/document.ts:308-319 | n appends leave the old elements followed by the n new ones in order |
| XmlLaws.DeleteKeepsTheRest | packages/core/src/xml/document.ts:226-268 | A deletion succeeds if and only if something matches and the path is allowed; then exactly the elements that do not match stay, in order, and the key goes when none does |
| XmlLaws.DeleteLeavesOthersAlone | packages/core/src/xml/document.ts:226-268 | A deletion leaves every path alone that leaves the deleted one at some segment |
| XmlLaws.DeleteRoot | packages/core/src/xml/document.ts:252-267 | Deleting the root changes nothing, and reports success if and only if the root matches |
| XmlLaws.MatchingSplits | packages/core/src/xml/document.ts:95-103 | A condition selects exactly the elements that match it, and with the others they are all elements, as often as each occurs |
| XmlLaws.RefusedPaths | packages/core/src/xml/document.ts:54-65 | A path is refused, and nothing written or deleted, if and only if a segment is "__proto__", "constructor" or "prototype" |
| XmlDocument.FilterByMatchSubset | packages/core/src/xml/document.ts:95-103 | The elements that match, in order |
| XmlDocument.XMLDocument.Find | packages/core/src/xml/document.ts:203-218 | The matching elements at a path, or nothing when there are none |
| XmlDocument.XMLDocument.Delete | packages/core/src/xml/document.ts:226-268 | The document and the answer are those of `Deleted`; a false answer changes nothing |
| XmlDocument.XMLDocument.Set | packages/core/src/xml/document.ts:281-324 | The document and the answer are those of `SetAt`; a false answer changes nothing |
| XmlDocument.FillInvoice | packages/core/src/invoices/base.ts:238-259 | The builder's writes to the template, in their order |
| XmlDocument.FilledReadsBack | packages/core/src/invoices/base.ts:238-259 | A filled invoice reads back one InvoiceLine per input line in order, the tax totals, the payment means and the monetary total |
| XmlDocument.FilledKeepsTheRest | packages/core/src/invoices/base.ts:238-259 | Every other element below Invoice is as in the template |
| XmlDocument.FillNeedsInvoice | packages/core/src/invoices/base.ts:238-259 | Without a usable Invoice element every write is refused, unnoticed |
| InvoiceHash.StripIsFilter | packages/core/src/crypto/hash.ts:36-41 | The three deletions filter the entries of the invoice and leave everything else of the document as it is |
| InvoiceHash.StripCopy | packages/core/src/crypto/hash.ts:36-41 | Stripping works on a copy: the document that is hashed stays unchanged |
| Signing.InjectionKeepsHashedIff | packages/core/src/crypto/sign.ts:352-357 | Whatever replaces a placeholder, what is hashed stays the same if and only if the first occurrence is not in a hashed part, or nothing changes |
| Signing.SigningKeepsHashed | packages/core/src/crypto/sign.ts:287-363 | When neither placeholder occurs in what is hashed, the signed document hashes like the unsigned one, for every signature block and QR code |
| Signing.PlaceholderInSerialNumber | packages/core/src/crypto/sign.ts:352-357 | A serial number that spells the QR placeholder takes the QR code and the hash changes, whatever precedes the invoice and the serial number without holding the placeholder |
| SignedDocument.InjectedAt | packages/core/src/crypto/sign.ts:352-357 | The first text in document order that holds the placeholder is replaced, and every other place is as before |
| SignedDocument.SignedAt | packages/core/src/crypto/sign.ts:352-357 | The signed document has the signature block at the first text with its placeholder, the QR code at the first text with the other one, and is unchanged at every place beside the two |
| SignedDocument.NoPlaceholderLeft | packages/core/src/crypto/sign.ts:352-357 | When each placeholder occurs in one text, and what is put in holds none, the signed document holds none |
| SignedDocument.GenerateSigned | packages/core/src/crypto/sign.ts:287-369 | The signed document is the invoice with block and QR code at their places, and the recorded hash can be computed again from it |
| BuiltInvoice.BuiltInvoiceKeepsHash | packages/core/src/invoices/base.ts:238-259 | A parsed template whose placeholders are outside the hashed parts, filled with values that hold none, hashes alike before and after signing, for every signature block and QR code |
| BuiltInvoice.WhatIsHashed | packages/core/src/crypto/hash.ts:36-41 | What is hashed below the invoice has no extensions and no signature, all document references but that of the QR code, and everything else as it is |
| BuiltInvoice.MatchesOneIff | packages/core/src/xml/document.ts:77-88 | An element matches {tag: text} if and only if its own value at the tag is that text |
| BuiltInvoice.MatchesAllIff | packages/core/src/xml/document.ts:77-88 | Everything but a text matches the empty condition, and each further tag asks for its text as well |
| BuiltInvoice.FilledOrder | packages/core/src/invoices/base.ts:238-259 | A filled invoice has the elements of the template in their order, and then those it lacked in the order of the writes |
| BuiltInvoice.BuiltElementsComeLast | packages/core/src/invoices/base.ts:238-259 | In a template that has none of them: payment means, tax totals, monetary total and lines come last, in this order |
| FixedNoRounding.TruncatesIffNoExponent | packages/core/src/invoices/fixed-no-rounding.ts:31-45 | For n ≥ 1 the text is the truncation toward zero with exactly n places if and only if the number is printed without an exponent |
| FixedNoRounding.Stable | packages/core/src/invoices/fixed-no-rounding.ts:31-45 | Applying it again, or to the number with other trailing zeros, gives the same text |
| FixedNoRounding.WordsGiveZero | packages/core/src/invoices/fixed-no-rounding.ts:31-45 | NaN and the infinities give "0.00" for every number of places |
| MoneyText.TextIsTruncationIff | packages/core/src/invoices/fixed-no-rounding.ts:31-45 | The text of an amount with two places reads back as its truncation to cents if and only if the number is printed without an exponent |
| TaxArithmetic.BuildInvoiceLineItemTotals | packages/core/src/invoices/shared-tax-arithmetic.ts:39-108 | Truncating after every addition gives the plain sum of the truncated taxes; the rounding amount is net plus taxes |
| TaxArithmetic.BuildDebitNoteLineItemTotals | packages/core/src/invoices/shared-debit-note-arithmetic.ts:31-131 | Net and taxes agree with those of the invoice builder, for every line |
| TaxArithmetic.BuildInvoiceTaxTotal | packages/core/src/invoices/shared-tax-arithmetic.ts:118-184 | One subtotal per line and tax, from untruncated amounts, the total, and the same total as roll-up |
| TaxArithmetic.BuildDebitNoteTaxTotal | packages/core/src/invoices/shared-debit-note-arithmetic.ts:137-194 | The same subtotals and total, without a roll-up |
| TaxConservation.Build | packages/core/src/invoices/base.ts:214-259 | From prices, quantities, discounts and percentages alone: each net is the amount cut to cents; the payable amount is within stated cents of what the lines come to with their taxes, and equal to it when every amount and tax comes out even; one subtotal per line and tax, each cut; and the totals conserve: payable is net plus tax, subtotals add up, VAT taxable amounts add up, the exact difference between the two tax computations |
| TaxDue.PaidWithinTolerance | packages/core/src/invoices/shared-tax-arithmetic.ts:66-82 | For lines whose discounts do not exceed their price, the sum of nets and taxes is at most what they come to, and short of it by less than the stated cents |
| TaxDue.DiscountLowersTotal | packages/core/src/invoices/shared-tax-arithmetic.ts:50-66 | One more discount of whole cents lowers the line extension amount by exactly that |
| TaxDue.SubtotalsAreOf | packages/core/src/invoices/shared-tax-arithmetic.ts:118-184 | One subtotal for each line and each of its taxes, in order, each the amount and its tax cut to cents, with that tax's percentage |
| TaxConservation.VatTaxablesAddUp | packages/core/src/invoices/shared-tax-arithmetic.ts:152-165 | The taxable amounts of the VAT subtotals add up to the sum of the lines' net amounts |
| TaxConservation.TaxDrift | packages/core/src/invoices/shared-tax-arithmetic.ts:66-82 | With percentages from 0 to 100, document tax minus line taxes is the number of crossing pairs with an amount that is not negative less the number of the others, in cents |
| TaxConservation.TaxesAgreeIff | packages/core/src/invoices/shared-tax-arithmetic.ts:66-82 | With percentages from 0 to 100, the two agree if and only if the crossing pairs of either sign are equally many |
| TaxConservation.NoDriftInWholeCents | packages/core/src/invoices/shared-tax-arithmetic.ts:66-82 | Whatever the percentages, the two agree when every line amount is a whole number of cents |
| TaxConservation.DriftIsReached | packages/core/src/invoices/shared-tax-arithmetic.ts:66-82 | For every n, n lines for which the difference is n cents |
| Tlv.CreateTLV | packages/core/src/qr/tlv.ts:32-59 | Fails if and only if some value exceeds 255 bytes, naming the first one; otherwise fills a buffer of the summed length exactly with the segments in order |
| Tlv.DecodeInvertsEncode | packages/core/src/qr/tlv.ts:32-59 | A byte string is the encoding of a list of values if and only if it decodes to that list |
| Tlv.SegmentStands | packages/core/src/qr/tlv.ts:32-59 | Behind the segments before it stands each value, after its number, from 1, and its length |
| Base32.Base32Encode | packages/server/src/tenants/registry-memory.ts:53-69 | The overflowing 32-bit accumulator computes the regrouping of the bit stream into groups of five |
| Base32.DecodesEncoding | packages/server/src/tenants/registry-memory.ts:53-69 | The decoder of section 6 of RFC 4648 returns the bytes |
| Base32.EncodingIsInjective | packages/server/src/tenants/registry-memory.ts:53-69 | Different bytes have different encodings |
| ApiToken.Issue | packages/server/src/tenants/registry-memory.ts:423-426 | An issued token has a tail of 32 letters and parses to its parts if and only if the reference allows it |
| ApiToken.ParsesIffRef | packages/server/src/tenants/registry-memory.ts:384-395 | A token parses, to exactly its environment, reference and tail, if and only if its reference is in `[a-z0-9-]+` |
| ApiToken.TokenSpelled | packages/server/src/tenants/registry-memory.ts:423-426 | A token is spelt zts_live_ or zts_test_, its reference, an underscore and its tail |
| ApiToken.ParsedIsToken | packages/server/src/tenants/registry-memory.ts:384-395 | Whatever parses is the text of the token it parses to |
| ApiToken.TokensAreDistinct | packages/server/src/tenants/registry-memory.ts:423-426 | Different tokens have different texts, whatever their references are |
| ApiToken.GenerateTenantRef | packages/server/src/tenants/registry-memory.ts:75-77 | A generated reference has 16 characters and can stand in a token |
| ApiToken.GeneratedRefsAreDistinct | packages/server/src/tenants/registry-memory.ts:75-77 | Different random bytes give different references, also in lower case |
| TemplateFill.FillIsSubstitution | packages/core/src/templates/simplified-tax-invoice.ts:111-128 | The chain of first-occurrence replacements is the simultaneous substitution, for values without patterns and marks and an order in which no proper prefix comes first |
| TemplateFill.PatternExpands | packages/core/src/templates/simplified-tax-invoice.ts:111-128 | The first `$` pattern of a value is replaced by a dollar, the token, or the text before or behind it |
| TemplateFill.ShorterTokenFirst | packages/core/src/templates/simplified-tax-invoice.ts:123-124 | In the wrong order the longer token takes the value of the shorter one and leaves its own end behind |
| TemplateFill.LeftForLater | packages/core/src/templates/simplified-tax-invoice.ts:111-128 | A token that is not replaced occurs as often as before |
| InvoiceTemplate.PopulatedIsExpected | packages/core/src/templates/simplified-tax-invoice.ts:92-129 | The eighteen replacements fill in every field of the literal template with its own value at once, for values without `$` patterns and token marks |
| InvoiceTemplate.PlaceholdersSurvive | packages/core/src/templates/simplified-tax-invoice.ts:111-128 | The two placeholders for signature and QR code occur exactly once in the populated template |
| InvoiceTemplate.TextIsSound | packages/core/src/templates/simplified-tax-invoice.ts:20-82 | The literal text between the fields holds no token mark and touches no token with a letter or an underscore |
| InvoicePlaces.TemplateIsNested | packages/core/src/templates/simplified-tax-invoice.ts:20-82 | The literal template opens and closes its elements in order, each field stands in its own element, and all are closed at the end |
| InvoiceTemplate.PlaceholdersAreForSigning | packages/core/src/templates/simplified-tax-invoice.ts:20-82 | The two placeholders that the template keeps are those that signing looks for |
| InvoiceTemplate.OnlyCityIsPrefix | packages/core/src/templates/simplified-tax-invoice.ts:123-124 | Of the twenty tokens only SET_CITY is the start of another one |
| HttpRetry.Request | packages/core/src/api/http-client.ts:184-313 | Between one and count + 1 fetches, the first outcome that is not retryable ends the loop; 200 and 202 succeed, 500 to 599 and two network errors are retried; the result for every last outcome; the time slept after n retries is exactly baseMs·(2^n − 1) plus the jitters |

## Left out

- Redaction.RedactSecrets: Date, Map and Set values are opaque leaves, and `toJSON`, getters and symbol keys do not occur; `capAuditPayload` is not modelled.
- InvoiceStorage.SerialsDistinct: a custom invoice number formatter and negative years are not modelled.
- XmlDocument.XMLDocument.Set: the tree is a value, so subtrees returned by a query or stored by `set` are not shared with the caller.
- XmlTree.GetElementWalksTags: leaves are strings; inherited property names, `length` and array indices as tags do not occur.
- SignedDocument.GenerateSigned: placeholders inside tag names, and `signedPropertiesIndentationFix`, which re-indents text inside the signature block; the QR code and the block are parameters.
- TaxArithmetic.BuildInvoiceLineItemTotals: allowance charges, tax category blocks, currency attributes and reasons carry no arithmetic and are not modelled.
- TaxConservation.Build: binary floating-point error is abstracted away.
- InvoiceTemplate.PopulatedIsExpected: the other five templates, and the two of the signature block, have the same form.
- OnboardingExclusion.AtMostOneActiveRun: a transactional unit of work, which would make the final writes one step.
- OnboardRoute.HandleOnboard: one request alone, its interleaving with others is in `OnboardSystem`; the reply is a value; a failure to send it after the commit is not modelled, and printing the response body is a parameter.
- HttpRetry.Request: retry counts are integers; headers, URLs, request ids and validation results of a failure are not modelled.
- ApiToken.Issue: hashing, resolving and revoking API keys.
- The Postgres, Mongo and Prisma adapters and registries: their semantics lie in the databases.
- The submit route of `tenant-invoices.ts`, the HTTP endpoints, the command line, configuration, metrics and logging: plumbing around the modelled parts.
- Certificate parsing, key generation, ECDSA, SHA-256, scrypt, AES-GCM, base64, UTF-8 and `fast-xml-parser`: library code.
- Compliance scenarios, schemas, Phase 1 XML, buyer fragments and the literal text of the other templates.
- The duplicates of the memory adapter in `packages/core/src/compliance` and `packages/core/src/issue`, and the listing and sorting of tenants: weaker or easier than what is modelled.

# Verification model

A Dafny model of the receipt-scan service and the FX publisher, with proofs of what they promise. Code
that updates objects, maps or directories step by step is modelled by classes, methods and loops whose
contracts are tied to specification functions; code that interleaves is modelled by step systems, and
the main results quantify over all their runs.

| file | models |
|---|---|
| `ScanProtocol.dfy`, `ScanSafety.dfy`, `ScanProgress.dfy`, `ScanWaits.dfy`, `ScanSuccess.dfy`, `ScanOrigins.dfy`, `ScanProvider.dfy`, `ScanStore.dfy` | the scan endpoint on any number of instances: nested single flight, durable reservations, one billed provider, crashes, rate-capped recovery |
| `Coalescer.dfy`, `SingleFlight.dfy` | the single-flight result cache, as an object and as a system of concurrent callers |
| `Provider.dfy` | the client of the billed provider: accepted references, the rejected/ambiguous/accepted boundary, the order of effects |
| `SpendStore.dfy`, `MemorySpend.dfy`, `RateCap.dfy` | durable reservations and rate counters over alias groups, their in-memory counterparts, and how far the two agree |
| `KeyId.dfy`, `Counters.dfy`, `Replay.dfy` | key identities and their spellings, the replay counter, and every interleaving of assertions and registrations |
| `Quorum.dfy`, `Publisher.dfy`, `PublishRun.dfy` | the window search of the FX quorum, the reconciler, one publish run |
| `Calendar.dfy`, `Archive.dfy`, `Baseline.dfy`, `Continuity.dfy` | archive dates and retention, the trusted currency baseline, whole histories of publishes |
| `Rounding.dfy`, `Promotion.dfy`, `Poll.dfy`, `LeaseScript.dfy` | published digits, directory promotion under faults, the propagation poll, the lease-guarded promotion script |
| `Wrappers.dfy`, `Sorting.dfy`, `Names.dfy` | optional values, the sort, string order and sorted lists of names |

Conventions. Rates are `real`. Times are integers (or reals where the source reads a millisecond clock);
machine-integer limits are written out where the code depends on them. A transaction body may run on any
number of snapshots before the run that commits, and the variables it captures outlive the aborted runs.
A call to a remote service may fail with or without effect. Signatures, certificates and hashes are
opaque; a scan result is named by the image it is the analysis of.

Where a promise of the source does not hold, the code is kept as it is and the exact condition is proved:

* The quorum's doc comment promises the largest agreeing subset. The search finds it exactly when every two
  separated runs of values that agree with the midpoint between them are covered by an agreeing window as long,
  a condition on the sorted input alone (`Quorum.LargestSubsetIff`). It does so for every list of up to four
  values, and for every greater number of values there are some on which it does not
  (`Quorum.AlwaysFindsLargestIff`); a subset of odd size it never misses (`Quorum.OddSubsetBound`). The publish
  job has two sources; `POST /fx/reconcile` takes any number.
* Twice the rate limit in any interval as long as the window holds exactly for windows of whole seconds or
  below one second (`RateCap.TwiceLimitIff`).
* The in-memory store agrees with the durable one on a call exactly when the call does not reserve or look
  up an expired slot, which the durable store still counts as reserved (`MemorySpend.CallAgreesIff`, with both
  failures in `MemorySpend.StoresDiverge`), and on a counter exactly until it is full (`RateCap.RatesAgreeIff`,
  `RateCap.FullCounterDiverges`).
* A finished call's accepted operation stays readable for its lifetime unless a later `Do` on the same key
  drops the entry of a call that left no result (`Coalescer.OperationSurvivesDoIff`, `Coalescer.OperationIsLost`).
* Rethrowing before the old tree counts as backed up leaves it in place exactly when the failing move had
  not begun to drain it (`Promotion.Files.Promote`, predicate `Damaged`, schedules in `Promotion.DamageHappens`).
* A verifier run that fails leaves sink and traffic as they were when it took the lease; that is "disabled,
  previous revision" exactly when they were so at that moment, because another run may change them between
  the first read-only checks and the lease (`LeaseScript.Verifier.Run`).
* A rollback in which every command and read does its work still exits 70 exactly when another run has taken the
  lease between its deletion and the reading of its absence; sink and traffic are restored all the same
  (`LeaseScript.Verifier.Rollback`).
* A verifier run that fails with another status than 70 still holds its lease exactly when the lease was created
  but both the answer to that command and every readback of the owner were lost (`LeaseScript.Verifier.Run`,
  predicate `LostAcquisition`).
* `significantNum` throws on ratios below 0.1 exactly when they print as 0.1 at a hundred digits, or are
  too small for a hundred digits (`Rounding.SucceedsIff`, with numbers of both kinds in `Rounding.PrintsAsTenth`
  and `Rounding.TooSmallToRound`); the first case is far below the spacing of doubles.
* A freshly built baseline passes the validator exactly when the prior snapshot it was built from survives
  the pruning and the network fills in no day after it (`Continuity.BuiltBaselineValidatesIff`; it fails in
  `Continuity.BackfillOvertakes` and `Continuity.PauseOutlastsRetention`).

## Model

| member | source | states |
|---|---|---|
| ScanSafety.SpendFence | cmd/ocr/main.go:508-573 | in every run of any requests on any instances, with crashes, for every identity and image: requests whose submission was not rejected are among those that minted a reservation and kept it, never outnumber them, and at most one of these reservations is unexpired |
| ScanSafety.ReleaseIsOwn | cmd/ocr/main.go:555-570 | a release takes a reservation out of the store exactly when the releasing request is left with a rejection and the call is applied; it is the request's own, and its own submission is not billed |
| ScanSafety.ReservationsStay | internal/firestore/store.go:335-346 | a reservation leaves the store only by a release or, once expired, by reaping |
| ScanSafety.CappedOnlyRecovers | cmd/ocr/main.go:457-500 | a rate-capped request never mints, submits, owns or executes, and succeeds only where its own identity reserved that image at some time; one that cannot attest is turned away with an error |
| ScanSafety.EverIsHistory | cmd/ocr/main.go:467-480 | "reserved at some time" means: in the store in some state of the run so far |
| ScanSafety.ResultsAreOwn | cmd/ocr/main.go:502-574 | a successful answer, however it was obtained (cache, wait, replay, resumed operation), is the analysis of the caller's own image |
| ScanSafety.SingleExecutor | cmd/ocr/main.go:537-547 | on one instance no image is executed by two requests at once, and no identity's admission of an image either |
| ScanSafety.OwnersAlwaysSettle | cmd/ocr/scan_coalesce.go:101-121 | whoever runs a call always finds it in flight, so it can hand over its outcome and settle |
| ScanSafety.StepKeeps | cmd/ocr/main.go:396-583 | every step of every request, every crash and every expiry keeps the invariant all of the above rest on |
| ScanProgress.NeverStuck | cmd/ocr/main.go:457-574 | in every reachable state every unfinished request that does not wait for a running call can take a step other than giving up |
| ScanProgress.FewSteps | cmd/ocr/main.go:457-574 | no request takes more than fifteen steps of its own, in any run |
| ScanProgress.EveryActionProgresses | cmd/ocr/main.go:457-574 | each step of a request brings it closer to its end, so nothing is reserved, sent or released twice, and moves no other request |
| ScanWaits.AwaitedCallIsRun | cmd/ocr/scan_coalesce.go:91-104 | in every reachable state, a running call somebody waits for is being run by another unfinished request of the same instance: one of the same identity and image for an admission, one that executes the provider call for the same image otherwise |
| ScanWaits.SomebodyActs | cmd/ocr/scan_coalesce.go:91-151 | while any request of an instance is unfinished, some request of that instance can take a step other than giving up |
| ScanWaits.EverybodyFinishes | cmd/ocr/main.go:457-574 | from every reachable state, steps of the requests that are there, none of them giving up, lead to a state in which every one is finished, in no more steps than all of them had left |
| ScanSuccess.PromisingSucceeds | cmd/ocr/main.go:457-600 | from every reachable state in which nothing stands in a request's way, at whatever point of the endpoint it is, its own steps, none of them failing, end with the analysis of its image and no error |
| ScanSuccess.PollSucceeds | internal/azure/ocr.go:243-272 | in every reachable state a successful poll of a new or resumed operation brings the analysis of that operation's image, which is the caller's |
| ScanSuccess.FreshScanSucceeds | cmd/ocr/main.go:506-574 | an image nobody has on a free slot is reserved, executed and answered |
| ScanSuccess.DuplicateSucceeds | cmd/ocr/main.go:515-531 | an attested duplicate of an unexpired reservation is answered by resuming its recorded operation |
| ScanSuccess.SharedScanSucceeds | cmd/ocr/main.go:515-574 | an image with a live result on the instance is answered from it, for a new reservation or an earlier one, as long as the operation that goes with it can be kept |
| ScanSuccess.ReplaySucceeds | cmd/ocr/scan_coalesce.go:78-89 | a request whose own key has a live result on its instance is answered with it, capped or not |
| ScanSuccess.JoinerSucceeds | cmd/ocr/scan_coalesce.go:91-99 | a joiner of a call that ended well is answered with its result |
| ScanSuccess.CappedScanSucceeds | cmd/ocr/main.go:457-500 | a rate-capped request is answered from the live result of an image it has reserved, or else by resuming its recorded operation |
| ScanSuccess.FirstScanSucceeds | cmd/ocr/main.go:506-600 | starting from nothing there is a run in which the first scan succeeds |
| ScanOrigins.ResultsAreDelivered | cmd/ocr/main.go:502-600 | in every run nobody is answered with an analysis unless some request had polled an operation for that image successfully before |
| ScanOrigins.OutcomesAreHandedOver | cmd/ocr/scan_coalesce.go:101-121 | in every run the outcome of an ended call is the one the request that ran it handed over |
| ScanOrigins.WaitersTakeTheOutcome | cmd/ocr/scan_coalesce.go:91-99 | whoever wakes from a wait goes on with exactly the outcome that the request running the awaited call handed over |
| ScanOrigins.WaitersMayLeave | cmd/ocr/scan_coalesce.go:91-99 | a waiter can give up at any time; it goes on with an error and changes nothing but itself |
| ScanProvider.WithoutAcceptance | internal/azure/ocr.go:204-239 | a scan whose upload is not accepted ends with an error; it says "not submitted", and the image is not counted as possibly billed, exactly when no request was built or one of nine statuses came back |
| ScanProvider.WithAcceptance | internal/azure/ocr.go:155-173 | a scan whose upload is accepted may be billed; an attested one records the operation before it polls; it succeeds, with the analysis of its image, exactly when record and poll do |
| ScanProvider.NotedIsSeen | cmd/ocr/main.go:539-545 | in every reachable state, once the owner has noted its accepted operation, everybody on the instance reads it |
| ScanProvider.SeenIsRecorded | cmd/ocr/main.go:517-557 | who replays the image's result, or shared its execution, and sees an operation goes on to record it |
| ScanProvider.RecordedOrFailed | cmd/ocr/main.go:517-557 | after a record the operation is in the request's reservation, or the request goes on with an error |
| ScanProvider.EarlyLeaverKeepsOperation | cmd/ocr/main.go:548-557 | an attested waiter whose deadline comes first has the operation it can see in its own reservation before it returns its error |
| ScanProvider.SoftDuplicateFails | cmd/ocr/main.go:515-533 | a request that cannot attest fails at once on a slot that is taken |
| ScanProvider.FailedReserveStops | cmd/ocr/main.go:510-514 | a reserve call that fails, with or without effect, ends the scan with an error before anything is sent |
| ScanProtocol.KeysAreDistinct | cmd/ocr/main.go:440-442 | the identity key and the image key of the coalescer never collide, and distinct identities or images have distinct keys |
| ScanStore.ReservedMirrors | internal/firestore/store.go:225-251 | minting in the step system is the reserve transaction on the alias group: it succeeds exactly on an empty group and leaves the canonical document, live and without an operation |
| ScanStore.ReadMirrors | internal/firestore/store.go:284-333 | the read transaction on a slot's group can answer with the record's operation, or a refusal exactly when the record has expired, and with nothing else |
| ScanStore.RecordMirrors | internal/firestore/store.go:284-333 | the record transaction is accepted exactly when the slot's record admits the operation |
| ScanStore.RecordedMirrors | internal/firestore/store.go:317-328 | after an accepted record the group names exactly that operation, as the slot's record does |
| ScanStore.ReleasedMirrors | internal/firestore/store.go:338-346 | deleting the canonical document of a reservation a request minted empties its group |
| ScanStore.OthersMirror | internal/firestore/store.go:70-87 | a call on one canonical slot leaves the record of every other slot right |
| ScanStore.EveryRunHasShadow | internal/firestore/store.go:225-346 | for every run there is a history of the durable store, with lifetimes that end when the run says so, reaping and failed calls, that serves every transaction of the run and whose alias groups say in every state what the records say |
| ScanStore.ShadowMirrors | internal/firestore/store.go:225-346 | whatever lifetimes and clock it has, a durable store that serves the transactions of a run, and whose documents expire when the records are marked expired, mirrors the records in every state |
| ScanStore.ShadowAnswers | internal/firestore/store.go:225-346 | in such a history every transaction gives the answer the run works with |
| ScanStore.StoreFollows | cmd/ocr/main.go:457-574 | a step of the run changes the records exactly as its transaction, expiry or reaping says |
| Provider.ValidOperationIff | internal/azure/ocr.go:184-201 | an operation reference is accepted if and only if it is on the configured resource, one segment of identifier characters under the fixed path, with the configured version as its only query parameter |
| Provider.Client.Submit | internal/azure/ocr.go:204-239 | rejected exactly when the request was not built or the status is one of nine, written out; accepted exactly with status 200 or 202 and a reference, which is the one returned; otherwise ambiguous; at most one upload |
| Provider.Client.ScanWithAcceptance | internal/azure/ocr.go:155-173 | "not submitted" exactly on an empty image, a request that was not built or one of nine statuses, so never on a transport error, a redirect, 408, 409 or a server error; a valid reference is recorded before the first poll, an invalid one is neither recorded nor polled, and a failed record ends the scan |
| Provider.Client.Resume | internal/azure/ocr.go:177-182 | never uploads; an invalid reference causes no request at all |
| Provider.Client.Poll | internal/azure/ocr.go:243-272 | polls the one reference until the first answer that is not "not yet", and succeeds exactly on a success |
| SingleFlight.SingleExecution | cmd/ocr/scan_coalesce.go:78-104 | at most one execution of a key is unsettled, for any callers in any order |
| SingleFlight.NoneStartsBeforeExpiry | cmd/ocr/scan_coalesce.go:82-104 | an execution starts only after every earlier one of its key settled, and a whole lifetime after an earlier success settled |
| SingleFlight.ReturnsAreHonest | cmd/ocr/scan_coalesce.go:78-151 | every returned outcome is that of an execution of the caller's own key that had not settled, or settled less than a lifetime ago, when the caller came in |
| SingleFlight.OutcomesAreFixed | cmd/ocr/scan_coalesce.go:141-151 | only the end of its own function sets an execution's outcome, once; a cancelled waiter changes nothing but itself |
| SingleFlight.EntrantsShare | cmd/ocr/scan_coalesce.go:78-139 | whoever comes in while an execution of its key runs joins it, and while its success lives returns it at once; nothing starts |
| SingleFlight.NewcomersStart | cmd/ocr/scan_coalesce.go:78-139 | when no execution of the key runs and no success lives, `Do` starts one of its own and `Recover` comes back with nothing |
| SingleFlight.CallersReturn | cmd/ocr/scan_coalesce.go:91-121 | in every reachable state, an owner whose function has returned can settle and a waiter of it can wake, and both return exactly its outcome |
| SingleFlight.StepKeeps | cmd/ocr/scan_coalesce.go:78-202 | every step of any caller keeps the in-flight map, the result entries, the executions and the waiters consistent |
| Coalescer.OperationSurvivesDoIff | cmd/ocr/scan_coalesce.go:82-89 | a settled call's accepted operation is readable until expiry, and still is after a `Do` exactly when that `Do` was on another key or the call left a result |
| Coalescer.OperationIsLost | cmd/ocr/scan_coalesce.go:82-89 | the operation of a failed call is readable until somebody asks for the same key again |
| Coalescer.RecordedIsRead | cmd/ocr/scan_coalesce.go:186-204 | the operation recorded last on a running call is the one read, at any time; other keys' operations and what callers find stay as they were |
| Coalescer.RecordedSurvivesSettling | cmd/ocr/scan_coalesce.go:106-121 | the operation recorded last is still read after the call has ended, also with an error, until its lifetime ends |
| Coalescer.SettledIsFound | cmd/ocr/scan_coalesce.go:78-121 | a result is found by every caller until its lifetime ends, and a failure leaves nothing to find |
| Coalescer.ScanCoalescer.constructor | cmd/ocr/scan_coalesce.go:58-71 | an empty cache with the given lifetime, or 90 seconds when it is not positive |
| Coalescer.ScanCoalescer.EnterDo | cmd/ocr/scan_coalesce.go:78-104 | replays a live result, joins a running call, or publishes a new call of its own; drops an entry it cannot replay |
| Coalescer.ScanCoalescer.Settle | cmd/ocr/scan_coalesce.go:106-121 | takes the call out of flight, keeps its result on success and its operation if it has one, and drops every expired entry |
| Coalescer.ScanCoalescer.Do | cmd/ocr/scan_coalesce.go:78-121 | a whole call without interruption: replays, joins, or runs the function and leaves the cache as publishing, recording, finishing and settling leave it |
| Coalescer.ScanCoalescer.Sweep | cmd/ocr/scan_coalesce.go:155-162 | exactly the unexpired entries remain |
| Coalescer.ScanCoalescer.EnterRecover | cmd/ocr/scan_coalesce.go:126-139 | finds what `Do` would find, and changes nothing |
| Coalescer.ScanCoalescer.Lookup | cmd/ocr/scan_coalesce.go:167-182 | returns a live result; an expired one is dropped |
| Coalescer.ScanCoalescer.RecordOperation | cmd/ocr/scan_coalesce.go:186-192 | afterwards `Operation` answers the recorded operation for this key at any time, if a call of it is running; no other call, key or entry changes |
| Coalescer.ScanCoalescer.Operation | cmd/ocr/scan_coalesce.go:194-204 | the operation of the running call, else of an unexpired entry, else none |
| SpendStore.OperationIsWriteOnce | internal/firestore/store.go:268-333 | over any history of calls by any identities, with documents reaped in between: while a group lives, a recorded operation is what every later successful read returns, a different record is refused, and no reservation is minted over it |
| SpendStore.RecordedStaysFixed | internal/firestore/store.go:284-333 | from an accepted record on, every document of the living group names exactly that operation |
| SpendStore.CallKeepsFixed | internal/firestore/store.go:225-346 | no single call changes the operation of a group that names one |
| SpendStore.OtherSlotsUntouched | internal/firestore/store.go:70-87 | a call on one identity and image leaves every other group's documents alone |
| SpendStore.ReadIsDetermined | internal/firestore/store.go:300-316 | two reads of one group cannot differ, in whatever order they visit its documents |
| SpendStore.IdentityGroupsDisjoint | internal/firestore/store.go:78-87 | different canonical identities never share a document |
| SpendStore.JoinedIdsAreDistinct | internal/firestore/store.go:209-215 | joining identity and hash with a colon loses nothing |
| SpendStore.OperationBody | internal/firestore/store.go:286-330 | the transaction body, over the documents in any order and with any captured value: a read answers as the group reads, a record is accepted exactly when all documents are readable and none names another operation |
| SpendStore.FirestoreSpendStore.ReserveOcr | internal/firestore/store.go:225-251 | fresh exactly on an empty group at commit, whatever the aborted runs saw; writes one document, else nothing |
| SpendStore.FirestoreSpendStore.HasOcrReservation | internal/firestore/store.go:255-266 | whether any document of the group exists, expired or not |
| SpendStore.FirestoreSpendStore.RecordOcrOperation | internal/firestore/store.go:270-276 | records on every document of the group, or refuses and changes nothing |
| SpendStore.FirestoreSpendStore.GetOcrOperation | internal/firestore/store.go:280-282 | the one operation the group names, none for an empty group, refused when a document is expired, malformed or contradicts another |
| SpendStore.FirestoreSpendStore.ReleaseOcr | internal/firestore/store.go:338-346 | removes the canonical document only |
| MemorySpend.StoresAgree | cmd/ocr/spend_gate.go:133-186 | on every sequence of ordinary calls in which none reserves or looks up an expired slot, the in-memory store gives the durable store's answers |
| MemorySpend.CallAgreesIff | cmd/ocr/spend_gate.go:133-186 | on one call the two stores agree if and only if it is not a reserve or a lookup of an expired slot; agreeing calls keep the stores in step |
| MemorySpend.StoresDiverge | cmd/ocr/spend_gate.go:133-162 | an expired slot on which a reserve, and one on which a lookup, is answered differently |
| MemorySpend.EmptyStoresAgree | cmd/ocr/spend_gate.go:133-186 | in particular from two empty stores on |
| MemorySpend.GroupIsSlot | internal/firestore/store.go:78-87 | without legacy alias documents the group of a canonical identity is its own document or nothing |
| MemorySpend.MemorySpendStore.ReserveOcr | cmd/ocr/spend_gate.go:133-147 | mints unless the slot is live, with a day's lifetime when none is given, and forgets an older operation |
| MemorySpend.MemorySpendStore.ReleaseOcr | cmd/ocr/spend_gate.go:149-155 | forgets reservation and operation |
| MemorySpend.MemorySpendStore.HasOcrReservation | cmd/ocr/spend_gate.go:157-162 | whether the slot is live |
| MemorySpend.MemorySpendStore.RecordOcrOperation | cmd/ocr/spend_gate.go:164-173 | accepted on a live slot that names no other operation |
| MemorySpend.MemorySpendStore.GetOcrOperation | cmd/ocr/spend_gate.go:175-186 | nothing for an unknown slot, refused for an expired one, else its operation |
| RateCap.AtMostLimitPerWindow | internal/firestore/store.go:376-418 | over any run with any other callers, at most `limit` calls of an identity group are admitted in one window |
| RateCap.AtMostTwiceLimit | internal/firestore/store.go:351-363 | for a window of whole seconds or below one second, at most twice the limit in any interval as long as the window |
| RateCap.TwiceLimitIff | internal/firestore/store.go:354-363 | that bound holds of every limit and every run if and only if the window has no fraction of a second beyond the first |
| RateCap.FractionAdmitsThree | internal/firestore/store.go:354-363 | for every other window a run that admits three calls with a limit of one |
| RateCap.IncrementBody | internal/firestore/store.go:379-404 | over the documents in any order and with any captured value: fails exactly when a count is malformed or the sum leaves no room for one more, else gives the sum plus one; nothing overflows 64 bits |
| RateCap.FirestoreRateStore.IncrementRate | internal/firestore/store.go:376-410 | writes the canonical counter only and returns the new sum of the group, or fails and writes nothing |
| RateCap.FirestoreRateStore.AllowRate | internal/firestore/store.go:412-418 | returns the new sum, and allows exactly when there is one and it is within the limit |
| RateCap.RateIdsAreDistinct | internal/firestore/store.go:366-368 | joining identity and window start with a colon loses nothing |
| RateCap.MemoryRateStore.AllowRate | cmd/ocr/spend_gate.go:188-210 | counts one more for this identity and window, wrapping like a 64-bit integer |
| RateCap.RatesAgreeIff | cmd/ocr/spend_gate.go:188-199 | durable and in-memory counters agree if and only if the counter is not full |
| RateCap.FullCounterDiverges | cmd/ocr/spend_gate.go:188-199 | on a full counter the durable store refuses and writes nothing, and the in-memory one wraps below zero |
| RateCap.CountersAgree | cmd/ocr/spend_gate.go:188-199 | on every sequence of calls that fills no counter, the in-memory counters give the durable store's counts |
| KeyId.KeyIdAliases | internal/attest/attest.go:293-319 | without repetition, exactly the strings free of CR and LF that have the same canonical identity; fails exactly when there is none |
| KeyId.DecodesIffSpelling | internal/attest/attest.go:321-336 | a string decodes to a given 32-byte hash exactly when, line breaks aside, it is one of its sixteen spellings: two alphabets, padded or raw, any value of the two ignored bits |
| KeyId.SameIdentityIffSpelling | internal/attest/attest.go:282-336 | a header-safe string has the identity of a hash exactly when it is one of these spellings |
| KeyId.CanonicalIff | internal/attest/attest.go:282-291 | the canonical identity of a string is the standard padded encoding of the hash it decodes to |
| KeyId.FromSextetsIff | internal/attest/attest.go:321-336 | exactly which sextets decode to given bytes: their encoding, up to the unused low bits |
| KeyId.EncodingIsInjective | internal/attest/attest.go:282-291 | decoding the canonical identity gives the hash back |
| Counters.GroupsAreDisjoint | internal/firestore/store.go:70-76 | two canonical key identities never share a counter document |
| Counters.MemberOfGroup | internal/firestore/store.go:70-76 | the counter group of a key is exactly its header-safe spellings |
| Counters.FirestoreKeyStore.AdvanceSignCount | internal/firestore/store.go:160-206 | advances exactly when every document of the group decodes, carries the same public key and counts below `next`; writes the canonical counter only; replay and unknown key are reported exactly when they are so |
| Counters.FirestoreKeyStore.CreateKey | internal/firestore/store.go:465-505 | creates exactly when every existing spelling decodes and agrees on the key, with the largest counter of the group, so nothing is reset; an existing canonical key is reported; whatever aborted runs of its body saw or left behind |
| Counters.FirestoreKeyStore.GetKey | internal/firestore/store.go:123-141 | the stored key and counter when both decode |
| Counters.VerifyAssertion | internal/attest/attest.go:147-188 | every verdict exactly: admitted when the signature holds and the whole group counts below the new counter, so the stale pre-check turns away nothing else; replayed, unknown key and bad signature each under exactly their condition; a refusal changes nothing |
| Counters.RegisterAttestedKey | internal/attest/attestation.go:196-219 | succeeds exactly when every stored spelling agrees on the key, also when repeated, and never lowers a counter |
| Counters.MemKeyStore.AdvanceSignCount | internal/attest/stub.go:54-81 | the same specification for the in-memory store |
| Counters.MemKeyStore.CreateKey | internal/attest/stub.go:98-122 | the same specification for the in-memory store |
| ReplayProtocol.NoReplay | internal/attest/attest.go:147-188 | in every run of assertions with stale pre-reads, registrations and re-registrations, admitted counters of one key are strictly increasing, so nothing is admitted twice |
| ReplayProtocol.GroupMaximumNeverFalls | internal/attest/attestation.go:196-219 | no step lowers the largest counter of an alias group |
| ReplayProtocol.CountsNeverFall | internal/attest/attestation.go:196-219 | over any stretch of a run the largest counter of an alias group never falls |
| ReplayProtocol.CommitIsAtomicAdvance | internal/firestore/store.go:160-206 | a committed advance is one atomic advance of the store, however often its body was re-run, and the assertion is admitted exactly when the group counted below it and the caller was answered |
| ReplayProtocol.CommitIsAtomicCreate | internal/firestore/store.go:465-505 | a committed registration is one atomic create of the store, which keeps the largest counter of the group, and admits nothing |
| ReplayProtocol.FreshAssertionIsAdmitted | internal/attest/attest.go:147-188 | an assertion that counts above its whole group is admitted when nothing fails and nobody comes in between |
| ReplayProtocol.FreshRegistrationSucceeds | internal/attest/attestation.go:196-219 | so is a registration with which every stored spelling agrees |
| Quorum.LargestSubsetIff | internal/fx/quorum.go:81-113 | the cluster is as large as every agreeing sub-multiset of the input if and only if every pair of separated agreeing runs of the sorted input is covered by an agreeing window as long |
| Quorum.AlwaysFindsLargestIff | internal/fx/quorum.go:81-113 | the cluster is the largest agreeing subset of every list of n positive values if and only if n is at most four |
| Quorum.OddSubsetBound | internal/fx/quorum.go:89-113 | the cluster is at least as large as every agreeing sub-multiset of odd size, contiguous or not |
| Quorum.LargestSubsetCounterexample | internal/fx/quorum.go:81-88 | for every number of values from five on, concrete positive values on which the search misses the largest agreeing subset |
| Quorum.ClusterAgrees | internal/fx/quorum.go:89-127 | the cluster is a sub-multiset of the values that agrees with its own median |
| Quorum.ClusterIsOrderFree | internal/fx/quorum.go:89-92 | it depends on the values only, not on their order |
| Quorum.PairQuorumIff | internal/fx/quorum.go:89-113 | two values agree somewhere if and only if the cluster has two |
| Quorum.LargestAgreeingCluster | internal/fx/quorum.go:89-113 | the nested loops return the first of the longest agreeing windows |
| Quorum.WindowAgrees | internal/fx/quorum.go:117-125 | every member is within the tolerance of the window's median |
| Quorum.RelDiffIsNear | internal/fx/quorum.go:129-147 | the relative difference test accepts exactly the pairs of a symmetric, division-free one, on positive values |
| Publisher.Reconcile | internal/fx/quorum.go:45-79 | rates and failed list are exactly the currencies that reach or miss the quorum, each rate the median of its cluster; the two input errors exactly |
| Publisher.QuorumSafety | internal/fx/quorum.go:45-79 | with fewer than `minAgree` faulty sources every published rate is within tolerance of an honest one |
| Publisher.RateHasSupport | internal/fx/quorum.go:45-79 | at least `minAgree` sources voted within tolerance of a published rate |
| Publisher.RateBetweenReports | internal/fx/quorum.go:150-161 | a published rate lies between two reports that agree with it |
| Publisher.ReconcileOrderFree | internal/fx/quorum.go:45-79 | any two reconciliations of the same snapshots, in any order, agree |
| Publisher.CollectVotes | internal/fx/quorum.go:54-62 | the votes of each currency, in snapshot order, positive values only |
| Publisher.VoteIsPositiveRate | internal/fx/quorum.go:54-62 | a source's vote for a currency is its rate, exactly when that is positive |
| PublishRun.GateOrderFree | internal/fx/publish.go:120-188 | gate outcome, rates, failed list and source list do not depend on the order fetches complete in |
| PublishRun.FetchAll | internal/fx/publish.go:259-282 | exactly the fetched, non-empty snapshots, in completion order |
| PublishRun.SnapshotSources | internal/fx/publish.go:317-332 | the distinct non-empty source names in ascending order |
| PublishRun.RunGates | internal/fx/publish.go:120-160 | stops at exactly the first gate that is closed |
| PublishRun.PublishLatest | internal/fx/publish.go:120-192 | a closed gate or a missing writer writes nothing, a passed gate always precomputes, a publish fails exactly when a write does, success writes every object in order and returns their number and the publication date, a failed write leaves a prefix |
| PublishRun.PrecomputeObjects | internal/fx/publish.go:200-240 | one object per currency and for EUR, in ascending order, each under its spelled-out path with date, time and sources; in each, rate times the base currency's reconciled rate is the other currency's reconciled rate, with EUR at one when no source lists it; fails exactly when a rate is not positive and there is another currency beside it |
| PublishRun.EuroObjectIsTable | internal/fx/publish.go:194-240 | there is an EUR object, and it carries exactly the reconciled rates whenever EUR itself is one |
| PublishRun.PathsCollideIff | internal/fx/publish.go:241-246 | two codes are written to one path if and only if they differ in letter case only |
| PublishRun.ReconciledDate | internal/fx/publish.go:334-356 | the latest date that parses, else the first date there is |
| PublishRun.DateOrderFree | internal/fx/publish.go:334-356 | two completion orders of the same snapshots may publish different spellings of the date, never different times |
| PublishRun.CrossRatesCompose | internal/fx/crossrate.go:34-56 | converting through a third currency, or there and back, agrees with converting directly |
| Calendar.IsoFollowsCalendar | currscript.js:897-901 | comparing ISO strings compares dates, and equal strings are equal dates |
| Calendar.DaysFollowCalendar | scripts/validate-package.js:493-497 | day numbers order dates as the calendar does |
| Calendar.DayNumberIs | currscript.js:897-901 | day numbers in closed form, with a leap day every fourth year except in three of four centuries; the Unix epoch is day 719528 |
| Calendar.DaysBeforeNumber | currscript.js:897-901 | the date n days before has a day number n smaller, through months, years and leap days |
| Archive.GapsConserveDays | currscript.js:955-971 | the gap count plus the number of distinct dates is the inclusive span from the earliest to the latest date, duplicates or not |
| Archive.BuildManifest | currscript.js:955-980 | the listed dates in calendar order, the earliest, the latest, a gap count that conserves days, and the sorted currency codes |
| Archive.SnapshotArchive.Publish | currscript.js:61-74 | whatever the archive held, after save, prune, fill and listing the manifest ends today, has at most 400 dates over at most 400 days and accounts for every day |
| Archive.SnapshotArchive.Prune | currscript.js:629-649 | exactly the files younger than the retention remain, and the dates of the others are returned in order, each once |
| Archive.SnapshotArchive.BuildWindow | currscript.js:377-416 | saves a fetched snapshot exactly for the days of the window the archive cannot load, and returns what is loadable of each day |
| Archive.SnapshotArchive.LoadAll | currscript.js:617-627 | exactly the loadable snapshots not dated after the given day |
| Archive.SnapshotArchive.ListDates | currscript.js:447-456 | every stored date, in order |
| Baseline.LoadPrior | currscript.js:502-524 | the newest file before today, refused when it does not load or is not sound |
| Baseline.NormalizeTrusted | currscript.js:475-500 | accepts exactly the tables of at least a hundred currencies, all positive, with the euro within a billionth of one |
| Baseline.LoadCommitted | currscript.js:544-570 | the committed file of the day, nothing when there is none, a refusal when it does not load or is not sound |
| Baseline.BuildBaseline | currscript.js:572-615 | one source per snapshot with its sorted codes, and the sorted union |
| Baseline.Gate | currscript.js:694-785 | passes exactly when both snapshots can be trusted and the candidate has every code of both |
| Baseline.FindMissing | scripts/lib/sources.js:126-139 | the filter, lower-casing, de-duplication, filter and sort chain gives the sorted lower-cased codes with a positive rate that the candidate has no positive rate for |
| Baseline.ValidateBaseline | scripts/validate-package.js:259-352 | accepts exactly what `Accepts` describes: kinds, order, union, both expected snapshots, containment |
| Continuity.AcceptsIff | scripts/validate-package.js:259-352 | the validator accepts a baseline if and only if it is the one of exactly the two snapshots it sees and the candidate has all their codes |
| Continuity.CurrenciesNeverShrink | currscript.js:694-785 | over any sequence of committed publishes on days that never go back, whatever the network backfills, a later published currency set contains every earlier one |
| Continuity.BuiltBaselineValidatesIff | currscript.js:42-70 | the baseline a publish built validates if and only if its prior snapshot is neither pruned nor overtaken by a filled-in day |
| Continuity.BackfillOvertakes | currscript.js:42-70 | a day between the last publish and today that only the network knows makes the freshly built baseline fail |
| Continuity.PauseOutlastsRetention | currscript.js:42-70 | so does a pause longer than the retention |
| Rounding.RelativeError | currscript.js:911-918 | for every ratio from 10^-93 up, the rounded value is positive and within 5e-8 of it, relatively |
| Rounding.SucceedsIff | currscript.js:911-918 | below 0.1 the rounding succeeds exactly between the two sizes at which it throws, and which error it throws |
| Rounding.TooSmallToRound | currscript.js:911-918 | a positive ratio that is too small for a hundred digits |
| Rounding.PrintsAsTenth | currscript.js:911-918 | a ratio below 0.1 that prints as 0.1 at a hundred digits |
| Rounding.FailsOnlyBelowTenth | currscript.js:911-918 | from 10^-93 up it fails exactly on numbers below 0.1 that print as 0.1 at a hundred digits |
| Rounding.PublishedRatePasses | scripts/validate-package.js:487-491 | every rate that can be published passes the validator's 1e-8 comparison |
| Rounding.ComputeCrossRates | currscript.js:920-930 | a value for every currency or a throw, exactly when some rounding throws; all values pass the validator |
| Rounding.LeadingZerosMeasure | currscript.js:911-918 | the zeros in front of the printed decimals say how large the number is |
| Rounding.ParseOfWritten | currscript.js:911-918 | reading back a printed decimal gives the printed multiple of 10^-f |
| Promotion.Files.Promote | currscript.js:110-197 | for every schedule of faults: the old tree or the new one is whole at destination or backup at every point; a normal return has the new tree and no backup of the old; rethrowing after a backup has the old tree back; rethrowing before one leaves it exactly when `Damaged` does not hold; when no call throws it returns, unless a backup is in the way |
| Promotion.DamageHappens | currscript.js:131-142 | fault schedules that satisfy `Damaged`, whatever the old tree |
| Promotion.Files.Attempt | currscript.js:128-142 | stages, backs up and promotes; says whether the old tree was backed up when a call threw |
| Promotion.Files.RollBack | currscript.js:144-183 | restores the old tree or reports that it could not, with the old tree at destination or backup either way; gives up without trying only when the destination cannot be cleared, and restores whenever no call throws |
| Promotion.Files.BestEffortRemoveDir | currscript.js:199-224 | true only when the directory is gone; gives up after the given number of transient failures or at a lasting one; touches nothing else |
| Promotion.Files.Move | currscript.js:121-121 | every state a move passes through, up to the point where it throws; it never overwrites |
| Promotion.MoveStaysSafe | currscript.js:131-141 | backing up, promoting and restoring keep a whole tree within reach at every point of the move |
| Poll.AwaitRelease | scripts/smoke-check-deploy.js:231-366 | bounded rounds, at least the given delay apart, none let in at or past the deadline; returns the first bundle that is all of the expected day or has a date of neither that day nor the day before, seen before the deadline, and throws when there is none; sleeps between inconclusive rounds only, never longer than asked |
| Poll.FetchOnce | scripts/smoke-check-deploy.js:246-292 | outside post-publish mode one round decides |
| Poll.MatchIsNotPending | scripts/smoke-check-deploy.js:321-341 | a fully published bundle is never taken for a pending one |
| LeaseScript.Verifier.Run | bootstrap/verify-ocr-loki-export.sh:405-542 | under any failures and any other actors that respect the lease: an exit other than 0 and 70 gave up the lease with sink and traffic as found and no proof subscription, or wrote nothing, and leaves the lease held exactly when its creation and every readback went unanswered; success gave it up with the candidate live, and every check, command and proof of the script was confirmed in its order; no shared write comes before the isolated proof or after an uncertain release; when every command and read does its work it succeeds from a free lease with sink and traffic as expected and nobody else moving, and exits 70 only if somebody took the lease before its absence was read |
| LeaseScript.Verifier.UnderLease | bootstrap/verify-ocr-loki-export.sh:420-542 | what runs between taking and releasing the lease: success needs every proof and ends with the lease given up, any failure leaves a state the rollback can restore; without faults and others it succeeds |
| LeaseScript.Verifier.Rollback | bootstrap/verify-ocr-loki-export.sh:389-411 | issues no command after an uncertain release, and otherwise restores what was found or reports that it could not; when every command and read does its work it gives up the lease with everything as found, and exits with the original status unless somebody took the lease before its absence was read |
| LeaseScript.Verifier.ReleaseLease | bootstrap/verify-ocr-loki-export.sh:285-321 | success means the lease is gone with the shared state untouched until then; failure means it is surely still ours, or uncertain; without faults the lease is given up |
| LeaseScript.Verifier.AcquireLease | bootstrap/verify-ocr-loki-export.sh:263-283 | success means the lease is ours, also when the creating command reported failure; a failed acquisition that created the lease all the same was seen by no answer |
| LeaseScript.Verifier.DisableSink | bootstrap/verify-ocr-loki-export.sh:371-387 | success means the sink is as it was found; writes only under the own lease; it succeeds without faults |
| LeaseScript.Verifier.RestoreTraffic | bootstrap/verify-ocr-loki-export.sh:346-369 | success means traffic is as it was found; writes only under the own lease; it succeeds without faults |
| LeaseScript.Verifier.CleanupProof | bootstrap/verify-ocr-loki-export.sh:323-344 | success means the proof subscription is absent; it succeeds without faults |

## Left out

- HTTP handling, envelopes, logging, telemetry, CBOR, X.509 and ECDSA; a request may fail such a check at any point.
- Floating-point rounding, NaN and infinities: rates are exact reals, and `toFixed` is taken on exact values.
- ScanSafety.SpendFence: a reservation is taken to outlive the request that minted it (80 seconds against a day); a transaction commits before its call returns or never, so a write that commits after its caller gave up is not modelled.
- ScanSafety.ResultsAreOwn: the stub provider without accepted references, and operation references the provider's own validation refuses, appear only as failures.
- SingleFlight.ReturnsAreHonest: a lifetime runs from the locked section that settles a call, which may come after its function returned.
- SpendStore.OperationIsWriteOnce: one transaction reads the clock once; the source reads it per document.
- RateCap.TwiceLimitIff: times before 1970, where the source's division truncates the other way.
- Promotion.Files.Promote: the existence test is truthful; the error codes that count as transient are one flag.
- LeaseScript.Verifier.Run: traffic tags, topology and delivery checks are reads that may fail; the lease does not expire during the run; a killed process runs no trap.
- Archive.SnapshotArchive.Publish: file names that are no calendar dates, and days in the first year of the calendar.
- Continuity.CurrenciesNeverShrink: every publish starts from the committed archive; a second attempt that starts from files a failed first attempt left in the working tree is not a step of the model.
- Baseline.ValidateBaseline: codes are lower case and not empty and source dates are calendar dates; a hand-edited archive with other spellings is not modelled.
- ScanStore.EveryRunHasShadow: lifetimes are chosen per reservation, where the source gives every reservation a day; ScanStore.ShadowMirrors holds of any lifetimes.
- PublishRun.PublishLatest: serialising an object, which may fail between two writes.
- Baseline.FindMissing: `localeCompare` is taken to order codes as their characters do.
- The minimum archive span, history coverage, rate-sanity and cross-source drift gates of the package validator: single comparisons.
- Deploy scripts, the worker, storage and network clients, and environment parsing.

# Verification of the offline market-data pipeline

A Dafny model of the pipeline that plans a historical-candle request, sends it through a budgeted retry loop to a
Zerodha broker (in process or over a Unix socket), publishes what came back as immutable artifacts, and validates and
converts the bars; with the ledger and batch executor that drive it. `dafny verify dfyconfig.toml` checks all of it.

## How it is laid out

| part | modules |
|---|---|
| text, dates, numbers | `Basics`, `Calendar`, `Decimals`, `Rounding`, `DecimalText`, `Base64`, `Utf8Rules`, `Vectors` |
| JSON dialect | `Json` (dicts, `sort_keys`), `JsonText` (`dumps`, `loads`), `JsonRules` |
| wire protocol | `Protocol`, `ProtocolRules`, `Names`, `Frames`, `Wire`, `WireRules`, `WireResponse`, `ResponseRules`, `WireSize`, `Transport`, `Server` |
| retry and budget | `RetryDelay`, `Retry`, `RetryLoop`, `RunRecords`, `RemoteRuns`, `Budget`, `BudgetRuns` |
| publication | `Bundles`, `Manifests`, `Evidence`, `Publication` (N publishers, crashes), `Leftovers`, `Storage` (one caller, imperative) |
| ledger | `Ledger`, `Batch`, `LedgerRuns` |
| undisturbed participants | `SoloRuns` |
| data | `Csv`, `CsvErrors`, `Bars`, `Candles`, `CandleRules`, `Validator`, `Converter` |
| composition | `Metadata`, `Planning`, `PlanChecks`, `Fingerprints`, `PlannedRuns`, `Adapter`, `AdapterStatus` |

Code that changes state is a class or a method with a loop, proved against a function of its inputs or old state; the
properties are lemmas about those functions. What several processes do at once is a step system in which every file
operation, SQL statement, socket action or broker call is one step, any process may crash between two steps, and the
lemmas quantify over every sequence of steps.

Modelling choices that hold throughout:

- A Python `str` is a sequence of code points, lone surrogates included. Time is whole microseconds; IST is +19800 s.
- SHA-256 is an arbitrary function to 64 hexadecimal digits (`Protocol.Sha256`); no result depends on which one, and
  none assumes it free of collisions. UUIDs and clock readings are parameters, and so are `str.upper` and `str.lower`.
- An exception is a constructor of a result datatype. Durations are exact microseconds.

## What the proofs found

- A value whose audit text holds a high surrogate right before a low one does not survive the wire: the pair arrives as
  one character. Everything else does (`WireResponse.RoundTripIff`).
- A typed error with a PROVIDER_* code cannot be put in a response by `_local_failure` (`Transport.LocalFailureIff`). Over
  the socket it becomes a closed connection and then MALFORMED_PROVIDER_RESPONSE, which ends the run unretried. A crash, a
  mismatched response and an oversized response also end the networked run at once. The networked run and the in-process
  run look the same exactly when every broker step taken is none of these (`RemoteRuns.NetworkedRunAgreesIff`).
- The exponent-63 shortcut equals capped doubling exactly when the cap is at most base * 2^63 or the base is zero
  (`RetryDelay.CappedDoublingIff`).
- A leftover lock file blocks its directory for ever: safe, but stuck (`Publication.LeftoverLockBlocks`). The
  docstring of `write_immutable_bundle` speaks of a non-overwriting rename; here the rename overwrites, and the lock
  and the existence check are what protect the target.
- `write_immutable_bundle` sets `lock_created` after it has closed the new lock file. An exception in between ends the publisher
  alive and leaves its lock, past which nothing is ever published (`Leftovers.FaultBeforeFlagLeavesLock`); without such a fault, a
  crash or a failed clean-up no publisher leaves anything (`Leftovers.NothingLeft`).
- A failed directory sync after the rename raises although the bundle is there (`Publication.SyncFailureAfterRename`).
- The slot is released before the worker leaves `_workers`, so `_workers` can exceed `max_connections` while slot
  holders cannot: it stays within the maximum exactly while the workers in between are no more than the free slots
  (`Server.WorkersWithinIff`, `Server.SlotsConserved`).
- A SUCCEEDED item always has a SUCCEEDED attempt unless a completer that will write another ending and a success completer
  are past their SELECT on one attempt together; from every such state a violation can be reached
  (`LedgerRuns.SucceededItemHasSucceededAttempt`, `LedgerRuns.ClashCanBreak`). Claimants alone never clash.
- Bars less than a second apart pass the parser and fail the validator (`Validator.ParsedVerdict`).
- Strikes that differ only beyond 28 significant digits share a fingerprint (`DecimalText.CanonicalEqualIff`,
  `DecimalText.LongStrikesCollide`).
- A positive price scales to zero exactly when price * 10000 is below what the context rounds to 1/2
  (`Converter.ScaledZeroIff`), and passes parser and validator but makes the conversion raise exactly when price * 10000 is
  10^28 - 1/2 or more (`Converter.ScaleSucceedsIff`).
- Three kinds of plan make planning raise something other than its own error, which leaves the adapter's `run`: a token of
  more than 4300 digits, a window that leaves the calendar in IST, and a strike the context overflows on
  (`Planning.EscapesIff`, `Adapter.AdapterReviewIff`).

## Model

| member | source | states |
|---|---|---|
| `Publication.TargetIsWhole` | dhan_lean/data/storage.py:342-395 | For any publishers, interleaving, faults and crashes, the target is what it was, or it was absent and is exactly the files and manifest of the one winner. |
| `Publication.TargetWriteOnce` | dhan_lean/data/storage.py:371-385 | Once the target exists no continuation of the run changes it, although the rename would overwrite. |
| `Publication.AnswersMeanMyBytes` | dhan_lean/providers/zerodha/artifacts.py:245-313 | A PUBLISHED or REUSED answer means the directory holds that caller's files and manifest; any two such answers carry the same manifest hash for the same bundle. |
| `Publication.AtMostOnePublishes` | dhan_lean/data/storage.py:371-396 | At most one publisher answers PUBLISHED, and only where nothing was before. |
| `Publication.LockRemovedByItsCreator` | dhan_lean/data/storage.py:371-395 | In every reachable state a step that changes the lock either creates it where there was none, or is its creator removing it. |
| `Publication.LeftoverLockBlocks` | dhan_lean/data/storage.py:371-380 | A lock left by an earlier crash is never removed and the target never changes past it. |
| `Publication.SyncFailureAfterRename` | dhan_lean/data/storage.py:384-395 | From any reachable state after the rename, a failing directory sync ends in an error with the complete bundle in place. |
| `SoloRuns.SoloPublishes` | dhan_lean/data/storage.py:342-396 | A publisher that finds neither target nor lock, undisturbed and without faults, publishes: the target is its bundle, lock and staging are gone, the answer is PUBLISHED with its manifest's hash. |
| `SoloRuns.SoloVerifies` | dhan_lean/providers/zerodha/artifacts.py:250-301 | A publisher that finds a target, undisturbed and without faults, answers REUSED with its manifest's hash if the target is exactly its bundle and refuses otherwise, changing nothing. |
| `SoloRuns.SoloLoses` | dhan_lean/data/storage.py:371-395 | A publisher that has staged its bundle and then finds a target, before or after taking the lock, cleans up and answers REUSED exactly for its own bundle; lock and target stay as they are. |
| `SoloRuns.SoloTimesOut` | dhan_lean/data/storage.py:372-380 | A publisher that waits out its deadline for somebody's lock, no target having appeared, refuses, cleans up and leaves the lock. |
| `Leftovers.NothingLeft` | dhan_lean/data/storage.py:386-395 | Without crashes, failed clean-up and a fault between the lock's creation and its flag, a publisher that has finished leaves neither lock nor staging directory. |
| `Leftovers.FaultBeforeFlagLeavesLock` | dhan_lean/data/storage.py:372-377 | From every reachable state in which a publisher has just created the lock, such a fault ends it with the lock still there; no continuation removes the lock or changes the target. |
| `Manifests.ManifestReads` | dhan_lean/data/storage.py:319-320 | The manifest's bytes, without the final newline, read back as an object whose one entry `files` maps exactly the names of the files (fused, as JSON keeps them) to each file's length and SHA-256, and no more. |
| `Manifests.EqualManifests` | dhan_lean/providers/zerodha/artifacts.py:245-247 | Equal manifests mean as many files, and the same names, lengths and hashes. |
| `Manifests.EqualManifestsIff` | dhan_lean/providers/zerodha/artifacts.py:245-247 | For names without surrogate pairs, manifests are equal exactly when the files agree in names, lengths and hashes, in whatever order they come. |
| `Bundles.ManifestIgnoresOrder` | dhan_lean/providers/zerodha/artifacts.py:245-247 | The writer's manifest builder and the verifier's, which order the same files differently, give the same bytes; what those bytes say is `Manifests.ManifestReads`. |
| `Evidence.BundlerGood` | dhan_lean/providers/zerodha/artifacts.py:192-220 | The evidence files of every attempt are files the publisher accepts: some, under different names, none of them the manifest's. |
| `Evidence.BundleHolds` | dhan_lean/providers/zerodha/artifacts.py:201-207 | The complete directory of an attempt with a response holds that response's body byte for byte, and both metadata files. |
| `Evidence.ResponseJsonSays` | dhan_lean/providers/zerodha/artifacts.py:207 | `response-metadata.json` reads back as the body's length and SHA-256 and the HTTP status, and no more. |
| `Evidence.AttemptJsonSays` | dhan_lean/providers/zerodha/artifacts.py:170-182 | `attempt-metadata.json` reads back, name by name, as the attempt's record and the response's capture time. |
| `Evidence.BodiesKept` | dhan_lean/providers/zerodha/artifacts.py:316-327 | Every body the broker delivered to a run that returned stands, byte for byte, in the complete directory of its attempt, with that attempt's record beside it. |
| `Storage.Parent.WriteImmutableBundle` | dhan_lean/data/storage.py:296-396 | For every pattern of failing stages the result is fixed, and the target becomes exactly this bundle if the rename is reached and otherwise stays; only the sync after the rename can fail with the bundle in place; staging is always gone and its own lock released. |
| `Storage.Parent.VerifyExisting` | dhan_lean/providers/zerodha/artifacts.py:250-276 | Raises nothing exactly when the directory is the bundle of these files, byte for byte; otherwise INCOMPLETE exactly without a manifest, MANIFEST_MISMATCH exactly for the right names under another manifest, and a collision exactly in the remaining cases, each in terms of names and bytes. |
| `Storage.Parent.PublishAttempt` | dhan_lean/providers/zerodha/artifacts.py:279-313 | A write-once register: the answer is fixed by the directory, the lock and the failing stages; success means my bundle and its manifest hash, REUSED exactly when it was there before; an existing directory is never changed and answers success only to its own bytes. |
| `Storage.Parent.PublishTwice` | dhan_lean/providers/zerodha/artifacts.py:279-313 | On a fresh directory a second publisher succeeds exactly when its bundle equals the first, with the same manifest hash. |
| `Budget.RequestBudget.Configure` | dhan_lean/data/request_budget.py:110-145 | Succeeds exactly for a named window whose row, if there is one, is sound with the same allowance; the row then holds that allowance and what was consumed, zero if new; every error leaves all rows alone. |
| `Budget.RequestBudget.Consume` | dhan_lean/data/request_budget.py:169-209 | Succeeds exactly for a positive amount that fits the allowance of a sound row, and adds it to that row's consumption alone; EXCEEDED exactly when it does not fit; otherwise nothing changes. |
| `Budget.RequestBudget.ReadSnapshot` | dhan_lean/data/request_budget.py:147-167 | Returns the stored row, or an error for a missing or unsound one. |
| `BudgetRuns.GuardAlwaysMatches` | dhan_lean/data/request_budget.py:193-199 | Under the write lock the guarded UPDATE always finds the row it read, so its rowcount error cannot occur. |
| `BudgetRuns.BudgetNeverOverspent` | dhan_lean/data/request_budget.py:169-209 | For any number of runners, interleaving and crashes: broker calls <= consumed <= allowance, and consumed minus calls is the number of runners stopped between admission and call. |
| `BudgetRuns.ConsumptionOnlyGrows` | dhan_lean/data/request_budget.py:110-209 | Over any continuation of a run consumed and calls never decrease, and an allowance never changes or disappears. |
| `SoloRuns.SoloAdmission` | dhan_lean/data/request_budget.py:169-209 | An undisturbed runner with allowance left is charged one unit and calls the broker once; without, it stops uncharged; either way the write lock is free. |
| `BudgetRuns.OtherWindowsUntouched` | dhan_lean/data/request_budget.py:118-199 | A step for one window leaves the row and the calls of every other window as they were. |
| `RetryDelay.CappedDoublingIff` | dhan_lean/providers/zerodha/retry.py:174-185 | The computed delay equals min(cap, base * 2^(n-1)) for every n if and only if base is zero or cap <= base * 2^63. |
| `RetryDelay.ExponentialMonotone` | dhan_lean/providers/zerodha/retry.py:174-185 | The exponential part grows with n and stays between base and cap. |
| `RetryDelay.DelayBounds` | dhan_lean/providers/zerodha/retry.py:160-190 | A delay lies between the exponential part and max(cap + jitter_max, maximum_retry_after), honours a capped Retry-After, and is the exponential part when there is no jitter and no Retry-After. |
| `RetryDelay.ExponentialIs` | dhan_lean/providers/zerodha/retry.py:174-185 | Up to attempt 63 the exponential part is min(cap, base * 2^(n-1)), from 64 on the cap, and always 0 for a base of 0. |
| `RetryDelay.DelayIs` | dhan_lean/providers/zerodha/retry.py:153-190 | A delay exists exactly for a positive attempt and a jitter within its bound, and is the least time that covers both the exponential part with its jitter and the capped Retry-After. |
| `Retry.AllowlistMatchesPolicy` | dhan_lean/providers/zerodha/retry.py:23-34 | The import-time guard never fires; the retryable codes are the six on the list, those that ask for reauthentication the five session codes and 403, and none is both. |
| `RunRecords.RunRecords` | dhan_lean/providers/zerodha/retry.py:298-349 | A run that returns called the broker once for each observed record; each record and observed response is what that call gave; every call but the last was answered with an approved code and recommends exactly the delay of that answer's Retry-After; the outcome is what the last answer says, or the budget refused the next call. |
| `RunRecords.RaisedForCause` | dhan_lean/providers/zerodha/retry.py:298-336 | A run that raises does so at one of its attempts, for a cause of that very kind. |
| `Retry.RunIsGood` | dhan_lean/providers/zerodha/retry.py:294-349 | Every run that returns has numbers 1..k with k <= maximum, distinct ids, retry-permitted records before the last, flags explained by the last record and mutually exclusive, units equal to charged records, and an observer that saw each charged record; no run falls off the loop or has its result rejected. |
| `Retry.TotalDelayBounded` | dhan_lean/providers/zerodha/retry.py:298-349 | The recommended delays of a run add up to at most (maximum - 1) times the single-delay limit. |
| `RetryLoop.RunPlannedRequest` | dhan_lean/providers/zerodha/retry.py:280-349 | The loop over its mutable history and a real budget object computes `Retry.Run`, and charges its own row once per call and nothing else. |
| `RemoteRuns.ViewPreservedIff` | dhan_lean/providers/zerodha/unix_transport.py:136-170 | What the retry loop sees of a broker step is the same through client and server exactly when the step is faithful: a matching response that fits (or already carries MALFORMED_PROVIDER_RESPONSE) or a typed error outside the PROVIDER_* codes. |
| `RemoteRuns.NetworkedRunAgrees` | dhan_lean/providers/zerodha/unix_transport.py:380-411 | If every broker step the in-process run takes is faithful, the networked run has the same attempts, codes, decisions, delays, flags, outcome and budget use, whatever the observer does. |
| `RemoteRuns.NetworkedRunAgreesIff` | dhan_lean/providers/zerodha/retry.py:298-349 | With an observer that accepts, as the adapter's does, the two runs look the same if and only if every broker step the in-process run takes is faithful. |
| `RemoteRuns.UnfaithfulStepEnds` | dhan_lean/providers/zerodha/unix_transport.py:390-400 | Under every policy an unfaithful first step ends the networked run there, with the code stated for its kind, and the two runs differ. |
| `RemoteRuns.ProviderErrorDiverges` | dhan_lean/providers/zerodha/broker_protocol.py:301-302 | Whatever the PROVIDER_* code and the policy, raising it first is recorded in process under its own code and ends the networked run as a malformed response. |
| `ProtocolRules.RequestAcceptedIff` | dhan_lean/providers/zerodha/broker_protocol.py:185-206 | A request can be made exactly for version 1, a canonical id, a positive token of at most 4300 digits, one-minute candles that are not continuous, and whole seconds of one IST date in order. |
| `ProtocolRules.RequestRefusedFor` | dhan_lean/providers/zerodha/broker_protocol.py:185-206 | Each refusal names what is wrong with the request. |
| `ProtocolRules.ResponseAcceptedIff` | dhan_lean/providers/zerodha/broker_protocol.py:262-325 | A response can be made exactly with its own whole body of at most 16 MiB, a UTC capture time, a status if and only if the provider answered, the code of that status, a Retry-After of up to an hour with 429 or 5xx only, a fitting session state and the three audit keys. |
| `ProtocolRules.ResponseRefusedFor` | dhan_lean/providers/zerodha/broker_protocol.py:262-325 | Refused for the version exactly when it is not 1, as oversized exactly when the ids are fine and the body too long or truncated, otherwise as malformed. |
| `Protocol.MakeRequestValid` | dhan_lean/providers/zerodha/broker_protocol.py:185-206 | The request constructor, which refuses tokens of more than 4300 digits with `int`'s own error, yields exactly the valid requests, keeps the instants it is given, and changes nothing when applied again. |
| `Protocol.Success2xxHasNoCode` | dhan_lean/providers/zerodha/broker_protocol.py:305-317 | A valid 2xx response has no error code and the PROVIDER_RESPONSE transport status. |
| `Json.SortIgnoresInsertionOrder` | dhan_lean/providers/zerodha/broker_protocol.py:348-350 | `sort_keys` gives the same result for two dicts exactly when they have the same entries, in whatever order they were filled. |
| `JsonText.LoadsDumps` | dhan_lean/providers/zerodha/broker_protocol.py:348-381 | What `dumps` prints is read back by the strict reader as the same value, sorted, with surrogate pairs fused. |
| `JsonText.DumpsInjective` | dhan_lean/providers/zerodha/planning.py:238-243 | Two values have the same text if and only if they agree up to dict order and fused surrogates. |
| `JsonText.JoinIdentity` | dhan_lean/providers/zerodha/broker_protocol.py:365-381 | A text survives printing and reading if and only if no high surrogate stands right before a low one. |
| `JsonRules.LoadsNoRepeats` | dhan_lean/providers/zerodha/broker_protocol.py:375-381 | Whatever text is read, no object in the result has a key twice. |
| `Utf8Rules.Utf8Iff` | dhan_lean/providers/zerodha/broker_protocol.py:365 | Bytes decode to a text exactly when they are its RFC 3629 encoding and it holds no surrogate. |
| `Base64.DecodeEncode` | dhan_lean/providers/zerodha/broker_protocol.py:401-421 | Strict base64 decoding undoes encoding for every body. |
| `Calendar.DateOfDayNumber` | dhan_lean/providers/zerodha/broker_protocol.py:201-204 | Proleptic Gregorian dates and day numbers are in bijection. |
| `Calendar.NumbersFollowDates` | dhan_lean/providers/zerodha/planning.py:188-189 | Day numbers follow the calendar's order of dates. |
| `Calendar.IsoFormatSays` | dhan_lean/providers/zerodha/broker_protocol.py:214-217 | `isoformat` prints date, time of day, microseconds if any, and offset, each field in its place. |
| `Calendar.ParseIsoFormat` | dhan_lean/providers/zerodha/broker_protocol.py:214-227 | `fromisoformat` undoes `isoformat` for every aware datetime with a whole-minute offset. |
| `WireRules.FrameIff` | dhan_lean/providers/zerodha/broker_protocol.py:358-372 | A frame decodes exactly when it is the four-byte length of what follows, from one byte to the maximum, and that is UTF-8 JSON of one object. |
| `Frames.DecodeEncodeFrame` | dhan_lean/providers/zerodha/broker_protocol.py:348-381 | A frame that fits decodes to the dict it was made from. |
| `Frames.ReceiveFrame` | dhan_lean/providers/zerodha/unix_transport.py:97-102 | From a stream that starts with a frame exactly that frame is taken, whatever follows it. |
| `Frames.ReceiveIff` | dhan_lean/providers/zerodha/unix_transport.py:97-102 | What is received is exactly a leading frame of an allowed length; the length is refused exactly when its four bytes say nothing or too much. |
| `Frames.Connection.ReadExact` | dhan_lean/providers/zerodha/unix_transport.py:85-94 | However the stream is cut into non-empty chunks, exactly `size` bytes are taken; when there are fewer, the read fails by how the stream ends: closed, silent until the timeout, or reset. |
| `Frames.Connection.ReceiveFrame` | dhan_lean/providers/zerodha/unix_transport.py:97-102 | The chunked reader takes the frame the byte stream starts with, and no byte past it. |
| `Wire.DecodeEncodeRequest` | dhan_lean/providers/zerodha/broker_protocol.py:384-389 | A valid request that fits decodes to itself. |
| `WireRules.DecodeRequestIff` | dhan_lean/providers/zerodha/broker_protocol.py:221-230 | A frame decodes to a request exactly when its object has the eight names and no other, each with that request's value, and the request is valid. |
| `ResponseRules.DecodeResponseIff` | dhan_lean/providers/zerodha/broker_protocol.py:415-430 | A frame decodes to a response exactly when its object has the fourteen names and no other, each with that response's value, and the response exists. |
| `WireResponse.DecodeEncodeResponse` | dhan_lean/providers/zerodha/broker_protocol.py:392-430 | A valid response that fits decodes to itself with the audit texts' surrogate pairs fused. |
| `WireResponse.RoundTripIff` | dhan_lean/providers/zerodha/broker_protocol.py:392-430 | A valid response that fits decodes to itself if and only if no audit text holds such a pair. |
| `WireSize.ResponseFits` | dhan_lean/providers/zerodha/broker_protocol.py:392-412 | Every valid response whose audit metadata prints to at most 2 MiB fits the 24 MiB frame. |
| `WireSize.RequestFits` | dhan_lean/providers/zerodha/broker_protocol.py:384-385 | Every valid request fits the 16 KiB frame. |
| `Transport.ServeOne` | dhan_lean/providers/zerodha/unix_transport.py:380-411 | The worker calls the broker at most once, for the request its input frame decodes to, and sends exactly the reply that follows, or a first part of it if the send fails. |
| `Transport.FetchCandles` | dhan_lean/providers/zerodha/unix_transport.py:136-170 | The client's answer for every way of connecting (refused and timed out included), of sending (whole, timed out, broken) and of the stream ending, and exactly what it has sent. |
| `Transport.CallOutcomes` | dhan_lean/providers/zerodha/unix_transport.py:136-170 | Unavailable exactly when the socket refuses; a timeout exactly when connecting or sending times out or silence comes before a whole frame; a response exactly when the stream starts with a frame that decodes to one for this request; otherwise malformed. |
| `Transport.BrokenOffReply` | dhan_lean/providers/zerodha/unix_transport.py:153-159 | A reply that breaks off anywhere is never taken for an answer: a timeout if the link falls silent, a malformed response if it closes or resets. |
| `Transport.LocalFailureIff` | dhan_lean/providers/zerodha/unix_transport.py:407-411 | A local failure can be built exactly for the codes outside PROVIDER_*, and is then a valid response to that request with that code, a broker failure with a ready session and an empty body. |
| `Transport.RemoteExact` | dhan_lean/providers/zerodha/unix_transport.py:136-170 | Client and server composed: the broker sees the very request; a matching response that fits arrives with fused audit texts, a mismatched one and an unexpected exception as INTERNAL_BROKER_FAILURE, a typed error as a response with its code, and a PROVIDER_* error or an oversized response as MALFORMED_PROVIDER_RESPONSE. |
| `Server.SlotsConserved` | dhan_lean/providers/zerodha/unix_transport.py:239-257 | Over every interleaving, worker exception and stop: free slots plus holders equal max_connections, in-flight calls never exceed it, and a release never overflows the semaphore. |
| `Server.OneCallPerConnection` | dhan_lean/providers/zerodha/unix_transport.py:380-405 | Each connection causes at most one broker call, for its own request, and none if its frame is malformed. |
| `Server.WorkersWithinIff` | dhan_lean/providers/zerodha/unix_transport.py:239-257 | In every reachable state `_workers` is within the maximum exactly while the workers that have released their slot and not yet left are no more than the free slots and the one the accept loop may hold; it never exceeds the maximum by more than them. |
| `Server.StoppedStartsNothing` | dhan_lean/providers/zerodha/unix_transport.py:239-257 | Once stopped, with no connection between its slot and its worker, no further worker starts. |
| `SoloRuns.SoloConnection` | dhan_lean/providers/zerodha/unix_transport.py:239-405 | An undisturbed connection accepted while a slot is free has its request put to the broker once, comes to its reply, and gives its slot back; a worker whose call raises does so unanswered. |
| `SoloRuns.SoloMalformed` | dhan_lean/providers/zerodha/unix_transport.py:380-405 | A connection whose bytes are no request, or break off, is closed without a call, its slot given back. |
| `Server.WorkersCanExceedSlots` | dhan_lean/providers/zerodha/unix_transport.py:401-405 | A concrete schedule in which `_workers` holds two workers with one slot. |
| `Ledger.StateLedger.RegisterWorkItem` | dhan_lean/data/ledger.py:22-33 | Creates a PLANNED item once; the same metadata matches and different metadata is refused, both changing nothing. |
| `Ledger.StateLedger.ClaimWorkItem` | dhan_lean/data/ledger.py:42-53 | Grants exactly a PLANNED item, making it CLAIMED and adding one fresh attempt, number 1, in progress; otherwise reports the state it is in and changes nothing. |
| `Ledger.StateLedger.Complete` | dhan_lean/data/ledger.py:54-64 | Completes exactly a claimed attempt, writing the ending's state to it and SUCCEEDED or REVIEW_REQUIRED to its item; otherwise changes nothing. |
| `Ledger.AttemptCount` | dhan_lean/data/ledger.py:42-53 | A key has one attempt exactly when its item has left PLANNED, and none otherwise. |
| `Batch.ExecuteSingle` | dhan_lean/data/executor.py:17-44 | On a granted claim ingests exactly once: reported success is SUCCEEDED for answer, item and attempt; reported failure and an exception are FAILED, REVIEW_REQUIRED and FAILED; an interrupt is INTERRUPTED, REVIEW_REQUIRED and INTERRUPTED. A blocked key changes nothing and calls nothing. |
| `Batch.ExecuteBatch` | dhan_lean/data/coordinator.py:21-31 | Answers a prefix of the keys in order, each granted one told by its own ingestion as for a single item; stops at the first failure if asked, touches no other item, ingests exactly the granted keys in order; each counter is the number of results with its status, and they add up. |
| `LedgerRuns.OneAttemptOneIngest` | dhan_lean/data/ledger.py:22-64 | At statement granularity with crashes, over all processes: one attempt per key that left PLANNED, none before, and at most one ingest per key. |
| `SoloRuns.SoloItem` | dhan_lean/data/executor.py:17-44 | An undisturbed process ingests a planned item once and leaves it and its one attempt as the ingestion ended. |
| `LedgerRuns.ClaimedItemLoads` | dhan_lean/data/executor.py:21-25 | A claimed item can always be loaded, so the lost-item branch never runs. |
| `LedgerRuns.SucceededItemHasSucceededAttempt` | dhan_lean/data/ledger.py:54-64 | In every run in which no success and other ending of one attempt ever clash, a SUCCEEDED item has a SUCCEEDED attempt at every moment, crashes between the two updates and foreign completions included. |
| `LedgerRuns.ClashCanBreak` | dhan_lean/data/ledger.py:57-59 | From every reachable clash some continuation ends with the item SUCCEEDED and its attempt not. |
| `LedgerRuns.ClaimantsNeverClash` | dhan_lean/data/executor.py:17-44 | If only claimants complete attempts, no clash ever arises. |
| `LedgerRuns.ForeignCompletionBreaksIt` | dhan_lean/data/ledger.py:54-64 | A clash is reachable from an empty ledger with one foreign completer, and ends with a SUCCEEDED item over a FAILED attempt. |
| `Csv.ValidateCsvQuoting` | dhan_lean/providers/zerodha/instruments.py:19-60 | The scanner loop accepts exactly what the field-by-field reading of the text accepts, and reports its first error. |
| `Csv.AcceptsIffGrammatical` | dhan_lean/providers/zerodha/instruments.py:19-60 | A text is accepted if and only if it is field *(separator field), and the decomposition is unique. |
| `CsvErrors.ErrorsLocated` | dhan_lean/providers/zerodha/instruments.py:19-60 | A character after a closing quote, or an embedded quote, is exactly what stands behind a document of the grammar ending with a quoted, or a non-empty plain, field; a text is unterminated exactly when it is refused and one more quote makes it acceptable. |
| `Csv.SplitRender` | dhan_lean/providers/zerodha/instruments.py:19-60 | Every valid document, rendered, splits back to itself. |
| `Csv.QuotingIsAccepted` | dhan_lean/providers/zerodha/instruments.py:19-60 | Quoting the fields of any list gives accepted text that splits back to the list. |
| `CandleRules.ParseHistoricalCandles` | dhan_lean/providers/zerodha/historical.py:81-142 | The whole parser, envelope and row loop; it returns bars exactly for the responses of `ParsesIff`. |
| `CandleRules.ParsesIff` | dhan_lean/providers/zerodha/historical.py:81-142 | A response parses exactly when it is an object with status "success" and a row list that is empty or, for a symbol that is not blank, has rows of all 6 or all 7 cells, each with an aware instant in the calendar, finite positive ordered prices, a whole volume of zero or more and, in column 6, a finite number; instants strictly increasing. |
| `CandleRules.EscapesIff` | dhan_lean/providers/zerodha/historical.py:69-140 | What leaves the parser as something other than its own error: exactly the decoder's exceptions, a blank symbol with a good first row, and a first refused row whose timestamp has no date in IST. |
| `CandleRules.RowFaultMeans` | dhan_lean/providers/zerodha/historical.py:107-140 | Each fault of a row says what is wrong with its cells. |
| `Candles.ParseCandles` | dhan_lean/providers/zerodha/historical.py:103-142 | The row loop, with `row_length`, `previous` and growing lists, computes the parse of the row list, which `CandleRules.ParsesIff` and `RowFaultMeans` characterise. |
| `Candles.RefusedForFirstFault` | dhan_lean/providers/zerodha/historical.py:107-140 | A response is refused for its first faulty row, with that row's first fault. |
| `Candles.ParsedColumns` | dhan_lean/providers/zerodha/historical.py:120-140 | Each bar is what its row says: the instant, the four prices column by column, the volume as a number, the open interest. |
| `Candles.ParsedBars` | dhan_lean/providers/zerodha/historical.py:107-142 | Parsed bars are one per row, in IST, well priced, and strictly increasing in time. |
| `Validator.ValidateNormalizedBars` | dhan_lean/data/validator.py:10-71 | Every counter is the number of bars or neighbouring pairs it names, the distribution included, and the verdict is acceptance as `AcceptedIff` states it. |
| `Validator.AcceptedIff` | dhan_lean/data/validator.py:41-70 | There is no error code exactly for a non-empty list of well-priced bars, each at least one second after the one before. |
| `Validator.CodeExact` | dhan_lean/data/validator.py:41-67 | The error code names the first of the seven reasons that is so, each said on the elements. |
| `Validator.ParsedVerdict` | dhan_lean/data/validator.py:33-70 | On parsed bars: accepted iff non-empty with gaps of at least a second; the only other codes are EMPTY_BARS and NON_MONOTONIC_TIMESTAMPS. |
| `Decimals.OrderAt` | dhan_lean/data/validator.py:28-32 | Comparison of decimals can be read off at any exponent below both. |
| `Rounding.RoundedNearest` | dhan_lean/data/converter.py:26 | The context keeps up to 28 digits as they are and otherwise the nearest 28, a tie going to the even one. |
| `Rounding.RoundedMonotone` | dhan_lean/data/converter.py:26 | Rounding to the context's 28 digits keeps the order of positive numbers, whatever their exponents. |
| `Rounding.FixedExact` | dhan_lean/providers/zerodha/planning.py:136 | Numbers of at most 28 digits in the context's exponent range are kept as they are. |
| `Rounding.OverflowIff` | dhan_lean/providers/zerodha/planning.py:136 | `normalize` raises Overflow exactly from the first number that rounds up to 10^1000000 on. |
| `Rounding.RoundedReaches` | dhan_lean/data/converter.py:26 | A number half a unit or less below an even 28-digit multiple, or above it, rounds to that multiple or more. |
| `Rounding.RoundedStays` | dhan_lean/data/converter.py:26 | A number more than half a unit below a 28-digit multiple rounds to less than it. |
| `Converter.ScaleMonotone` | dhan_lean/data/converter.py:23-26 | Scaling keeps the order of prices of any size and precision, and a price that can be scaled bounds every smaller one. |
| `Converter.ScaleWithinHalf` | dhan_lean/data/converter.py:23-26 | A scaled price is the whole number nearest the context's product, a tie going up; up to 24 digits that is the exact price * 10000. |
| `Converter.ScaleExact` | dhan_lean/data/converter.py:23-26 | With an exponent of -4 or more, or no non-zero digit beyond the fourth decimal, and at most 24 digits, it is price * 10000. |
| `Converter.ScaleSucceedsIff` | dhan_lean/data/converter.py:26 | A positive price can be scaled if and only if price * 10000 < 10^28 - 1/2. |
| `Converter.ScaledZeroIff` | dhan_lean/data/converter.py:26 | A positive price scales to zero if and only if price * 10000 < 1/2 - 5 * 10^-29, equally if the context's product is below 1/2; up to 24 digits, if price * 10000 < 1/2. |
| `Converter.ScaleExtremes` | dhan_lean/data/converter.py:26 | Both happen: 0.00004 scales to zero, 10^24 cannot be scaled. |
| `Converter.BuildRows` | dhan_lean/data/converter.py:49-61 | The row loop yields a row per bar, or the first bar that stops it; the price check of `_scale` never fires on validated bars. |
| `Converter.ConvertRows` | dhan_lean/data/converter.py:45-61 | Succeeds exactly for an accepted list whose bars all match symbol and session and whose prices * 10000 are below 10^28 - 1/2; the first bar that does not is named with its reason; the rows then tell their bars, increase in milliseconds within [0, 86400000), and keep low <= open, close <= high. |
| `Converter.RowsAreLean` | dhan_lean/data/converter.py:49-61 | Order and price relations of the rows of accepted bars. |
| `DecimalText.ReadCanonical` | dhan_lean/providers/zerodha/planning.py:131-137 | The canonical text reads back as the number the context keeps: 28 significant digits within its exponent range. |
| `DecimalText.CanonicalShape` | dhan_lean/providers/zerodha/planning.py:131-137 | The text is plain: an optional minus and digits without needless zeros, never an exponent. |
| `DecimalText.CanonicalEqualIff` | dhan_lean/providers/zerodha/planning.py:131-137 | Two strikes print alike if and only if the context keeps the same number of them (and the same sign, should it keep only zero). |
| `DecimalText.KeptStrikes` | dhan_lean/providers/zerodha/planning.py:131-137 | Strikes of up to 28 digits in the context's range always print, read back as themselves, and print alike exactly when numerically equal. |
| `DecimalText.LongStrikesCollide` | dhan_lean/providers/zerodha/planning.py:136-137 | Two different strikes of 29 digits with the same text. |
| `Metadata.SameBytesIff` | dhan_lean/providers/zerodha/planning.py:216-243 | Two metadata dicts filled in any order serialise alike exactly when every field agrees once surrogates are fused. |
| `Planning.CanonicalIdGood` | dhan_lean/providers/zerodha/planning.py:117-122 | The canonical id exists exactly for positive numbers of at most 4300 digits, `int` raises exactly for longer digit strings, and the id is a valid token for the same number and its own canonical id. |
| `PlanChecks.IdentityAcceptedIff` | dhan_lean/providers/zerodha/planning.py:146-193 | The identity passes exactly for a one-minute Zerodha item whose names are its instrument's, spelled as the exchange does, with a positive token of at most 4300 digits, expiry and strike as its type has them, a session not after expiry, and a SHA-256 for its snapshot. |
| `PlanChecks.IdentityRefusedFor` | dhan_lean/providers/zerodha/planning.py:146-193 | Each refusal names what is wrong with the identity. |
| `PlanChecks.StripIs` | dhan_lean/providers/zerodha/planning.py:162-172 | `strip` takes away exactly the white space at both ends. |
| `PlanChecks.WindowRefusedFor` | dhan_lean/providers/zerodha/planning.py:196-213 | Each refusal of a window says what is wrong with it in IST; a well-formed window is never out of order. |
| `Planning.WindowAcceptedIff` | dhan_lean/providers/zerodha/planning.py:196-213 | A window is accepted exactly when it is whole minutes of the item's session between 09:15 and 15:30 IST, and its instants are kept. |
| `Fingerprints.FingerprintSays` | dhan_lean/providers/zerodha/planning.py:216-243 | The fingerprint is the SHA-256 of bytes that read back as exactly the seventeen named entries with this plan's values. |
| `Planning.FingerprintsAgreeIff` | dhan_lean/providers/zerodha/planning.py:216-243 | The hashed bytes of two plans are equal if and only if the plans denote the same token number, names, type, expiry, strike as the context keeps it, snapshot, instants and flag. |
| `Planning.SameRequestSameFingerprint` | dhan_lean/providers/zerodha/planning.py:238-260 | Plans that denote the same request are planned under the same fingerprint and instrument id. |
| `Planning.EscapesIff` | dhan_lean/providers/zerodha/planning.py:117-143 | Planning raises something other than ZerodhaPlanningError exactly for a token of more than 4300 digits, a window outside the calendar in IST, or a strike that the context rounds to 10^1000000 or more. |
| `Planning.OffsetsDoNotMatter` | dhan_lean/providers/zerodha/planning.py:196-260 | Windows written in other offsets plan alike, fingerprint included. |
| `Planning.PlannedFailsOnlyOnId` | dhan_lean/providers/zerodha/planning.py:246-260 | A plan that passes the identity and window checks, its strike in range, succeeds exactly with a canonical request id; what it then asks for is `PlannedRequestSays`. |
| `Planning.PlannedRequestSays` | dhan_lean/providers/zerodha/planning.py:246-260 | Every planned request asks from the instant of the item's start to that of its end, for the instrument's token number without leading zeros, at one minute, not continuous, with the plan's open-interest flag, under the id that was drawn. |
| `Planning.RetryRebuilds` | dhan_lean/providers/zerodha/retry.py:303-309 | Rebuilding the planned request under any canonical id succeeds with the same token, window and flags. |
| `PlannedRuns.RebuiltRequestSays` | dhan_lean/providers/zerodha/retry.py:303-304 | Every request rebuilt from a planned one asks for exactly the plan, under the retry's id. |
| `PlannedRuns.EveryCallSaysPlan` | dhan_lean/providers/zerodha/retry.py:298-320 | Every broker call of a run, retries included, asks for exactly the plan under that attempt's id. |
| `PlannedRuns.RunAsksOnlyForPlan` | dhan_lean/providers/zerodha/retry.py:298-320 | A run depends on the broker only through its answers to requests for exactly the plan. |
| `Planning.PlannedRunsBuild` | dhan_lean/providers/zerodha/retry.py:304-309 | No run of a planned request ever fails for want of a broker request. |
| `Adapter.PublishOne` | dhan_lean/providers/zerodha/artifacts.py:279-313 | One attempt on its own directory: the input checks come first and touch nothing; a result means the directory is that attempt's complete bundle. |
| `Adapter.PublishBudgetedResult` | dhan_lean/providers/zerodha/artifacts.py:316-327 | Over the attempts' directories: the publications in order or the first error; a result means every directory is its attempt's complete bundle and every publication carries that bundle's manifest hash; no directory ever holds anything but what it held or its own bundle. |
| `Adapter.EvidenceAlwaysPasses` | dhan_lean/providers/zerodha/artifacts.py:228-242 | What a run records always passes the publisher's input and evidence checks; only storage, or a parser exception that is no parse error, can fail. |
| `AdapterStatus.EvidenceIff` | dhan_lean/providers/zerodha/artifacts.py:228-242 | Evidence is accepted exactly when record and response agree field by field and the body has the length and hash it claims. |
| `AdapterStatus.PublishIff` | dhan_lean/providers/zerodha/artifacts.py:279-313 | One attempt is published exactly when it is this plan's with a positive number and sound evidence, storage keeps it, and a 2xx body does not escape the parser. |
| `AdapterStatus.PublicationsAre` | dhan_lean/providers/zerodha/artifacts.py:316-327 | Publication of a run fails exactly when storage refuses an attempt or the final body escapes the parser; otherwise each publication says its attempt's parser and validation outcome, and only the final 2xx body is parsed. |
| `AdapterStatus.StatusIs` | dhan_lean/providers/zerodha/adapter.py:159-224 | Every final status exactly: local failure, publication failure, budget, retry limit, reauthentication and provider failure from the run's last record; malformed, empty, invalid and SUCCESS from the parse of the final body, with exactly its bars. |
| `AdapterStatus.RunStatusIs` | dhan_lean/providers/zerodha/adapter.py:137-161 | Resolution failure, planning failure and missing dependency exactly; everything else is the run's status. |
| `Adapter.ReviewIff` | dhan_lean/providers/zerodha/adapter.py:191-224 | The review flag is set exactly for MALFORMED_PROVIDER_RESPONSE, EMPTY_RESPONSE and VALIDATION_FAILURE; no result is rejected by its constructor; a succeeded run never lacks its response; no exception leaves the adapter after planning. When each status is given is `AdapterStatus.StatusIs`. |
| `Adapter.SuccessCarriesValidBars` | dhan_lean/providers/zerodha/adapter.py:212-224 | SUCCESS carries exactly the bars parsed from the body of the run's final response; they are non-empty, well priced and at least a second apart. |
| `Adapter.AdapterReviewIff` | dhan_lean/providers/zerodha/adapter.py:137-224 | The same from resolution on, with the statuses of `AdapterStatus.RunStatusIs`; an exception leaves `run` exactly for the plans of `Planning.EscapesIff`. |

## Left out

- RetryDelay.CappedDoublingIff: exact microseconds; the source divides `total_seconds()` as floats, which can round near the cap.
- Validator.ValidateNormalizedBars: whole seconds of a gap are exact; the float of a gap of centuries can round up to the next second, in the distribution only.
- JsonText.LoadsDumps: the value shapes the protocol uses; arrays and fractional numbers, recursion and digit limits of the reader, and `allow_nan` are not modelled. Response bodies are decoded by a parameter.
- Calendar.ParseIsoFormat: the form `isoformat` prints; other ISO forms that `fromisoformat` reads, and offsets with seconds, are refused here. The candle parser takes any reading of a timestamp as a parameter instead.
- Historical offsets of Asia/Kolkata before 1945: fixed +19800 s.
- WireResponse.DecodeEncodeResponse: the `Z` suffix of `captured_at` is undone by the decoder directly; a falsy `truncated` that is no bool, and enum members given as plain strings, are taken in normalised form.
- Server.SlotsConserved: `stop()`'s join deadline and the closing of live connections appear only as faults of a worker.
- Transport.RemoteExact: client and server over a link that neither fails nor times out; `Transport.FetchCandles` and `Transport.ServeOne` have the faults, one end at a time.
- Storage.Parent.PublishAttempt: the attempt's path, the run id and the metadata-key checks come before it and are not modelled. The lock's own unlink succeeds here; `Publication` has it fail.
- Adapter.PublishBudgetedResult: proved for any function from record and response to files; the attempts' directories are distinct objects, as their names with distinct request ids are.
- Evidence.BundleHolds: the contents of `request-metadata.json`, `parse-result.json` and `validation-result.json` are left open; the last holds an array, which the JSON dialect here does not have.
- LoaderRaises in `Candles`: which bodies make `json.loads` raise a plain ValueError or RecursionError is part of the decoding parameter.
- Publication.TargetIsWhole: fsync, permissions and credential screening are not modelled; a read sees what was last written.
- Ledger.StateLedger.RegisterWorkItem: one caller at a time here; `LedgerRuns` has the concurrent view. Lease times, owners and error summaries are carried or dropped, never interpreted. SQLite itself is atomic statements and transactions.
- Batch.ExecuteBatch: the delay between items has no effect on state and is omitted.
- Csv.ValidateCsvQuoting: the CSV reader that runs after it, the snapshot parser's field checks and `resolve_instrument` are not modelled; the adapter takes the outcome of resolution as given.
- Converter.ConvertRows: the text of the rows, the ZIP member and the `os.link` publication are not modelled.
- Planning.FingerprintsAgreeIff: about the bytes that are hashed; equal bytes give equal fingerprints, and the converse would need a collision-free hash.
- Planning.PlanHistoricalCandles: dynamic type checks (`isinstance`) are types here.
- broker_service.py, fake_broker.py, planner.py, window.py, patches/lean/Market.cs, Docker and configuration: processes, fixtures and finite branching that would add only easy members.
- Stale-socket probing and path validation in unix_transport.py: decided by the kernel, not by this code.

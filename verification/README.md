# A verified model of the NeuroLink control plane

NeuroLink lets a core program drive small devices. This project models the parts of it whose
correctness is not visible in any single function, and proves what they keep over all inputs and
all runs.

* **The wire** (`Utf8`, `Cbor*`, `Registry`, `Routes`, `RouteMeaning`, `Protocol`, `EndToEnd`,
  `DeviceProtocol`). The CBOR codec of the command line client, the renaming of fields to integer
  keys, and the routes that decide a message's kind. Values are numbers, booleans, texts, lists and
  insertion-ordered dicts. `CborCodec` holds the encoder and decoder with their loops; they are
  proved against the functions of `Cbor`, about which round trip, prefix freedom, truncation,
  normal form and deterministic order are proved. `CborBytes` says what stands on the wire byte for
  byte, and `DeviceProtocol` what a device finds in each request.
* **Deployment** (`Replies`, `ReplyMeaning`, `Deploy`, `DeploySafety`, `DeployAnswers`,
  `Deployment`). The prepare, activate and rollback workflows as step machines over an arbitrary
  device: what a command or tool answers is a function of everything issued before it. Traces, the
  failure that is reported, and the balance of leases are proved for every device and any number of
  runs.
* **Approval** (`Approval`, `ApprovalMeaning`, `ApprovalCore`, `ApprovalSafety`). The policy, the
  gate that stops a planned tool, and the decision that may resume it, over every interleaving of
  runs and decisions.
* **Event ingress** (`Events`, `EventOrder`, `EventRouter`, `EventStore`, `Restart`, `Service`,
  `ServiceSafety`, `ServiceAnswers`, `Daemon`, `DaemonSafety`, `DaemonAnswers`, `DaemonRestart`).
  The deduplicating router, the event table, restarts that seed a new router from the table, the
  live service with its counters and its log, and the autonomous daemon with its maintenance
  schedule and its restarts.
* **Governed memory** (`Memory`, `MemoryStore`, `MemoryBackends`, `MemorySafety`, `MemoryAnswers`,
  `MemoryRuns`, `Recall`). The lifecycle of a memory, the local and the sidecar backend, expiry, and
  recall.
* **Smaller cores** (`Federation`, `FederationSafety`, `FederationAnswers`, `Persona`,
  `PersonaSafety`, `Query`). Route planning, the persona, and the client's retries and artifact
  chunks.

`Wrappers`, `Basics`, `Orders` and `Sorting` are shared: optional values and results, a few small
operations, the lexicographic order in which bytes and texts compare, and sorting by a given order.

Where the original updates an object or runs a loop, the model has a class or a method; its
contract ties it to a function, and the theorems are about that function. Beside the laws, the
modules named after meanings and answers say what each operation answers in terms of the bytes,
fields and literals that go in, without the functions that compute it. Clocks, drawn ids,
hashes, replies of devices and answers of the memory client are parameters: they may be anything
that the theorem does not exclude in its `requires`.

## What the proofs found

* Keys that are texts are written in text order. RFC 8949, section 4.2.1, would have the shorter
  encoding first; the two orders agree exactly when the smaller text is not longer
  (`CborOrder.TextOrder`). Negative keys come out in reverse (`CborOrder.NumberOrder`). At the root
  of a message, where all keys are registered codes, the order is the deterministic one
  (`EndToEnd.RootDeterministic`).
* Client and device enumerate the same fields and message kinds under the same numbers
  (`DeviceProtocol.FieldsAgree`, `DeviceProtocol.KindsAgree`).
* A dict with a number key and a text key is accepted from the wire but cannot be encoded again
  (`CborNormal.UnsortableAccepted`); nothing else stands between a message and its normal form.
* The renaming back changes nested dicts that have a registered number as key or a kind code under
  `message_kind`; a payload survives exactly when it has neither (`EndToEnd.PayloadRoundTrip`,
  `EndToEnd.NumberedPayloadChanges`).
* If the health tool itself fails, the activation reads a variable that was never assigned and
  leaves before the cleanup, with the lease held (`DeploySafety.HealthToolErrorLeaks`). This is the
  only way to skip the cleanup, and no other leak goes unreported.
* A request counts as approved once its gate opened, whatever the resumed tool answers. The gate
  accepts lease rows that the search for a lease id does not
  (`ApprovalSafety.GateOpensWithoutLeaseId`). The three inspections run without asking the policy.
* Two events with one id and different keys leave one row, so a restart forgets the second key
  (`Restart.SharedIdIsForgotten`). An event without key and id is stored without a key; its drawn
  id is remembered by the running router only.
* The service's count of persisted events is the count of accepted ones, which exceeds the rows
  added (`ServiceSafety.SharedIdOverCounts`) unless the accepted events have distinct new ids
  (`ServiceSafety.RunRows`). A collection's error message is logged as a lifecycle state, so a
  message can pass for one (`ServiceSafety.MessagePassesForState`).
* A restarted daemon names its ticks from 1 again, so its ticks count as duplicates until it has
  outrun the one before (`DaemonRestart.RestartRepeatsTicks`).
* When the sidecar client raises, the status says that the mirror was written after the error, but
  nothing is stored (`MemorySafety.SidecarStores`). Candidates accepted by state alone, without the
  eligible flag, are stored by the local backend and dropped by the mirror
  (`MemorySafety.BackendsAgreeIff`, `MemorySafety.UnflaggedIsDropped`).
* Expiry reads the newest 1000 rows; expired memories beyond them are never reached, however often
  it runs (`MemoryRuns.ExpiryLeaves`, `MemoryRuns.ExpiryIdempotent`).
* Only the least qualifying peer is asked for the required transport
  (`FederationSafety.LesserPeerBlocks`).
* Signals and redactions return a persona without its seed, growth record and provenance hash
  (`PersonaSafety.AttachmentsLost`).

## Model

| member | source | states |
|---|---|---|
| `Utf8.RoundTrip` | neuro_cli/src/neuro_protocol.py:130-132 | every text comes back from its UTF-8 bytes (RFC 3629, section 3) |
| `Utf8.DecodeUnique` | neuro_cli/src/neuro_protocol.py:179-184 | bytes that decode are the encoding of what they decode to: overlong forms and surrogates are refused |
| `Utf8.EncodeInjective` | neuro_cli/src/neuro_protocol.py:130-132 | different texts have different bytes |
| `Utf8.EncodeOrder` | neuro_cli/src/neuro_protocol.py:130-134 | byte order of UTF-8 text is code point order, both ways, so the order in which Python sorts keys shows in the bytes |
| `Utf8.CharBytes` | neuro_cli/src/neuro_protocol.py:130-132 | the lead and continuation bytes of a character and the bits in them, for each of the four lengths (RFC 3629, section 3) |
| `CborCodec.EncodeUint` | neuro_cli/src/neuro_protocol.py:109-120 | an argument below 2^64 is written in the least of five widths and read back as the same major type and argument over the whole length; beyond that an overflow is the only result |
| `CborCodec.CborEncode` | neuro_cli/src/neuro_protocol.py:123-145 | the encoder with its loops succeeds exactly on values that fit and whose dicts can be sorted, and what it then writes is, byte for byte, 0xF4 or 0xF5 for a boolean and otherwise the head of the major type (0 and 1 for numbers, 3 text, 4 list, 5 dict) with the number, length or count as its argument, and for a text its UTF-8 bytes |
| `CborCodec.AppendItems` | neuro_cli/src/neuro_protocol.py:140-144 | the list loop appends the elements' encodings in order and stops at the first that fails |
| `CborCodec.AppendEntries` | neuro_cli/src/neuro_protocol.py:133-139 | the dict loop appends keys and values in sorted order |
| `CborCodec.KeysComparable` | neuro_cli/src/neuro_protocol.py:134 | sorting succeeds exactly when keys are all numbers or all texts |
| `CborCodec.CborDecodeAt` | neuro_cli/src/neuro_protocol.py:166-202 | the decoder with its offset and its growing lists and dicts returns, on every input, the value and end or the error of the specification; the initial byte and its argument decide numbers, booleans and the kind of failure, and a decoded value says which bytes stood there |
| `CborCodec.CborDecode` | neuro_cli/src/neuro_protocol.py:205-209 | a message is one value and nothing after it |
| `CborBytes.Written` | neuro_cli/src/neuro_protocol.py:109-145 | what stands on the wire for each kind of value, with the boolean bytes, major types and shortest arguments as literals |
| `CborBytes.DecodedFrom` | neuro_cli/src/neuro_protocol.py:148-202 | on every input the initial byte and the bytes after it decide what the decoder answers, errors included, and a decoded value was written there |
| `CborVectors.Scalars` | neuro_cli/src/neuro_protocol.py:109-132 | numbers, booleans and texts of the examples in RFC 8949, appendix A |
| `CborVectors.Dicts` | neuro_cli/src/neuro_protocol.py:133-139 | dicts are written by key and each key before its value, whatever the order of insertion |
| `CborVectors.RepeatedKey` | neuro_cli/src/neuro_protocol.py:192-199 | a repeated key keeps its place and its spelling and takes the later value, the number 1 being the key true |
| `CborVectors.NumbersSort` | neuro_cli/src/neuro_protocol.py:134 | true sorts among numbers as 1 does, and not among texts |
| `Sorting.SortKeeps` | neuro_cli/src/neuro_protocol.py:134 | sorting loses and adds nothing, so a dict keeps its entries on the wire |
| `Sorting.SortOrders` | neurolink_core/events.py:35-42 | what is sorted by an order is in that order; the router, the seeding query, expiry and the persona all sort this way |
| `CborRoundTrip.RoundTripAt` | neuro_cli/src/neuro_protocol.py:123-202 | wherever an encoding stands in the data, decoding there finds the value and the end of the encoding |
| `CborRoundTrip.RoundTripInside` | neuro_cli/src/neuro_protocol.py:123-202 | between any prefix and any suffix the value and its end are found exactly |
| `CborRoundTrip.RoundTrip` | neuro_cli/src/neuro_protocol.py:123-209 | decoding an encoding gives the value, its dicts in key order |
| `CborRoundTrip.PrefixFree` | neuro_cli/src/neuro_protocol.py:123-145 | no encoding is a proper prefix of another (RFC 8949, sections 3 and 3.1) |
| `CborRoundTrip.BigEndianRoundTrip` | neuro_cli/src/neuro_protocol.py:109-163 | an argument comes back from its big-endian bytes at every width that holds it |
| `CborSame.RoundTripSame` | neuro_cli/src/neuro_protocol.py:123-209 | what comes back equals, as a Python value, what was sent |
| `CborSame.EncodeSame` | neuro_cli/src/neuro_protocol.py:123-145 | two values have one encoding exactly when they are equal: insertion order never shows and nothing else is lost |
| `CborSame.CanonIdempotent` | neuro_cli/src/neuro_protocol.py:133-139 | putting a value's dicts in order twice is putting them in order once |
| `CborSame.SameTransitive` | neuro_cli/src/neuro_protocol.py:133-139 | equality of values, where a dict is its set of entries, is transitive at any depth |
| `CborNormal.AppendKeeps` | neuro_cli/src/neuro_protocol.py:166-202 | a successful decode is unchanged by anything appended to the data |
| `CborNormal.StrictPrefixRejected` | neuro_cli/src/neuro_protocol.py:148-209 | every strict prefix of an accepted message is rejected, as truncated |
| `CborNormal.EncodingCutRejected` | neuro_cli/src/neuro_protocol.py:148-209 | so is every strict prefix of an encoding |
| `CborNormal.DecodedSound` | neuro_cli/src/neuro_protocol.py:166-202 | whatever is decoded is a Python value within the width limits, and its encoding takes at most the bytes read for it |
| `CborNormal.NormalForm` | neuro_cli/src/neuro_protocol.py:109-209 | every accepted message re-encodes exactly when its dicts can be sorted; then the re-encoding is no longer, decodes to an equal value and is a fixed point, over-long arguments and repeated keys included (RFC 8949, section 4.1) |
| `CborNormal.UnsortableAccepted` | neuro_cli/src/neuro_protocol.py:192-199 | a message is accepted that cannot be encoded again: a dict with a number key and a text key |
| `CborOrder.HeadOrder` | neuro_cli/src/neuro_protocol.py:109-120 | of two arguments the smaller one has the bytewise smaller head, across all five widths |
| `CborOrder.NumberOrder` | neuro_cli/src/neuro_protocol.py:109-139 | numeric order of keys is bytewise order of their encodings exactly when the smaller key is not negative |
| `CborOrder.TextOrder` | neuro_cli/src/neuro_protocol.py:130-139 | text order of keys is bytewise order of their encodings exactly when the smaller text is not longer in bytes |
| `CborOrder.IntegerDictOrder` | neuro_cli/src/neuro_protocol.py:133-139 | a dict with integer keys is written in the deterministic order of RFC 8949, section 4.2.1, exactly when it has at most one entry or no negative key |
| `CborOrder.TextDictOrder` | neuro_cli/src/neuro_protocol.py:133-139 | a dict with text keys is written in the deterministic order exactly when no key that is greater as text is shorter in bytes |
| `EndToEnd.RootDeterministic` | neuro_cli/src/neuro_protocol.py:133-252 | the root of every message is written in the deterministic order of RFC 8949, section 4.2.1 |
| `Registry.KeyBijection` | neuro_cli/src/neuro_protocol.py:39-99 | field names and their integer keys determine each other; `DeviceProtocol.FieldsAgree` says which key each has |
| `Registry.KindBijection` | neuro_cli/src/neuro_protocol.py:12-37 | message kinds and their codes determine each other; `DeviceProtocol.KindsAgree` says which code each has |
| `DeviceProtocol.FieldsAgree` | neuro_unit/include/neuro_protocol.h:111-169 | the client numbers a field by a code exactly if the device enumerates it by that code |
| `DeviceProtocol.KindsAgree` | neuro_unit/include/neuro_protocol.h:84-109 | so it does with message kinds |
| `Routes.SplitJoin` | neuro_cli/src/neuro_protocol.py:279-281 | splitting a route gives back the slash-free tokens it was joined from |
| `Routes.QueryRouteKind` | neuro_cli/src/neuro_protocol.py:279-305 | a query route built from slash-free tokens is classified as a query |
| `Routes.LeaseRouteKind` | neuro_cli/src/neuro_protocol.py:279-305 | a lease route is classified by its action, and only acquire and release have a kind |
| `Routes.AppCommandRouteKind` | neuro_cli/src/neuro_protocol.py:279-305 | an app command route is classified as a callback configuration exactly for invoke with callback fields, else as an app command |
| `Routes.UpdateRouteKind` | neuro_cli/src/neuro_protocol.py:279-305 | an update route is classified by its stage |
| `RouteMeaning.KindMeans` | neuro_cli/src/neuro_protocol.py:279-305 | for every route at all: which texts have which of the ten kinds, and no other route has a kind |
| `Protocol.StableWire` | neuro_cli/src/neuro_protocol.py:212-227 | a value comes through the wire and the renaming back equal exactly when no dict the renaming reaches has a registered number as key or a kind code under message_kind |
| `EndToEnd.DictNotJson` | neuro_cli/src/neuro_protocol.py:267-276 | an encoded dict never starts like JSON text |
| `EndToEnd.LooksLikeJsonIff` | neuro_cli/src/neuro_protocol.py:267-276 | among encodable values only a text of four gigabytes or more starts like JSON |
| `EndToEnd.PayloadRoundTrip` | neuro_cli/src/neuro_protocol.py:212-276 | the receiver takes the CBOR branch and reads the registered fields, schema version 2 and the kind, in an equal dict exactly when every sent value is stable |
| `EndToEnd.QueryRoundTrip` | neuro_cli/src/neuro_protocol.py:279-309 | over the route of any of the four builders on slash-free tokens: it is encoded exactly if the route has a request kind, and then the same holds with that kind |
| `EndToEnd.NumberedPayloadChanges` | neuro_cli/src/neuro_protocol.py:212-227 | a payload that does not come back: a nested dict with the number 0 as key is received with a name in its place |
| `EndToEnd.ParseMeans` | neuro_cli/src/neuro_protocol.py:267-276 | a payload is read as JSON or text exactly if it is empty or starts with a brace or a bracket, else it is one CBOR dict or refused |
| `DeviceProtocol.FieldCarried` | neuro_cli/src/neuro_protocol.py:230-245 | a field of the payload stands in the message under the number by which the device knows it |
| `DeviceProtocol.QueryOnWire` | neuro_cli/src/neuro_protocol.py:279-309 | what is sent over a query route is schema version 2 and message 1 |
| `DeviceProtocol.LeaseOnWire` | neuro_cli/src/neuro_protocol.py:279-309 | acquiring a lease is message 2 and releasing one is message 3; no other action is sent |
| `DeviceProtocol.AppCommandOnWire` | neuro_cli/src/neuro_protocol.py:279-309 | an app command is message 4, and invoke with a callback field is message 5 |
| `DeviceProtocol.UpdateOnWire` | neuro_cli/src/neuro_protocol.py:279-309 | prepare, verify, activate, rollback and delete are messages 6 to 10; no other stage is sent |
| `DeviceProtocol.EmptyQuery` | neuro_cli/tests/fixtures/protocol_cbor_v2_schema.json:91-100 | a query without fields is the five bytes A2 00 02 01 01 |
| `Replies.RepliesFailureIff` | neurolink_core/workflow.py:635-655 | a search of reply bodies finds no failure exactly when every status set is "ok" |
| `ReplyMeaning.PayloadFailureMeans` | neurolink_core/workflow.py:635-655 | no failure is found exactly in a clean object; otherwise the status found is that of the object, else of its nested body, else of its first bad reply |
| `Deployment.Adapter.PrepareVerify` | neurolink_core/workflow.py:975-1157 | the prepare and verify sequence issues the specified trace and succeeds exactly when the preflight is clean and "ready", every command is clean and the last query lists no lease |
| `Deployment.Adapter.CheckHealth` | neurolink_core/workflow.py:1356-1411 | the health guard, the lease observation exactly after a failed one, and the flag for a tool that itself failed |
| `Deployment.Adapter.CheckApps` | neurolink_core/workflow.py:1437-1463 | the step passes exactly when the reply is clean, lists apps, and the first row of the app has a running state |
| `Deployment.Adapter.CleanUp` | neurolink_core/workflow.py:1468-1508 | release, then the lease query; an earlier failure is kept |
| `Deployment.Adapter.Activate` | neurolink_core/workflow.py:1160-1532 | nothing is issued without approval; otherwise the trace and outcome are the specified ones, it succeeds exactly when the device answers as it should: a clean preflight with "ready", clean commands, health "ok" and "healthy", the first row of the app in a running state, a clean release or "lease_not_found", and no lease left; cleanup is attempted exactly when the lease was acquired and the run did not raise, and a rollback is proposed exactly when health failed with "rollback_required" |
| `Deployment.Adapter.RollBack` | neurolink_core/workflow.py:1535-1718 | a rollback without approval issues nothing; otherwise it is observed twice exactly when the tool worked, and succeeds exactly when both observations are clean and show neither the app running nor a lease of its rollback |
| `DeploySafety.TraceShape` | neurolink_core/workflow.py:1227-1532 | every trace is the sequence up to its first failure, the lease observation exactly after a failed health check, and release and lease query exactly when acquire passed and the run did not raise |
| `DeploySafety.EarliestFailure` | neurolink_core/workflow.py:1227-1532 | the failed step reported is the earliest failing one in the trace, with its own status: cleanup never masks it |
| `DeploySafety.SucceedsIff` | neurolink_core/workflow.py:1227-1532 | a run succeeds exactly when every step of the sequence and of the cleanup passes |
| `DeploySafety.PassIff` | neurolink_core/workflow.py:1227-1532 | no failure in a trace is the same as every step passing |
| `DeploySafety.LeaseAfterRun` | neurolink_core/workflow.py:1227-1532 | after a run the lease is held exactly if the run acquired and leaked it, or it was held before and the run never got it |
| `DeploySafety.LeakIsReported` | neurolink_core/workflow.py:1468-1532 | a run that leaves the lease behind does not report success |
| `DeploySafety.LeaseOverRuns` | neurolink_core/workflow.py:975-1532 | over any number of runs the lease is held at the end exactly if some run leaked it and no later run acquired it, and that run failed or raised, or it was held at the start and no run acquired it |
| `DeploySafety.HealthToolErrorLeaks` | neurolink_core/workflow.py:1356-1413 | when the health tool itself fails, an activation raises before the cleanup and the lease stays held |
| `DeploySafety.RollbackSucceedsIff` | neurolink_core/workflow.py:1604-1718 | an approved rollback succeeds exactly when the tool worked and neither observation finds the app running or the rollback lease held |
| `DeployAnswers.PassesIff` | neurolink_core/workflow.py:1227-1718 | each kind of step passes exactly when the reply fields it looks at say what they should |
| `DeployAnswers.FailureMeans` | neurolink_core/workflow.py:1227-1532 | a run that fails names the first step of its trace that did not work, with the status that its reply fields give |
| `DeployAnswers.ActivationSucceeds` | neurolink_core/workflow.py:1227-1532 | success of an activation, spelled in the fields of its nine replies |
| `DeployAnswers.PrepareVerifySucceeds` | neurolink_core/workflow.py:975-1157 | success of a prepare and verify, spelled in the fields of its six replies |
| `DeployAnswers.RollbackSucceeds` | neurolink_core/workflow.py:1604-1718 | success of a rollback, spelled in the fields of its three results |
| `ApprovalCore.Core.RunPlan` | neurolink_core/workflow.py:2610-2830 | a plan runs at once if its tool needs no approval and only observes, reads or suggests; it becomes a pending request that carries the arguments and the resources of the tool's contract if approval is required; else it is refused; a failed activation adds the recovery query and a rollback request |
| `ApprovalCore.Core.MissingResources` | neurolink_core/workflow.py:1954-2078 | the required resources for which no row stands are missing, in order, and none is exactly when every one was seen |
| `ApprovalCore.Core.ApplyDecision` | neurolink_core/workflow.py:4673-4905 | what a decision does to the request, the log and the executions: nothing if it is unknown or decided; else three inspections are run, an approval resumes the tool exactly if every required resource was seen and is logged as blocked otherwise, and a denial or expiry is final |
| `ApprovalSafety.Safety` | neurolink_core/workflow.py:2620-4905 | over every interleaving of runs and decisions each tool that ran was a plan that needs no approval and only observes, reads or suggests, an inspection, or the tool of an approved request whose recorded resources are those of the tool's contract, each of them seen in a row that stands for it, with the arguments and the target that the observation gave; each request is of a tool that requires approval, resumes once if approved and never otherwise; its log is blocked attempts and then the decision that matches its status |
| `ApprovalSafety.TerminalAbsorbs` | neurolink_core/workflow.py:4673-4905 | a decided request keeps its status, tool and arguments through everything that follows |
| `ApprovalSafety.GuardedToolNeedsApproval` | neurolink_core/policy.py:108-130 | a tool the policy does not allow, inspections aside, runs only for a request whose last decision is an approval, once |
| `ApprovalSafety.ResumedLeaseId` | neurolink_core/workflow.py:1761-1775 | the lease id handed to the resumed tool is the one the request brought, else that of the first observed row that has one and names a resolved resource in its resource field, else none |
| `ApprovalSafety.GateOpensWithoutLeaseId` | neurolink_core/workflow.py:1721-1775 | the gate also counts rows that name the resource elsewhere, so it can open while the tool resumes without a lease id |
| `ApprovalMeaning.SatisfiedMeans` | neurolink_core/workflow.py:1954-2078 | a required resource is satisfied exactly if some row's first set name is the lease the resource stands for, the two leases of an app being spelled out |
| `ApprovalMeaning.ResumeArgsMean` | neurolink_core/workflow.py:1721-1775 | the app and lease arguments of the resumed tool: what the request gave, else the target and the id of the first usable row |
| `EventRouter.Router.SeedDedupeKeys` | neurolink_core/events.py:21-24 | seeding adds exactly the non-empty keys |
| `EventRouter.Router.Normalize` | neurolink_core/events.py:26-42 | a batch is answered with the events of its new arrivals, one for each, highest priority first, then by time and id, each with the fields of the raw event or their defaults, and all its names are marked as seen |
| `EventRouter.OutputMeans` | neurolink_core/events.py:26-69 | what a batch is answered with, in terms of the fields of the raw events: names, defaults and order |
| `Events.AcceptAppend` | neurolink_core/events.py:26-34 | two batches one after the other are accepted as their concatenation |
| `EventOrder.AcceptIsFirsts` | neurolink_core/events.py:26-34 | accepted are exactly the first occurrences of keys not seen before |
| `EventOrder.BatchesDoNotMatter` | neurolink_core/events.py:26-34 | over any sequence of batches the accepted arrivals are those of the concatenation in one batch |
| `EventOrder.RunIsFirsts` | neurolink_core/events.py:26-34 | over a whole run exactly the first occurrence of each key is accepted |
| `EventOrder.OutputSorted` | neurolink_core/events.py:35-42 | a batch's output is a permutation of its first occurrences, in which priorities do not rise, times do not fall at equal priority, and ids do not fall at equal priority and time |
| `EventOrder.InputOrderDoesNotMatter` | neurolink_core/events.py:26-42 | with distinct keys and ids the output does not depend on the order of arrival |
| `EventStore.Table.PersistEvent` | neurolink_core/data.py:140-168 | a row with the same id wins |
| `EventStore.Table.PersistAll` | neurolink_core/workflow.py:2343-2345 | events are inserted in order |
| `Restart.RecentRowsAreNewest` | neurolink_core/data.py:778-789 | the seeding query returns every keyed row, or as many as it may, of which none has an earlier timestamp, or the same and an earlier creation time, than one it leaves out |
| `Restart.SeedsFromRows` | neurolink_core/data.py:778-789 | every seed is a stored key |
| `Restart.SeedsAreAll` | neurolink_core/data.py:778-789 | while the keyed rows fit in one query, every stored key is a seed |
| `Restart.IngestKeepsSeedsSeen` | neurolink_core/workflow.py:2331-2345 | every stored key has been seen by the router that stored it |
| `Restart.AgreesIff` | neurolink_core/events.py:21-34 | a router that forgot some keys accepts the same of a batch exactly when the batch carries none of them |
| `Restart.IngestHolds` | neurolink_core/workflow.py:2331-2345 | one batch on a table that holds the past is accepted as by the router that forgot nothing, and leaves a table that holds it too |
| `Restart.RestartsDoNotShow` | neurolink_core/workflow.py:3929-3930 | with one key to an id, fresh drawn ids and no more keyed rows than the query returns, any number of processes in turn accept together exactly the first occurrence of each key of everything that arrived |
| `Restart.SharedIdIsForgotten` | neurolink_core/data.py:140-168 | of two keys under one id the second is never stored, and a restart accepts it again |
| `Service.RunLiveEventService` | neurolink_core/workflow.py:4132-4512 | the service loop, its routers and its table give the specified report and rows |
| `ServiceSafety.ProbeIsExact` | neurolink_core/workflow.py:4356-4359 | the throwaway router accepts as many events as the shared one then does, though it draws other ids |
| `ServiceSafety.RunBalances` | neurolink_core/workflow.py:4326-4509 | in every run that returns, collected is persisted plus duplicates |
| `ServiceSafety.RunRows` | neurolink_core/workflow.py:4326-4509 | a run only adds rows, at most one for each event it reports persisted, and one for each exactly when the events it accepts have distinct ids that no row had before |
| `ServiceSafety.SharedIdOverCounts` | neurolink_core/workflow.py:4326-4509 | two events under one id with different keys are reported as two persisted and add one row |
| `ServiceSafety.RunLifecycle` | neurolink_core/workflow.py:4214-4498 | the log opens with start, has restart second exactly if keys were seeded or the first collection fails with that message, ends with clean_shutdown and holds it once, or twice if a collection fails with that message |
| `ServiceSafety.MessagePassesForState` | neurolink_core/workflow.py:4328-4351 | collections that fail with the message of a state, logged under that state |
| `ServiceAnswers.CycleAnswers` | neurolink_core/workflow.py:4326-4470 | a cycle's counters and the states it logs: ready, stale_endpoint exactly on drift, events_persisted exactly when something was new, heartbeat unless it was the last with something new |
| `ServiceAnswers.RunAnswers` | neurolink_core/workflow.py:4132-4512 | a run is ok exactly if every collection succeeds and the first has events; what it collects and its whole log follow |
| `Daemon.AnyTopic` | neurolink_core/workflow.py:3967-3972 | whether a planned event carries the topic |
| `Daemon.RunEventDaemonReplay` | neurolink_core/workflow.py:3874-4089 | the replay loop, its router, table and totals give the specified evidence |
| `DaemonSafety.DuplicatesConserved` | neurolink_core/workflow.py:3944-4084 | the duplicates reported are those of the cycles plus the planned events of cycles that did not run |
| `DaemonSafety.TicksPlanned` | neurolink_core/autonomy.py:225-266 | planning only appends at most two ticks: a clock tick is always there, maintenance exactly if supplied or due, and no external event is added |
| `DaemonSafety.SleepsIff` | neurolink_core/autonomy.py:268-309 | an unpaused cycle sleeps exactly when only clock ticks are at hand, maintenance is not due and no tick reaches the wake threshold |
| `DaemonSafety.CycleMaintains` | neurolink_core/workflow.py:3957-3973 | maintenance happens exactly if supplied or due, is remembered, and makes the cycle run |
| `DaemonSafety.MaintenanceGaps` | neurolink_core/autonomy.py:237-266 | any k consecutive cycles hold one with maintenance that runs: the first comes by cycle k and gaps never exceed k |
| `DaemonSafety.MaintenanceAtMultiples` | neurolink_core/autonomy.py:237-266 | with healthy vitality and none supplied, maintenance comes exactly at the multiples of k |
| `DaemonSafety.TickNamesDistinct` | neurolink_core/autonomy.py:140-191 | ticks of different cycles or kinds have different ids and keys |
| `DaemonAnswers.PlanAnswers` | neurolink_core/autonomy.py:194-309 | the plan of a cycle: which ticks are added with which names, topics, times and priorities, whether it wakes, maintains or sleeps, and its kind |
| `DaemonAnswers.CycleNumbers` | neurolink_core/autonomy.py:140-191 | cycle numbers are decimal with at least four digits, and read back as the number |
| `DaemonRestart.QuietCycleIff` | neurolink_core/workflow.py:3944-4016 | a cycle without supplied events accepts nothing exactly when it does not run or every tick it emits has been seen, and then it stores nothing |
| `DaemonRestart.RestartRepeatsTicks` | neurolink_core/workflow.py:3929-4016 | a daemon restarted on the table it left names its ticks from 1 again: without supplied events it accepts exactly the ticks of the cycles by which it outruns the first process, and stores nothing until then |
| `MemoryBackends.LocalMemory.CommitCandidates` | neurolink_core/memory.py:305-343 | the local loop stores the first candidate of each key that is ready and eligible, in order |
| `MemoryBackends.AddAll` | neurolink_core/memory.py:432-473 | the sidecar loop adds each selected candidate once, up to one that raises, which drops all of them |
| `MemoryBackends.Fallback` | neurolink_core/memory.py:474-504 | without a client every selected candidate is marked as a fallback commit |
| `MemoryBackends.SidecarMemory.CommitCandidates` | neurolink_core/memory.py:424-523 | what the mirror stores, the status, the kept ids and how often the client was asked |
| `MemorySafety.PathDistinct` | neurolink_core/memory.py:95-188 | no state comes twice in a walk of the lifecycle |
| `MemorySafety.ScreenLawful` | neurolink_core/memory.py:95-153 | screening leads a proposed candidate to accepted or rejected by a lawful walk, accepted exactly if its topic is kept and its priority is at least 10 |
| `MemorySafety.CommittedLawful` | neurolink_core/memory.py:156-188 | committing an accepted candidate, or one committed before, ends a lawful walk in committed |
| `MemorySafety.RetiredLawful` | neurolink_core/data.py:693-723 | retiring ends a lawful walk in retired |
| `MemorySafety.LocalCommitLawful` | neurolink_core/memory.py:305-343 | what is stored of proposed or screened candidates is committed: rejected ones never are |
| `MemorySafety.SelectedOnePerKey` | neurolink_core/memory.py:311-330 | one payload is stored for each distinct key of an eligible candidate |
| `MemorySafety.SidecarStores` | neurolink_core/memory.py:424-523 | the sidecar stores the selected candidates that carry the eligible flag; if the client raises on one it stores nothing |
| `MemorySafety.BackendsAgreeIff` | neurolink_core/memory.py:305-523 | the backends store the same topics and keys exactly when the client does not raise on a selected candidate and every selected one carries the flag |
| `MemorySafety.UnflaggedIsDropped` | neurolink_core/memory.py:191-523 | an accepted candidate without the flag is stored by the local backend and, with any client or none, not by the mirror |
| `MemorySafety.BackendsAgree` | neurolink_core/memory.py:305-523 | on proposed or screened candidates they agree unless the client raises |
| `MemoryAnswers.ScreenAnswers` | neurolink_core/memory.py:26-153 | screening in fields: class and days by topic, rejection by topic or a priority below 10, reasons, key, expiry and history |
| `MemoryAnswers.LocalAnswers` | neurolink_core/memory.py:305-343 | what is stored are exactly the candidates that may be committed and whose key no earlier one of those has, marked as committed |
| `MemoryAnswers.LocalOrder` | neurolink_core/memory.py:305-343 | a candidate more adds its payload at the end if it is taken, and nothing else changes |
| `MemoryAnswers.RowsAnswer` | neurolink_core/memory.py:311-343 | payloads become rows in order, each with the id and time drawn for its place, the span and its topic |
| `MemoryAnswers.SidecarAnswers` | neurolink_core/memory.py:424-523 | status, kept ids and number of asks by whether there is a client and where it raises, and the marks on what is stored |
| `MemoryRuns.RunLawful` | neurolink_core/memory.py:305-523 | in every run of commits and expiry passes every stored history is a walk without repetition ending in the current state, committed or retired |
| `MemoryStore.MemoryTable.RetireExpiredMemories` | neurolink_core/data.py:693-723 | the pass over the newest rows retires exactly the expired ones among them and returns their ids, each once and newest first |
| `MemoryRuns.WindowIsLatest` | neurolink_core/data.py:618-635 | the rows a pass leaves out were not created later than those it reads, and then it reads 1000 |
| `MemoryRuns.ExpiryLeaves` | neurolink_core/data.py:693-723 | an expired row stays active exactly if it is beyond the rows the pass reads; everything else is untouched |
| `MemoryRuns.NoneExpiredLeft` | neurolink_core/data.py:693-723 | tables of at most 1000 rows keep no active row that expires at or before the time |
| `MemoryRuns.ExpiryIdempotent` | neurolink_core/data.py:693-723 | a second pass at the same time changes nothing, at any size |
| `MemoryRuns.ExpiryInSteps` | neurolink_core/data.py:693-723 | expiring at one time and then at a later one gives what expiring at the later time gives |
| `MemoryAnswers.ExpiryAnswers` | neurolink_core/data.py:693-723 | of at most 1000 rows exactly those that lapsed are retired, with the reason, and the others are left as they are |
| `Recall.BuildRecallContext` | neurolink_core/session.py:238-298 | each group holds its items in order, each category counts its items, and groups and counts add up to the lookup count |
| `Recall.SurfacedIff` | neurolink_core/session.py:301-314 | a committed, governed item is surfaced to the affective group exactly in the class of user context, to the rational group exactly in the two operational classes, and each item left out is counted under its own reason |
| `Federation.Least` | neurolink_core/federation.py:245 | the peer chosen has no peer of smaller core id beside it |
| `Federation.Registry.PlanRoute` | neurolink_core/federation.py:137-278 | the decision for the registered units and peers |
| `FederationSafety.RouteNamesLeast` | neurolink_core/federation.py:192-278 | a route through another core names the least core id of the peers that advertise the target, are in scope, fresh and reachable |
| `FederationSafety.ReadyIff` | neurolink_core/federation.py:192-278 | without a transport requirement a route to a target that is not local is ready exactly if such a peer exists |
| `FederationSafety.ReadyWithTransportIff` | neurolink_core/federation.py:245-278 | with one, ready exactly if the least such peer names no transports or the required one |
| `FederationAnswers.DelegatedAnswers` | neurolink_core/federation.py:192-278 | the whole decision for a target that is not local: the first reason there is no route, with the scope reported, or the route through a least qualifying peer with its scope, relay path and readiness |
| `FederationSafety.LesserPeerBlocks` | neurolink_core/federation.py:245-268 | a peer that could carry the transport is not tried when a lesser one cannot |
| `FederationSafety.Registered` | neurolink_core/federation.py:131-132 | after any registrations there is one peer to a core id, the one registered last |
| `FederationSafety.OrderDoesNotMatter` | neurolink_core/federation.py:137-278 | but for the scope reported on failure, the decision does not depend on the order of registration; a decision that names a core does not depend on it at all |
| `FederationSafety.GreaterPeerChangesNothing` | neurolink_core/federation.py:245-278 | adding a peer of greater id leaves a decision that names a core as it is |
| `FederationSafety.LocalReadyIff` | neurolink_core/federation.py:144-190 | a local unit shadows every peer, and its route is ready exactly if scope, transport and relay capability fit |
| `FederationSafety.ProposalIff` | neurolink_core/federation.py:281-303 | a delegated proposal can be built exactly if the target is not local and the least qualifying peer carries the transport, and it names that peer, the target, the resource and the scope |
| `Persona.ApplySignals` | neurolink_core/persona.py:452-515 | the signal loop gives the specified state |
| `PersonaSafety.AppliedSorted` | neurolink_core/persona.py:452-515 | after any signals the relationships are strictly sorted by principal, one to each principal that was there or was named |
| `PersonaSafety.RelationshipsDoNotMix` | neurolink_core/persona.py:481-502 | what becomes of a relationship is decided by its own start and the signals that name its principal |
| `PersonaSafety.SignalMoves` | neurolink_core/persona.py:452-502 | one more signal moves each feeling by its amount within bounds, and the relationship it names and no other, from a trust of one half; a note is kept once |
| `PersonaSafety.RedactionCommutesIff` | neurolink_core/persona.py:452-538 | redaction commutes with signals exactly when no signal names a redacted principal |
| `PersonaSafety.AttachmentsLost` | neurolink_core/persona.py:452-538 | signals and redactions return a persona without seed, growth record and provenance; redacting nobody gives it back exactly if it had none |
| `PersonaSafety.GrowAddsUp` | neurolink_core/persona.py:381-420 | evidence is accepted exactly if its source is known and its id is given and new; it counts for its own source alone, and the record still adds up |
| `PersonaSafety.GrowthAddsUp` | neurolink_core/persona.py:360-420 | over any evidence the revision is the number of distinct recorded events and the sum of the five counters, the recorded events are exactly those of valid evidence, and the stored hash is the recomputed one |
| `Query.ResultFailureStatus` | neuro_cli/src/neuro_cli.py:1165-1188 | the search over replies finds the specified failure |
| `Query.FailureIff` | neuro_cli/src/neuro_cli.py:1057-1188 | a result has no failure status exactly when there are replies, all succeeded and none carries a failing status |
| `Query.JudgedMeans` | neuro_cli/src/neuro_cli.py:1057-1188 | the status and failure a query is handed back with, spelled for no answer, unparsed answers, failed replies and failing statuses |
| `Query.CollectWithRetry` | neuro_cli/src/neuro_cli.py:1097-1158 | retrying stops at the first outcome that is not transient or at the last attempt; the report is ok exactly if that outcome succeeds, carries the status and failure that its replies say, and the pauses are the backoffs of the attempts before it |
| `Query.BackoffBounds` | neuro_cli/src/neuro_cli.py:96-118 | the pauses start at the initial one, double while that stays below the cap, and never exceed the cap, whatever the arguments |
| `Query.FetchReassembles` | neuro_cli/src/neuro_cli.py:454-478 | chunks fetched in order from any offset reassemble the rest of the file, all but the last of full size |

## Left out

- Python's numeric equality across types: `True == 1` as dict keys is in the model (`Cbor.KeyEq`), but equality of values (`Cbor.Same`) keeps booleans and numbers apart, which is the stronger result.
- The branch of the wire parser that reads JSON or plain text: only that it is taken exactly when the first byte says so.
- Lone surrogates in texts, for which encoding raises; the model's characters are Unicode scalar values.
- Python's recursion limit on deeply nested values.
- Values outside the encoder's domain (`None`, floats, bytes), for which it raises, and dict keys that are lists or dicts.
- The callback test of the route classifier is modelled on the payload's keys; payloads that are not dicts are not.
- Exceptions that leave a workflow in the middle, other than the one after a failed health tool: command timeouts and adapters that raise.
- Evidence, summary and audit records of the deployment workflows; what is modelled is what is issued and reported.
- The spelling of operator decisions, which the code trims and lowers before it compares them.
- The rational planner's choice of a tool and its arguments: a run is given as a plan.
- ApprovalSafety.Safety: requires that ids drawn for new requests are new, which the source leaves to its random ids.
- Subscribers of the router, and the fields of an event that neither deduplication nor order nor the topics read.
- Lists that only one function holds, such as a planned cycle's events, a screened history or the router's sorted batch, are built as values rather than updated in place.
- Explicit nulls in raw events are taken as absent.
- Ties of the seeding and lookup queries, which SQLite may order as it likes, are kept in table order; `Restart.SeedsAreAll` and the theorems resting on it do not depend on ties.
- Restart.RestartsDoNotShow: requires that ids are drawn fresh; with a repeated id the restarted router may accept what the other rejects (`Restart.AgreesIff`).
- ServiceSafety.RunBalances: requires that ids drawn by either router are new, for the same reason.
- The daemon's and the service's sessions, execution spans and reports apart from counters, cycles and lifecycle.
- A maintenance interval of zero, for which the planner raises.
- Times stamped into governance records (accepted, committed, retired) and the confidence value.
- A candidate's key is a digest of its topic, source and sorted event ids; the model's digest takes the ids as a multiset.
- The retirement of memories by topic or span, which is the expiry pass with another condition.
- The lookup that feeds recall, and the search of the sidecar; recall is modelled on any list of items.
- The recall summaries' cuts to the first five items and ten references.
- Evidence references of route decisions, and expiry texts that are no timestamps; an instant is an integer.
- Floating point: persona numbers are integers in ten-thousandths, backoffs are integers in milliseconds.
- The vitality score, a clamped weighted sum; the daemon reads its state as a parameter.
- The environment, configuration, model providers, skill and tool descriptors, network sessions, serial access and file access.
- The device side, apart from the enumerations of fields and message kinds in its protocol header.

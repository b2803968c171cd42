# Cesspace ARC control plane: verified model

Cesspace ARC is a control plane that lets remote clients run tools on a workspace under policy, with human approval,
rate limits and an evidence trail. This project models its protocols in Dafny 4.11 and proves what they keep in every
run. `dafny verify dfyconfig.toml` checks everything.

The parts, each a state machine or an algorithm with its proofs beside it:

- **Rate limiting** (`RateTable`, `RateRuns`, `RequestLimiter`): the bounded token-bucket table that evicts idle keys
  is indistinguishable from one that never evicts, and the rate bound holds exactly when only full buckets are evicted.
- **Gateway admission** (`GatewayAdmission`, `RemoteGateway`): connection slots are conserved in every interleaving.
- **Tool pipeline** (`ToolPipeline`, `ToolPipelineProofs`, `ToolDecisions`, `ToolEvidence`): concurrent invocations,
  interleaved at every `await`, over one durable chain, one degraded latch and one approval table; who may execute, and
  who can; and the same pipeline composed with the evidence sink it flushes.
- **Evidence** (`AuditSinks`, `EvidenceSink`, `AdminDisclosure`): serialized drains of bounded queues against writes
  that may fail, and may have been stored although they failed; secrets leave only behind committed evidence.
- **Audit chain** (`JsStrings`, `CanonicalJson`, `CanonicalJsonProofs`, `CanonicalText`, `RecordCopies`, `AuditChain`): the
  canonical text identifies a record up to key order, and the last hash commits to the whole chain.
- **Device trust** (`TrustFingerprint`, `DeviceTrust`, `TrustTransactions`): transactions against storage that can fail
  at every step and leave anything behind.
- **Peer addresses** (`Texts`, `Ipv6`, `Ipv6Format`, `PeerNetworks`): two IPv6 parsers, the canonical writer, and what
  equal limiter keys mean.
- **Sessions** (`SessionTable`), **parameter scan** (`FieldScan`), **composite plans** (`PlanRunner`), **target paths**
  (`TargetPaths`) and **policy decisions** (`PolicyDecisions`).

## Reading the model

Concurrent code becomes a function from a state and an event to the next state: an event is one synchronous stretch of
the program, and a run is any sequence of events, so theorems over runs cover every interleaving. Objects that the
program updates in place are classes whose methods are proved to make exactly the step the state machine makes. Clock
readings, storage outcomes, flush outcomes, executor results and random identifiers arrive with the events.

Assumptions: the clock does not go back within a run; freshly generated operation ids, request ids, session ids and
device ids are new; the hash is injective where the results on the chain say so; connection tuples of open
connections are distinct. Tokens and milliseconds of the rate limiter are reals, so rounding of floating-point tokens
is not modelled. Numbers in audit records are integers.

Findings, each stated as a lemma with its exact condition:

- The rate bound fails exactly for a timeout shorter than burst times refill interval, unless the table lets nothing
  through at all (`RateRuns.RateBoundedExactly`); the frozen layers satisfy it.
- A durable append can be rejected after its record was stored, when the checkpoint behind it fails; a run of the sinks
  records each event once exactly when no write of the run ends that way (`AuditSinks.ExactlyOnce`), and otherwise there
  is no bound on the copies (`AuditSinks.LandedRejectionsPileUp`).
- `copyBounded` loses an own `__proto__` key (`RecordCopies.CopyFaithfulExactly`, `RecordCopies.ProtoNullIsLost`). In
  the code such a key can meet it only in `recordData.error` (packages/audit/src/index.ts:352): the other sections lose
  it in redaction, and the error is copied before it is hashed, so a stored record holds no such key and snapshots of it
  are faithful (`RecordCopies.CopyingAgainIsFaithful`).
- The degraded latch does not call back an invocation whose STARTED was already handed to the store
  (`ToolPipelineProofs.LatchExactly`).
- A 32-character session prefix is admitted but mints sessions that `validateSession` refuses, although they are stored,
  counted, reported as active and revocable (`SessionTable.MintedIdIsWellFormed`, `SessionTable.LongestPrefixIsStored`).
- The limiter's IPv6 parser reads a dotted quad before `::`, as in `1.2.3.4::`, which denotes no address; the
  configuration's parser refuses it (`Ipv6.ParseBodyExactly`, `Ipv6Format.ParsersAgreeExactly`,
  `Ipv6Format.QuadBeforeGap`).
- Names starting with two dots directly below the workspace root are refused, and normalization of drive-like paths is
  not idempotent (`TargetPaths.NormalizeDecides`, `TargetPaths.IdempotentExactly`).

Where code and comments disagree the model follows the code: the comment on `tryHold` says that without an outstanding
cap `release` is a no-op, but the code counts and releases holders all the same.

## Model

| member | source | states |
|---|---|---|
| RateTable.RefillComposes | apps/mcp-server/src/remote-resource-limits.ts:490-497 | refilling twice is refilling once for the whole time, so lazy refills lose nothing |
| RateTable.IdleIsFull | apps/mcp-server/src/remote-resource-limits.ts:60-71 | a bucket idle for the eviction timeout would be full again, when the timeout is at least burst times refill interval |
| RateTable.EvictKeeps | apps/mcp-server/src/remote-resource-limits.ts:553-559 | eviction removes exactly the idle entries without holders and keeps the table well formed |
| RateTable.ConsumeKeeps | apps/mcp-server/src/remote-resource-limits.ts:472-505 | every request keeps at most `maxKeys` entries, one a key, in access order, with token levels between zero and the burst |
| RateTable.HeldSurvives | apps/mcp-server/src/remote-resource-limits.ts:553-559 | a bucket with holders survives every request with its identity, key and holders |
| RateTable.LevelStep | apps/mcp-server/src/remote-resource-limits.ts:472-505 | a request is granted exactly when the key's level is at least one token, and afterwards every key's level at every later time is that of a table that never evicts |
| RateTable.SaturatedExactly | apps/mcp-server/src/remote-resource-limits.ts:472-480 | a request is refused for saturation if and only if every entry of its key is unheld and idle past the timeout and at least `maxKeys` entries are held or not idle |
| RateTable.ConsumedExactly | apps/mcp-server/src/remote-resource-limits.ts:472-505 | a request is granted if and only if it is not refused for saturation and its entry in use, refilled at the rate up to the burst, or a new one, holds a token |
| RateRuns.RunKeeps | apps/mcp-server/src/remote-resource-limits.ts:472-533 | in every run of requests, admissions and releases: the table is well formed, a bucket's holders are its unreleased leases and within the outstanding cap, and no bucket with an unreleased lease is dropped |
| RateRuns.EvictionInvisible | apps/mcp-server/src/remote-resource-limits.ts:472-559 | every run is answered exactly as by one never-evicting bucket a key, once the calls refused for saturation are removed |
| RateRuns.RateBoundHolds | apps/mcp-server/src/remote-resource-limits.ts:472-505 | over every run, key and time window, at most burst plus window over refill interval tokens are granted, across eviction and re-creation |
| RateRuns.BurstIsGranted | apps/mcp-server/src/remote-resource-limits.ts:472-505 | on an empty table a key is granted as many requests at once as its burst holds |
| RateRuns.EarlyEvictionBreaksTheBound | apps/mcp-server/src/remote-resource-limits.ts:553-559 | with a shorter timeout, for every burst of at least one token, whole or not, a concrete run exceeds the bound |
| RateRuns.RateBoundedExactly | apps/mcp-server/src/remote-resource-limits.ts:472-559 | for every configuration the rate bound holds in every run if and only if the timeout is at least burst times refill interval, or the table admits no key or holds less than one token |
| RateRuns.FrozenLayersAreRateBounded | apps/mcp-server/src/remote-resource-limits.ts:37-87 | the three frozen layers meet the rate bound |
| RequestLimiter.BoundedRequestLimiter.EvictIdleEntries | apps/mcp-server/src/remote-resource-limits.ts:553-559 | the loop keeps exactly the entries that are not idle or have holders |
| RequestLimiter.BoundedRequestLimiter.ConsumeToken | apps/mcp-server/src/remote-resource-limits.ts:472-505 | answer and table are those of the specification, and on a valid table the answer is decided by the fields of the entries as SaturatedExactly and ConsumedExactly say; on success the bucket handed out is the most recently used entry |
| RequestLimiter.BoundedRequestLimiter.TryHold | apps/mcp-server/src/remote-resource-limits.ts:516-533 | a slot is taken exactly when the outstanding cap allows it |
| RequestLimiter.BoundedRequestLimiter.Release | apps/mcp-server/src/remote-resource-limits.ts:523-531 | the first release gives the slot back; later ones do nothing |
| RequestLimiter.BoundedRequestLimiter.Clear | apps/mcp-server/src/remote-resource-limits.ts:536-538 | everything retained is dropped |
| GatewayAdmission.StepKeeps | apps/mcp-server/src/remote-gateway.ts:655-937 | every handler keeps the accounting: live count is the registry size, in-flight count the unsettled handshakes, a peer's holders its connections, and every cap holds |
| GatewayAdmission.RunKeeps | apps/mcp-server/src/remote-gateway.ts:655-937 | the same in every interleaving of connect, handshake, close and stop events |
| GatewayAdmission.FrozenCapsHold | apps/mcp-server/src/admission-limiter.ts:36-61 | under the frozen limits: at most 512 live connections, 64 handshakes in flight and 32 connections a peer, never negative |
| GatewayAdmission.AdmitDecides | apps/mcp-server/src/admission-limiter.ts:158-201 | each refusal reason, and admission, if and only if: the table is full, the peer has no token, and then the global, the handshake and the peer cap in that order, on the registered connections and the peer's holders |
| GatewayAdmission.ConnectDecides | apps/mcp-server/src/remote-gateway.ts:748-798 | a connection is registered, taking one slot of each kind, if and only if its deadline has not passed, its peer is known and it is admissible; otherwise the registry and the counters stay |
| GatewayAdmission.LiveIsSumOfHolders | apps/mcp-server/src/admission-limiter.ts:158-201 | the live count equals the sum of the peer table's holders |
| GatewayAdmission.SettleHandshakeKeeps | apps/mcp-server/src/remote-gateway.ts:806-813 | an unsettled handshake gives back exactly one slot, so the guard of `releaseHandshake` never has to act |
| GatewayAdmission.SettlesOnce | apps/mcp-server/src/remote-gateway.ts:816-840 | helper: settling twice is settling once, for a connection and for its handshake |
| GatewayAdmission.LateCallbacksDoNothing | apps/mcp-server/src/remote-gateway.ts:688-693 | helper: one callback for a settled or never admitted connection changes nothing |
| GatewayAdmission.CallbacksSettleOnce | apps/mcp-server/src/remote-gateway.ts:806-896 | any sequence of a connection's callbacks amounts to one settling of the connection, or of its handshake alone when none ends it: the slots come back once however often and in whatever order the end is reported |
| GatewayAdmission.SettleAllDrains | apps/mcp-server/src/remote-gateway.ts:690-693 | settling the captured connections brings every counter to zero before the reset |
| GatewayAdmission.StopLeavesNothing | apps/mcp-server/src/remote-gateway.ts:655-737 | every run from start-up that ends in stop leaves nothing registered and every counter zero |
| RemoteGateway.AdmissionLimiter.Admit | apps/mcp-server/src/admission-limiter.ts:158-201 | the decision, its order of checks and the new counters are those of the specification |
| RemoteGateway.AdmissionLimiter.ReleaseHandshake | apps/mcp-server/src/admission-limiter.ts:207-211 | gives back a handshake slot, never below zero |
| RemoteGateway.AdmissionLimiter.ReleaseSlot | apps/mcp-server/src/admission-limiter.ts:188-200 | gives back the live slot and the peer's holder |
| RemoteGateway.AdmissionLimiter.Reset | apps/mcp-server/src/admission-limiter.ts:214-218 | drops all state |
| RemoteGateway.Gateway.HandleConnection | apps/mcp-server/src/remote-gateway.ts:748-798 | a refused socket is never registered; an admitted one is registered with its bucket |
| RemoteGateway.Gateway.SettleHandshakeFor | apps/mcp-server/src/remote-gateway.ts:806-813 | the handshake step of the specification |
| RemoteGateway.Gateway.SettleConnection | apps/mcp-server/src/remote-gateway.ts:816-840 | the close step of the specification |
| RemoteGateway.Gateway.HandleSecureConnection | apps/mcp-server/src/remote-gateway.ts:849-896 | an accepted identity settles the handshake, a refused one the whole connection |
| RemoteGateway.Gateway.Stop | apps/mcp-server/src/remote-gateway.ts:655-737 | the loop settles every captured connection and then resets |
| CanonicalJsonProofs.CanonicalDecidesSame | packages/audit/src/index.ts:280-292 | two trees have equal canonical text if and only if they are equal up to the order of object keys; CanonicalText says which text |
| CanonicalJsonProofs.UndefinedElementIsLost | packages/audit/src/index.ts:283-285 | helper, the counterexample behind a restriction: an `undefined` array element is rendered as nothing |
| CanonicalJsonProofs.UnescapeQuoted | packages/audit/src/index.ts:280-282 | reading a quoted string back gives the string |
| JsStrings.LessEqExactly | packages/audit/src/index.ts:286-288 | a string is at most another if and only if they are equal, or it is a proper prefix, or it has the smaller code unit at the first place where they differ |
| JsStrings.SortAscends | packages/audit/src/index.ts:286-288 | distinct strings are sorted into strictly ascending order, each kept |
| CanonicalText.ObjectIs | packages/audit/src/index.ts:286-291 | an object prints its members in ascending order of their keys, commas between, a colon between key and value, inside braces |
| CanonicalText.KeyOrderExists | packages/audit/src/index.ts:286-288 | every object with distinct keys has that order |
| CanonicalText.ArrayIs | packages/audit/src/index.ts:283-285 | an array prints its elements in order, commas between, inside brackets |
| CanonicalText.KeysAscend | packages/audit/src/index.ts:280-292 | `{"b":2,"a":1}` prints as `{"a":1,"b":2}` |
| CanonicalText.ShortEscapesAre | packages/audit/src/index.ts:280-282 | a quote, a backslash, a tab and a line feed are escaped as JSON escapes them |
| CanonicalText.LongEscapesAre | packages/audit/src/index.ts:280-282 | another control character and a lone surrogate become a lower-case `\u` escape; an accented letter stays |
| RecordCopies.CopyBounded | packages/audit/src/index.ts:123-136 | the recursive copy loop produces the specified copy |
| RecordCopies.CopyFaithfulExactly | packages/audit/src/index.ts:123-136 | the copy has the same canonical text if and only if no object has an own `__proto__` key |
| RecordCopies.ProtoNullIsLost | packages/audit/src/index.ts:123-136 | the object with `__proto__` as its only field, null, is copied to the empty object, whose canonical text is another |
| RecordCopies.CopyingAgainIsFaithful | packages/audit/src/index.ts:123-136 | a copy of a copy is the copy, so snapshots of a stored record keep its canonical text |
| AuditChain.AuditLogger.Log | packages/audit/src/index.ts:333-432 | appends one record linked to the last hash |
| AuditChain.AuditLogger.VerifyIntegrity | packages/audit/src/index.ts:473-496 | true if and only if every record is numbered, linked and hashed correctly |
| AuditChain.AuditLogger.Clear | packages/audit/src/index.ts:506-510 | starts a new chain |
| AuditChain.LoggedAccepted | packages/audit/src/index.ts:333-496 | every run of appends yields a chain that verification accepts |
| AuditChain.LoggedRecords | packages/audit/src/index.ts:333-432 | records are numbered from 1, linked to the record before and the first to 64 zeros, and hashed over the canonical text of content, number and previous hash |
| AuditChain.LastHashCommits | packages/audit/src/index.ts:473-496 | two accepted chains have the same last hash if and only if they have the same length and, record by record, the same content up to key order, sequence number and hashes |
| AuditChain.TamperingIsNoticed | packages/audit/src/index.ts:473-496 | any changed record makes an accepted chain end in another hash |
| TrustFingerprint.FingerprintDecidesAgreement | apps/mcp-server/src/enrollment-bootstrap.ts:150-163 | equal fingerprints if and only if the same devices, in any order, with the same pins, in any order |
| DeviceTrust.MutationKeeps | packages/auth/src/trust-store.ts:754-948 | every accepted mutation gives data that the validator accepts: at most 256 devices, distinct well-formed ids, valid client texts, labels within 64 bytes, one or two distinct well-formed pins, no pin on two devices |
| DeviceTrust.MutationPreserves | packages/auth/src/trust-store.ts:754-948 | helper, one step of TrustTransactions.RunPreserves: no mutation drops a device, rebinds it to another client or lifts a revocation |
| DeviceTrust.PinIdentifies | packages/auth/src/trust-store.ts:730-737 | a pin identifies its device |
| DeviceTrust.RevokeDoes | packages/auth/src/trust-store.ts:936-948 | accepted if and only if the device is enrolled; that device is then revoked, and its other fields and all other devices are the same |
| DeviceTrust.RenameDoes | packages/auth/src/trust-store.ts:916-930 | accepted if and only if the device is enrolled and the label has no NUL and at most 64 bytes; that label is set and nothing else changes |
| DeviceTrust.AddPinDoes | packages/auth/src/trust-store.ts:826-865 | accepted if and only if the pin is well formed and is the device's already, or is no device's and the device has one pin; its pins are then those and that pin, and nothing else changes |
| DeviceTrust.RemovePinDoes | packages/auth/src/trust-store.ts:871-900 | accepted if and only if the device has the pin and another; its pins are then those without that pin, and nothing else changes |
| DeviceTrust.StrangersAreRefused | packages/auth/src/trust-store.ts:826-948 | no change is accepted for a device that is not enrolled |
| DeviceTrust.EnrollDoes | packages/auth/src/trust-store.ts:754-820 | under a free pin: accepted if and only if the texts are submittable, there are fewer than 256 devices and the JSON fits 262144 bytes; one record is added at the end, as submitted, unrevoked, with that pin alone |
| DeviceTrust.ReenrollDoes | packages/auth/src/trust-store.ts:775-790 | under a pin a device has: accepted if and only if the texts are submittable and the client is that device's, and nothing changes |
| DeviceTrust.Utf8Is | packages/auth/src/device-identity.ts:126-138 | how many bytes each kind of code unit counts for |
| DeviceTrust.DeviceTrustStore.FindDeviceByPin | packages/auth/src/trust-store.ts:730-737 | finds the first device holding the pin, or none exactly when none does |
| DeviceTrust.DeviceTrustStore.EnrollDevice | packages/auth/src/trust-store.ts:754-820 | malformed input is refused; same pin and client reuse the record; same pin and another client, a full store, or one whose JSON would exceed 262144 bytes, is refused |
| DeviceTrust.DeviceTrustStore.AddPinToDevice | packages/auth/src/trust-store.ts:826-865 | adds a well-formed pin that no device holds, up to two |
| DeviceTrust.DeviceTrustStore.RemovePinFromDevice | packages/auth/src/trust-store.ts:871-900 | removes a pin, never the last |
| DeviceTrust.DeviceTrustStore.RenameDevice | packages/auth/src/trust-store.ts:916-930 | changes the label alone, to one without NUL and within 64 bytes of UTF-8 |
| DeviceTrust.DeviceTrustStore.RevokeDevice | packages/auth/src/trust-store.ts:936-948 | marks the device revoked, as DeviceTrust.RevokeDoes says |
| TrustTransactions.RestoreProves | apps/mcp-server/src/enrollment-bootstrap.ts:612-650 | after a failed save, whatever the storage did, the earlier trust is back on disk or the latch is set |
| TrustTransactions.RestoreSucceeds | apps/mcp-server/src/enrollment-bootstrap.ts:612-650 | storage that recovers does not set the latch |
| TrustTransactions.RestoreExactly | apps/mcp-server/src/enrollment-bootstrap.ts:612-650 | a file that shows the earlier trust is left alone; one that cannot be read as a valid store sets the latch; otherwise the earlier trust is written back, and the latch is set if and only if that write fails or the file then does not show it |
| TrustTransactions.AnswersAreTrue | apps/mcp-server/src/enrollment-bootstrap.ts:356-596 | for mutations and activations, before and after the latch: COMMITTED means memory and file are the candidate, REJECTED that neither moved, STORAGE_FAILED that memory did not move and, without the latch, that both still agree |
| TrustTransactions.AnswersExactly | apps/mcp-server/src/enrollment-bootstrap.ts:356-596 | REJECTED if and only if the mutation is refused, COMMITTED if and only if its result validates and the save reports success; an operator's only without the latch |
| TrustTransactions.RunKeeps | apps/mcp-server/src/enrollment-bootstrap.ts:356-650 | in every run memory and file hold the same trust unless the latch is set, the latch is never cleared, and memory is the committed mutations in order |
| TrustTransactions.RunPreserves | apps/mcp-server/src/enrollment-bootstrap.ts:356-650 | in every run enrolled devices keep their binding and revocations stay |
| TrustTransactions.RevocationCommits | apps/mcp-server/src/enrollment-bootstrap.ts:356-397 | a committed revocation leaves the device revoked in memory and in the file |
| TrustTransactions.RevocationLasts | apps/mcp-server/src/enrollment-bootstrap.ts:356-650 | after it, in every run, the device is revoked in every later memory, and in the file unless the latch is set |
| TrustTransactions.LatchRefuses | apps/mcp-server/src/enrollment-bootstrap.ts:356-364 | once latched, every operator mutation is refused and changes nothing |
| TrustTransactions.MisreportedSaveDiverges | apps/mcp-server/src/enrollment-bootstrap.ts:383-397 | a candidate save that wrongly reports success cannot be noticed |
| TrustTransactions.TrustFile.Save | packages/auth/src/trust-store.ts:437-594 | invalid data is refused before writing; otherwise the file is what the storage left |
| TrustTransactions.TrustFile.Load | packages/auth/src/trust-store.ts:600-626 | the loader gives only data that validates |
| TrustTransactions.EnrollmentBootstrap.RestorePreTransactionState | apps/mcp-server/src/enrollment-bootstrap.ts:612-650 | reload, compare, write back, reload and compare, as specified |
| TrustTransactions.EnrollmentBootstrap.ApplyTrustStoreMutation | apps/mcp-server/src/enrollment-bootstrap.ts:356-397 | the specified outcome and state; agreement or latch is kept |
| TrustTransactions.EnrollmentBootstrap.ActivateDevice | apps/mcp-server/src/enrollment-bootstrap.ts:564-596 | the same transaction without the latch check; agreement or latch is kept |
| AuditSinks.RunKeeps | apps/mcp-server/src/gateway-audit.ts:216-334 | in every interleaving of emissions, drains, write outcomes and flushes the queue is bounded, drains are serialized and a drain that ended well left nothing accepted before it was scheduled |
| AuditSinks.RunGrows | apps/mcp-server/src/gateway-audit.ts:216-334 | records, outcomes and latches are never taken back |
| AuditSinks.InOrder | apps/mcp-server/src/gateway-audit.ts:290-334 | records stand in order of acceptance, none before its predecessor |
| AuditSinks.ExactlyOnce | apps/mcp-server/src/gateway-audit.ts:306-334 | a run from a fresh sink leaves in the chain exactly the events that left the queue, each once and in order, if and only if no write of the run was rejected after its record was stored |
| AuditSinks.LandedRejectionDuplicates | packages/audit/src/startup.ts:575-607 | after a write that was rejected although stored, the retry records the event twice, whether it is then stored or rejected the same way |
| AuditSinks.LandedRejectionsPileUp | packages/audit/src/startup.ts:575-607 | n such rejections of one event leave n copies of it, for every n |
| AuditSinks.FlushMeansCommitted | apps/mcp-server/src/approval-audit.ts:171-211 | when a flush resolves, everything emitted before the call was accepted and is in the chain, in both sinks |
| AuditSinks.HealthyFlushResolves | apps/mcp-server/src/gateway-audit.ts:257-268 | a flush resolves when no write was rejected and nothing was dropped |
| AuditSinks.NothingLost | apps/mcp-server/src/gateway-audit.ts:216-229 | an accepted event is queued or in the chain |
| AuditSinks.OverflowExactly | apps/mcp-server/src/gateway-audit.ts:216-229 | the overflow latch is set in a run if and only if an event of a type the sink takes was emitted while 4096 were pending |
| EvidenceSink.Sink.Emit | apps/mcp-server/src/approval-audit.ts:140-148 | the event joins the queue while fewer than 4096 are pending, and otherwise sets the overflow latch; the gateway sink also schedules a drain |
| EvidenceSink.Sink.Continue | apps/mcp-server/src/approval-audit.ts:195-211 | one pass of the drain loop hands out the oldest event, or ends the drain |
| EvidenceSink.Sink.WriteRejected | apps/mcp-server/src/gateway-audit.ts:323-334 | the head stays queued and the drain ends in failure |
| EvidenceSink.Sink.WriteStored | apps/mcp-server/src/gateway-audit.ts:323-334 | the head leaves the queue and the loop goes on with the next |
| EvidenceSink.Sink.CallFlush | apps/mcp-server/src/approval-audit.ts:171-186 | which drains the caller waits for |
| EvidenceSink.Sink.FinishFlush | apps/mcp-server/src/gateway-audit.ts:257-268 | resolves exactly as specified; then everything accepted before the call is in the chain |
| AdminDisclosure.DisclosureFollowsEvidence | apps/mcp-server/src/admin-ipc.ts:1106-1236 | in every run a token or secret is disclosed, and a definite refusal given, only with all evidence of the transition in the chain |
| AdminDisclosure.EvidenceSurvives | apps/mcp-server/src/admin-ipc.ts:1106-1236 | whatever the answer, each event is in the chain, still queued, or its loss is latched |
| AdminDisclosure.AnswersStand | apps/mcp-server/src/admin-ipc.ts:1106-1143 | an answer is given once |
| AdminDisclosure.HealthyRunsAnswer | apps/mcp-server/src/admin-ipc.ts:1106-1236 | while every write is stored and nothing is dropped, each answer given is the disclosure of a granted request or the refusal of another |
| ToolPipelineProofs.RunKeeps | apps/mcp-server/src/index.ts:2430-4451 | every step of every interleaving keeps the chain in agreement with where each invocation stands; which invocations may execute at all is ToolDecisions |
| ToolPipelineProofs.ExecutionFollowsStarted | apps/mcp-server/src/index.ts:3762-3819 | a tool other than health begins to execute only with a STARTED under its own operation id already in the durable chain |
| ToolPipelineProofs.OncePerOperation | apps/mcp-server/src/index.ts:2362-2372 | in every run an operation id has at most one STARTED and one later COMPLETED, and the id of a DENIED has no other record |
| ToolPipelineProofs.SuccessIsRecorded | apps/mcp-server/src/index.ts:4362-4451 | a success answer implies a durable COMPLETED, and flushed evidence for an approved execution |
| ToolPipelineProofs.DenialIsRecorded | apps/mcp-server/src/index.ts:2362-2372 | a denial or a request for approval is answered only with a durable DENIED and no execution; the latter only with the request's evidence flushed |
| ToolPipelineProofs.MutationsAreApproved | apps/mcp-server/src/index.ts:3400-3596 | each executed file mutation consumed an approval granted for exactly its payload, actor, workspace and policy, with the evidence flushed first; no two invocations share one |
| ToolPipelineProofs.ApprovalsTouchedOnlyWhenRequired | apps/mcp-server/src/index.ts:3306-3596 | helper, one step of ApprovalsUntouched: approvals are created or redeemed only by an admitted invocation whose composed decision is to require approval |
| ToolPipelineProofs.ApprovalsUntouched | apps/mcp-server/src/index.ts:3306-3596 | a run without operator decisions in which no composed decision requires approval leaves the approval table unchanged |
| ToolPipelineProofs.LatchStops | apps/mcp-server/src/index.ts:3762-3819 | after the degraded latch, which is never cleared, no invocation whose STARTED had not been handed to the store executes |
| ToolPipelineProofs.LatchExactly | apps/mcp-server/src/index.ts:3762-3819 | on a degraded server an invocation can still execute if and only if its STARTED is with the store or secured |
| ToolPipelineProofs.LatchDoesNotCallBack | apps/mcp-server/src/index.ts:4373-4383 | a concrete run in which a tool executes after the latch is set: its STARTED was queued behind the COMPLETED whose rejection set the latch |
| ToolPipelineProofs.ConsumedForGood | packages/policy/src/approval-state.ts:801-917 | a consumed approval keeps its redeemer in every run and is never redeemed again |
| ToolDecisions.DecisionLeads | apps/mcp-server/src/index.ts:3306-3596 | where a decision leads, on the two effects, the tool and the approval presented: a denial of either layer denies, two permissions let a tool that is no mutation go on, anything else needs an approval |
| ToolDecisions.DeniedNeverRuns | apps/mcp-server/src/index.ts:3380-3402 | in every run an invocation for which either policy layer said deny never executes and is never answered as an execution is |
| ToolDecisions.RefusedNeverRuns | apps/mcp-server/src/index.ts:2430-3306 | nor one that the schema, workspace, authorization or target checks refuse |
| ToolDecisions.GatedNeverRuns | apps/mcp-server/src/index.ts:2286-2302 | nor one, other than health, that arrives while the server is degraded or its gate is closed |
| ToolDecisions.ExecutionWasCleared | apps/mcp-server/src/index.ts:3306-3596 | in every run an execution was let through by an event for which neither layer said deny; without a consumed approval both said allow and it is no mutation; with one, the event presented the token of a request approved for its binding |
| ToolDecisions.EntitledExactly | apps/mcp-server/src/index.ts:3306-3819 | on a server that is not degraded an admitted invocation can execute after its decision if and only if the layers allow it, it is no mutation and the gate is open to it, or it presents such an approval |
| ToolDecisions.AnswerIsTheTools | apps/mcp-server/src/index.ts:4362-4451 | in every run a success or a tool error is answered only as the tool returned |
| ToolDecisions.ExecutionCanAnswer | apps/mcp-server/src/index.ts:4362-4451 | on a server that is not degraded an invocation whose tool returns can be answered as it returned |
| ToolDecisions.DenialCanAnswer | apps/mcp-server/src/index.ts:2362-2372 | and one that a layer denies can be answered with the denial |
| ToolDecisions.OverForGood | packages/policy/src/approval-state.ts:474-517 | in every run a consumed, expired, rejected or invalidated request stays as it is |
| ToolDecisions.TokensAreGranted | packages/policy/src/approval-state.ts:730-770 | in every run a request has a token only if an operator granted it with that token while it was pending |
| ToolDecisions.PresentingDoes | packages/policy/src/approval-state.ts:801-917 | presenting a token consumes a request approved for the same binding under that token, closes an active one bound to another policy, and otherwise changes no request; the last two deny |
| ToolDecisions.AskingDoes | apps/mcp-server/src/index.ts:3400-3530 | asking without a token adds one pending request bound as the event says, reuses one, or ends in a quota error |
| ToolDecisions.OperatorDoes | packages/policy/src/approval-state.ts:730-797 | a pending request is approved with the granted token or closed, an active one expires, and nothing else changes |
| ToolDecisions.DegradedExactly | apps/mcp-server/src/index.ts:2362-4384 | the latch is set in a run if and only if the record of a denial or of an end was found not to be secured |
| ToolDecisions.MirrorComesFirst | apps/mcp-server/src/audit-write-authority.ts:157-180 | a record goes to the store, behind those already there, if and only if the mirror has taken it and the server is not degraded |
| ToolDecisions.StoreLeads | packages/audit/src/startup.ts:575-607 | the store ends the oldest append: a stored record is in the chain and secured, a rejected one is not secured and in the chain only if it landed |
| ToolDecisions.ArrivalLeads | apps/mcp-server/src/index.ts:2286-2372 | an invocation is admitted on arrival unless the gate is closed to it, which only health passes; a refusal of the checks is recorded as a denial |
| ToolDecisions.UnsecuredAnswers | apps/mcp-server/src/index.ts:3762-4383 | how an invocation whose record is not secured is answered |
| ToolDecisions.FlushLeads | apps/mcp-server/src/index.ts:3502-4420 | where the outcome of each flush leads: the request is reported, the approved start gone on with, the outcome answered, only with the evidence committed |
| ToolDecisions.RefusalAnswers | apps/mcp-server/src/index.ts:3640-3680 | a refusal that closed a request, or found it expired, is answered as a denial only with its evidence committed |
| ToolEvidence.RunKeeps | apps/mcp-server/src/index.ts:3502-3650 | every interleaving of the pipeline with its evidence sink keeps each raised flag backed by the chain and each pending flush behind the event it is for |
| ToolEvidence.MutationFollowsEvidence | apps/mcp-server/src/index.ts:3568-3596 | when a mutation begins to execute, the record that its approval was consumed is already in the chain |
| ToolEvidence.EvidenceComesFirst | apps/mcp-server/src/index.ts:3502-4420 | in every run an executed mutation has its consumption in the chain, a successful approved execution also its outcome, and a caller learns of a request only with the creation of that request in the chain |
| ToolEvidence.HealthyRunsGoOn | apps/mcp-server/src/index.ts:3502-4420 | while every write of evidence is stored and nothing is dropped, no invocation is answered that its evidence could not be recorded |
| Ipv6.ParseIpv4Octets | apps/mcp-server/src/remote-resource-limits.ts:116-133 | the loop reads a dotted quad as specified |
| Ipv6.OctetsCanonical | apps/mcp-server/src/remote-resource-limits.ts:104-133 | a text is read as an address if and only if it is that address's canonical dotted quad |
| Ipv6.ParseHextetRun | apps/mcp-server/src/remote-resource-limits.ts:141-171 | the loop reads a run of groups as specified, an IPv4 literal only at the end |
| Ipv6.PartsParse | apps/mcp-server/src/remote-resource-limits.ts:141-171 | parts are read as exactly the groups they spell |
| Ipv6.ParseIpv6Groups | apps/mcp-server/src/remote-resource-limits.ts:181-216 | one `::` at most, standing for at least one group; a zone index is dropped |
| Ipv6.ParseBodyIsDenotation | apps/mcp-server/src/remote-resource-limits.ts:181-216 | a literal denotes eight groups by section 2.2 of RFC 4291 if and only if the parser reads it as them and it has no dot before its `::` |
| Ipv6.ParseBodyExactly | apps/mcp-server/src/remote-resource-limits.ts:181-216 | a literal is read as eight groups if and only if it denotes them, or the run before its `::` ends in a dotted quad and fills to them |
| Ipv6.EarlyQuadIsRead | apps/mcp-server/src/remote-resource-limits.ts:141-216 | every dotted quad followed by `::` is read as its two groups and six zeros although it denotes no address |
| Ipv6.ZoneIsDropped | apps/mcp-server/src/remote-resource-limits.ts:183-189 | a zone index does not change the groups |
| Ipv6Format.LongestZeroRun | apps/mcp-server/src/remote-resource-limits.ts:219-241 | the loop finds the longest zero run, the leftmost of equals, never a single zero |
| Ipv6Format.RunToCompressIsUnique | apps/mcp-server/src/remote-resource-limits.ts:219-241 | there is only one such run |
| Ipv6Format.FormatIpv6Groups | apps/mcp-server/src/remote-resource-limits.ts:244-258 | the text compresses that run |
| Ipv6Format.FormatRoundTrip | apps/mcp-server/src/remote-resource-limits.ts:181-258 | reading the canonical text of any eight groups gives them back |
| Ipv6Format.CanonicalTextIsUnique | apps/mcp-server/src/remote-resource-limits.ts:244-258 | eight groups have one canonical text |
| Ipv6Format.DocumentationAddress | apps/mcp-server/src/remote-resource-limits.ts:244-258 | the documentation address is written `2001:db8::1` |
| Texts.HexTextIsPlain | apps/mcp-server/src/remote-resource-limits.ts:244-258 | a group is written in lower case without a zero in front |
| Ipv6Format.ExpandIpv6 | apps/mcp-server/src/remote-config.ts:62-108 | the second parser as specified |
| Ipv6Format.ParsePieces | apps/mcp-server/src/remote-config.ts:100-107 | the loop accepts exactly hextets |
| Ipv6Format.ExpandDenotes | apps/mcp-server/src/remote-config.ts:62-108 | helper, one direction of ExpandIsDenotation: what the second parser accepts denotes the groups it gives |
| Ipv6Format.ExpandIsDenotation | apps/mcp-server/src/remote-config.ts:62-108 | the second parser gives eight groups if and only if the literal denotes them by section 2.2 of RFC 4291 |
| Ipv6Format.ParsersAgreeExactly | apps/mcp-server/src/remote-config.ts:62-108 | the second parser gives the groups if and only if the first does and the literal has no zone index and no dot before its `::` |
| Ipv6Format.QuadBeforeGap | apps/mcp-server/src/remote-resource-limits.ts:141-216 | `1.2.3.4::` is read as `102:304::` by the first parser and refused by the second |
| PeerNetworks.NormalizePeerNetwork | apps/mcp-server/src/remote-resource-limits.ts:297-330 | on the parsed text: the dotted quad of an IPv4 address, plain or mapped; for any other address the canonical text of its first four groups and four zero groups, and `/64`; the unknown key for a missing address, nothing for a malformed one |
| PeerNetworks.KeysDecidePeers | apps/mcp-server/src/remote-resource-limits.ts:261-330 | keys are equal if and only if the peers are; families and the unknown key are disjoint |
| PeerNetworks.SharedKeyMeansSamePeer | apps/mcp-server/src/remote-resource-limits.ts:297-330 | two addresses share a key if and only if they are the same peer |
| PeerNetworks.NetworksShareKeys | apps/mcp-server/src/remote-resource-limits.ts:297-330 | two addresses that are not IPv4-mapped share a key if and only if their groups agree at the first four places |
| PeerNetworks.MappedIsItsQuad | apps/mcp-server/src/remote-resource-limits.ts:261-275 | an IPv4-mapped address in any spelling is the peer its dotted quad is |
| SessionTable.RunKeeps | apps/mcp-server/src/chatgpt-auth-bridge.ts:155-366 | in every run the size stays within the cap and no stored record is marked revoked |
| SessionTable.LazyIsEager | apps/mcp-server/src/chatgpt-auth-bridge.ts:155-366 | every run is answered with the same results, error codes and counts as by a table that drops each session the moment its idle time exceeds the TTL |
| SessionTable.RevokeAnswersDiffer | apps/mcp-server/src/chatgpt-auth-bridge.ts:251-262 | the boolean of a revocation differs exactly when the session is stored but expired |
| SessionTable.DeadStaysDead | apps/mcp-server/src/chatgpt-auth-bridge.ts:199-246 | an id that is no longer live is never accepted again |
| SessionTable.IdleSessionIsOver | apps/mcp-server/src/chatgpt-auth-bridge.ts:199-296 | a session last active at some time and not presented since is refused, inactive and not counted at every moment more than the TTL later, whatever calls come between |
| SessionTable.ValidatesExactly | apps/mcp-server/src/chatgpt-auth-bridge.ts:199-246 | a session validates if and only if its id is well formed and stored, it was active within the TTL and the credential is its own; it is then active from now on, and another credential ends it |
| SessionTable.CreatesExactly | apps/mcp-server/src/chatgpt-auth-bridge.ts:155-192 | a session is created if and only if the credential is known and fewer than the cap were active within the TTL |
| SessionTable.RevokesExactly | apps/mcp-server/src/chatgpt-auth-bridge.ts:251-288 | a revocation removes that session alone and says whether it was stored; a session is active if and only if it is stored and was active within the TTL |
| SessionTable.MintedIdIsWellFormed | apps/mcp-server/src/chatgpt-auth-bridge.ts:110-173 | a minted id passes the format check if and only if its prefix has at most 31 characters |
| SessionTable.LongestPrefixNeverValidates | apps/mcp-server/src/chatgpt-auth-bridge.ts:110-210 | a session minted under an admitted 32-character prefix is refused by every validation |
| SessionTable.LongestPrefixIsStored | apps/mcp-server/src/chatgpt-auth-bridge.ts:155-296 | while it lives such a session is stored, counted, reported as active and revocable, and never validates |
| SessionTable.SessionBridge.SweepExpiredSessions | apps/mcp-server/src/chatgpt-auth-bridge.ts:358-366 | the loop keeps exactly the live sessions |
| SessionTable.SessionBridge.CreateSession | apps/mcp-server/src/chatgpt-auth-bridge.ts:155-192 | the specified answer and table |
| SessionTable.SessionBridge.ValidateSession | apps/mcp-server/src/chatgpt-auth-bridge.ts:199-246 | the specified answer and table, check by check |
| SessionTable.SessionBridge.RevokeSession | apps/mcp-server/src/chatgpt-auth-bridge.ts:251-262 | the specified answer and table |
| SessionTable.SessionBridge.RevokeAllSessions | apps/mcp-server/src/chatgpt-auth-bridge.ts:267-272 | leaves no session |
| SessionTable.SessionBridge.IsSessionActive | apps/mcp-server/src/chatgpt-auth-bridge.ts:277-288 | the specified answer and table |
| SessionTable.SessionBridge.GetActiveSessionCount | apps/mcp-server/src/chatgpt-auth-bridge.ts:293-296 | counts the live sessions |
| FieldScan.FindActorFieldInjection | apps/mcp-server/src/remote-execution.ts:417-468 | terminates on every tree and accepts if and only if no object at any depth has a reserved key, there are at most 8192 values and none lies deeper than 32; a reported path leads to a reserved key |
| FieldScan.ReservedExactly | apps/mcp-server/src/remote-execution.ts:454-464 | some object has a reserved key if and only if a path of keys and indices leads to one that has |
| FieldScan.DeepExactly | apps/mcp-server/src/remote-execution.ts:430-436 | a value lies too deep if and only if a path of more than 32 steps leads to one |
| FieldScan.PushFields | apps/mcp-server/src/remote-execution.ts:454-464 | pushes every member, or stops at the first reserved key |
| FieldScan.PushItems | apps/mcp-server/src/remote-execution.ts:447-452 | pushes every element |
| FieldScan.RenderIs | apps/mcp-server/src/remote-execution.ts:447-464 | the path that is reported |
| PlanRunner.RunIsShaped | apps/mcp-server/src/composite-framework.ts:716-813 | every run has results PASSED*, at most one FAILED or TIMED_OUT, SKIPPED*; the executor is asked for exactly the steps not skipped; success exactly when all passed |
| PlanRunner.TimeoutIsReported | apps/mcp-server/src/composite-framework.ts:717-768 | timed out exactly when a step timed out or an abort was seen before a step |
| PlanRunner.StatusesAreTrue | apps/mcp-server/src/composite-framework.ts:717-800 | in every run a step is PASSED if and only if it was started and exited with code 0 in time with no abort seen after it, TIMED_OUT if and only if it was started and exited out of time or an abort was seen after it, SKIPPED if and only if it was not started, FAILED otherwise |
| PlanRunner.RaisedExactly | apps/mcp-server/src/composite-framework.ts:785-795 | a run is abandoned if and only if a step that was started ended in a capacity error |
| PlanRunner.TestArgvShapes | apps/mcp-server/src/composite-framework.ts:400-474 | the arguments of a test run are permitted if and only if they have one of four shapes |
| PlanRunner.PermittedMeans | apps/mcp-server/src/composite-framework.ts:400-474 | no token of a permitted step has a character of a shell, and executable, side effects and ceilings are the registry's |
| PlanRunner.TargetIsBelow | apps/mcp-server/src/composite-framework.ts:400-474 | a permitted test target is no option, is not absolute, and has no two dots anywhere |
| PlanRunner.ContainsExactly | apps/mcp-server/src/composite-framework.ts:400-474 | a text contains a part if and only if the part stands somewhere in it |
| PlanRunner.NoDeviation | apps/mcp-server/src/composite-framework.ts:400-474 | helper: after the registry check the plan-deviation check cannot fire |
| PlanRunner.ExecuteCompositePlan | apps/mcp-server/src/composite-framework.ts:619-829 | refused exactly when ticket, authority, plan hash or registry disagree, with nothing executed; otherwise the specified results in plan order, the executed steps a prefix of the plan, and the ticket consumed |
| PlanRunner.RunSteps | apps/mcp-server/src/composite-framework.ts:716-813 | the loop gives the specified results and asks the executor for exactly the executed prefix |
| TargetPaths.NormalizeDecides | apps/mcp-server/src/approval-gate.ts:260-297 | a path exactly for a readable candidate that leads strictly inside the root, unless the first name below it starts with two dots; the root selector exactly for the root |
| TargetPaths.UnreadableIsRefused | apps/mcp-server/src/approval-gate.ts:260-284 | an empty, absolute or drive path, and one with a NUL or a backslash, is refused whatever the root |
| TargetPaths.AcceptedIsFaithful | apps/mcp-server/src/approval-gate.ts:260-297 | an accepted path has only proper names, leads where the candidate leads and lies strictly inside the root |
| TargetPaths.SpellingsAgree | apps/mcp-server/src/approval-gate.ts:260-297 | two accepted spellings give the same path if and only if they lead to the same location |
| TargetPaths.NameThenUpCancels | apps/mcp-server/src/approval-gate.ts:286-292 | a name followed by `..` leads nowhere, wherever they stand in a path |
| TargetPaths.UpLeavesTheWorkspace | apps/mcp-server/src/approval-gate.ts:286-297 | `..` leads out of the workspace root and is refused, unless the root is the top of the file system |
| TargetPaths.DottedNameIsRefused | apps/mcp-server/src/approval-gate.ts:293-295 | a name such as `..notes` directly below the root is refused |
| TargetPaths.IdempotentExactly | apps/mcp-server/src/approval-gate.ts:260-297 | normalizing an accepted path gives it back if and only if it does not look like a drive path |
| TargetPaths.DrivePathIsNotIdempotent | apps/mcp-server/src/approval-gate.ts:282-284 | `./C:/x` gives `C:/x`, which is refused |
| PolicyDecisions.ReduceDecisions | apps/mcp-server/src/approval-gate.ts:554-589 | the loop takes the most restrictive decision, and no decision of that effect has a rule id that stands before its own in the order of code units; none only for no targets |
| PolicyDecisions.OrderDoesNotMatter | apps/mcp-server/src/approval-gate.ts:554-600 | effect and rule id do not depend on target order |
| PolicyDecisions.MostRestrictiveWins | apps/mcp-server/src/approval-gate.ts:554-600 | one denied target denies all; all are allowed only if each is |

## Left out

- Sockets, TLS, HTTP, file descriptors and the command line: plumbing around the modelled state.
- Ed25519, SHA-256, schema validation and redaction patterns: library behaviour; the hash is a parameter.
- `audit-write-authority.ts`: its one write path, mirror first and durable chain second, is the Mirroring and Appending steps of the tool pipeline; binding the runtime once is not modelled.
- Records of other emitters between the lifecycle records of the durable chain: they do not affect the order the properties speak of.
- Closing the audit runtime: a closed runtime refuses like a blocked gate or a failed mirror write.
- Approval quotas, review material and expiry deadlines: a quota error and the deadline arrive as events.
- ToolPipelineProofs.MutationsAreApproved: the outcome of a flush arrives with the step; ToolEvidence composes the pipeline with the sink that decides it.
- ToolEvidence.EvidenceComesFirst: events that other callers emit into the same sink are steps of the sink; which approval an event names is not part of the sink's state.
- Tool execution inside the subsystems: a tool returns or fails.
- DeviceTrust.MutationKeeps: the id and the time of a new record come from the generator and the clock, and are taken to be 32 lower-case hexadecimal digits and not blank.
- TrustTransactions.TrustFile.Save: the ceiling on the indented text of the file is one of the ways a save fails.
- TrustTransactions.RunKeeps: assumes that a candidate save which reports success did write the candidate; TrustTransactions.MisreportedSaveDiverges shows the assumption is needed.
- The pending-enrollment challenge and its one-time secret before activation: only the order of evidence and disclosure is modelled.
- AuditChain.AuditLogger.Log: minimization and redaction of the record happen before the modelled append, and the refusal of a re-entrant append is not modelled.
- RemoteGateway.AdmissionLimiter.ReleaseSlot: the closure's own one-shot flag is not a field; a slot is released by removing the registry entry, which can be removed once.
- CanonicalJsonProofs.CanonicalDecidesSame: numbers are integers; arrays hold no `undefined` and objects no repeated key.
- Sharing and cycles in parameter graphs: `FieldScan` scans trees, as parsed JSON is; the cycle check never fires on them.
- PeerNetworks.NormalizePeerNetwork: the platform's IPv6 test is an arbitrary predicate that the text must pass as well.
- TargetPaths.NormalizeDecides: the workspace root is an absolute normalised path given by its segments, or the empty string; a relative root is not modelled.
- The `reason` of a reduced policy decision: it follows the first winning target and is not order independent.
- PlanRunner.ExecuteCompositePlan: durations, output texts and the post-admission test hook are not modelled, nor is single use of a ticket under overlapping runs.
- Layers B and C admission of `remote-execution.ts` beyond the shared table, session audit events, tool catalogues and configuration selectors are not modelled.

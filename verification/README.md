# Verified model of the evidence ledger and its control plane

The repository produces tamper-evident audit evidence: evidence is signed, stored, recorded in a
hash-chained PostgreSQL ledger, and the digest is anchored in a smart contract. A deterministic control
plane (a task graph, a runtime, a verification gate, and Markdown documents that carry provenance)
governs the agents that change it. This project models both in Dafny and proves what they promise over
all inputs, all runs and all interleavings. `dafny verify dfyconfig.toml` checks everything.

| module | what it models |
|---|---|
| `SigningLedger` | rows, row hashes, the chain scan, and what an accepted chain is worth |
| `LedgerProtocol` | `appendEvent` of any number of writers, statement by statement, against one table |
| `StableStringify` | canonical JSON and evidence documents |
| `JsonText` | the text of a JSON value, stated apart from the printer, and that it is what is printed |
| `DerCodec` | DER ECDSA-Sig-Value (section 2.2.3 of RFC 3279; X.690 sections 8.1.3, 8.3, 10.1) to raw r, s and back |
| `TaskGraph`, `TaskGraphRuns` | the retrying task graph, its history, and the separate list of reachable states |
| `RuntimeAdapter` | one run of one task: adapter, run evidence, graph event |
| `RuntimeSummary`, `EvidenceGate` | the summary of run evidence, and the verification gate over it |
| `ReviewArtifact` | the reviewer's review file, from its writer to the gate |
| `WorkOrchestration` | the status report on the committed documents and the next step it names |
| `EvidencePipeline`, `PipelineConservation` | validate, sign, store, record; failures and reconciliation |
| `VerifiedAnchor` | the internal ledger verifier, the anchoring service and the contract |
| `AnchoredEvidence` | pipeline and anchoring together over one ledger |
| `Frontmatter` | the frontmatter writer and parser |
| `MarkdownSections`, `SourcePatterns`, `Provenance` | the section splitter, the patterns, and the readers of provenance |
| `Templates`, `GeneratedDocuments` | the scaffolds and the handoff in full, and what is read back from them |
| `SpecReadiness` | the readiness gate for specs |
| `SpecHandoff` | from a spec that passes the gate to its handoff and the conformance check |
| `PackProvenance` | the chain from a context pack to the handoff |
| `Prelude`, `JsText`, `JsonValue`, `TextLines` | outcome types, string tests, JSON values, lines of text |

Conventions. A thrown error is an `Err` value. SHA-256 and canonicalization are arbitrary functions: no
result assumes that they are injective, and results about tampering return the collision instead. A run
is a sequence of steps; a step that is not enabled changes nothing, so statements over all step
sequences are statements over all interleavings. Objects that the code changes in place are classes
whose methods are proved against functions of the old state; the theorems are then about those functions.

Where documentation and code differ, the code is modelled. `verifyEvidenceDocument` refuses documents
whose payload is a falsy JSON value even when they are freshly created (`RereadDocumentVerifies` says for
which payloads it accepts). Frontmatter values that are wrapped in quotes, blank at an end or empty are
written but not read back (`RoundTrip` gives the exact condition). The failure that uses up the last retry ends
the graph without lowering the count of remaining events by the usual formula (`PotentialFallsExactly`). The readiness
gate accepts a context path or id that goes over two lines, with which no handoff can agree (`HandoffConforms`).

## Model

| member | source | states |
|---|---|---|
| `SigningLedger.VerifySigningEventRows` | lib/pg-signing-logger.js:253-291 | the scan says valid if and only if every row links to its predecessor and hashes to its own hash; otherwise it names the first row that breaks this, with the cause that holds there, a bad link before bad content |
| `SigningLedger.DescribesIsFunctional` | lib/pg-signing-logger.js:253-291 | that description of a result leaves no freedom: two results that meet it for the same rows are equal |
| `SigningLedger.TamperEvidence` | lib/pg-signing-logger.js:22-34 | two accepted ledgers with one lastHash agree row by row on event id, type, payload, signature, previous hash and row hash, or a SHA-256 collision, a canonicalization clash or a preimage of the genesis hash is computed from them |
| `SigningLedger.AlteredRowIsReported` | lib/pg-signing-logger.js:253-284 | when one row of an accepted ledger is altered and its stored hash is not, the scan reports that very row: its link if the previous hash was altered, else its content unless its five fields still hash to the stored value |
| `SigningLedger.AlteredRowNeedsClash` | lib/pg-signing-logger.js:87-96 | if the altered ledger is still accepted although one of the row's fields differs, the old and the new fields have one canonical text, or their two texts one SHA-256 digest |
| `SigningLedger.OnlyTruncationEscapes` | lib/pg-signing-logger.js:176-186 | of all ways to delete, repeat or reorder rows of an accepted ledger, only cutting off its tail leaves an accepted ledger, unless a forgery can be computed |
| `SigningLedger.TruncationIsAccepted` | lib/pg-signing-logger.js:286-290 | every prefix of an accepted ledger is accepted, and shows only in totalEvents and lastHash |
| `LedgerProtocol.SigningEvents.SelectLast` | lib/pg-signing-logger.js:131-137 | the SELECT reads the hash of the row with the greatest sequence, or the genesis hash of an empty table |
| `LedgerProtocol.NewestIsGreatest` | lib/pg-signing-logger.js:131-137 | the row that is read has the greatest sequence number of the table |
| `LedgerProtocol.SigningEvents.InsertRow` | lib/pg-signing-logger.js:139-155 | the INSERT takes a sequence number whether it succeeds or not, and fails when the event id is taken |
| `LedgerProtocol.SigningEvents.AppendEvent` | lib/pg-signing-logger.js:112-174 | without interference: for a valid request with an unused id one row more, with the request's own fields, the newest hash, and the SHA-256 of the five canonicalized fields; else the error of the first check that fails and no row; lock and transactions as before |
| `LedgerProtocol.EveryInterleavingVerifies` | lib/pg-signing-logger.js:98-104 | after any interleaving of any statements of any writers, the ordered scan is accepted with one event per commit; sequences rise in commit order and event ids differ |
| `LedgerProtocol.ScanIsCommitOrder` | lib/pg-signing-logger.js:187-195 | a scan ordered by sequence is the commit order, whatever order the rows are stored in |
| `LedgerProtocol.CommittedRowsArePermanent` | lib/pg-signing-logger.js:69-72 | nothing that happens later changes, moves or removes a committed row |
| `LedgerProtocol.RunsAreAtomic` | lib/pg-signing-logger.js:123-157 | the interleaved protocol refines an atomic one: after any run the committed rows are the fold of one atomic append per commit, each of the request its writer began with, under the id and time of its own INSERT, at the next sequence number and the newest hash |
| `LedgerProtocol.EachStepIsAnAppendOrNothing` | lib/pg-signing-logger.js:123-157 | in every reachable state a step adds nothing, or is the atomic append of the request that the committing writer began with |
| `LedgerProtocol.LockExcludes` | lib/pg-signing-logger.js:127-129 | at most one transaction is past the advisory lock in every reachable state |
| `LedgerProtocol.CommittedRowsAreNamed` | lib/pg-signing-logger.js:113-121 | whatever the interleaving, no row without an event type or a signature is committed |
| `LedgerProtocol.SequenceAccounts` | lib/pg-signing-logger.js:32-34 | in every reachable state the sequence numbers given out are those of the committed rows, of the row that waits for its COMMIT, and of the INSERTs that failed or were rolled back |
| `LedgerProtocol.RollbackLeavesOnlyAGap` | lib/pg-signing-logger.js:168-171 | a transaction run alone that inserts and rolls back leaves the table as it was but for a lost sequence number |
| `StableStringify.HasOneReading` | scripts/run-verification-evidence-gate.js:10-19 | a printed value can be read off the front of a text in one way only, up to key order, if no digit follows |
| `StableStringify.BlindToOrder` | scripts/run-verification-evidence-gate.js:14-17 | values that differ in key order alone, at any depth, print the same |
| `StableStringify.StringifyIsExact` | scripts/run-verification-evidence-gate.js:10-19 | two JSON values print the same if and only if they are equal up to key order |
| `JsonText.PrintsText` | scripts/run-verification-evidence-gate.js:10-19 | what is printed is the JSON text of the value: RFC 8259 literals, decimal digits without leading zeros, the shortest escapes, commas and colons in place, members sorted |
| `JsonText.BeforeIsUnitOrder` | scripts/run-verification-evidence-gate.js:14-17 | keys are compared as JavaScript compares strings, by UTF-16 code units with supplementary characters as surrogate pairs |
| `JsonText.KeysPrintInOrder` | scripts/run-verification-evidence-gate.js:14-17 | the members of a printed object are those of the value, in rising code unit order of their keys |
| `StableStringify.RereadDocumentVerifies` | scripts/run-verification-evidence-gate.js:25-39 | a document read back with keys in any order verifies if and only if its payload is not falsy |
| `StableStringify.VerifiedDocumentIsGenuine` | scripts/run-verification-evidence-gate.js:25-39 | a document that verifies is, field by field, the one that createEvidenceDocument makes of its payload |
| `StableStringify.AlteredDocumentNeedsClash` | scripts/run-verification-evidence-gate.js:35-39 | another payload passes under the same digest only with two different texts of one SHA-256 digest |
| `DerCodec.DerReader.ReadLength` | lib/aws-kms-provider.js:42-61 | the length reader advances the shared offset past a short or one- or two-byte long form and returns its value, or fails |
| `DerCodec.DerReader.ReadInt` | lib/aws-kms-provider.js:76-106 | the integer reader returns the contents padded or cut to 32 bytes and leaves the offset after them, or fails |
| `DerCodec.DecodeDerSignatureToRaw` | lib/aws-kms-provider.js:35-116 | on every buffer: the padded halves of the encoding's two integers, or the error of the first violated rule |
| `DerCodec.DecoderIsExact` | lib/aws-kms-provider.js:35-116 | a buffer is accepted with these parts if and only if it is a SEQUENCE of two non-negative INTEGERs of at most 256 bits put together from them; it has no second reading |
| `DerCodec.DecodeKeepsValues` | lib/aws-kms-provider.js:73-115 | the two 32-byte halves have the big-endian values of the two encoded integers |
| `DerCodec.BigEndianIsPositional` | lib/aws-kms-provider.js:73-115 | n bytes stand for a number below 256 to the n, to which the leading byte contributes its own multiple of 256 to the n - 1 |
| `DerCodec.EncodeInteger` | lib/aws-kms-provider.js:142-155 | tag, one length byte, and the contents without leading zeros, with a zero in front if the top bit is set |
| `DerCodec.EncodeRawToDer` | lib/aws-kms-provider.js:135-170 | fails on a length other than 64 and on nothing else: the short-form limit is unreachable |
| `DerCodec.DecodeAfterEncode` | lib/aws-kms-provider.js:118-134 | decoding an encoded raw signature gives it back, zero components included; the encoding is canonical and 8 to 72 bytes long |
| `DerCodec.EncodeAfterDecode` | lib/aws-kms-provider.js:118-134 | encoding a decoded buffer gives the same bytes if and only if its lengths are short-form and its integers minimal |
| `DerCodec.CanonicalIsUnique` | lib/aws-kms-provider.js:127-130 | canonical encodings of the same two values are the same bytes |
| `TaskGraph.GraphObject.ResetForRetry` | scripts/agent-task-graph.js:55-79 | a failure starts the next attempt, or ends the graph when no retry is left; the graph it was called on is unchanged |
| `TaskGraph.GraphObject.ApplyEvent` | scripts/agent-task-graph.js:87-162 | every event name on every graph: the error that applies, or a new graph after exactly that transition; the receiver is unchanged |
| `TaskGraph.NamesExactly` | scripts/agent-task-graph.js:87-93 | exactly the eight names are supported, and a terminal graph takes none of them |
| `TaskGraph.BuilderByName` | scripts/agent-task-graph.js:99-108 | on a READY builder, builder-pass makes it PASS and the reviewer READY; builder-fail records the builder as source and starts again, or ends the graph when no retry is left |
| `TaskGraph.ReviewerByName` | scripts/agent-task-graph.js:110-124 | the same for the reviewer, whose pass makes the security reviewer READY if there is one and else the verification |
| `TaskGraph.SecurityReviewerByName` | scripts/agent-task-graph.js:126-142 | the same for a delegated security reviewer, whose pass makes the verification READY |
| `TaskGraph.VerificationByName` | scripts/agent-task-graph.js:144-156 | the same for the verification, whose pass completes the graph |
| `TaskGraph.NotReadyIsRefused` | scripts/agent-task-graph.js:81-85 | the names of a task that is not READY are refused with its status |
| `TaskGraph.SecurityIsRefused` | scripts/agent-task-graph.js:126-142 | without a delegated security reviewer the security names are refused as not delegated |
| `TaskGraph.CreateInitialGraph` | scripts/agent-task-graph.js:23-53 | a bad slug or negative retry limit is refused, anything else gives the initial graph |
| `TaskGraphRuns.ListedStatesAreStages` | scripts/work-development-orchestrator.js:79-114 | the fourteen listed state vectors are exactly the stages of an attempt: passed before the current task, blocked after it |
| `TaskGraphRuns.AcceptedExactly` | scripts/agent-task-graph.js:81-152 | an active graph accepts the pass and the fail of its current task and nothing else; a terminal one accepts nothing |
| `TaskGraphRuns.ReachedStatesAreListed` | scripts/work-development-orchestrator.js:66-115 | soundness: every run, for any roles and retry limit, meets only listed states, with one READY task while active and none afterwards |
| `TaskGraphRuns.ListedStatesAreReached` | scripts/work-development-orchestrator.js:66-115 | completeness: every listed state is reached by some run, for any roles and retry limit |
| `TaskGraphRuns.EveryRunIsConsistent` | scripts/agent-task-graph.js:87-162 | after every run the history records exactly the events and times of the run, and explains the present state |
| `TaskGraphRuns.HistoryIsFaithful` | scripts/agent-task-graph.js:55-79 | replaying the history rebuilds the whole graph; retryCount is the number of RETRY entries; COMPLETE means one full series of passes since the last failure; FAILED means exactly maxRetries + 1 failures |
| `TaskGraphRuns.PotentialFallsExactly` | scripts/agent-task-graph.js:65-78 | (maxRetries - retryCount) * n + (n - stage) falls with an accepted event if and only if the event is not a failure with no retry left |
| `TaskGraphRuns.LastFailureKeepsPotential` | scripts/agent-task-graph.js:65-70 | an input for the exception: with maxRetries 0, builder-fail leaves the formula at n |
| `TaskGraphRuns.EventsLowerMeasure` | scripts/agent-task-graph.js:65-78 | every accepted event lowers the measure that is this formula while the graph is active and 0 once it is terminal |
| `TaskGraphRuns.RunsAreBounded` | scripts/agent-task-graph.js:65-78 | no run accepts more than n * (maxRetries + 1) events |
| `TaskGraphRuns.BoundIsTight` | scripts/agent-task-graph.js:65-78 | that many events are possible |
| `RuntimeAdapter.FeatureFiles.RunTask` | scripts/agent-runtime-adapter.js:378-442 | a refused run writes nothing; any other writes one record and makes the step the record names |
| `RuntimeAdapter.RunsExactly` | scripts/agent-runtime-adapter.js:378-424 | a run is made if and only if the feature is valid and is that of an ACTIVE graph and of the configuration, the named task is READY, its adapter is configured and may run, and the configured role is its actor |
| `RuntimeAdapter.EvidenceTellsTheCall` | scripts/agent-runtime-adapter.js:280-300 | the record carries the run's own id, feature and times, the named task, its adapter and its actor |
| `RuntimeAdapter.EvidenceTellsTheOutcome` | scripts/agent-runtime-adapter.js:302-372 | for each kind of adapter, the record's result, provider, session and execution status are those of the scripted word or of what the reviewer process turned out to be |
| `RuntimeAdapter.EvidenceNamesItsTask` | scripts/agent-runtime-adapter.js:10-15 | a record names an event if and only if its result is a verdict or a timeout, and then the pass or fail of its own task |
| `RuntimeAdapter.NeverRejectedAfterEvidence` | scripts/agent-runtime-adapter.js:426-441 | from a reachable graph the graph never rejects the event of a record already written |
| `RuntimeAdapter.OnlyVerdictsMoveTheGraph` | scripts/agent-runtime-adapter.js:412-424 | a run leaves the graph unchanged if and only if it was a dry run or a provider error |
| `RuntimeAdapter.EvidenceMatchesHistory` | scripts/agent-runtime-adapter.js:426-441 | whatever runs are made, the recorded events, in order and with their times, are the graph's history and rebuild the graph |
| `RuntimeSummary.SortSorts` | scripts/run-verification-evidence-gate.js:135-147 | the sort orders the runs by finishedAt, startedAt, runId and keeps each of them |
| `RuntimeSummary.GroupByTask` | scripts/run-verification-evidence-gate.js:150-157 | the loop groups every run under its task in order, or stops if and only if a run belongs to another feature |
| `RuntimeSummary.SummarizeGroups` | scripts/run-verification-evidence-gate.js:159-172 | one entry per task that was run, with its number of runs and the fields of its greatest run |
| `RuntimeSummary.ReadRuntimeEvidenceSummary` | scripts/run-verification-evidence-gate.js:116-178 | the error of the first check that fails, or the summary of exactly the listed files |
| `RuntimeSummary.ListingOrderIsIrrelevant` | scripts/run-verification-evidence-gate.js:130-172 | with distinct run identifiers, any listing order of the same files gives the same result, errors included |
| `RuntimeSummary.CountsAddUp` | scripts/run-verification-evidence-gate.js:160-163 | the run counts of the tasks add up to the number of runs |
| `EvidenceGate.CompareRoles` | scripts/run-verification-evidence-gate.js:246-253 | reports exactly the roles in which graph and delegation differ |
| `EvidenceGate.CheckReview` | scripts/run-verification-evidence-gate.js:260-282 | reports exactly what is wrong with the reviewer's review |
| `EvidenceGate.CheckSecurityReview` | scripts/run-verification-evidence-gate.js:284-323 | reports exactly what is wrong with the security review or its delegation |
| `EvidenceGate.ValidateVerificationEvidenceGate` | scripts/run-verification-evidence-gate.js:206-404 | the errors are exactly those whose condition holds; it verifies if and only if there are none, with the payload of the files read |
| `EvidenceGate.ReadyToVerify` | scripts/run-verification-evidence-gate.js:104-109 | for a reachable graph, ACTIVE with verification READY means: the events since the last failure are the passes of all earlier tasks, in order |
| `EvidenceGate.DelegationErrorIsExact` | scripts/run-verification-evidence-gate.js:68-92 | which error of the delegation file is reported, and when |
| `EvidenceGate.GraphErrorIsExact` | scripts/run-verification-evidence-gate.js:95-113 | which error of the task graph file is reported, and when |
| `EvidenceGate.PassesExactly` | scripts/run-verification-evidence-gate.js:229-337 | for a reachable graph nothing is reported if and only if this attempt's history is builder-pass, reviewer-pass and, if delegated, security-pass, the roles agree and are independent, the delegated reviewers passed it, and sensitive files come with a delegated security reviewer |
| `EvidenceGate.PassPayload` | scripts/run-verification-evidence-gate.js:339-376 | in a PASS payload the reviewers are the delegated ones and the tasks' actors, none is the builder, retryCount counts the retries, and verify-pass then completes the graph |
| `EvidenceGate.PassIsBackedByRuns` | scripts/run-verification-evidence-gate.js:359-362 | if runs alone drove the graph, each coming after the earlier ones in the summary's order of finishedAt, startedAt, runId, the payload's summary shows, for every task before verification, a latest run that passed it |
| `ReviewArtifact.SearchIsLeftmost` | scripts/run-verification-evidence-gate.js:41-48 | the reader returns the trimmed group of the match, stated by offsets, that starts leftmost at a line, label in any letter case, and nothing if and only if there is none |
| `ReviewArtifact.ReviewRoundTrip` | scripts/run-verification-evidence-gate.js:41-48 | of a review file written for any summary and findings, the gate reads the verdict that was written, and the actor that was written if and only if it is one line without outer blanks and not empty |
| `ReviewArtifact.WrittenReviewApproves` | scripts/agent-runtime-adapter.js:264-278 | a written review approves for a reviewer if and only if it is a PASS by that very reviewer |
| `ReviewArtifact.ReviewSays` | scripts/agent-runtime-adapter.js:264-278 | below its provenance the review has the summary and one line per finding with severity and title, or says that there are none; the session line names the session, or says that it is unavailable |
| `WorkOrchestration.ReadyTaskList` | scripts/work-development-orchestrator.js:408-412 | the READY tasks, each once, and no others |
| `WorkOrchestration.GetWorkOrchestrationStatus` | scripts/work-development-orchestrator.js:347-498 | the errors are exactly the faults of features, roles, task actors, committed adapters, runtime files, graph and evidence file; without one, the report names the only READY task with its phase, or the terminal phase |
| `WorkOrchestration.ReadyChecksAreImplied` | scripts/work-development-orchestrator.js:406-419 | the two READY-task checks find nothing that the list of reachable states does not find |
| `WorkOrchestration.ReachableIsNeverInconsistent` | scripts/work-development-orchestrator.js:347-441 | for a reachable graph there is no fault if and only if the documents around it are in order: one feature, valid and agreeing roles, dry-run adapters, readable runtime files, and an evidence file that is a matching PASS or not needed yet |
| `WorkOrchestration.ReportedTaskIsNext` | scripts/work-development-orchestrator.js:475-498 | for every graph not called inconsistent, reachable or not, the accepted events are exactly pass and fail of the task the report names |
| `WorkOrchestration.ReportedTaskFollowsHistory` | scripts/work-development-orchestrator.js:41-62 | for a reachable graph, the named task is the one after those passed, in order, since the last failure |
| `EvidencePipeline.EvidenceProcessingService.AppendEvidence` | lib/pg-evidence-store.js:46-142 | refuses invalid fields and a taken (evidenceId, version), which only uses up a row id, else adds exactly one row with the evidence, version, digest, signature and algorithms it was given |
| `EvidencePipeline.StoreRefusesExactly` | lib/pg-evidence-store.js:57-90 | what the store accepts, and which check fails first otherwise |
| `EvidencePipeline.RefusesExactly` | lib/evidence-processing-service.js:62-88 | a call gets past the store if and only if schema, version, signer and store agree and the version is new |
| `EvidencePipeline.EvidenceProcessingService.ProcessEvidence` | lib/evidence-processing-service.js:62-112 | a refused call stores and records nothing; any other stores its evidence and signature in one row and either records that row, under the row's own signature, and confirms it field by field, or fails with a request that would record it and is kept |
| `PipelineConservation.SameRequestOnEveryRoute` | lib/evidence-processing-service.js:115-152 | the request of the success path, the reconciliation request after sanitizing, and the request read off the stored row are the same; it carries the signature that was made and a payload in which every field of the row is found |
| `PipelineConservation.EveryEventHasItsRow` | lib/evidence-processing-service.js:90-96 | every evidence.stored event carries the signature of a stored row and, in its payload, the row's id, version, digest, canonicalization, algorithms, key and store reference |
| `PipelineConservation.StoredRowsAreValid` | lib/pg-evidence-store.js:57-90 | over any history, every stored row has the evidence's own valid id, a version from 1 on, a 64-digit digest, and names for all it was signed with |
| `PipelineConservation.NothingIsDoubled` | lib/pg-evidence-store.js:127-135 | over any history, at most one row per (evidenceId, version), at most one event per row, and a ledger the scan accepts |
| `PipelineConservation.UnrecordedIsOwed` | lib/evidence-processing-service.js:26-39 | with no call under way, the rows without an event are exactly those with an outstanding reconciliation request, which is the one the success path would have sent |
| `VerifiedAnchor.VerifyRecordedEvidence` | lib/internal-ledger-verifier.js:20-49 | one snapshot serves both the chain scan and the lookup; confirmation or the refusal that applies first |
| `VerifiedAnchor.TrustAnchor.Anchor` | contracts/TrustAnchor.sol:9-14 | writes the block time for a non-zero digest that has none, else reverts and changes nothing |
| `VerifiedAnchor.GateIsExact` | lib/sidecar-verifier.js:30-80 | the gate opens if and only if metadata, key and signature are good, the digest recomputed from the evidence is the signed one, 64 hex digits and not all zero, and there is an event id; what it lets through is that digest under the metadata's evidence id |
| `VerifiedAnchor.AnchorVerifiedEvidence` | lib/verified-anchor-service.js:111-193 | a call alone does to the contract, and returns, what its four interleavable steps do in any world; it is refused at the gate exactly when the evidence is not verified, and succeeds only by anchoring the recomputed digest, which the ledger it read attests to |
| `VerifiedAnchor.SubmittedIsJustified` | lib/verified-anchor-service.js:140-165 | in every interleaving, a digest is submitted only if the call's own ledger snapshot was an accepted chain with an evidence.stored row for the metadata's evidenceId and the recomputed digest; the zero digest is never anchored |
| `VerifiedAnchor.SubmittedWasOpened` | lib/verified-anchor-service.js:111-140 | in every interleaving, each submission belongs to a call opened with verified evidence, and submits the digest recomputed from it, under the metadata's evidence id and the call's event id |
| `VerifiedAnchor.AnchorsAreForever` | contracts/TrustAnchor.sol:11-12 | once non-zero, anchoredAt of a digest never changes |
| `VerifiedAnchor.OneSuccessPerDigest` | lib/verified-anchor-service.js:153-171 | at most one call per digest returns success |
| `VerifiedAnchor.TwoMaySeeItUnanchored` | lib/verified-anchor-service.js:153-168 | whenever one call can get through, a run exists in which two see the same digest unanchored at once; of their submissions the first succeeds and the second is refused |
| `AnchoredEvidence.SubmittedIsStored` | lib/verified-anchor-service.js:140-165 | with storing, recording, reconciling and anchoring interleaved at will, each submitted digest is the digest of a stored row under the metadata's evidenceId |
| `AnchoredEvidence.AnswerIsFinal` | lib/internal-ledger-verifier.js:25-48 | once a reachable ledger has an event, every later ledger confirms or refuses evidence under that event in the same way, whatever happened in between |
| `AnchoredEvidence.ConfirmedExactly` | lib/internal-ledger-verifier.js:27-48 | a reachable ledger confirms a well-formed request if and only if some row of it, not only the one found first, attests to that evidence and digest under that event id |
| `AnchoredEvidence.AnchoredIsStored` | contracts/TrustAnchor.sol:9-14 | if only the service calls the contract, every anchored digest belongs to stored evidence |
| `Frontmatter.ParseFrontmatter` | scripts/validate-knowledge-metadata.js:40-91 | the line loop computes the parse that the results below are about, for every text |
| `Frontmatter.ParsedValuesAreClean` | scripts/validate-knowledge-metadata.js:55-88 | whatever the text, no value it returns contains a line terminator |
| `Frontmatter.ParseFrontLines` | scripts/validate-knowledge-metadata.js:41-51 | the closing delimiter found is the intended one: exactly the given front lines are read, whatever follows |
| `Frontmatter.FormatListLines` | scripts/generate-context-pack.js:111-114 | a formatted list contributes its header and one line per value |
| `Frontmatter.RoundTrip` | scripts/generate-context-pack.js:116-145 | the parser returns id, type, status, dates and the five lists in order and nothing else if and only if every value is one line, without outer blanks or wrapping quotes, and not empty in a list |
| `Frontmatter.QuotesAreLost` | scripts/validate-knowledge-metadata.js:29-38 | a source path in single quotes comes back without them |
| `MarkdownSections.HeadingExactly` | scripts/check-spec-readiness.js:48-51 | a line is a heading if and only if the pattern, stated by offsets, has a match, and every match gives the same trimmed title |
| `MarkdownSections.SplitSections` | scripts/check-spec-readiness.js:37-59 | the loop computes the sections that the results below are about |
| `MarkdownSections.OpenSectionGrows` | scripts/check-spec-readiness.js:47-58 | a section's text is its lines up to the next heading, trimmed, and later sections leave it alone |
| `SourcePatterns.FindPathIsLeftmost` | scripts/check-spec-readiness.js:66-68 | the search returns the match of the path pattern, stated by offsets, with the least offset, and nothing if and only if there is none |
| `SourcePatterns.FindIdIsLeftmost` | scripts/check-spec-readiness.js:67-69 | the same of the id pattern: label in any letter case, blanks, text in backticks |
| `SourcePatterns.LabelInAnyCase` | scripts/check-spec-readiness.js:67-67 | the label of the id pattern is matched letter by letter in either case |
| `Provenance.ExtractSourceContext` | scripts/check-spec-readiness.js:61-74 | the leftmost matches of both patterns in the Source Context Pack section |
| `Provenance.SourceContextSurvives` | scripts/scaffold-spec-from-context.js:53-61 | a file that starts with the provenance lines gives back path and id if and only if the path ends in .md and neither contains a backtick, whatever text follows, short of a second such section |
| `GeneratedDocuments.ScaffoldsAgree` | scripts/scaffold-spec-from-context.js:53-183 | each of the three scaffolded files in full gives back its path and id if and only if the path ends in .md and neither contains a backtick |
| `MarkdownSections.LinesNeverReopen` | scripts/scaffold-spec-from-context.js:62-98 | following template lines satisfy the premise of these results when none is the section's own heading |
| `Provenance.ExtractHandoffProvenance` | scripts/check-implementation-conformance.js:72-95 | the loop computes, per label, the first non-empty value in the Provenance section |
| `Provenance.ReadsExactly` | scripts/check-implementation-conformance.js:72-95 | a line yields a non-empty value for a label if and only if it is that label's line with the value in backticks |
| `Provenance.HandoffReadsBack` | scripts/create-implementation-handoff.js:17-25 | source, id and spec directory are read back whatever text follows, short of a second Provenance section |
| `GeneratedDocuments.HandoffSurvives` | scripts/create-implementation-handoff.js:11-70 | the handoff in full, which repeats source and id and has a section "PR Provenance", gives back source, id and spec directory |
| `GeneratedDocuments.HandoffRepeats` | scripts/create-implementation-handoff.js:28-66 | where the handoff names source, id, slug, branch and worktree again, they are the same ones |
| `GeneratedDocuments.ProvenanceSurvives` | scripts/check-implementation-conformance.js:130-141 | from a scaffold, however edited after its provenance lines short of a second such section, to the handoff in full: the conformance check reads the path and id the scaffold was made from |
| `SpecReadiness.ValidateRequiredSections` | scripts/check-spec-readiness.js:115-122 | the loop reports, in order, exactly the required sections that the document does not have |
| `SpecReadiness.SectionsAreHeadings` | scripts/check-spec-readiness.js:47-58 | a title names a section if and only if some line is its heading |
| `SpecReadiness.PlaceholdersAreFound` | scripts/check-spec-readiness.js:76-79 | the scan finds nothing if and only if the text has no `<...>` within one line, with something between |
| `SpecReadiness.BulletExactly` | scripts/check-spec-readiness.js:109-112 | a line counts as an open question if and only if, blanks aside, it is a hyphen, at least one blank, and something more |
| `SpecReadiness.UncheckedExactly` | scripts/check-spec-readiness.js:81-89 | a line counts as an unchecked item if and only if, blanks aside, a hyphen is followed by a bracketed blank and a blank |
| `SpecReadiness.NoneIsSaidExactly` | scripts/check-spec-readiness.js:99-107 | which four phrases, each letter in either case, say that no question is open |
| `SpecReadiness.ValidateSpecDirectory` | scripts/check-spec-readiness.js:124-187 | the loops compute the readiness that the results below are about, errors in order |
| `SpecReadiness.ErrorsExactly` | scripts/check-spec-readiness.js:132-179 | an error is reported if and only if it is true of the spec: no directory, an absent file, a heading that no line is, a placeholder, an open question, an unchecked review item, no match for path or id, two paths or ids that differ |
| `SpecReadiness.ReadyExactly` | scripts/check-spec-readiness.js:172-186 | a spec passes if and only if all files are there, each has its sections and nothing unresolved, and all name the same path and id, which are then returned |
| `SpecHandoff.HandoffConforms` | scripts/check-implementation-conformance.js:130-141 | the handoff made from a spec that passes agrees with that spec if and only if path and id are each within one line |
| `SpecHandoff.TwoLinePathIsLetThrough` | scripts/check-spec-readiness.js:66-68 | the input for which it fails: files that name one path over two lines; the gate returns that path and faults only content, and no handoff agrees with it |
| `SpecHandoff.ChangedSpecIsNoticed` | scripts/check-implementation-conformance.js:130-141 | against any other readiness result, a handoff with one-line values is faulted for exactly the values that differ |
| `SpecHandoff.UntouchedIsRefused` | scripts/create-implementation-handoff.js:75-82 | a scaffolded requirements file that nobody has edited is refused, whatever it was made from |
| `SpecHandoff.ScaffoldsHaveTheirSections` | scripts/check-spec-readiness.js:7-31 | the headings of each scaffold are exactly the sections that the gate requires of it, in that order |
| `SpecHandoff.HandoffErrorsExactly` | scripts/create-implementation-handoff.js:72-90 | which check refuses the handoff: the slug's, readiness with all its errors, or a handoff that is there already |
| `SpecHandoff.EditedSpecAgrees` | scripts/check-spec-readiness.js:167-185 | however the scaffolds of one pack are edited after their provenance lines, the gate returns the pack's path and id and finds fault with content only |
| `PackProvenance.SlugIsWords` | scripts/generate-context-pack.js:103-109 | a slug has the same words of lower-case letters and digits, in order, as the lower-case title without its .md, joined by single dashes, and is "context-pack" if there are none |
| `PackProvenance.PackErrorsExactly` | scripts/scaffold-spec-from-context.js:29-51 | a pack is accepted if and only if its frontmatter parses with type context-pack and a non-empty id, which is returned with the path; else the error of the first of these that fails |
| `PackProvenance.PackIsRead` | scripts/scaffold-spec-from-context.js:29-51 | a written pack of one-line values is read if and only if no list value is blank, and then gives its own id |
| `PackProvenance.PackToHandoff` | scripts/generate-context-pack.js:182-201 | from a pack written for any note, to the three scaffolds made from what is read of it, edited at will after their provenance lines: the gate finds fault with their content only, and if it lets them pass, the handoff carries the pack's own path and id and agrees with the spec |

## Left out

- SHA-256, ECDSA, KMS calls, key specifications and their cache, key files and random identifiers: arbitrary functions or parameters.
- The canonicalization and JSON Schema libraries: canonicalization is an arbitrary function, schema validity a boolean.
- JSON beyond JSON proper (undefined, dates), non-integer numbers, lone surrogates and the key `__proto__`: not part of `JsonValue`.
- PostgreSQL: storing and loading JSONB is the identity, BIGINT does not overflow, the advisory lock is released in the same instant as COMMIT or ROLLBACK. A COMMIT that takes effect while its client sees an error is not modelled.
- EvidencePipeline.EvidenceProcessingService.ProcessEvidence: its ledger write is the atomic append of `LedgerProtocol.RunsAreAtomic`; a process that dies between store and ledger is not modelled.
- PipelineConservation.EveryEventHasItsRow: assumes that nothing but the service and retries of its reconciliation requests appends events of type evidence.stored, although `appendEvent` lets any caller do so; `AnchoredEvidence.SubmittedIsStored` and `AnchoredEvidence.AnchoredIsStored` rest on it.
- StableStringify.StringifyIsExact: integers of magnitude 1e21 and above, which JavaScript prints in exponent form, and integers that a double cannot hold exactly.
- VerifiedAnchor.OneSuccessPerDigest: assumes that a block's timestamp is not 0, as on every real chain.
- VerifiedAnchor.AnchorVerifiedEvidence: sidecar metadata, key lookup and signature checks are inputs; the returned verification record is reduced to the evidence id, the digest and the ledger event id.
- RuntimeSummary.ListingOrderIsIrrelevant: `localeCompare` is any total preorder on strings; for runs whose identifiers compare as equal nothing is claimed.
- EvidenceGate.ValidateVerificationEvidenceGate: conformance and structure results are inputs, and so are the two lines read from each review file, which `ReviewArtifact` reads; results injected by options, and writing the evidence file, are left out.
- RuntimeAdapter.FeatureFiles.RunTask: the scripted result arrives trimmed and in upper case; the record is without schemaVersion, timeoutMs and the verdict field, which repeats a reviewer process's result; an injected graph or transition runner, and a file write that fails, are left out.
- Frontmatter.RoundTrip: the values that go into the frontmatter are inputs; ranking files and the body of the context pack are left out.
- WorkOrchestration.GetWorkOrchestrationStatus: spec readiness, the handoff check, artifact discovery before it and the command texts are left out; whether the runtime configuration file is accepted is an input.
- SpecHandoff.ChangedSpecIsNoticed: the conformance check's other findings (affected components, changed and sensitive files) are left out.
- Frontmatter.ParseFrontmatter: a key `__proto__`, which a JavaScript object does not store.
- EvidencePipeline.EvidenceProcessingService.AppendEvidence: of a write that fails for other reasons, `LoseId` says that it may have used up a row id.
- The file system, git, child processes, command lines, and the orchestrator's bootstrap with its rollback.
- Metadata and sidecar field checks, demo stores, infrastructure code: straight-line checks that would only add easy members.

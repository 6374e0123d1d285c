# Verified model of the context memory store

This project models the durable state of a local evidence and memory store and of the
hosted services beside it, and proves what they keep. SQL tables are maps, sets or
sequences in the fields of classes; a transaction is a method that commits or restores
them; loops of the program are loops here. Protocols that several processes run at once
(polling, erasure, idempotent mutations) are state machines in which every SQL statement
is a step of its own, with crashes anywhere. Clocks, fresh identifiers, SHA-256, HMAC,
JSON loading, Unicode case mapping and path resolution are parameters or values, with the
laws a statement needs among its preconditions.

| module | what it models |
|---|---|
| `CanonicalJson`, `AuditChain` | canonical text, the digested checkpoint payload, and why a head digest fixes the history |
| `BundleVerifier`, `BundleEffects` | the offline verifier of exported audit chains, and what it accepts |
| `Maintenance` | audit appends, purging of terminal memories, compaction into checkpoints, export |
| `MemoryGraph` | breadth-first traversal of the memory graph |
| `EventStream`, `EventReceipts` | sequence numbers, paging, recent cursors, and concurrent polling with receipts |
| `PathRegistry`, `PathEffects` | who owns a directory, and resolving a working directory to a project |
| `EvidenceStore`, `EvidenceRepository`, `EvidenceEffects` | every writer of scopes, sessions, events, memories, source links, edges and receipts |
| `Transfer` | export and strict import of a project's evidence |
| `Digraph`, `Investigation`, `InvestigationEffects` | source analyses and their claim graph |
| `ClaimTransfer`, `TransferEffects` | export and import of a whole project, investigations included |
| `EvidenceRuns`, `RunEffects` | runs of all writers together |
| `Erasure` | the resumable erasure of actors, projects and tenants |
| `Idempotency` | claim, complete and abandon, with concurrent handlers |
| `CursorCodec` | signed pagination cursors |
| `RateLimit` | fixed-window rate limits |
| `HostedContent`, `HostedEffects` | tenant content under quotas, backup and restore |
| `ContextAssembly`, `ContextEffects` | budgeted responses, resumable event tails, expansion of decisions |
| `CheckpointPolicy` | when to recommend a recovery checkpoint |

The `…Effects` modules say what an operation answers and which rows it leaves, directly over
rows, fields and literals, so that they hold of the operation however it is computed.

Every promise below is proved for all inputs or all runs. Where the code does not keep a
promise on some inputs, the exact condition under which it does is proved, and a lemma
exhibits the failure:

- `verify_audit_chain_bundle` raises a TypeError, rather than reporting an invalid bundle,
  on a text `through_seq` (`BundleVerifier.TextThroughSeqRaises`). It also takes the
  version `true` or `1.0` for 1.
- `maintain` aborts if and only if a memory due for purging is cited by an investigation
  claim or a wiki revision (`Maintenance.MaintenanceRepository.Maintain`).
- An import keeps audit checkpoints but numbers audit rows anew, so the audit export of an
  imported project verifies if and only if it has no checkpoint, no live row, or new numbers
  above its last checkpoint (`Maintenance.ImportedChainIff`); in an empty database a compacted
  project never does (`Maintenance.EmptyDatabaseBreaksChain`).
- `resolve_project` is stable if and only if `PathRegistry.Resolvable` holds. It fails
  midway on directories without a name and on names ending in blanks.
- `record_event` stores any metadata object, but a read of a message whose `expires_at` is a
  number, `true`, a list or an object raises. A read raises if and only if one of the first
  `limit` matching rows is such a message (`EventStream.ReadRaisesIff`), and then no consumer
  of that stream ever gets past it (`EventReceipts.NeverPastUnreadable`,
  `ContextAssembly.ChainStopsBefore`).
- A strict import checks the provenance of the header's project only, so it keeps
  "active implies a same-project source" if and only if the active memories it brings into
  other projects come with such a source (`Transfer.ImportProvenance`); its count-based
  cursor reset is right if and only if the events are the header's own and numbered from 0 to
  their count (`Transfer.ImportGapFree`, `Transfer.NegativeNumberImports`).
- An import inserts investigations, claims and links unchecked. The claim graph stays sound if
  and only if they fit (`ClaimTransfer.ImportGraph`); `ClaimTransfer.CircularImports` is a
  project after whose import two claims rest on each other and on no evidence.
- `record_event`, `upsert_memory`, `start_session` and `record_source_analysis` do not check
  the project of the scope or session they are given. A project can be exported and imported
  elsewhere if and only if every scope and session its rows name is its own
  (`Transfer.ExportLoadsIffContained`); `EvidenceRuns.StrayScopeStopsImport` is a run of
  four steps whose export no empty database accepts.
- An erasure key gets a second, never-ending operation if and only if a request was
  overtaken by the completion of the first (`Erasure.DistinctIffNeverSplits`,
  `Erasure.SecondOperationIsStuck`). A backup is forgotten if and only if a tenant's
  registry is cleared while one is pending (`Erasure.NoBackupForgotten`), which happens when
  it is registered between the check and the clearing (`Erasure.LateBackupReachable`).
- `create_project` succeeds twice within one claim's retention if and only if a call is made
  while the key has an unexpired success (`Idempotency.SucceedsOnceIff`). That happens when
  `complete` fails after the call, or when a handler outlives its claim
  (`Idempotency.FailedCompleteRepeats`, `Idempotency.StaleHandlerRepeats`); prompt handlers
  on working storage succeed at most once.
- `record_event` accepts the kind `checkpoint`, with or without a payload. The evaluation
  takes such an event for the latest checkpoint, so the unchanged state is no longer
  suppressed and the hysteresis starts anew (`CheckpointPolicy.NoteUndoesSuppression`,
  `CheckpointPolicy.NoteUndoesHysteresis`). If its payload is no object, every evaluation
  raises until the next checkpoint (`CheckpointPolicy.MalformedNoteStops`).
- `get_context` returns `has_more` with an unmoved cursor if and only if the reserved
  budget does not exceed the prefix of the first event (`ContextAssembly.TailCovers`).
- Hosted event numbers recur after a purge of a project's last event, and then a
  caught-up consumer never sees the new event (`HostedContent.NextEventSeenIff`).

Where code and documentation differ the code is modelled: `docs/ARCHITECTURE.md:52` lets
`project_resolve` match a registered project name, the code matches paths only.

## Model

| member | source | states |
|---|---|---|
| CanonicalJson.CanonicalInjective | src/context_memory/serialization.py:8-12 | Two values with the same canonical text are the same value, for every nesting of objects, arrays, strings and numbers |
| CanonicalJson.Unambiguous | src/context_memory/serialization.py:8-12 | No canonical text is a proper beginning of another reading: equal texts with whatever follows mean equal values and equal remainders |
| CanonicalJson.CanonicalPrintable | src/context_memory/serialization.py:8-12 | Canonical text holds no raw control character, so a newline can separate records |
| CanonicalJson.CanonicalExact | src/context_memory/serialization.py:8-12 | The text of each kind of value: literals, digits without leading zeros that read back as the number, quoted strings, and lists and objects with nothing but commas and colons between their parts |
| CanonicalJson.EscapeExact | src/context_memory/serialization.py:8-12 | The escape of every character: the short forms, four hexadecimal digits for the other control characters, and any other character as it is |
| AuditChain.LinesInjective | src/context_memory/audit_serialization.py:25-31 | The newline-joined canonical rows can be read back: equal joined texts mean equal row sequences |
| AuditChain.PayloadInjective | src/context_memory/audit_serialization.py:25-37 | The digested payload determines both the previous digest and the rows |
| AuditChain.HeadDeterminesBlocks | src/context_memory/audit_serialization.py:15-39 | Two histories publishing the same head digest compacted the same rows in the same blocks, or two of their payloads are an explicit collision of the hash |
| AuditChain.CheckpointExact | src/context_memory/audit_serialization.py:15-39 | A checkpoint names the first and last number and the count of its rows and digests the previous digest, a newline, and the newline-joined rows; no rows are refused |
| AuditChain.LineExact | src/context_memory/audit_serialization.py:25-31 | A row is written as an object of its seven columns in the order of their names |
| BundleVerifier.VerifyBundle | src/context_memory/audit_serialization.py:58-145 | Raises exactly on the listed malformed shapes, otherwise reports exactly the listed problems in order, and accepts exactly the well-formed chains |
| BundleEffects.AcceptsExactly | src/context_memory/audit_serialization.py:58-145 | The accepted bundles by their neighbouring records: each checkpoint is sound, names the digest of the one before it and starts after its end, the entries rise strictly from the last end, and the head is the last digest |
| BundleVerifier.CheckCheckpoints | src/context_memory/audit_serialization.py:79-111 | The checkpoint loop carries digest and end forward and collects each checkpoint's problems |
| BundleVerifier.CheckEntries | src/context_memory/audit_serialization.py:117-136 | The live-entry loop reports ownership, order and continuity problems starting from the last checkpoint's end |
| BundleVerifier.WellFormedNeverRaises | src/context_memory/audit_serialization.py:58-145 | No well-formed chain makes the verifier raise |
| BundleVerifier.TextThroughSeqRaises | src/context_memory/audit_serialization.py:79-111 | A text `through_seq` makes the verifier raise a TypeError at the next checkpoint instead of reporting an invalid bundle |
| Maintenance.MaintenanceRepository.Audit | src/context_memory/store.py:231-246 | Appends one row numbered above every row there has ever been, and keeps the chain invariant |
| Maintenance.MaintenanceRepository.SetPolicy | src/context_memory/persistence/maintenance.py:273-362 | Changes exactly the given values of a known project, each in its range and soft usage below hard usage afterwards, with an audit row, or changes nothing |
| Maintenance.MaintenanceRepository.Purge | src/context_memory/persistence/maintenance.py:102-122 | Deletes every due memory and appends exactly one purged_terminal row with its content for each, or aborts when a due memory is cited |
| Maintenance.OfExact | src/context_memory/persistence/maintenance.py:125-131 | A project's audit rows are exactly the log's rows of that project, in their order |
| Maintenance.MaintenanceRepository.Compact | src/context_memory/persistence/maintenance.py:123-165 | Checkpoints exactly the oldest rows beyond the limit, chained to the newest checkpoint, and drops exactly those |
| Maintenance.MaintenanceRepository.Maintain | src/context_memory/persistence/maintenance.py:68-173 | After an applied run a memory is gone if and only if it was the project's, superseded, rejected or expired, and last updated before now less the policy's days of 86400 seconds; the plan counts exactly those, each has its audit row, and the log has lost exactly the oldest rows beyond the limit; every other row stays. It aborts if and only if one of them is cited, and a dry run changes nothing |
| Maintenance.MaintenanceRepository.Export | src/context_memory/persistence/maintenance.py:55-66 | A known project's export is a well-formed chain in every reachable state, also when anchored at its own head digest; an unknown one is refused |
| Maintenance.CompactSound | src/context_memory/persistence/maintenance.py:123-165 | Compaction keeps the invariant that checkpoint blocks and live rows together are the append history |
| Maintenance.EntriesConserved | src/context_memory/persistence/maintenance.py:123-165 | Entry counts of the checkpoints plus live rows equal the number of rows ever appended for the project |
| Maintenance.LatestIsLast | src/context_memory/persistence/maintenance.py:137-142 | Ordering checkpoints by `through_seq` finds the newest block |
| Maintenance.ExportAccepted | src/context_memory/audit_serialization.py:42-55 | Every reachable table state serialises to a bundle the offline verifier accepts |
| Maintenance.ImportedChainIff | src/context_memory/persistence/transfer.py:469-484 | An import keeps checkpoints and numbers audit rows anew: the export of the imported project passes the offline verifier if and only if it has no live row, no checkpoint, or its first new number lies above its last checkpoint |
| Maintenance.EmptyDatabaseBreaksChain | src/context_memory/persistence/transfer.py:469-484 | A compacted project with live rows, imported into an empty database, never passes the offline verifier |
| Maintenance.ImportedSound | src/context_memory/persistence/transfer.py:469-533 | Where the new numbers lie above the last checkpoint, checkpoint blocks and live rows are the append history again, for every project |
| Maintenance.MaintenanceRepository.ImportAudit | src/context_memory/persistence/transfer.py:469-533 | Appends the checkpoints as they are and the rows under the next numbers, and keeps the chain invariant for an export of an unknown project whose last checkpoint ends below them |
| MemoryGraph.Traverse | src/context_memory/persistence/memory.py:516-596 | Returns exactly the nodes within max_depth hops, each with its shortest distance, and exactly the edges hopped along, each once. A hop follows an edge of the project in the asked direction and of the asked relations to a memory of the project with an asked status, active or disputed by default. Each of the four refusals is given by its condition |
| MemoryGraph.FirstBallIsDistance | src/context_memory/persistence/memory.py:531-596 | The level at which a node is first met is its shortest distance over all permitted walks |
| MemoryGraph.Expand | src/context_memory/persistence/memory.py:537-580 | One expansion adds exactly the unseen permitted edges of a node and the newly met neighbours at the current depth |
| EventStream.QueryExact | src/context_memory/persistence/project_evidence.py:185-199 | A read answers exactly the rows of its range that match kinds and scope, in sequence order |
| EventStream.PageCovers | src/context_memory/persistence/project_evidence.py:160-234 | One page holds the first matching rows after the cursor and moves the cursor past exactly those; has_more holds if and only if matching rows remain up to the snapshot; a cursor beyond the snapshot sees nothing and comes back to it |
| EventStream.ReadRaisesIff | src/context_memory/persistence/project_evidence.py:200-226 | A read raises if and only if one of the first `limit` matching rows after the cursor is a message whose `expires_at` is neither empty nor text, or has metadata that is not JSON; otherwise it answers the page |
| EventStream.StopsBefore | src/context_memory/persistence/project_evidence.py:200-234 | No page, whatever its limit, moves a cursor to or past a matching event that cannot be read |
| EventStream.RaisesAgain | src/context_memory/persistence/project_evidence.py:200-234 | A read that raised raises again however the stream grows, at any time, with the same or a larger limit |
| EventStream.BadExpiryStops | src/context_memory/persistence/project_evidence.py:405-440 | A stream that begins with a message recorded with the number 5 as its `expires_at` cannot be read from its beginning, for ever |
| EventStream.PagingExact | src/context_memory/persistence/project_evidence.py:160-234 | Following next_cursor goes through if and only if every matching event after the cursor can be read; it then scans each up to the last snapshot exactly once and in order, otherwise a beginning of them, and yields exactly those unexpired when read, whatever is appended meanwhile |
| EventStream.RecentCursorExact | src/context_memory/persistence/project_evidence.py:236-262 | Reading from the recent-events cursor with the same filter and limit yields exactly the newest `limit` matches less the expired ones, in one page, or raises because one of them cannot be read |
| EventStream.EventRepository.ReadEventsSince | src/context_memory/persistence/project_evidence.py:160-234 | Returns the specified page, the specified argument error, or what the first row that cannot be read raises |
| EventStream.ReadAnswers | src/context_memory/persistence/project_evidence.py:160-234 | A page holds exactly the unexpired rows of the asked kinds and scope between its cursors, in order; there is more if and only if such a row lies beyond; and it stops early only at the limit |
| EventStream.EventRepository.KeepUnexpired | src/context_memory/persistence/project_evidence.py:204-225 | The expiry loop keeps the unexpired rows in order, or stops at the first row that cannot be read |
| EventStream.EventRepository.RecordEvent | src/context_memory/persistence/project_evidence.py:387-445 | Allocates the next number and appends exactly the given event under it, a message without `expires_at` with its time to live, or refuses blank text and unknown projects; the event cannot be read exactly if it is a message with an `expires_at` that is no text |
| EventStream.EventRepository.CursorForRecentEvents | src/context_memory/persistence/project_evidence.py:236-262 | From the returned cursor, a read with the same filter and limit shows, at any time, the newest matching events less the expired ones in one page, or raises exactly if one of them cannot be read; the call fails exactly on bad arguments |
| EventStream.EventRepository.PollEvents | src/context_memory/persistence/project_evidence.py:271-325 | An answered poll stores the acknowledged cursor it read from, or keeps the stored one, and the larger of the stored and the returned delivered cursor, and leaves every other receipt; a poll that raises changes nothing |
| EventStream.EventRepository.AcknowledgeEvents | src/context_memory/persistence/project_evidence.py:327-385 | Moves the acknowledged cursor exactly when it neither goes backwards nor passes the delivered cursor |
| EventReceipts.NothingLost | src/context_memory/persistence/project_evidence.py:271-385 | With polls split into their statements and interleaved with all other writers: 0 <= acknowledged <= delivered <= next_seq - 1, and every wanted event up to the delivered cursor was returned by a completed poll or was an expired message when read |
| EventReceipts.PollAlone | src/context_memory/persistence/project_evidence.py:271-325 | The four statements of a poll, run alone: the receipt then holds the old acknowledged cursor and the larger delivered one, the page's events count as returned, and no other receipt changes |
| EventReceipts.AcknowledgeExact | src/context_memory/persistence/project_evidence.py:327-385 | An acknowledgement changes the state if and only if its cursor lies between the acknowledged and the delivered one, and then sets exactly that |
| EventReceipts.PollThenAcknowledge | src/context_memory/persistence/project_evidence.py:271-385 | After a poll every cursor from the acknowledged to the delivered one can be acknowledged and becomes the acknowledged cursor |
| EventReceipts.RecordsMean | src/context_memory/persistence/project_evidence.py:271-325 | In every run what is recorded as returned or expired was read by some page of that very stream |
| EventReceipts.NeverPastUnreadable | src/context_memory/persistence/project_evidence.py:271-385 | In every run no cursor of a stream reaches a wanted event that cannot be read: its consumers stop before it for ever |
| EventReceipts.BadStartBlocks | src/context_memory/persistence/project_evidence.py:271-440 | After a first message with a number as its `expires_at`, no run ever delivers anything to a consumer of messages of that project |
| EventReceipts.CursorsMonotone | src/context_memory/persistence/project_evidence.py:308-321 | However a run goes on, whoever moves, no acknowledged or delivered cursor ever moves backwards |
| EventReceipts.OnlyAcknowledgeAdvances | src/context_memory/persistence/project_evidence.py:327-385 | A stream with a receipt keeps its acknowledged cursor through every stretch of a run in which nobody acknowledges for it |
| EventReceipts.SequencesGapFree | src/context_memory/persistence/project_evidence.py:125-146 | In every run each project's stored numbers are exactly 1 .. n |
| EventReceipts.StepKeepsInv | src/context_memory/persistence/project_evidence.py:264-385 | Each statement of each process keeps the receipt invariant: cursors in range and every wanted event below them readable and accounted for |
| PathRegistry.GeneratedSlugsValid | src/context_memory/persistence/project_evidence.py:719-740 | Both slugs the resolver may ask for satisfy the slug pattern, whatever the directory is called |
| PathRegistry.ResolveValid | src/context_memory/persistence/project_evidence.py:682-748 | Every partial or complete resolution leaves at most one owner per path |
| PathRegistry.ImportRecordsUnique | src/context_memory/persistence/transfer.py:448-465 | Imported scopes and path aliases are canonicalised again and never give a path a second owner |
| PathRegistry.RunKeepsValid | src/context_memory/persistence/project_evidence.py:506-581 | After any run of project, scope and alias writes, resolutions and imports, unique keys, references and one owner per path hold |
| PathRegistry.FindNeverAmbiguous | src/context_memory/persistence/project_evidence.py:750-783 | After any run a lookup is never ambiguous and names a project exactly when that project owns the path |
| PathRegistry.ResolveSettles | src/context_memory/persistence/project_evidence.py:682-748 | After resolving a directory, the lookup and a second resolution give the same project and scope and create nothing, if and only if the checkable conditions on name, trailing blanks and taken names hold |
| PathEffects.ResolveEffect | src/context_memory/persistence/project_evidence.py:682-748 | Which project answers and which rows are written: the scope's project, else the alias's with a workspace scope, else the directoryless one of the slug, else a new one with a digest in its slug if the plain slug is used; a later refusal keeps what came before it |
| PathEffects.BaseSlugExact | src/context_memory/persistence/project_evidence.py:719-723 | The slug of a directory is its lower-case name with runs of other characters as one hyphen, without `-`, `.` and `_` at the ends, cut to 54 characters, or "workspace" |
| PathEffects.ReplacedRun | src/context_memory/persistence/project_evidence.py:719-723 | Each longest run of characters outside `[a-z0-9._-]` becomes one hyphen |
| PathEffects.ProjectEffect | src/context_memory/persistence/project_evidence.py:447-493 | A project is made under a slug of the pattern that is new, with its name or slug as name alias; otherwise nothing changes |
| PathEffects.ScopeEffect | src/context_memory/persistence/project_evidence.py:654-680 | A path of another project is refused, a known one answered, a used name refused, and any other scope inserted under the canonical path |
| PathEffects.AliasEffect | src/context_memory/persistence/project_evidence.py:524-581 | An alias is stored under its normalised value, or refused for an unknown project, an empty value or a path of another project |
| PathEffects.FindEffect | src/context_memory/persistence/project_evidence.py:750-783 | The lookup names exactly the owner of the path, with the scope at the path if there is one |
| PathEffects.ImportEffect | src/context_memory/persistence/transfer.py:448-465 | An import inserts its scopes and aliases one by one under canonical paths; it commits if and only if none is refused and all of them then name projects |
| PathRegistry.NamelessDirectoryFails | src/context_memory/persistence/project_evidence.py:741-748 | A directory without a name gets a project and a root scope and then the call raises |
| PathRegistry.TrailingBlankStrandsProject | src/context_memory/persistence/project_evidence.py:494-504 | A directory whose stripped form is owned elsewhere leaves behind a new project that owns nothing |
| PathRegistry.ProjectRegistry.CreateScope | src/context_memory/persistence/project_evidence.py:654-680 | Returns the owner's existing scope, inserts a new one, or refuses an owned path |
| PathRegistry.ProjectRegistry.SetProjectAlias | src/context_memory/persistence/project_evidence.py:524-581 | Writes or keeps the normalised alias, or refuses unknown projects, empty aliases and owned paths |
| PathRegistry.ProjectRegistry.ResolveProject | src/context_memory/persistence/project_evidence.py:682-748 | Runs the resolver's transactions in turn and returns the specified result or error with the partial effects kept |
| PathRegistry.ProjectRegistry.FindProject | src/context_memory/persistence/project_evidence.py:750-783 | Answers ambiguous, unknown, or the owner with its scope |
| EvidenceStore.UpsertKeeps | src/context_memory/persistence/memory.py:183-318 | An upsert keeps provenance, local links, gap-free numbers and the references to scopes |
| EvidenceEffects.UpsertEffect | src/context_memory/persistence/memory.py:183-318 | A committed upsert writes this row under the given or next id and links the given events to it, and changes nothing else; existing links keep their notes |
| EvidenceEffects.UpsertChecks | src/context_memory/persistence/memory.py:183-318 | Which error an upsert answers: an event of another project, no source for an active memory, another project under the id, a missing project or scope |
| EvidenceStore.TransitionKeeps | src/context_memory/persistence/memory.py:320-403 | A transition keeps every invariant; activation needs a source of the memory's own project |
| EvidenceEffects.TransitionEffect | src/context_memory/persistence/memory.py:320-403 | A transition sets the status of exactly this memory; superseding or disputing in favour of a related one adds exactly the edge from it; each refusal is given by its condition |
| EvidenceStore.ReviewKeeps | src/context_memory/persistence/review.py:245-276 | Every review action keeps the invariants, also when its second transaction fails |
| EvidenceEffects.ReviewEffect | src/context_memory/persistence/review.py:245-276 | Approving leaves the candidate active, rejecting leaves it rejected; superseding and disputing leave it active, the target superseded or disputed, and the edge between them; if the target is unknown or foreign only the candidate moved; any other refusal changes nothing |
| EvidenceStore.FinalCheckpointKeeps | src/context_memory/persistence/checkpoint.py:196-443 | A final checkpoint publishes a sourced handoff, supersedes its predecessor and ends its session inside the invariants |
| EvidenceEffects.FinalEffect | src/context_memory/persistence/checkpoint.py:196-443 | A final checkpoint writes its event, an active handoff resting on that event and the verified ones, and the end of its session, and supersedes the previous handoff; nothing else changes |
| EvidenceEffects.FinalChecks | src/context_memory/persistence/checkpoint.py:196-254 | Which error a final checkpoint answers, in order |
| EvidenceStore.InsertClaimKeeps | src/context_memory/persistence/investigation.py:372-487 | A claim's event and memory keep every invariant |
| EvidenceStore.PurgeKeeps | src/context_memory/persistence/maintenance.py:102-122 | Deleting memories with their links keeps every invariant |
| EvidenceStore.InsertEventKeeps | src/context_memory/persistence/project_evidence.py:125-146 | Allocating and inserting an event keeps each project's numbers at exactly 1 .. next_seq - 1 |
| EvidenceEffects.EventEffect | src/context_memory/persistence/project_evidence.py:387-445 | An event is stored under the project's next number with the scope and session it names, which must exist in whatever project |
| EvidenceEffects.SessionEffect | src/context_memory/persistence/project_evidence.py:785-812 | A known external id answers its session, unless it is empty; a new session needs its project and scope |
| EvidenceEffects.RelationEffect | src/context_memory/persistence/memory.py:466-514 | A relation is added between two different memories of the project unless it exists |
| EvidenceRepository.Repository.UpsertMemory | src/context_memory/persistence/memory.py:183-318 | The method with its link loop commits the specified tables and id, or restores them with the specified error |
| EvidenceRepository.Repository.StartSession | src/context_memory/persistence/project_evidence.py:785-812 | Answers a known external id with its session, inserts a new session, or refuses unknown projects and scopes |
| EvidenceRepository.Repository.TransitionMemory | src/context_memory/persistence/memory.py:320-403 | Commits the specified status and edge, or restores the tables with the specified error |
| EvidenceRepository.Repository.RequireActiveSource | src/context_memory/persistence/memory.py:106-136 | Finds an invalid submitted event, a missing source, or nothing wrong, as specified |
| EvidenceRepository.Repository.ReviewCandidate | src/context_memory/persistence/review.py:245-276 | Runs one or two transitions and keeps the first when the second fails |
| EvidenceRepository.Repository.CreateFinalCheckpoint | src/context_memory/persistence/checkpoint.py:196-443 | Checks session and scope, then inserts event, handoff, links and replacement and ends the session together, or undoes all of them |
| EvidenceRepository.Repository.RelateMemories | src/context_memory/persistence/memory.py:466-514 | Adds an edge between two memories of the project, or refuses self, foreign and repeated relations |
| EvidenceRepository.Repository.ImportProject | src/context_memory/persistence/transfer.py:433-546 | The insert loops, cursor reset and validation commit the specified store or nothing |
| Transfer.InsertAllExact | src/context_memory/persistence/transfer.py:527-533 | Inserting rows succeeds if and only if their keys are distinct and new, and then adds exactly those rows |
| Transfer.ImportProvenance | src/context_memory/persistence/memory.py:138-181 | A strict import keeps active-implies-sourced if and only if every active memory record of another project than the header's comes with a source record to an event of that project, in the store or the bundle |
| Transfer.ForeignMemoryBreaksProvenance | src/context_memory/persistence/memory.py:138-181 | A two-record bundle that imports strictly and leaves an active memory without evidence in an existing project |
| Transfer.ImportKeeps | src/context_memory/persistence/transfer.py:433-546 | After a committed import every rule of the evidence store holds if and only if the bundle's events are the header's own and numbered from 0 to their count, its links stay in one project, and its foreign active memories come sourced |
| TransferEffects.ImportEffect | src/context_memory/persistence/transfer.py:433-546 | An import is accepted if and only if the project is new, every key is free, the unique indexes hold, the header's links and active memories have sources of the project, and every row names existing rows; each refusal has its error; an accepted import adds exactly the bundle's rows, numbering events without a number by their place |
| Transfer.ImportGapFree | src/context_memory/persistence/transfer.py:439-443 | The count-based cursor reset leaves every project numbered 1 .. next_seq - 1 if and only if the event records are the header's own and numbered from 0, which stands for none, to their count |
| Transfer.NegativeNumberImports | src/context_memory/persistence/transfer.py:439-443 | An event with a negative number imports as it is; its project is not numbered up to its cursor, and no cursor reaches back to the event |
| Transfer.ContextsExact | src/context_memory/persistence/transfer.py:434-438 | The deferred foreign keys to scopes and sessions hold at commit if and only if every record names one that the store or the bundle has |
| Transfer.ExportNumbers | src/context_memory/persistence/transfer.py:117-132 | An export's events are numbered by position up to the cursor, so counting them resets the cursor rightly |
| Transfer.ExportImportExport | src/context_memory/persistence/transfer.py:117-132 | A store without its ids imports an export if and only if the scopes and sessions it names are there or in the bundle; then rows, receipts and cursor are the same and the same bundle is exported again |
| Transfer.ExportLoadsIffContained | src/context_memory/persistence/transfer.py:6-132 | An export loads into a store with none of these ids if and only if every scope and session its rows name belongs to the project |
| Transfer.RecordContained | src/context_memory/persistence/project_evidence.py:405-440 | Recording an event keeps its project exportable if and only if the named scope and session are the project's own, which is not checked |
| Transfer.UpsertContained | src/context_memory/persistence/memory.py:183-318 | Writing a memory keeps its project exportable if and only if the named scope is the project's own, which is not checked |
| Transfer.SessionContained | src/context_memory/persistence/project_evidence.py:785-812 | Starting a session keeps its project exportable if and only if the named scope is the project's own, which is not checked |
| Transfer.FinalContained | src/context_memory/persistence/checkpoint.py:196-254 | A final checkpoint checks both and keeps its project exportable |
| Digraph.StaysAcyclicIff | src/context_memory/persistence/investigation.py:516-537 | New links leave an acyclic claim graph acyclic if and only if no path over old and new links leads back along one of them |
| Investigation.ClaimGrounded | src/context_memory/persistence/investigation.py:293-350 | In a sound graph every claim has a link path from an evidence claim of its own investigation |
| Investigation.RowLinksOk | src/context_memory/persistence/investigation.py:516-537 | A claim recorded with links from claims of its investigation closes no cycle |
| Investigation.AddClaimsGraph | src/context_memory/persistence/investigation.py:293-537 | Recording claims keeps the graph acyclic, inside its investigation and supported |
| Investigation.RecordAnalysisConsistent | src/context_memory/persistence/investigation.py:253-569 | Recording an analysis keeps identities unique per investigation and claim keys unique per analysis, also in a database whose graph an import has made unsound |
| Investigation.RecordedAllOrNothing | src/context_memory/persistence/investigation.py:253-569 | One call adds an analysis with exactly one event, memory and claim per submitted claim, or no row at all |
| InvestigationEffects.RecordingExact | src/context_memory/persistence/investigation.py:253-569 | A first analysis is recorded if and only if every claim is acceptable: writable, valid content, status and outcome fields, and grounds that exist, are given once, and are there unless the claim is evidence. Its event, memory, source link, claim and links are given row by row, and nothing else changes |
| InvestigationEffects.RecordingAnswers | src/context_memory/persistence/investigation.py:165-252 | An unknown or completed investigation, an incomplete source and unusable claim keys are refused in this order, without a trace |
| InvestigationEffects.RecordingReplays | src/context_memory/persistence/investigation.py:229-264 | A complete call is answered with a recorded analysis if and only if its source is recorded for the investigation, and then changes nothing |
| Investigation.InvestigationRepository.RecordSourceAnalysis | src/context_memory/persistence/investigation.py:165-569 | Replays a recorded identity, commits the specified rows, or refuses with the specified error |
| Investigation.InvestigationRepository.AddAll | src/context_memory/persistence/investigation.py:289-541 | The claim loop with its table of created keys inserts the specified rows or reports failure |
| Investigation.InvestigationRepository.CompleteInvestigation | src/context_memory/persistence/investigation.py:672-703 | Closes a known investigation and changes nothing else |
| ClaimTransfer.InsertLinksExact | src/context_memory/persistence/transfer.py:306-309 | Inserting links succeeds if and only if they are distinct and new, and then adds exactly those |
| ClaimTransfer.ImportGraph | src/context_memory/persistence/transfer.py:244-310 | Investigations, analyses, claims and links are imported as they come; the claim graph stays sound if and only if each investigation names a scope of its project, each claim an analysis of its investigation and evidence of its project, each link joins claims of one investigation and closes no cycle, and each claim but evidence comes with a claim it rests on |
| TransferEffects.ArchiveEffect | src/context_memory/persistence/transfer.py:134-563 | The same for a whole project: the keys and indexes of investigations, analyses, claims and links count too, and an accepted import adds exactly the records of the archive |
| ClaimTransfer.CircularImports | src/context_memory/persistence/transfer.py:433-546 | A project whose two inference claims derive from each other imports; then each rests on itself and neither on evidence |
| ClaimTransfer.ArchiveRoundTrip | src/context_memory/persistence/transfer.py:117-132 | A whole project, evidence and investigations, loads into a sound database without its ids if and only if the scopes and sessions it names are there or in the export; the copy has the same rows, exports as the same archive again, and the database is sound |
| ClaimTransfer.ArchiveLoadsIffContained | src/context_memory/persistence/transfer.py:6-132 | It loads where neither its ids nor those of other projects are known if and only if every scope and session its rows name belongs to it |
| ClaimTransfer.TransferRepository.ImportProject | src/context_memory/persistence/transfer.py:134-563 | Inserts all records in one transaction, validates them and commits the specified tables, or refuses with the specified error and changes nothing |
| EvidenceRuns.RunConsistent | migrations/013_research_provenance.sql:15-56 | In every run of all writers, whatever it imports, analyses and claims have unique keys and name rows that exist |
| RunEffects.WriterRuns | src/context_memory/persistence/memory.py:183-318 | A step of a run is the writer it names with its arguments, and a refused one changes nothing |
| RunEffects.ImportRuns | src/context_memory/persistence/transfer.py:433-546 | A step that imports leaves exactly what the import of the archive leaves |
| EvidenceRuns.RunGraph | src/context_memory/persistence/investigation.py:165-569 | The claim graph is sound throughout a run of all writers if and only if every committed import brought investigations that meet the condition of ImportGraph |
| EvidenceRuns.CircularRun | src/context_memory/persistence/transfer.py:433-546 | A run of one import after which the claim graph is circular and ungrounded |
| EvidenceRuns.RunSound | src/context_memory/persistence/memory.py:183-318 | After any run of all store and investigation writers, imports that meet the condition of ImportKeeps included, every rule of the evidence store holds |
| EvidenceRuns.ActiveHasEvidence | src/context_memory/persistence/memory.py:106-136 | After any such run an active memory has a source event of its own project |
| EvidenceRuns.EveryClaimGrounded | src/context_memory/persistence/investigation.py:293-350 | After any run whose imports meet the condition of ImportGraph every claim is grounded in evidence of its investigation |
| EvidenceRuns.NoCircularClaims | src/context_memory/persistence/investigation.py:516-537 | After any such run no claim rests on itself |
| EvidenceRuns.RecordedIdentityReplays | src/context_memory/persistence/investigation.py:229-264 | After any further run of all writers, imports of whatever records included, recording a recorded source identity again in the open investigation returns the first analysis and adds no row |
| EvidenceRuns.EveryExportImports | src/context_memory/persistence/transfer.py:117-132 | After runs whose imports keep the rules, a project exports and imports into an empty database, investigations included, if and only if every scope and session its rows name is its own, and then exports again unchanged |
| EvidenceRuns.StrayScopeStopsImport | src/context_memory/persistence/project_evidence.py:405-440 | A four-step run in which an event names another project's scope, whose export an empty database refuses |
| Erasure.SagaSafe | src/context_memory/hosted_governance.py:335-436 | With crashes and retries after any statement: an operation is in exactly one of journal and receipts, a done flag means that erasure ran, and a receipt means both ran and, for a tenant, the backup check passed |
| Erasure.ClearedMeansNonePending | src/context_memory/hosted_governance.py:370-384 | In every run a cleared operation passed its check at some moment at which no registered backup of its tenant was undeleted |
| Erasure.StagesNeverGrow | src/context_memory/hosted_governance.py:335-436 | However a run goes on, with any processes, no operation gets further from completion |
| Erasure.RequestReads | src/context_memory/hosted_governance.py:302-312 | A request whose key is journalled is answered with exactly the operations journalled for this very request; another goes on to insert |
| Erasure.RequestInserts | src/context_memory/hosted_governance.py:313-333 | The insert adds one row with nothing done and answers with it, unless the key was journalled meanwhile |
| Erasure.ExecutionStarts | src/context_memory/hosted_governance.py:335-369 | A worker starts at the first stage its row has not marked |
| Erasure.DistinctIffNeverSplits | src/context_memory/hosted_governance.py:269-333 | A run keeps one operation per idempotency key if and only if no request inserts a row for a key whose earlier operation completed after it was looked up |
| Erasure.RepeatedKeySameOperation | src/context_memory/hosted_governance.py:269-333 | Without such an overtaking, a repeated key always gets the same operation, and never for another request |
| Erasure.OvertakenRequestSplits | src/context_memory/hosted_governance.py:269-333 | From an overtaken request the next two steps answer the key with a second operation |
| Erasure.SecondOperationIsStuck | src/context_memory/hosted_governance.py:401-436 | That second operation can never complete, whatever runs later |
| Erasure.OvertakenStateReachable | src/context_memory/hosted_governance.py:269-333 | Two requesters and a third worker reach an overtaken state |
| Erasure.NoBackupForgotten | src/context_memory/hosted_governance.py:370-388 | In a run no undeleted backup is dropped from the registry if and only if no registry is cleared while a backup of the tenant is pending |
| Erasure.TimelyRunsForgetNothing | src/context_memory/hosted_governance.py:370-388 | Which never happens if no backup is registered between a tenant's check and its clearing |
| Erasure.LateBackupIsForgotten | src/context_memory/hosted_governance.py:370-388 | A backup registered in that gap is dropped although it was never deleted |
| Erasure.LateBackupReachable | src/context_memory/hosted_governance.py:269-388 | A run of real statements from the empty database in which that happens |
| Erasure.GovernanceStore.RequestErasure | src/context_memory/hosted_governance.py:269-333 | A malformed request is refused; a key seen before answers with its operation and status, or is refused for another request, and journals nothing; a new key journals exactly one row with nothing done yet |
| Erasure.GovernanceStore.ExecuteErasure | src/context_memory/hosted_governance.py:335-390 | Unknown and completed operations are answered without a change. A call that completes leaves the receipt instead of the journal row, has run exactly the erasures still needed for this operation, and forgets the tenant's backups, all of them deleted; a call that runs to its end awaits backups instead if and only if the tenant has one that is not deleted, with both stages marked. A call cut off anywhere keeps the row and loses no pending backup, and three statements bring a stage. No other operation or tenant is touched |
| Idempotency.IdempotencyStore.Claim | src/context_memory/hosted_transport.py:326-390 | Grants, replays, or refuses as conflict or in progress, and commits nothing unless granted |
| Idempotency.IdempotencyStore.Complete | src/context_memory/hosted_transport.py:392-425 | Reports true if and only if the row of this request was pending; then exactly its response is set, and its claim, body and expiry and every other row stay |
| Idempotency.IdempotencyStore.Abandon | src/context_memory/hosted_transport.py:427-447 | Deletes exactly the key's pending row with this request |
| Idempotency.ReplayIsStoredResponse | src/context_memory/hosted_transport.py:376-390 | In every run a replay returns the response of an earlier success of the same request |
| Idempotency.CompletedIsReplayed | src/context_memory/hosted_transport.py:376-409 | However a run goes on after a completion, until the row expires a claim with the same body is answered with the response and one with another body is a conflict |
| Idempotency.SafeRunsSucceedOnce | src/context_memory/hosted_api.py:260-293 | Unless a handler abandons a claim whose call succeeded, or creates on a claim it lost, the call succeeds at most once per key and retention |
| Idempotency.SucceedsOnceIff | src/context_memory/hosted_api.py:260-293 | In a run the call succeeds at most once per key and retention if and only if it never succeeds while the key has an unexpired success |
| Idempotency.RepeatHasCause | src/context_memory/hosted_api.py:260-293 | A run with such a step contains a call on a lost claim or the abandoning of a success |
| Idempotency.PromptRunsSucceedOnce | src/context_memory/hosted_api.py:260-293 | Handlers that finish before their claims expire, on storage that accepts completions, succeed at most once per key and retention |
| Idempotency.FailedCompleteDrops | src/context_memory/hosted_api.py:284-292 | A failing `complete` after a successful call makes the handler drop the claim |
| Idempotency.DroppedKeySucceedsAgain | src/context_memory/hosted_api.py:260-293 | Once a guarding row is gone the key succeeds again inside the first claim's retention |
| Idempotency.StaleHandlerSucceedsAgain | src/context_memory/hosted_api.py:260-293 | A handler that outlived its claim repeats a success of the claim that replaced it |
| Idempotency.FailedCompleteRepeats | src/context_memory/hosted_api.py:284-292 | A run from the empty store in which a refused `complete` lets the key succeed twice |
| Idempotency.StaleHandlerRepeats | src/context_memory/hosted_api.py:260-293 | A run from the empty store in which a handler outlives its claim and the key succeeds twice |
| Idempotency.LostClaimRepeats | src/context_memory/hosted_api.py:260-293 | A run in which the second success holds its own claim and nothing was dropped: the first was on a lost claim |
| Idempotency.LiveClaimAdmitsNobody | src/context_memory/hosted_transport.py:340-390 | However a run goes on, until it expires or a handler of its key abandons, a claim keeps its row and admits nobody: another body conflicts, the same body waits or is replayed, and nothing is written |
| Idempotency.FailedAttemptFreesKey | src/context_memory/hosted_api.py:288-292 | In a run of prompt handlers, whatever others do meanwhile, a handler whose attempt failed frees its key for any later claim when it abandons |
| CursorCodec.DecodeEncoded | src/context_memory/hosted_transport.py:267-276 | Stripping `=` and padding again is inverse on base64url for every non-empty byte string |
| CursorCodec.EncodeExact | src/context_memory/hosted_transport.py:267-270 | Each group of up to three bytes is written as the base-64 digits of its number, without padding |
| CursorCodec.DecodeIff | src/context_memory/hosted_transport.py:241-265 | A cursor is accepted if and only if its last 32 bytes are the signature of the rest, whose claims have version 1, this tenant and route, an offset of at least 0, and an expiry after now |
| CursorCodec.BadLengthRejected | src/context_memory/hosted_transport.py:271-276 | Symbols numbering one more than a multiple of four never decode |
| CursorCodec.CursorRoundTrip | src/context_memory/hosted_transport.py:225-265 | A cursor decodes to its offset for its own tenant and route strictly before expiry and is refused in every other case |
| CursorCodec.DecodedWasSigned | src/context_memory/hosted_transport.py:241-265 | Whatever decodes is a payload followed by that payload's own 32-byte signature |
| RateLimit.WindowCountExact | src/context_memory/hosted_limits.py:79-131 | The stored count of an aligned window is the number of calls allowed in it, and at most the limit |
| RateLimit.RefusedIffFull | src/context_memory/hosted_limits.py:95-111 | A call is refused exactly when its window already holds the limit |
| RateLimit.AnswerExact | src/context_memory/hosted_limits.py:95-131 | An allowed call is told how many calls its window has left, a refused one that none is left |
| RateLimit.AnyIntervalTwiceLimit | src/context_memory/hosted_limits.py:79-131 | Any stretch of one window's length sees at most twice the limit |
| RateLimit.TwiceLimitReached | src/context_memory/hosted_limits.py:79-131 | That bound is reached by two bursts around a window boundary, for every window of two seconds or more |
| RateLimit.OneSecondWindows | src/context_memory/hosted_limits.py:79-131 | With windows of one second the limit itself bounds every stretch of that length |
| RateLimit.RetryAfterExact | src/context_memory/hosted_limits.py:102-111 | A refusal's wait is in 1..window and ends where the next window starts, where a call is allowed unless others filled it |
| RateLimit.RateLimiter.ConsumeOne | src/context_memory/hosted_limits.py:79-131 | Counts an allowed call or refuses without changing anything |
| HostedContent.RunWithinQuota | src/context_memory/hosted_content.py:155-245 | Every reachable store satisfies the project, event, event-size and tenant-size quotas, after restores and erasures too |
| HostedContent.RestoreKeeps | src/context_memory/hosted_content.py:346-394 | Restoring any valid backup keeps tables and quotas |
| HostedContent.BackupValidates | src/context_memory/hosted_content.py:396-492 | Under the same quota a tenant's backup validates if and only if its tenant, project and kind names are non-empty |
| HostedContent.RestoreReproduces | src/context_memory/hosted_content.py:322-394 | Restoring into a store without the tenant succeeds, gives back its projects and events exactly, and touches no other tenant |
| HostedContent.NextEventSeenIff | src/context_memory/hosted_content.py:191-218 | After a purge the next event lies past a caught-up consumer's cursor if and only if the project's last event survived |
| HostedEffects.RecordEffect | src/context_memory/hosted_content.py:180-245 | An event is refused for its UTF-8 bytes, the project's events or the tenant's bytes, then for an unknown project; otherwise it is stored last under one more than the project's largest number |
| HostedEffects.SizeExact | src/context_memory/hosted_content.py:180-190 | Sizes are UTF-8 bytes: one per character, one more from U+0080, U+0800 and U+10000 on |
| HostedEffects.PurgeEffect | src/context_memory/hosted_content.py:494-503 | A purge keeps every row, in order, but the tenant's from before the cutoff |
| HostedEffects.EraseTenantEffect | src/context_memory/hosted_content.py:528-548 | Erasing a tenant removes exactly its tenant row, projects and events |
| HostedEffects.RestoreEffect | src/context_memory/hosted_content.py:346-453 | A backup is refused if and only if something in it names another tenant or project, comes twice or exceeds a quota, then if the tenant exists; otherwise exactly its projects and events are added, each project in the order of its numbers |
| HostedContent.DeleteKeeps | src/context_memory/hosted_content.py:494-548 | Purging and erasing keep tables and quotas |
| HostedContent.HostedContentStore.Record | src/context_memory/hosted_content.py:180-245 | Appends the next number within the quotas or refuses without changing anything |
| HostedContent.HostedContentStore.Validate | src/context_memory/hosted_content.py:396-453 | The validation loops accept exactly the valid backups |
| HostedContent.HostedContentStore.ValidateEvents | src/context_memory/hosted_content.py:427-448 | The event loop accepts exactly well-formed copies with distinct numbers and sums their bytes |
| HostedContent.HostedContentStore.RestoreTenant | src/context_memory/hosted_content.py:346-394 | Inserts the tenant with everything in the backup, or nothing |
| ContextAssembly.RenderEvents | src/context_memory/context_assembly.py:55-86 | The loop renders exactly the events whose prefix and one character still fit, and sums their text |
| ContextAssembly.RenderTail | src/context_memory/context_assembly.py:47-98 | The rendering loop computes the specified tail, cursor and has_more |
| ContextAssembly.RenderFits | src/context_memory/context_assembly.py:55-86 | The rendered text never exceeds the reservation |
| ContextAssembly.RenderShowsPrefix | src/context_memory/context_assembly.py:55-86 | What is shown is a prefix of the events, whole but for a last one that is cut to fill the reservation exactly |
| ContextEffects.TailExact | src/context_memory/context_assembly.py:47-98 | Events not excluded are rendered in order in the room their forerunners leave, whole or cut with an ellipsis, until a heading leaves none; the cursor is the page's if all were shown, else the last shown event's or the old one |
| ContextAssembly.TailCovers | src/context_memory/context_assembly.py:47-98 | When the read behind it answers, the tail shows exactly the events due between the two cursors; it makes no progress if and only if the first event's prefix alone fills the reservation; a cursor beyond the stream comes back to its end |
| ContextAssembly.ResumeLosesNothing | src/context_memory/context_assembly.py:87-98 | A chain of resumed calls, some of which may raise, partitions the stream from where it begins to its last cursor and shows exactly what was due in each window, even while events are appended |
| ContextAssembly.ChainStopsBefore | src/context_memory/context_assembly.py:39-98 | No chain of calls, whatever limits it asks for, gets to or past a matching event that cannot be read |
| ContextAssembly.PackItems | src/context_memory/context_assembly.py:147-192 | The packing loop computes the specified items, characters and eligible count |
| ContextAssembly.PackFits | src/context_memory/context_assembly.py:147-192 | Items stay within the item limit and the memory budget |
| ContextAssembly.PackDistinct | src/context_memory/context_assembly.py:147-192 | No memory is taken twice and no item is a near-duplicate of an earlier one |
| ContextAssembly.PackComplete | src/context_memory/context_assembly.py:154-163 | A hit left out repeats a chosen item or has no room even at the end |
| ContextEffects.PackExact | src/context_memory/context_assembly.py:147-192 | Hits are taken in order: a near-duplicate of an item is passed over, another counts as eligible, and is taken if its block and separator fit |
| ContextEffects.MergedExact | src/context_memory/context_assembly.py:111-129 | Local hits come first, then the discovered ones not found locally, in order |
| ContextAssembly.MergedDistinct | src/context_memory/context_assembly.py:111-129 | Adding discovery hits not found locally repeats no memory |
| ContextAssembly.ResponseWithinBudget | src/context_memory/context_assembly.py:32-53 | Events stay within their reservation, and events with the joined item text within the capped budget |
| ContextAssembly.ExpandSeeds | src/context_memory/decision_assembly.py:452-502 | The expansion loop computes the specified context |
| ContextAssembly.ExpansionWithinBudget | src/context_memory/decision_assembly.py:452-502 | Expansion keeps every limit and every earlier item and adds no memory twice |
| ContextAssembly.ExpansionComplete | src/context_memory/decision_assembly.py:452-502 | A candidate is absent afterwards only for lack of room, and then the response is marked truncated |
| ContextEffects.ExpandedExact | src/context_memory/decision_assembly.py:452-502 | Candidates are taken in order: unknown and retrieved ones are passed over, one that fits is added and charged, and one that does not marks the response truncated |
| CheckpointPolicy.RecoverySameIff | src/context_memory/persistence/checkpoint.py:47-73 | The recovery state is unchanged over a stretch of the log if and only if that stretch holds checkpoints only |
| CheckpointPolicy.UnchangedStateSuppressed | src/context_memory/persistence/checkpoint.py:496-542 | Re-evaluating after a checkpoint recommends nothing when its source cursor left no event out; otherwise the state counts as changed |
| CheckpointPolicy.EvaluationExact | src/context_memory/persistence/checkpoint.py:445-551 | Exactly when each of the six triggers is recommended and which suppression is reported otherwise, over log, request and policy |
| CheckpointPolicy.NoteUndoesSuppression | src/context_memory/persistence/checkpoint.py:463-542 | An event of kind checkpoint recorded afterwards makes an unchanged state count as changed unless it carries the same recovery state |
| CheckpointPolicy.MalformedNoteStops | src/context_memory/persistence/checkpoint.py:473-482 | After an event of kind checkpoint whose payload or objective is no object, every evaluation fails, whatever work is recorded |
| CheckpointPolicy.CheckpointRestores | src/context_memory/persistence/checkpoint.py:463-542 | After the next real checkpoint the evaluation refuses a usage out of range only |
| CheckpointPolicy.RecommendationSpaced | src/context_memory/checkpoint_policy.py:80-101 | A recommendation respects the cooldown, and one for soft usage the hysteresis despite the cap at 1 |
| CheckpointPolicy.RunSpaced | src/context_memory/checkpoint_policy.py:41-101 | In every run that follows recommendations, checkpoints are a cooldown apart and soft ones rise by the hysteresis unless an event of kind checkpoint was recorded in between |
| CheckpointPolicy.SoftSeriesBounded | src/context_memory/checkpoint_policy.py:41-101 | An unbroken series of soft-usage checkpoints without such an event has fewer than (hard - soft) / hysteresis + 1 members |
| CheckpointPolicy.NoteUndoesHysteresis | src/context_memory/persistence/checkpoint.py:463-542 | A run in which such an event lets the same usage recommend twice |
| CheckpointPolicy.CheckpointRepository.EvaluateCheckpoint | src/context_memory/persistence/checkpoint.py:445-551 | The recommendation, the suppression and the error are given by the log, the request and the policy: hard and soft usage, session time, durable events, repository changes and the boundary after durable work in this order, suppressed by an unchanged state, then the cooldown, then the hysteresis |
| CheckpointPolicy.CheckpointRepository.LatestCheckpoint | src/context_memory/persistence/checkpoint.py:75-96 | Finds the latest checkpoint and counts the durable events after it |
| CheckpointPolicy.CheckpointRepository.CreateCheckpoint | src/context_memory/persistence/checkpoint.py:98-295 | Appends a checkpoint with the recovery state at its source cursor, or refuses the request |

## Left out

- Hash collisions: request hashes, key hashes, content hashes and source identities are modelled as the values they digest; for the audit chain the collision is explicit in the statement.
- CanonicalJson.CanonicalInjective: floating-point numbers, NaN and the infinities are not among the values; strings are sequences of Unicode scalar values, so lone surrogates, which have no UTF-8 form to digest, are not.
- BundleVerifier.VerifyBundle: NaN and the infinities, which the JSON loader yields, are not among the values, and equality inside arrays and objects is structural, while Python also holds `[True] == [1]`.
- MemoryGraph.Traverse: the order in which nodes and edges are listed in the response is not modelled; contents, depths and absence of repetitions are.
- Maintenance.MaintenanceRepository.Purge: the order of the audit rows written for the memories of one run is not modelled; their number and place in the chain are.
- Maintenance.MaintenanceRepository.Maintain: the reads of the plan and the transaction are one step, so a memory changed by another process between them is not modelled.
- Maintenance.MaintenanceRepository.ImportAudit: for checkpoints that no export lists, or new numbers not above them, the chain invariant is not promised.
- EventStream.EventRepository.RecordEvent: idempotency keys, sessions, source URIs and the other metadata of an event are not part of this model; sessions and scopes are in EvidenceStore.
- EventReceipts.NothingLost: a crash between the committed upsert and the return of the page counts as returned.
- PathRegistry.ProjectRegistry.ResolveProject: audit rows and idempotency keys of project creation are not part of the state; `__workspace__` and slug digests are given functions.
- EvidenceRepository.Repository.UpsertMemory: the row is read and written in one step, so a purge and re-creation under the same explicit id between the two is not modelled; visibility, tags, timestamps, embeddings and the range checks on them are in an opaque body.
- EvidenceRepository.Repository.TransitionMemory: staling of wiki revisions is not modelled.
- EvidenceRepository.Repository.CreateFinalCheckpoint: the idempotency key, the checks on texts and the Git facts are not modelled.
- Transfer.ExportImportExport: scopes, sessions, events, memories, source links, edges and receipts are covered; investigations, analyses, claims and links are added in ClaimTransfer; reinspection requests, search aliases, usage, review conflicts, wiki pages, policies and the audit log are not. The header's slug counts as part of its id. Paths of scopes and path aliases, which an import canonicalises anew and refuses when another project owns them, are in PathRegistry.ImportRecordsUnique.
- Transfer.ImportProvenance: bundles with a second project record are not modelled; records naming a project that already exists are.
- Transfer.ImportGapFree: event numbers that are no integers, which the column also accepts, are not among the values.
- Transfer.ImportKeeps: the option that admits active memories without sources breaks provenance on purpose and is left out.
- EvidenceRuns.RunSound: identifiers are issued in increasing order, which stands for their freshness; a receipt's cursors are any numbers in order, their relation to the stream is in EventReceipts.
- Investigation.InvestigationRepository.RecordSourceAnalysis: the optional idempotency key is not modelled, and type errors inside one claim or an unknown session are not told apart from other refusals.
- Erasure.GovernanceStore.ExecuteErasure: what the content and identity stores delete is one opaque step each.
- Idempotency.ReplayIsStoredResponse: the response is a function of the request body, as the route builds it.
- CursorCodec.DecodeEncoded: texts that bring surplus `=` signs of their own are refused here, while some interpreter versions skip them; no issued cursor contains `=`.
- RateLimit.RetryAfterExact: fractions of seconds are dropped before the limiter sees the clock, as in the source.
- HostedContent.HostedContentStore.Validate: the kinds of validation errors are one error; decoding JSON and parsing timestamps come before it.
- HostedContent.RestoreReproduces: the order of projects inside a backup is not fixed.
- ContextAssembly.RenderTail: `prefer_latest_events` skips older events on purpose and is left out; metadata fields of rendered events are not modelled.
- ContextAssembly.PackItems: search, similarity and project discovery are an arbitrary candidate sequence and relation.
- ContextAssembly.ExpandSeeds: collecting candidates from edges and claims is an arbitrary sequence of distinct ids with arbitrary rows; reranking is not modelled.
- CheckpointPolicy.MalformedNoteStops: a payload whose repository is no object, or whose usage is no number, raises only in evaluations that compare it; such payloads are not among the values.
- CheckpointPolicy.SoftSeriesBounded: usages are reals; rounding of floating-point sums is not modelled.
- CheckpointPolicy.CheckpointRepository.CreateCheckpoint: idempotency keys, sessions, test results and Git facts beyond the compared columns are opaque; the handoff of a final checkpoint is in EvidenceStore.
- Search ranking, embeddings, recall, the wiki, hosted authorization, administration and repository, operations, the command line, MCP and HTTP plumbing, cryptography, migrations and SQLite itself are not modelled.

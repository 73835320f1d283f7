# Forge: verified model of the persisted-state core

A Dafny model of the parts of Forge whose correctness depends on persisted state, concurrent workers
and time: the transactional outbox with its deduplicating consumer, the broker envelope, the
maker-checker approval engine and the audited operations it gates, the hash-chained audit log with its
anchored purge, the directory and access rules, the release, quarantine and job controllers, and the
rate limiter.

How it is modelled:

- Code that changes rows or fields is a class whose methods are proved against functions on plain values.
  Beside those functions the contracts say in plain terms what is accepted and which fields change.
  The same functions are the steps of a state machine, and properties of runs are proved over all
  interleavings of those steps. A transaction or a locked row is one step. Statements without a lock are
  separate steps, so snapshots go stale, leases expire, workers crash and brokers redeliver.
- Three modules have serial runs. Department changes lock the table. `RoleConflicts` and `Lockout` state what
  holds for changes and logins one after another; `RoleRaces` and `LoginRuns` split the same operations into
  their reads and writes and say exactly what overlap changes.
- Go strings and byte slices are `string`, one character per byte. Times are integers in nanoseconds.
- SHA-256 and other library functions are function parameters. Where a theorem needs injectivity it is a
  premise, or the conclusion names the colliding inputs. The encodings fed to the hash are the
  repository's own and are proved injective.
- The clock, the network, the database driver's errors and handler results are parameters or free choices
  of the step.

| files | component |
|---|---|
| `Encoding`, `Base64Url`, `Text`, `Wrappers` | field encodings in front of the hashes, base64url, string functions, options |
| `AuditChain`, `AuditRuns`, `AuditVerify` | audit log: rows, hash chain, purge; all interleavings of writes and purges; what verification answers in them |
| `Messaging` | message validation, broker encoder and decoder, message hash |
| `Outbox`, `Publishing`, `Batches`, `Backoff`, `Leases` | outbox rows and batch; many publishers; a batch as a run of one; how long a row is left alone; when PUBLISHED is final |
| `Consuming`, `Delivery` | many consumers; publishers and consumers composed |
| `Approval`, `ApprovalOutcomes`, `AuditedOps` | approval requests and tickets; what is accepted and what comes of it; transactions and the audited wrapper |
| `Departments`, `DataScope` | department forest and visible departments |
| `RoleConflicts`, `RoleRaces` | separation of duties; administrators who check and write at the same time |
| `Lockout`, `LoginRuns` | login lockout; overlapping logins |
| `Release`, `ReleaseRuns`, `ReleaseVotes`, `ReleaseRecords` | release controller; stale copies over a state-only compare-and-swap; which votes survive it; what a record says and where it comes from |
| `Quarantine`, `QuarantineRuns`, `QuarantineExpiry` | upload quarantine; racing workers and changing bytes; how statuses move and expire |
| `Jobs`, `RateLimit` | job runs and backoff; the two rate limiters |

Where the code does not do what one would expect, the model follows the code, a lemma shows the failing
input, and another states exactly when the property holds:

- The audit hash covers nanoseconds, while the MySQL column is `timestamp(6)` and PostgreSQL keeps
  microseconds: `MicrosecondColumnBreaksChain`, `VerifiableIffStoredExactly`.
- Events without an organisation share the scope name `global` with an organisation of that id. Each of the
  two verifies if and only if no live row of the other comes before its own, and both do if and only if the
  live rows of the scope all belong to one of them: `GlobalOrganisationBreaksVerify`, `VerifyIffFirst`,
  `BothVerifyIffOneOrganisation`. Organisation ids are UUIDs (internal/adapters/repository/identity.go:39),
  so only a direct call of `Writer.Write` can bring this about; every other organisation always verifies.
- `VerifyIntegrity` reads the rows and then the anchor, without a lock. A purge that commits in between makes
  it report a violation on an intact chain; it does so exactly when there are rows and the anchor moved:
  `PurgeTearsVerify`, `TornVerify`.
- PUBLISHED is not final: a worker that overran its lease can set a row back. Exactly the retry of a worker
  that failed that row does it, and it can come about exactly when a lease is reset under a worker that still
  holds the row: `PublishedIsNotFinal`, `StaysPublishedIff`, `PublishedIsFinalInTime`,
  `OverrunLeaseUnpublishes`.
- The outbox keeps event ids as given while the envelope trims them. A delivery is refused as a conflict
  exactly when an earlier row with the same trimmed id had another hash: `PaddedIdsRun`, `PaddedIdsConflict`.
- A CUSTOM department below an own one is never expanded. Nothing is missing exactly when the active children
  of such departments are listed or own: `ListedChildHidesItsSubtree`, `FullClosureIffChildrenListed`.
- A DISABLED department without an id cannot be created while any root is active:
  `DisabledCreateOverRejects`, `CreateIffValid`.
- Replacing a user's roles does not look at temporary grants: `TemporaryGrantCounterexample`,
  `TemporaryGrantsNotChecked`.
- Administrators check roles and groups without a lock and write later, so two of them can together give a
  user a forbidden pair. No user ever holds one exactly when every change still fits at the moment it is
  written: `RacingAdministrators`, `WriteKeepsIff`, `NoConflictIffEveryWriteFits`.
- Logins that overlap can exceed the five failures a window allows: `SixFailures`. A window shorter than 15
  minutes holds at most 5 * (1 + L) failures less the stored count, L being the failures recorded on a locked
  row, which is reached for every L; with none of those, in particular when every login finds the row as it
  read it, at most five: `OverlappingBound`, `OverlappingBoundIsTight`, `UndisturbedBound`. A failure recorded
  on a locked row leaves it locked exactly under a one-failure policy: `LateFailureUnlocks`.
- Release approvals can be overwritten by a stale copy. The record lists every logged vote exactly when every
  write so far came from a copy with the votes stored at that moment; a lost vote never comes back, and none
  is counted twice: `ApprovalIsLost`, `VotesCompleteIff`.
- The scanner judges the quarantined copy it reads. If that copy was exchanged for the scan, the bytes that
  are promoted were never scanned; they were exactly when the scanned bytes have the digest on record:
  `UnscannedBytesArePromoted`, `WrittenWasScannedIff`.
- Promoted is not final: Scan and Promote look at the expiry before the status, so a late call makes any
  record Expired, also one that waits for cleanup, which is then never cleaned up. A promoted record stays
  promoted exactly as long as no worker that looked at it late writes: `PromotedIsNotFinal`,
  `StaysPromotedIff`, `PromotedStaysInTime`, `LateScanExpires`, `ExpiredIsFinal`.
- The memory-cache limiter and the local one agree for a fixed window exactly when it is positive:
  `NoWindowDiffers`, `AgreeIffPositiveWindow`. A window of one period admits up to 2 * limit - 1 calls, one
  fewer than the usual estimate for fixed windows, and that many are reachable: `IntervalBound`,
  `IntervalBoundIsTight`.

## Model

| member | source | states |
|---|---|---|
| `Encoding.AtoiItoa` | internal/app/audit/audit.go:339-344 | Parsing a decimal length gives back the number, so lengths written in front of fields are unambiguous |
| `Encoding.FormatIntInjective` | internal/app/audit/audit.go:320-337 | Two integers (sequence numbers) with the same decimal text are equal, negative ones included |
| `Encoding.AuditPartsInjective` | internal/app/audit/audit.go:339-344 | Equally long field lists with the same length-prefixed text are equal field by field |
| `Encoding.SizedPartsInjective` | internal/platform/messageworker/store.go:67-72 | The same for the fields with an eight-byte big-endian length |
| `Encoding.BigEndianInjective` | internal/platform/messageworker/store.go:67-72 | Equal fixed-width big-endian bytes mean equal numbers |
| `AuditChain.PreimagePinsRow` | internal/app/audit/audit.go:320-337 | The hashed text determines every column of the row except the hash itself |
| `AuditChain.HeadPinsHistory` | internal/app/audit/audit.go:151-189 | Two chains accepted from the same anchor that end in the same hash are equal row by row, or they exhibit a SHA-256 collision |
| `AuditChain.Writer.Write` | internal/app/audit/audit.go:64-111 | One transaction appends a row after the locked head and moves the head to it; the row has every field as given, only an empty result becoming SUCCESS |
| `AuditChain.Writer.VerifyIntegrity` | internal/app/audit/audit.go:151-189 | For rows read at any earlier moment: accepts exactly an unbroken, correctly hashed chain from the scope's anchor as it is now |
| `AuditChain.Writer.DeleteArchived` | internal/app/audit/audit.go:267-311 | Moves each scope's anchor to its last purged row, deletes exactly the batch in chunks, keeps the receipt |
| `AuditChain.Writer.VerifyScopes` | internal/app/audit/audit.go:193-239 | Accepts exactly when every scope that occurs in the batch verifies |
| `AuditChain.Writer.PurgeExpired` | internal/app/audit/audit.go:193-239 | Deletes exactly when retention is positive, every row of the batch is chained, every scope verifies, the archive answered, the receipt names the digest and count and is still immutable, and the archive verified it; otherwise nothing changes |
| `AuditRuns.RunKeeps` | internal/app/audit/audit.go:64-311 | In every interleaving of writes with the separate steps of a purge, each scope's live rows are contiguous and linked from anchor + 1 to the head |
| `AuditVerify.LiveRowsAreTheTail` | internal/app/audit/audit.go:151-189 | The live rows of any scope in sequence order are its full history after the anchor |
| `AuditVerify.VerifyIffFirst` | internal/app/audit/audit.go:151-189 | An organisation's rows are accepted if and only if no live row of another organisation in the same scope comes before one of them |
| `AuditVerify.VerifyAcceptsEveryRun` | internal/app/audit/audit.go:151-189 | In every reachable state that is the answer for every organisation, and for every one other than the empty id and `global` the answer is yes |
| `AuditVerify.BothVerifyIffOneOrganisation` | internal/app/audit/audit.go:313-318 | Events without organisation and those of `global` both verify if and only if the live rows of their scope belong to one of the two |
| `AuditVerify.TornVerify` | internal/app/audit/audit.go:151-167 | Rows read in one state and the anchor read in a later one are accepted if and only if there are no rows or the anchor is the same in both |
| `AuditVerify.PurgeTearsVerify` | internal/app/audit/audit.go:151-167 | A run in which a purge commits between the two reads and an intact chain is refused |
| `AuditRuns.HeadPinsLiveRows` | internal/app/audit/audit.go:151-189 | Any accepted chain from the anchor to the recorded head is the true history |
| `AuditRuns.NothingIsLost` | internal/app/audit/audit.go:193-311 | The row of every write, with its id, time, hash and every field as given (an empty result as SUCCESS), stands in its scope's chain at its own number and is live, or is in a stored archive object that is byte for byte the encoding of a batch holding it |
| `AuditRuns.VerifiableIffStoredExactly` | internal/app/audit/audit.go:320-337 | A new row keeps the chain verifiable if and only if the column keeps its timestamp exactly |
| `AuditRuns.MicrosecondColumnBreaksChain` | internal/platform/database/migrations/mysql/00001_base.sql:99-99 | With a column rounded to microseconds an odd nanosecond reading breaks a fresh chain |
| `AuditVerify.GlobalOrganisationBreaksVerify` | internal/app/audit/audit.go:313-318 | A run of two writes after which the rows of an organisation called `global` do not verify |
| `Base64Url.RoundTrip` | internal/platform/messaging/rocketmq.go:143-172 | Decoding the unpadded base64url text (section 5 of RFC 4648) of any byte string returns it |
| `Base64Url.KnownEncodings` | internal/platform/messaging/rocketmq.go:143-172 | The test vectors of section 10 of RFC 4648, and the two characters of the URL alphabet |
| `Text.TrimSpaceIdempotent` | internal/platform/messaging/message.go:53-106 | Trimming twice is trimming once, on byte strings with Unicode spaces |
| `Text.TrimSpaceKeeps` | internal/platform/messaging/message.go:57-62 | Text without surrounding white space is kept whole |
| `Text.TrimSpaceCuts` | internal/platform/messaging/message.go:57-62 | White space in front of a text is cut off, one rune after another |
| `Text.ValidNameIsNormal` | internal/platform/messaging/message.go:108-124 | A valid header name is unchanged by trimming and lower-casing |
| `Messaging.GoRulesLawful` | internal/platform/messaging/message.go:53-124 | The Go string rules satisfy the laws the envelope theorems assume |
| `Messaging.NormaliseHeaders` | internal/platform/messaging/message.go:79-94 | The header loop accepts exactly maps whose headers all fit and stay within the byte limit, in any map order |
| `Messaging.PrepareMessage` | internal/platform/messaging/message.go:53-106 | Accepts exactly messages with id, topic and type, fields within their limits and fitting headers; trims six text fields, keeps key, body, headers and delivery time, and returns normalised, reserved and trace headers |
| `Messaging.Validate` | internal/platform/messaging/message.go:48-51 | Accepts exactly the acceptable messages |
| `Messaging.RocketMQPublishingMessage` | internal/platform/messaging/rocketmq.go:143-172 | Encodes exactly the acceptable messages; decoding the wire gives the trimmed id, organisation, topic, type, tag and ordering key, the same key, body and delivery time, and the normalised headers |
| `Messaging.DecodeRocketMQDelivery` | internal/platform/messaging/rocketmq_consumer.go:214-241 | Succeeds exactly on decodable wires and returns the decoded message |
| `Messaging.NormalisedIsAcceptable` | internal/platform/messaging/message.go:53-106 | The prepared form of an acceptable message is itself acceptable, so a stored row passes validation again |
| `Messaging.DecodeUndoesEncode` | internal/platform/messaging/rocketmq_consumer.go:214-241 | For every accepted message and key, decoding the encoding returns body, key and delivery time unchanged, the six text fields trimmed, and normalised headers |
| `Messaging.BrokerRoundTrip` | internal/platform/messaging/rocketmq_consumer.go:214-241 | With a trace header present decoding never fails and returns exactly that, with no header added |
| `Messaging.UntracedRoundTrip` | internal/platform/messaging/message.go:53-106 | Without one, decoding succeeds if and only if the injected headers keep the message within the header limits |
| `Messaging.DistinctNamesNormaliseOneWay` | internal/platform/messaging/message.go:79-94 | With distinct normalised names every header survives, so the result does not depend on map order |
| `Messaging.MessageHashPins` | internal/platform/messageworker/store.go:55-72 | Equal message hashes mean equal values of the seven hashed fields, or two different hashed texts that collide |
| `Messaging.HashStableAcrossDelivery` | internal/platform/messageworker/store.go:55-72 | Every delivery of a message has the id and hash of the trimmed message, however often it is sent |
| `Outbox.Store.Enqueue` | internal/platform/reliablemsg/reliablemsg.go:51-84 | Inserts a PENDING row with no attempts, due at once, that keeps every field of the message and a header for each of its headers, exactly for a storable message with a new id |
| `Outbox.Store.RecoverExpiredClaims` | internal/platform/reliablemsg/reliablemsg.go:121-126 | Exactly the PROCESSING rows whose lease has passed become PENDING |
| `Outbox.Store.PendingItems` | internal/platform/reliablemsg/reliablemsg.go:99-119 | A snapshot of PENDING rows whose time has come, without repetition, up to the batch limit, complete when below it |
| `Outbox.Store.Claim` | internal/platform/reliablemsg/reliablemsg.go:128-134 | Succeeds exactly on a PENDING row and leases it for five minutes |
| `Outbox.Store.MarkPublished` | internal/platform/reliablemsg/reliablemsg.go:136-138 | Writes PUBLISHED by id, whatever the status |
| `Outbox.Store.Retry` | internal/platform/reliablemsg/reliablemsg.go:140-152 | Writes the snapshot's attempts plus one, DEAD at twelve and PENDING below, to be read again 2 to 256 seconds later |
| `Outbox.Store.PublishOne` | internal/platform/reliablemsg/reliablemsg.go:154-202 | An item of a snapshot of any age is skipped unless it can be claimed; then its row ends published, pending with the snapshot's attempts plus one, or dead |
| `Outbox.Store.PublishBatch` | internal/platform/reliablemsg/reliablemsg.go:154-202 | Without interference every due row is tried once, no row before its time, and the counters of accepted and failed items add up |
| `Outbox.DelayBounds` | internal/platform/reliablemsg/reliablemsg.go:140-152 | The delay before attempt k + 1 is 2^min(k, 8) seconds, between 2 and 256 |
| `Batches.BatchIsARun` | internal/platform/reliablemsg/reliablemsg.go:154-202 | A batch that nothing interrupts is a run of one worker, statement by statement, and leaves the rows PublishBatch promises |
| `Backoff.BackoffIsKept` | internal/platform/reliablemsg/reliablemsg.go:99-153 | In every run a row put back at t with k attempts is in no snapshot taken before t + 2^min(k, 8) seconds, and with twelve in none at all, until it is put back again |
| `Backoff.LeaseIsKept` | internal/platform/reliablemsg/reliablemsg.go:121-134 | In every run a claimed row stays PROCESSING until it is written back or a recovery five minutes later |
| `Publishing.RunKeeps` | internal/platform/reliablemsg/reliablemsg.go:99-202 | The invariant of rows, workers and bus holds in every interleaving of any number of workers |
| `Publishing.PublishedWasAccepted` | internal/platform/reliablemsg/reliablemsg.go:136-202 | A PUBLISHED row was accepted by the bus, and what was accepted encodes that row's message |
| `Publishing.AttemptsAreReal` | internal/platform/reliablemsg/reliablemsg.go:99-153 | Attempts never exceed real failures; PENDING or PROCESSING has at most 11; DEAD has 12 and at least 12 real failures |
| `Leases.StaysPublishedIff` | internal/platform/reliablemsg/reliablemsg.go:136-153 | A PUBLISHED row stays PUBLISHED after a step if and only if the step is not the retry of a worker whose failed item is that row |
| `Leases.StepExcludes` | internal/platform/reliablemsg/reliablemsg.go:121-134 | If no lease is reset under a worker that holds the row, held rows are PROCESSING and have one holder after every step |
| `Leases.PublishedIsFinalInTime` | internal/platform/reliablemsg/reliablemsg.go:121-202 | In every run in which no lease is reset under its holder, holders are exclusive and PUBLISHED is final |
| `Leases.OverrunLeaseUnpublishes` | internal/platform/reliablemsg/reliablemsg.go:121-153 | As soon as a lease is reset under a worker that holds the row, some continuation publishes the row and takes it back |
| `Leases.PublishedIsNotFinal` | internal/platform/reliablemsg/reliablemsg.go:121-153 | A run from the empty tables that publishes a row and takes it back |
| `Consuming.Runner.Process` | internal/platform/messageworker/runner.go:101-151 | Undecodable, unknown, conflicting and failing deliveries are retried without a trace; others end with exactly one committed effect and only then are acknowledged |
| `Consuming.StepWrites` | internal/platform/messageworker/runner.go:101-151 | An effect and its hash are written only when a handler succeeds in the first transaction to commit the event; an acknowledgement only after a committed one |
| `Consuming.ProcessIsARun` | internal/platform/messageworker/runner.go:101-151 | A delivery that nothing interrupts is one of the interleavings and leaves what Process promises |
| `Consuming.StepKeeps` | internal/platform/messageworker/store.go:33-53 | Every step of concurrent consumers, with crashes between commit and acknowledgement, keeps one effect per group and event |
| `Consuming.AckedOnce` | internal/platform/messageworker/runner.go:101-151 | An acknowledged delivery has exactly one committed effect with its hash |
| `Consuming.MoreWires` | internal/platform/messageworker/runner.go:64-99 | Newly accepted bus messages do not disturb the consumers' invariant, which lets publishers and consumers be composed |
| `Delivery.RunKeeps` | internal/platform/reliablemsg/reliablemsg.go:121-202 | Publishers and consumers interleaved arbitrarily keep both invariants |
| `Delivery.HandledAtMostOnce` | internal/platform/messageworker/runner.go:101-151 | In every interleaving the handler transaction of a group and event id commits at most once |
| `Delivery.AckedWasHandledOnce` | internal/platform/messageworker/runner.go:101-151 | Every acknowledged event has exactly one committed effect with a matching hash |
| `Delivery.EffectComesFromOutbox` | internal/platform/messageworker/store.go:33-53 | Every committed effect has body, key and delivery time of an outbox row, its other text fields trimmed, and a header for each of its headers |
| `Delivery.RedeliveryIsNeverAConflict` | internal/platform/messageworker/store.go:33-46 | When rows whose ids trim alike have equal hashes, a redelivery is never mistaken for a different event |
| `Delivery.PaddedIdsConflict` | internal/platform/messageworker/store.go:33-46 | In every run, a delivery under a handled id comes from a row whose id trims to that of the handled row, and is refused if and only if their hashes differ |
| `Delivery.PaddedIdsRun` | internal/platform/reliablemsg/reliablemsg.go:51-84 | A run in which two rows whose ids differ only in white space are published, one is handled, and the other is refused exactly when the hashes differ |
| `Approval.ValidateCreation` | internal/domain/approval/types.go:64-96 | Accepts exactly requests with distinct approvers, none the applicant, and a reachable quorum for the mode |
| `Approval.DecideResolves` | internal/domain/approval/types.go:98-106 | After a decision the status is REJECTED exactly on a rejection and APPROVED exactly when the approvals reach the requirement without one |
| `Approval.Repo.Create` | internal/adapters/repository/approval.go:17-44 | Inserts the pending request with one open task per approver exactly when all people are active and the id is new |
| `Approval.Repo.ByID` | internal/adapters/repository/approval.go:46-58 | Expires an overdue pending request before returning it; a returned request is never pending and overdue |
| `Approval.Repo.Decide` | internal/adapters/repository/approval.go:123-163 | Accepted if and only if the request is pending and unexpired and the actor, not the applicant, holds an open task; the exact error otherwise, and an error changes nothing |
| `Approval.Repo.Transfer` | internal/adapters/repository/approval.go:165-205 | Accepted if and only if the holder of an open task of a pending, unexpired request names an active user who is neither applicant nor assignee; the exact error otherwise |
| `Approval.Repo.Withdraw` | internal/adapters/repository/approval.go:207-230 | Accepted if and only if the applicant withdraws a pending request; the exact error otherwise |
| `Approval.Repo.ClaimExecution` | internal/adapters/repository/approval.go:232-258 | Issues a ticket only to the applicant of an approved, unexpired, digest-equal request that has none yet, with the exact error otherwise |
| `ApprovalOutcomes.DecideIff` | internal/adapters/repository/approval.go:123-143 | A decision is accepted if and only if the request is pending and unexpired and an open task belongs to the actor, who is not the applicant |
| `ApprovalOutcomes.DecideEffect` | internal/adapters/repository/approval.go:143-157 | Exactly the actor's task is decided; a rejection rejects, the approval that completes the required number approves, and only settling cancels what is open |
| `ApprovalOutcomes.TransferIff` | internal/adapters/repository/approval.go:165-205 | When a transfer is accepted, and that it changes the assignee of exactly that task |
| `ApprovalOutcomes.WithdrawIff` | internal/adapters/repository/approval.go:207-230 | When a withdrawal is accepted, and that it cancels exactly the open tasks |
| `ApprovalOutcomes.OneRejectionRejects` | internal/adapters/repository/approval.go:123-163 | For every valid creation, a run in which one assignee's rejection ends it as REJECTED |
| `ApprovalOutcomes.EnoughApprovalsApprove` | internal/adapters/repository/approval.go:123-163 | For every valid creation, a run in which k approvals leave it PENDING below the required number and APPROVED at it |
| `Approval.RunKeeps` | internal/adapters/repository/approval.go:17-258 | In every run assignees stay distinct and never include the applicant, and status, votes and tickets agree |
| `Approval.SettledIsFinal` | internal/adapters/repository/approval.go:123-230 | No operation changes a request whose status is not PENDING |
| `Approval.SettledForever` | internal/adapters/repository/approval.go:123-258 | So through any later operations a settled request stays exactly as it is |
| `Approval.VotesWereCast` | internal/adapters/repository/approval.go:123-163 | Every recorded vote was cast by a decide operation of the run |
| `Approval.ApprovedByQuorum` | internal/adapters/repository/approval.go:123-163 | APPROVED means at least the required number of different people other than the applicant approved before expiry |
| `Approval.RejectedByAssignee` | internal/adapters/repository/approval.go:123-163 | REJECTED if and only if some assignee rejected |
| `Approval.ExecutedOnce` | internal/adapters/repository/approval.go:232-258 | An approval is executed at most once, by its applicant, approved, unexpired and with its digest |
| `Approval.ExecutedWhatWasApproved` | internal/app/approval/service.go:117-133 | With an injective digest the executed command equals the approved one field by field |
| `AuditedOps.Database.WithinTx` | internal/platform/database/database.go:61-92 | A nested call joins the outer transaction; an outer one commits the function's whole effect or nothing |
| `AuditedOps.Database.NestedCalls` | internal/platform/database/database.go:61-92 | Two nested transactional calls take effect together or not at all |
| `AuditedOps.Database.Audited` | internal/adapters/kratosapi/platform.go:723-753 | Operation and success event commit together, or neither does and at most the failure event is added; inside an open transaction all of it joins that transaction |
| `AuditedOps.AllOrNothing` | internal/adapters/kratosapi/platform.go:723-753 | A gated call adds one ticket, one change and one success event for the same approval, or none of them and at most one FAILURE event |
| `AuditedOps.SucceedsIff` | internal/adapters/kratosapi/platform.go:723-753 | The success event is written exactly when the request is the caller's, approved, unexpired, digest-equal and unused and every part succeeds; otherwise the FAILURE event if that part does |
| `AuditedOps.LedgersAgree` | internal/adapters/kratosapi/platform.go:723-753 | In every run tickets, business changes and success events are the same list |
| `AuditedOps.OneChangePerApproval` | internal/app/approval/service.go:117-133 | No approval ever pays for two business changes |
| `Departments.ValidateDepartmentHierarchy` | internal/app/identity/service.go:1142-1182 | Terminates on any table and accepts exactly: parent present, same organisation, active if needed, no cycle, an id that came with a creation not above it, no active child left under a disabled department |
| `Departments.WalkUp` | internal/app/identity/service.go:1162-1173 | The parent walk succeeds exactly when it reaches a root without passing the candidate's id |
| `Departments.UpdateIffValid` | internal/app/identity/service.go:1056-1108 | An update of a valid forest is accepted if and only if the forest stays valid |
| `Departments.CreateIffValid` | internal/app/identity/service.go:1037-1054 | A creation is accepted if and only if the forest stays valid, an id in the request is not above the parent, and a disabled one has no active department under that id, which without an id means no active root |
| `Departments.Service.CreateDepartment` | internal/app/identity/service.go:1037-1054 | Adds the department exactly when the validator accepts it, and keeps a valid forest |
| `Departments.Service.UpdateDepartment` | internal/app/identity/service.go:1056-1108 | Replaces the department exactly when it exists, the validator accepts and a disabled one has no active positions and no current assignments, and keeps a valid forest |
| `Departments.UpdateKeepsTable` | internal/app/identity/service.go:1056-1108 | An accepted update keeps distinct ids, the organisation and a valid forest |
| `Departments.RunKeepsForest` | internal/app/identity/service.go:1037-1182 | Every sequence of accepted creations and updates keeps a valid forest |
| `Departments.ValidForestMeans` | internal/app/identity/service.go:1142-1182 | In a valid forest no department is above itself, and every parent exists, has the same organisation and is active under an active child |
| `Departments.DisabledCreateOverRejects` | internal/app/identity/service.go:1174-1180 | A disabled creation that would keep the forest valid is refused |
| `DataScope.ExpandTree` | internal/adapters/repository/identity.go:966-990 | The worklist terminates with the initial set plus everything reachable from the own departments without entering a listed one that is not own |
| `DataScope.DataScopeForUser` | internal/adapters/repository/identity.go:928-996 | Fails exactly on an invalid scope before any ORGANIZATION role, and otherwise returns exactly: CUSTOM departments, own ones for DEPARTMENT or DEPARTMENT_TREE, and for the latter those reachable without entering a CUSTOM department that is not own |
| `DataScope.RoleOrderIsIrrelevant` | internal/adapters/repository/identity.go:928-956 | The scope does not depend on the order or repetition of roles |
| `DataScope.FullClosureIffNothingHidden` | internal/adapters/repository/identity.go:977-989 | The result is the plain descendant closure plus CUSTOM if and only if the search reaches everything below a CUSTOM department; the step towards the next row |
| `DataScope.FullClosureIffChildrenListed` | internal/adapters/repository/identity.go:977-989 | With unique ids that is so if and only if every active child of a CUSTOM department strictly below an own one is CUSTOM or own |
| `DataScope.NoListedDescendants` | internal/adapters/repository/identity.go:977-989 | That is so when no CUSTOM department is a proper descendant of an own one |
| `DataScope.ListedChildHidesItsSubtree` | internal/adapters/repository/identity.go:977-989 | A CUSTOM child hides its subtree |
| `RoleConflicts.HasRoleConflict` | internal/app/identity/service.go:1823-1836 | True exactly when some rule has both roles in the list |
| `RoleConflicts.Service.ValidateGroupMembers` | internal/app/identity/service.go:1799-1810 | Accepts exactly when no member's other roles, temporary grants and the group's roles contain a forbidden pair |
| `RoleConflicts.Service.CreateUser` | internal/app/identity/service.go:831-873 | Creates exactly new users with built-in, conflict-free roles, `user` when none are given, and keeps the invariant |
| `RoleConflicts.Service.UpdateUserRoles` | internal/app/identity/service.go:1751-1796 | Replaces roles, `user` when none are given, exactly when they exist and fit the user's active-group roles, and keeps the invariant |
| `RoleConflicts.Service.UpdateUserGroup` | internal/app/identity/service.go:1289-1320 | Activates a group exactly when no rule pairs two roles a member could then hold; deactivation needs no check; the invariant is kept |
| `RoleConflicts.Service.UpdateUserGroupMembers` | internal/app/identity/service.go:1322-1341 | Replaces members exactly when all exist and no rule pairs two roles one of them could then hold; the invariant is kept |
| `RoleConflicts.Service.UpdateUserGroupRoles` | internal/app/identity/service.go:1343-1375 | Replaces a group's roles exactly when they exist, do not include system_admin and every member fits; the invariant is kept |
| `RoleConflicts.NoConflictInAnyRun` | internal/app/identity/service.go:1289-1375 | In every serial run no rule has both roles among a user's direct roles and those of the active groups the user is in, whatever temporary grants come and go |
| `RoleConflicts.TemporaryGrantsNotChecked` | internal/app/identity/service.go:1789-1795 | After a role replacement the roles in force are conflict-free if and only if no rule pairs a temporary grant with another role in force |
| `RoleConflicts.TemporaryGrantCounterexample` | internal/app/identity/service.go:1789-1795 | A replacement that conflicts with a temporary grant is accepted |
| `RoleRaces.WriteKeepsIff` | internal/app/identity/service.go:1751-1810 | A write, however old its check, keeps the invariant if and only if the change would still be admitted by the current direct and active-group roles |
| `RoleRaces.FreshCheckFits` | internal/app/identity/service.go:1751-1810 | A change written before anything else happens fits |
| `RoleRaces.NoConflictIffEveryWriteFits` | internal/app/identity/service.go:1289-1375 | In any interleaving of checks and writes no user ever holds a forbidden pair if and only if every change still fits when it is written |
| `RoleRaces.RacingAdministrators` | internal/app/identity/service.go:1322-1341 | A run from the empty directory in which two admitted changes together break the invariant |
| `Lockout.UserRow.RecordLoginFailure` | internal/adapters/repository/identity.go:257-279 | Counts the failure, or locks and restarts the count at the limit; a limit below one counts as one |
| `Lockout.UserRow.ResetLoginFailure` | internal/adapters/repository/identity.go:280-283 | Clears counter and lock |
| `Lockout.UserRow.LoginWithMFA` | internal/app/identity/service.go:496-535 | The answer and the new row for every combination of organisation, policy, user status, lock, password and second factor |
| `Lockout.CounterStaysBelowFive` | internal/app/identity/service.go:424-445 | Under any policy changes the stored counter stays below five and is zero while a lock is stored |
| `Lockout.LockHolds` | internal/app/identity/service.go:515-517 | While the lock lasts every login is refused, even with the right password, and nothing changes |
| `Lockout.FiveFailuresAWindow` | internal/app/identity/service.go:508-535 | After any history a window shorter than 15 minutes without success, unlock or reset holds at most five counted failures |
| `Lockout.LocksAtTheLimit` | internal/adapters/repository/identity.go:265-277 | Under one policy the lock falls exactly at the configured number of failures and until the last failure plus the lock time |
| `Lockout.LateFailureUnlocks` | internal/adapters/repository/identity.go:271-277 | A failure recorded during a lock leaves the row locked if and only if the policy allows a single failure |
| `LoginRuns.RunKeeps` | internal/app/identity/service.go:496-535 | In every interleaving of overlapping logins the row is sound and every login that waits to record was let through by the row it read |
| `LoginRuns.OverlappingBound` | internal/app/identity/service.go:508-535 | After any history of overlapping logins a window shorter than 15 minutes without success, unlock or reset holds at most 5 * (1 + L) minus the stored count failures, L being those recorded on a locked row, and at most five when L is 0 |
| `LoginRuns.OverlappingBoundIsTight` | internal/adapters/repository/identity.go:257-279 | For every L a run from the fresh row reaches that bound |
| `LoginRuns.OverlappingLogins` | internal/app/identity/service.go:508-535 | Any number of logins that all read the fresh row before the first of them records are all counted under a five-failure policy |
| `LoginRuns.SixFailures` | internal/app/identity/service.go:515-521 | A run from the fresh row with six failures in one window |
| `LoginRuns.LockedMeansChanged` | internal/app/identity/service.go:515-521 | A failure meets a locked row only if the row is no longer what the login read |
| `LoginRuns.UndisturbedBound` | internal/app/identity/service.go:508-535 | If every login finds the row as it read it, a window holds at most five failures |
| `LoginRuns.LoginIsARun` | internal/app/identity/service.go:496-535 | A login that nothing interrupts is one of these runs and does what the method promises |
| `Release.Contains` | internal/platform/releasecontrol/control.go:314-321 | True exactly when the value occurs |
| `Release.Controller.Create` | internal/platform/releasecontrol/control.go:87-98 | Files exactly valid requests with a new id, as drafts, with their audit event |
| `Release.Controller.Transition` | internal/platform/releasecontrol/control.go:66-73 | Writes record and event together exactly when the stored state is the expected one |
| `Release.Controller.TransitionAt` | internal/platform/releasecontrol/control.go:265-277 | Needs an actor; writes the mutated record with its state, time and event |
| `Release.Controller.CastApproval` | internal/platform/releasecontrol/control.go:104-131 | Adds a new approver other than the requester and approves exactly when the requirement is reached |
| `Release.Controller.CastRollbackApproval` | internal/platform/releasecontrol/control.go:187-214 | The same for the rollback's own approvers |
| `Release.Controller.Perform` | internal/platform/releasecontrol/control.go:100-277 | All nine operations: the checks made before reading, then state, window, actor and evidence, then the transition with its event |
| `ReleaseRuns.DecisionIsEdge` | internal/platform/releasecontrol/control.go:100-277 | Whatever the controller writes is one of the allowed edges, with votes changed only by votes |
| `ReleaseRuns.EdgeKeepsGood` | internal/platform/releasecontrol/control.go:104-277 | A record written back from a good copy is good, however stale the copy |
| `ReleaseRuns.TraceKeeps` | internal/platform/releasecontrol/control.go:87-277 | The invariant of records, held copies and log holds at every point of every interleaving |
| `ReleaseRuns.ExecutingWasApproved` | internal/platform/releasecontrol/control.go:104-146 | A release that is or was executing was started inside its window after at least RequiredApprovals, two or more, people other than the requester had approved it |
| `ReleaseRuns.RollingBackWasApproved` | internal/platform/releasecontrol/control.go:187-218 | A release that is or was rolling back had the same number of approvals for the rollback before it started |
| `ReleaseRuns.StateMovesForward` | internal/platform/releasecontrol/control.go:254-277 | Over any stretch of a run the request stays, the state never falls in rank and the log only grows |
| `ReleaseRuns.StartedOnce` | internal/platform/releasecontrol/control.go:133-146 | However many controllers race, a release is started at most once |
| `ReleaseRecords.AcceptedIff` | internal/platform/releasecontrol/control.go:100-303 | For each of the nine operations, exactly when it is accepted |
| `ReleaseRecords.AcceptedWrites` | internal/platform/releasecontrol/control.go:100-277 | Field by field what each operation writes: evidence and reasons only by their own operations |
| `ReleaseRecords.PerformedWrites` | internal/platform/releasecontrol/control.go:100-277 | A call of the controller files exactly that record with its event, or changes nothing |
| `ReleaseRecords.EvidenceIsSourced` | internal/platform/releasecontrol/control.go:148-252 | In every interleaving evidence and reasons are those given to the operation that brought the record to its state, and empty before |
| `ReleaseRecords.EvidenceWasGiven` | internal/platform/releasecontrol/control.go:148-252 | The same written out: deployment evidence from Succeed in Succeeded and all later states, the reason from Fail in Failed and from RequestRollback from then on, rollback evidence from CompleteRollback in RolledBack, never blank |
| `ReleaseVotes.ApprovalCanBeLost` | internal/platform/releasecontrol/control.go:104-131 | Two copies read together are both written; the first vote is then only in the log |
| `ReleaseVotes.ApprovalIsLost` | internal/platform/releasecontrol/control.go:104-131 | Every valid request has a run from the empty store in which the first approval is lost |
| `ReleaseVotes.WriteKeepsVotesIff` | internal/platform/releasecontrol/control.go:104-277 | After a write from a held copy the record lists every logged vote if and only if it did before and the copy has the stored votes |
| `ReleaseVotes.VotesCompleteIff` | internal/platform/releasecontrol/control.go:104-277 | At any point of any interleaving the record lists every logged vote, in order, if and only if every write so far came from a copy with the votes stored at that moment |
| `ReleaseVotes.CalledIsPerformed` | internal/platform/releasecontrol/control.go:100-277 | The serial calls below are what the controller's methods do |
| `ReleaseVotes.SerialCallsKeepEveryVote` | internal/platform/releasecontrol/control.go:104-214 | When calls do not overlap the record lists exactly the logged voters, in order |
| `Quarantine.Controller.Submit` | internal/platform/storage/quarantine.go:108-164 | Stores exactly acceptable uploads under a new id with size, digest, checksum and expiry; otherwise no record changes |
| `Quarantine.Controller.Transition` | internal/platform/storage/quarantine.go:287-294 | Swaps exactly when the stored status is the held one |
| `Quarantine.Controller.Scan` | internal/platform/storage/quarantine.go:166-211 | The whole new state for expiry, wrong status, unreadable object, scanner error, malicious, incomplete and clean evidence |
| `Quarantine.Controller.Promote` | internal/platform/storage/quarantine.go:213-263 | The whole new state for expiry, short read, changed checksum, failed write, failed cleanup and success |
| `Quarantine.Controller.Cleanup` | internal/platform/storage/quarantine.go:265-277 | Deletes the object and finishes exactly a record awaiting cleanup whose object could be deleted; otherwise nothing changes |
| `QuarantineRuns.RunKeeps` | internal/platform/storage/quarantine.go:108-294 | The invariant of records, workers, scans and writes holds in every interleaving |
| `QuarantineRuns.ScannedOnce` | internal/platform/storage/quarantine.go:166-211 | However many workers race, the scanner runs at most once for a record |
| `QuarantineRuns.CleanHasEvidence` | internal/platform/storage/quarantine.go:166-277 | Clean, PromotionFailed, CleanupPending and Promoted records carry the complete clean evidence the scanner returned for them; a promoted one has its version in the target |
| `QuarantineRuns.WritesAreSubmittedBytes` | internal/platform/storage/quarantine.go:213-263 | Every target write has exactly the submitted bytes, key and checksum whatever happened to the quarantined copy, and follows a clean scan |
| `QuarantineRuns.WrittenWasScannedIff` | internal/platform/storage/quarantine.go:166-263 | The written bytes are the scanned bytes if and only if the digest of the scanned bytes is the one on record |
| `QuarantineRuns.UnscannedBytesArePromoted` | internal/platform/storage/quarantine.go:166-263 | A run whose one target write carries bytes the scanner never saw |
| `QuarantineExpiry.StatusMovesAlongEdges` | internal/platform/storage/quarantine.go:166-294 | Every step from a reachable state leaves a record's status or moves it along one of the allowed edges |
| `QuarantineExpiry.StaysPromotedIff` | internal/platform/storage/quarantine.go:166-226 | A Promoted record stays Promoted after a step if and only if the step is not the write of a worker that looked at it |
| `QuarantineExpiry.PromotedStaysInTime` | internal/platform/storage/quarantine.go:166-226 | A Promoted record stays Promoted as long as no Scan or Promote looks at it after its expiry |
| `QuarantineExpiry.LateScanExpires` | internal/platform/storage/quarantine.go:171-177 | One Scan after the expiry makes any record Expired |
| `QuarantineExpiry.PromotedIsNotFinal` | internal/platform/storage/quarantine.go:171-177 | A run in which a promoted upload becomes Expired |
| `QuarantineExpiry.ExpiredIsFinal` | internal/platform/storage/quarantine.go:265-277 | Expired is final in every continuation, and Cleanup then changes nothing |
| `QuarantineRuns.ScanIsARun` | internal/platform/storage/quarantine.go:166-211 | An uninterrupted Scan is one of the interleavings, ending in the state the method promises |
| `QuarantineRuns.PromoteIsARun` | internal/platform/storage/quarantine.go:213-263 | So is an uninterrupted Promote |
| `Jobs.RetryDelay` | internal/platform/jobcontrol/control.go:252-264 | The loop computes the closed form and no 64-bit operation overflows |
| `Jobs.DelayLaws` | internal/platform/jobcontrol/control.go:252-264 | The delay lies in [base, max], is monotone in the attempt, is at least the capped exponential and at most 1 ns above it, exact for an even maximum |
| `Jobs.Auditor.ApplyWithAudit` | internal/platform/jobcontrol/control.go:232-244 | A transition is returned exactly when its entry was recorded; otherwise nothing is |
| `Jobs.AcceptedIff` | internal/platform/jobcontrol/control.go:93-230 | Exactly which requests are accepted, action by action, with the approvals they need |
| `Jobs.AcceptedWrites` | internal/platform/jobcontrol/control.go:144-230 | Field by field what an accepted request changes, and its audit entry |
| `Jobs.MachineIsSound` | internal/platform/jobcontrol/control.go:128-230 | Every accepted action keeps identity and the meaning of the state, spends at least one of the remaining actions, and writes an entry from which the new run can be rebuilt |
| `Jobs.AcceptedRuns` | internal/platform/jobcontrol/control.go:109-230 | From PENDING every accepted sequence has at most 2 * MaxAttempts + 3 actions; FAILED has attempts left, DEAD_LETTER has none; identity is unchanged; the audit entries link up and replay to exactly the current run |
| `Jobs.RetriesBackOff` | internal/platform/jobcontrol/control.go:162-185 | An accepted retry directly follows a failure and comes at least the full delay, and so the base delay, after it |
| `Jobs.LongestRun` | internal/platform/jobcontrol/control.go:128-230 | Every valid run can take any number of actions up to that bound |
| `RateLimit.Memory.Increment` | internal/platform/cache/cache.go:105-120 | Restarts an expired or missing counter with its deadline, then adds one |
| `RateLimit.Limiter.Allow` | internal/platform/ratelimit/ratelimit.go:28-56 | The decision and new state for the memory cache, the local table and Redis, where a Redis failure is an error and changes nothing; always true without a limit |
| `RateLimit.SameDecisions` | internal/platform/ratelimit/ratelimit.go:28-56 | Cache counter and local table decide every call sequence alike, for any keys, limits per key, positive windows and clock readings |
| `RateLimit.NoWindowDiffers` | internal/platform/cache/cache.go:105-120 | For every window that is not positive, two calls on which the two differ |
| `RateLimit.AgreeIffPositiveWindow` | internal/platform/ratelimit/ratelimit.go:28-56 | For a fixed window the two agree on every call sequence if and only if it is positive |
| `RateLimit.IntervalBound` | internal/platform/ratelimit/ratelimit.go:42-55 | After any history a closed interval of window length lets at most 2 * limit - 1 calls of a key through, in both implementations |
| `RateLimit.IntervalBoundIsTight` | internal/platform/ratelimit/ratelimit.go:42-55 | For every limit and window that many calls can get through |

## Left out

- Network and library wrappers (RocketMQ SDK, S3, Redis, LDAP, OIDC, SMTP, ClamAV, Nacos, Kafka, OpenTelemetry): only their answers appear, as free choices.
- JSON, SHA-256, AES-GCM, SM4, Argon2 and TOTP: hashes, canonical JSON and checks are parameters.
- The audit forwarder and the e-mail enqueue adapter: they set reserved headers, which message validation refuses, so composed with the outbox they never succeed.
- The configuration-change path, download artifacts, locks, the idempotency store, the circuit breaker, masking, CSV, HTTP filters and proto mapping: easier than what is modelled.
- Database errors in the single-call methods: a failed statement rolls back and is a crash step in the interleavings. A commit whose outcome is unknown is not modelled.
- Outbox.Store.PendingItems: the order (oldest first) is not stated; any order is allowed and no property depends on it.
- Outbox.Store.PublishBatch: one worker without interference and without failing statements; the interleavings of Publishing cover both, and Batches.BatchIsARun relates them.
- The consumer's retry delay: no property depends on it.
- Publishing.RunKeeps: the lease length is not part of the invariant; a lease may expire at any time.
- Lower-casing beyond ASCII: header names that pass validation are ASCII.
- Integer wrap-around of counters and sequence numbers: they are unbounded, except the retry delay, which is 64-bit.
- The Redis script behind the distributed rate limiter: its answer is an argument.
- Overlapping purges and a clock that runs backwards between audit writes: the runs have one purge at a time and a non-decreasing clock.
- How active positions and current assignments of a department are counted: the counts are arguments of UpdateDepartment. The sorting of department lists.
- Changes to role-conflict rules, bootstrap grants and the authority checks of the acting administrator: the rules are fixed during a run and the actor is allowed.
- Group ids padded with white space: the group methods take the stored id.
- RoleConflicts.NoConflictInAnyRun: serial changes, and temporary grants are outside the guarantee, as in the code; NoConflictIffEveryWriteFits and TemporaryGrantsNotChecked give the exact conditions.
- Lockout.FiveFailuresAWindow: for logins one after another; LoginRuns.OverlappingBound is the statement for overlapping ones.
- Lockout.UserRow.LoginWithMFA: reads and records in one step; LoginRuns.LoginIsARun relates it to the separate statements.
- Password and session settings of the security policy: flat bounds; only the two lockout settings are modelled.
- Content sniffing, the allowed-type comparison and governed-write validation of an upload: parameters of the quarantine model.
- The start of a release: the window is checked against the clock reading of the call, not against the later moment of the write.

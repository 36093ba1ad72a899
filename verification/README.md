# Verification model of the threat-intelligence platform's core

A Dafny model of four parts of the platform and proofs about them. `dafny verify dfyconfig.toml`
checks everything.

1. **Collection pipeline.** `Tables` holds the rows. `Ingest` is the ingestion of one update: a
   reading half (`Decide`) and a transaction (`Commit`), with the session class that does both.
   `Workers` interleaves any number of workers, polls, crashes, database failures, administration
   and clock ticks over these two halves; `Batch` is the polling loop, shown to be a run of that
   system. `IngestLaw` says case by case what one ingestion does. `Handshake`, `Confirmation` and `Verify` are
   the TF-VERIFY control messages. `LeaseQueue` is the analysis
   lease, `LeaseSessions` the reports from sessions that hold a copy of the row, `Scheduler` the choice of the next event and the rounds over tenants. `Promotion`,
   `PromotionLaw`, `PromotionRuns` and `PromotionLists` turn analysed events into findings and cases. `Outbox` is the
   alert queue. `Cursor`, `Stuck` and `StaleHandshake` are about how the cursor and the handshakes fare
   when workers race.
2. **Brand monitoring.** `Similarity` is the edit distance, `Typosquat`, `TyposquatData` and
   `Candidates` the typo generator and the scanner's filter.
3. **Credential intake.** `Parsers`, `Joining` and `Redaction` read and redact files, `Dossier` stores them with
   the session's flush behaviour, `DossierRuns`, `Imports` and `Aborts` state what holds over runs,
   and `ReuseIndex` is the password-reuse index.
4. **Small pieces.** `Escapers` and `LoginLimiter`.

`Wrappers`, `Text`, `Sequences`, `Numbers`, `Decimal` and `Hashing` are shared helpers. Operations that change
rows are classes whose methods are proved equal to a function on the tables' values; the theorems are
about those functions and about all runs of steps built from them. SHA-256 is an injective function.

## What the code does not do

These follow the code where its comments or documentation suggest otherwise; each is proved, and
where a property fails only sometimes, the exact condition is.

- A posted message whose nonce ends in a hyphen is not read back, since the pattern's word boundary cuts
  it (`Verify.MessageReadBackIff`); only in a text that goes on with word characters beyond the pattern's
  128 is it (`Verify.HyphenNonceIff`).
- Updates are looked up by update id and stored under the provider's id when there is one. An update
  whose update id is another's provider id is answered with the other's row, stored or not
  (`Ingest.ReplayAnsweredWithAnotherRow`, `Ingest.UpdateSwallowed`; exactly when:
  `Ingest.StoredIsAnsweredIff`, `Workers.EachIsResolved`).
- A deduplicated update never moves the cursor, and an update whose normalizer raises ends the cycle, so
  polling may make no progress until an administrator or a new test request intervenes; exactly when is
  `Stuck.NothingMovesIff` (one cycle: `Batch.CycleMovesIff`; runs into it: `Stuck.HeldAfterOneUpdate`,
  `Stuck.RaisingUpdateHolds`). The raising update also keeps all later connections and the analysis from
  their turn (`Batch.LaterConnectionsStarve`).
- A worker behind the cursor sets it back (`Cursor.CursorGoesBackIff`, `Cursor.SlowWorkerSetsCursorBack`).
- `complete` and `fail` look at the session's copy of the row, not at the row. A worker that lost its
  lease while its session holds an old copy overwrites the new holder's lease, and can make a
  dead-lettered row retryable again; exactly when is `LeaseSessions.ReportTakesEffectIff`, `FencedIff` and
  `FinalIff` (runs: `TakenOverLeaseIsOverwritten`, `DeadLetterIsRevived`).
- Two workers that read before either commits can store more control events than there are verified
  requests: one more for each stale commit (`Workers.BalanceOfRun`, `StaleHandshake.OneRequestTwoControls`).
- An exception in the analysis rolls back to before the lease and counts no attempt, so one event
  that always raises stops its tenant's queue (`Scheduler.LeftBehindPoison`).
- With more than 49 newly linked context events, which the settings cap at 50, the promoted event itself
  falls off its finding's list (`PromotionLists.AnalysedEventIsListedIff`, `ReachedEventIsDropped`).
- A `|` in a template name makes different alerts share a key (`Outbox.SeparatorInTemplateCollides`).
- Records of one file that no flush separates may queue one key twice, and the import then fails as a
  whole (`Aborts.RefusedIffRepeats`, `Aborts.EmailTwiceIsRefused`).
- Rolling an import back does not lower `leak_count` (`Imports.RollbackInflatesLeakCount`,
  `Aborts.OneLeakCountedTwice`; exactly when: `DossierRuns.LeakCountIff`, record by record:
  `Imports.RecordOvercountsIff`).
- In a stealer log a waiting login is joined with the next block's password and a waiting password with
  the next block's login (`Joining.FieldsKeepApartIff`), and an `email;password` line whose password
  holds a colon is cut at the colon (`Parsers.ComboReadsBackIff`).
- Below seven characters a slip on the official TLD can be dropped by the scanner; exactly when is
  `Candidates.SlipIsDroppedIff` (`Candidates.ShortTranspositionIsDropped`).

## Model

| member | source | states |
|---|---|---|
| Ingest.FindExisting | app/collection/ingest.py:132-143 | the first event holding the index entry of (tenant, source, key); none exactly when no non-rejected row holds it |
| Ingest.Store.IngestUpdate | app/collection/ingest.py:146-242 | the new tables and the outcome are those of `IngestOnce`: read, plan, then one commit or none |
| Ingest.Store.RecordRejection | app/collection/ingest.py:259-289 | one transaction appends the rejected row and moves the cursor, or a database failure leaves everything |
| Ingest.Store.AdvanceCursor | app/collection/ingest.py:252-256 | the cursor of that one connection is set, and not without an update id |
| Ingest.CommitKeepsUniqueKeys | app/models.py:877-882 | every commit, whatever plan it carries out, keeps keys of non-rejected rows unique |
| Ingest.RowAndCursorTogether | app/collection/ingest.py:226-256 | a commit either appends one row and puts the cursor on the update, or changes nothing |
| Ingest.StoredIsAnsweredIff | app/collection/ingest.py:163-237 | over runs that mix any new updates, replays, rejections and failures: a call stored a row for its update; every later active, faultless replay matching no request is answered with that row exactly when the row has a key and no other row of the tenant and source holds the update's look-up key; where the row has a key the replay changes nothing |
| Ingest.SameKeyIsSoleHolder | app/collection/ingest.py:163-167 | in particular whenever the provider id is the update id |
| Ingest.ReplayAnsweredWithAnotherRow | app/collection/ingest.py:214-216 | an input where it is not: update ids and provider ids share one name space |
| Ingest.UpdateSwallowed | app/collection/ingest.py:214-216 | the same two updates in the other order: one is answered with the other's row and never stored |
| Ingest.ReplayIsAnswered | app/collection/ingest.py:163-167 | replaying an update that has a row changes no table and answers `deduplicated`, with that row exactly when no other row holds the look-up key; on the look-up path and on the index path |
| Ingest.LostRaceIsAnswered | app/collection/ingest.py:231-237 | an insertion that meets another worker's row answers with that row and changes nothing |
| Ingest.ReplaysChangeNothing | app/collection/ingest.py:163-167 | any number of replays in any order: tables unchanged, each answered with its own row exactly when no other row holds its look-up key |
| Ingest.RejectionIsRepeated | app/collection/ingest.py:259-289 | a rejected update replayed appends a second rejected row and rewrites the cursor |
| IngestLaw.AnswerIff | app/collection/ingest.py:146-242 | when each answer is given: not allowed for an inactive pair; deduplicated where a row stands under the update's own id, or under the provider's id once nothing confirms; control stored where a request is confirmable; raised and rejected as the normalizer says; stored otherwise |
| IngestLaw.FailureIff | app/collection/ingest.py:178-237 | the same for a call whose transaction fails: an error exactly when it gets that far |
| IngestLaw.RowIs | app/collection/ingest.py:169-229 | every column of the row written: tenant, source, state, control flag, time, and the digest of the provider's id or of the update's as key; none without an id |
| IngestLaw.RequestsAre | app/collection/service.py:385-427 | each request afterwards: verified now if it was confirmable, expired if it would have been but for its expiry, else as it was |
| IngestLaw.CursorIs | app/collection/ingest.py:245-256 | the connection's cursor stands on the update's id after a row was written, no other connection changes, and a call that writes nothing changes nothing |
| Confirmation.VerifiesIff | app/collection/service.py:385-415 | with nonces unique per tenant: a faultless ingestion at an active source of an update without a row verifies a request exactly when the text carries its nonce, it awaits and is unexpired, is of the source's tenant and connection, and names this source or none |
| Confirmation.RefusedIff | app/collection/ingest.py:113-129 | an ingestion is refused exactly when source or connection is missing, deleted, disabled, revoked or of another tenant, and then changes nothing |
| Confirmation.VerifiedByOwnSource | app/collection/service.py:385-415 | in every run of atomic ingestions a request that came to be verified was confirmed by an update of a source of its own |
| Confirmation.VerifiedByOwnSourceOfAny | app/collection/service.py:385-415 | the same however workers interleave: the commit that verified it was of an update carrying its nonce, at a source of its own |
| Handshake.CommitBalance | app/collection/ingest.py:169-197 | a commit keeps control events minus verified requests, except one that writes to a request verified since its plan was made |
| Handshake.Conservation | app/collection/service.py:385-427 | with atomic ingestions: as many control events as verified requests in every reachable state, each verified before its expiry, control flags and states agreeing |
| Handshake.StepVerifies | app/collection/service.py:418-430 | a step that verifies a request found it awaiting and unexpired, verifies no other, and stores one control event with it |
| Handshake.VerifiedOnce | app/collection/service.py:385-415 | a verified request is never written again |
| Verify.MessageReadBackIff | app/collection/verify.py:21-29 | the message for a nonce, standing alone, is parsed back to that nonce exactly when the nonce does not end in a hyphen |
| Verify.HyphenNonceIff | app/collection/verify.py:21-29 | for every text: the nonce found ends in a hyphen exactly when, at the first match, word characters follow it up to beyond the 128 the pattern takes |
| Verify.HyphenReadsBackBeforeWords | app/collection/verify.py:21-29 | so a nonce of n characters that ends in a hyphen is read back when at least 129 - n word characters follow it |
| Workers.NothingIsLost | app/collection/worker.py:231-291 | over every interleaving of any number of workers, failures, crashes and administration, the committed cursor never stands past an update that was neither ignored, nor has a row of its own, nor is answered by a non-rejected row under one of its keys |
| Workers.EachIsResolved | app/collection/ingest.py:163-237 | from empty tables: each update before the cursor was ignored, has the row a commit wrote for it, or shares a key with the update of its reference whose row answers it |
| Workers.EachHasItsOwnRow | app/collection/ingest.py:163-237 | so where no two updates of a reference share a key, each has its own row unless it was ignored |
| Workers.RunKeepsInv | app/collection/worker.py:152-348 | the invariant behind it, over every run: what each worker's batch has passed is accounted for |
| Cursor.CursorAfter | app/collection/worker.py:122-132 | in every step of every run: passing an ignored update or writing a row puts the cursor on the worker's update, and nothing else moves it |
| Cursor.CursorGoesBackIff | app/collection/ingest.py:252-256 | the cursor goes back exactly when a worker that is behind it passes an ignored update or writes a row |
| Cursor.SlowWorkerSetsCursorBack | app/collection/worker.py:231-242 | a run of two workers from an initial state in which it does |
| Workers.BalanceOfRun | app/collection/ingest.py:169-197 | with reading and committing interleaved, control events exceed verified requests by the number of stale commits |
| Workers.BalancedIffNoStaleCommit | app/collection/ingest.py:169-197 | the balance holds at the end of a run exactly when no commit of the run was stale |
| StaleHandshake.OneRequestTwoControls | app/collection/ingest.py:169-197 | a run from an initial state to two control events for one verified request |
| Batch.RunConnectionOnce | app/collection/worker.py:231-291 | tables, counters and way of ending are those of one pass over the batch |
| Batch.TallyAddsUp | app/collection/worker.py:231-291 | every visited update is counted once, and the cycle completes exactly when all are |
| Batch.TallyCounts | app/collection/worker.py:231-291 | rejected is the number of rejection rows written, processed of the other rows, ignored of updates without a live source, deduplicated of the rest |
| Batch.VisitEnds | app/collection/worker.py:231-291 | which update ends a cycle and how: a failing transaction stops it; a raising normalizer, an inactive source or a connection deleted or failing under an ignored update aborts it |
| Batch.PassIsRun | app/collection/worker.py:152-291 | a cycle is a run of one worker in the transition system |
| Batch.CycleLosesNothing | app/collection/worker.py:231-291 | so a cycle begun in a good state loses nothing |
| Batch.CycleMovesIff | app/collection/worker.py:231-291 | a cycle changes the tables exactly when some update, all before it answered by stored rows, is skipped, confirms a request, is rejected or is inserted under a free key, all read from tables and batch before the cycle |
| Batch.LaterConnectionsStarve | app/collection/worker.py:351-365 | a connection whose first unanswered update raises ends the round: no later connection is polled, the analysis does not follow, the tables stay as the connections before it left them |
| Stuck.NothingMovesIff | app/collection/ingest.py:163-237 | no run of any workers polling at most n updates, with crashes, failures and arrivals, changes the tables exactly when the connection is not runnable or, for every choice of live sources, the first update no row answers is blocked or the next n are all answered |
| Stuck.HeldForever | app/collection/worker.py:231-291 | and then every batch polled begins at the same update |
| Stuck.RaisingUpdateHolds | app/collection/ingest.py:199-205 | an update whose normalizer raises holds its connection from the start |
| Stuck.HeldAfterOneUpdate | app/collection/ingest.py:214-216 | a run from an initial state into a window of stored updates that holds the cursor |
| LeaseQueue.CollectionEvent.Acquire | app/collection/analysis.py:63-106 | takes the lease exactly on a ready row, else says why not and changes nothing |
| LeaseQueue.CollectionEvent.Complete | app/collection/analysis.py:147-161 | only the current holder completes |
| LeaseQueue.CollectionEvent.Fail | app/collection/analysis.py:164-181 | only the current holder fails it: attempt counted, backoff set, dead letter at the last attempt |
| LeaseQueue.AcquireLaw | app/collection/analysis.py:42-106 | which rows can be taken and what each refusal says: lock held, attempts exhausted, retry not due, or not lockable |
| LeaseQueue.CompleteLaw | app/collection/analysis.py:147-161 | exactly the worker in the lock columns of an analyzing row completes it; the row afterwards |
| LeaseQueue.FailLaw | app/collection/outbox.py:88-93 | the retry is due after 30, 60, 120, 240, 480, 960, 1920 and then always 3600 seconds; dead letter at the last attempt |
| LeaseSessions.LeaseExclusion | app/collection/analysis.py:42-106 | whatever copies of the row the workers report from: analyzing exactly while the lock columns are set, two leases without an accepted report between them more than the TTL apart, attempts within the bound |
| LeaseSessions.ReportTakesEffectIff | app/collection/analysis.py:147-188 | a report takes effect, whatever has become of the row, exactly when the worker's copy says analyzing and held by it; what it then writes |
| LeaseSessions.ReportWrites | app/collection/analysis.py:147-181 | every column after such a report: those it sets otherwise than the copy had them are written, with the waits of 30 to 3600 seconds; all others stay as the row has them |
| LeaseSessions.UpToDateRun | app/collection/analysis.py:147-181 | a run whose accepted reports use up-to-date copies acts on the row as if every report saw the committed row |
| LeaseSessions.RetryBound | app/collection/analysis.py:164-181 | in such a run attempts equal the fails and stay within the bound, dead letter exactly at the last one, after at least 30, 90, 210, 450, 930, 1890, 3810 seconds for two to eight attempts: 450 for five |
| LeaseSessions.FinalIff | app/collection/analysis.py:147-188 | an analyzed, dead-lettered, control or rejected row is final in every run exactly when no worker's copy still claims the lease |
| LeaseSessions.FencedIff | app/collection/analysis.py:184-188 | until it acquires again, a worker's reports can be removed from every run without changing it exactly when neither the row nor its copy says that it holds the lease |
| LeaseSessions.TakenOverLeaseIsOverwritten | app/collection/analysis.py:147-188 | a run in which the late report of a worker completes the row under the lease of the worker that took it over |
| LeaseSessions.DeadLetterIsRevived | app/collection/analysis.py:164-188 | a run in which a late failure makes a dead-lettered row retryable with one attempt, for any bound of at least two |
| Scheduler.EventTable.AcquireNext | app/collection/analysis.py:109-144 | leases the oldest ready event of the tenant and nothing else |
| Scheduler.NextReadyIff | app/collection/analysis.py:109-144 | the event given is, of the tenant's events that a worker could take, the oldest by creation and id |
| Scheduler.RunAnalysisOnce | app/collection/intelligence_analysis.py:1004-1043 | at most batch_size calls and batch_size + 1 rounds; tenants that never run dry get turns differing by at most one; it stops early only on a round in which nothing was analysed |
| Scheduler.LeftBehindPoison | app/collection/intelligence_analysis.py:967-978 | after enough turns the events left are exactly those at or behind an event whose analysis always raises |
| Promotion.Bind | app/collection/intelligence_analysis.py:465-511 | a target outside the catalogue is removed together with the promotion; every other result keeps target and promotion; the score is clamped to 0..100 |
| Promotion.KeyInjective | app/collection/intelligence_analysis.py:514-532 | the correlation key tells tenant, target reference, family and day apart |
| Promotion.DedupKeyIff | app/collection/intelligence_analysis.py:514-532 | two results share a key exactly when the events' tenants agree, the targets agree (absent and empty as one), the families agree (empty as "none") and both occurred, or else were created, on one UTC day |
| PromotionRuns.ShareFindingIff | app/collection/intelligence_analysis.py:706-743 | in every run two promoted events share a finding exactly when these four agree |
| Promotion.RecentContext | app/collection/intelligence_analysis.py:227-264 | the context holds distinct earlier events of the same tenant and source within the window, no control, rejected or purged event |
| Promotion.ContextIsLatest | app/collection/intelligence_analysis.py:227-264 | the context is in order of time and id, holds eligible events only, and whatever eligible event it leaves out is earlier than all it holds, which then are as many as allowed |
| PromotionRuns.UpsertKeeps | app/collection/intelligence_analysis.py:706-743 | the finding of the tenant and key is raised to the larger score or created with it; keys stay unique and no other finding changes |
| Promotion.Intelligence.FindCaseForExposure | app/collection/intelligence_analysis.py:623-634 | the first case by id whose snapshot names the finding |
| Promotion.Intelligence.LinkContextEvents | app/collection/intelligence_analysis.py:644-692 | rows and linked ids are those of `Link` |
| Promotion.Intelligence.PromoteEvent | app/collection/intelligence_analysis.py:695-827 | findings, cases and events after a promotion are those of `Promote` |
| Promotion.Intelligence.AnalyzeEvent | app/collection/intelligence_analysis.py:884-978 | lease, promotion and completion in one transaction, or, when anything raises, none of them and no attempt counted |
| PromotionLaw.AnalysisIs | app/collection/intelligence_analysis.py:884-978 | a call takes up exactly a due event, is undone exactly when an exception is raised, and promotes exactly when the result asks for it and its target is absent or approved; the event's row afterwards |
| PromotionLaw.AnalysisPromotes | app/collection/intelligence_analysis.py:884-978 | finding and case are those of the promotion of the leased event, and besides it exactly the linkable rows of its context change |
| PromotionLaw.FindingIs | app/collection/intelligence_analysis.py:706-752 | the finding of the key is raised to the larger score and reopened if duplicate, or created new with the score; all others stay |
| PromotionLaw.CaseIs | app/collection/intelligence_analysis.py:754-823 | a case exactly when the finding has one or the result asks for one: the first one, or a new one; its event count is that of the finding's list |
| PromotionLaw.LinkIff | app/collection/intelligence_analysis.py:644-692 | the rows linked are exactly those of the context with a linkable decision, the same named target, and no other finding or case, in the context's order; no other row changes |
| PromotionRuns.PromotionInvariant | app/collection/intelligence_analysis.py:695-827 | over every run: one finding per tenant and key, at most one promoted case per finding, each event's case names its finding within one tenant, risk is the maximum of the promoted scores, event ids distinct, at most 50, and counted; control events have no analysis, finding or case |
| PromotionRuns.NewEventIsListedIff | app/collection/intelligence_analysis.py:568-620 | across both detail rebuilds a new event stays listed exactly when at most 49 of the linked ids were new |
| PromotionRuns.PromotedEventIsListedIff | app/collection/intelligence_analysis.py:800-814 | the same for the finding a promotion stores, hence always with at most 49 linked events |
| PromotionLists.ReadyIsNotListed | app/collection/intelligence_analysis.py:568-620 | in every reachable state an event ready for analysis is on no finding's list |
| PromotionLists.AnalysedEventIsListedIff | app/collection/intelligence_analysis.py:745-814 | so in every reachable state an analysed and promoted event ends up listed exactly when at most 49 of the context events linked with it were new to the list |
| PromotionLists.FullContextDropsEvent | app/collection/intelligence_analysis.py:128-134 | with the largest context the settings allow, 50 events, all newly linked, the promoted event is missing from the finding it opens |
| PromotionLists.ReachedEventIsDropped | app/collection/intelligence_analysis.py:884-978 | such a run from the empty store |
| PromotionRuns.LinkedIds | app/collection/intelligence_analysis.py:644-692 | linked ids are context ids, each once |
| Outbox.MaterialAgreesIff | app/collection/outbox.py:37-58 | two key materials agree exactly when tenant, finding and channel agree and so does template, separator and version joined |
| Outbox.KeyInjective | app/collection/outbox.py:37-58 | for templates without the separator, keys agree exactly when all five parts do |
| Outbox.SeparatorInTemplateCollides | app/collection/outbox.py:37-58 | a separator in a template always gives a second alert the same key |
| Outbox.AlertOutbox.CheckAlert | app/collection/service.py:537-570 | the channel, tenant, readiness and finding checks in their order, then the look-up by key |
| Outbox.AlertOutbox.InsertRow | app/collection/service.py:572-589 | inserts, or answers with the row that won the race, or raises when the finding is gone |
| Outbox.AlertOutbox.EnqueueAlert | app/collection/service.py:524-589 | a check followed by its commit |
| Outbox.OutboxInvariant | app/collection/service.py:524-589 | over every interleaving: one row per key, each row's channel and finding of the row's tenant, every answer names the row of its key |
| Outbox.SameRowIff | app/collection/service.py:563-589 | any two answered calls of a run got the same row exactly when they asked for the same alert |
| Outbox.CheckRefuses | app/collection/service.py:537-561 | each refusal with its exact condition, in the order of the checks |
| Outbox.EnqueueAnswers | app/collection/service.py:563-589 | an answer says created exactly when the call added a row, and gives the status of the row it names |
| Outbox.OneCallCreated | app/collection/service.py:563-589 | over every interleaving: of all the calls answered with one row of the run exactly one was answered created |
| Outbox.LostRace | app/collection/service.py:572-589 | a run from empty tables in which two calls pass the look-up before either inserts: the second is answered with the first's row, and deleting the finding leaves the row without it |
| Similarity.Levenshtein | app/brand/similarity.py:4-19 | the two-row loops return the recursive edit distance |
| Similarity.Metric | app/brand/similarity.py:4-19 | zero exactly on equal strings, symmetric, triangle inequality, between length gap and longer length |
| Similarity.ChainAtLeastDist | app/brand/similarity.py:4-19 | no chain of single-character edits is shorter than the distance |
| Similarity.ShortestChain | app/brand/similarity.py:4-19 | some chain has exactly that length |
| Similarity.RatioRange | app/brand/similarity.py:22-28 | the ratio lies in [0, 1] and is 1 exactly when the strings agree ignoring case |
| Typosquat.SplitDomain | app/brand/typosquat.py:44-52 | the loop returns the split at the longest listed TLD, or at the first dot |
| Typosquat.CharSwaps | app/brand/typosquat.py:59-81 | exactly the slips of the label: homoglyphs, adjacent keys, omissions, duplications, transpositions |
| Typosquat.SlipIff | app/brand/typosquat.py:59-81 | a slip is the label with one factor replaced: by a look-alike, a neighbouring key, nothing, the character twice, or two characters the other way round |
| Typosquat.SlipIsNear | app/brand/typosquat.py:59-81 | every slip is within edit distance 2 of the label, whatever is appended to both |
| TyposquatData.TablesAreShort | app/brand/typosquat.py:8-42 | the source's tables replace one or two characters by at most two |
| Candidates.Generate | app/brand/typosquat.py:84-115 | the candidate list: valid variants in order, on the original TLD first, duplicates dropped, cut at the maximum |
| Candidates.ValidLabelIff | app/brand/typosquat.py:55-56 | the labels kept are those the pattern matches as a whole |
| Candidates.CandidateList | app/brand/typosquat.py:102-115 | no duplicates, never longer than allowed, complete when shorter |
| Candidates.NeverTheOriginal | app/brand/typosquat.py:100-115 | the domain itself is never a candidate |
| Candidates.LuredNamesAreListed | app/brand/typosquat.py:84-115 | a list that was not cut holds every lure before and after the stem, with and without a hyphen, and the stem with `-br`, where that is a valid label |
| Candidates.CandidatesAreKnown | app/brand/typosquat.py:84-115 | every candidate is a slip of the stem, or the stem with a lure or `-br`, on the official TLD or a priority one |
| Candidates.SlipIsNeverDropped | app/brand/scanner.py:161-165 | every slip on the official TLD of a domain of at least seven characters passes the filter, resolving or not |
| Candidates.RoundsToNearest | app/brand/scanner.py:161-162 | the score is the nearest integer, of two equally near ones the even one |
| Candidates.SlipIsDroppedIff | app/brand/scanner.py:161-165 | every slip of every domain that is a valid label is, on the official TLD, dropped exactly when it does not resolve, is two edits away ignoring case and both names have fewer than seven characters |
| Candidates.ShortTranspositionIsDropped | app/brand/scanner.py:161-165 | such slips exist: swapping the two characters of a stem gives a name that every uncut candidate list holds and that is dropped |
| Candidates.ConfigIsFit | app/brand/typosquat.py:8-42 | the source's tables meet the conditions of these theorems |
| Parsers.ParseStealerLog | app/exposure_ingest.py:244-297 | the records are those of the line scan of the text |
| Parsers.SplitUnlines | app/exposure_ingest.py:255-255 | lines joined by line feeds are split back |
| Parsers.PrintedLogReadsBack | app/exposure_ingest.py:244-297 | a printed header and well-formed blocks, any number of blank lines after each, parse to exactly those blocks in order with the header's metadata on each |
| Parsers.BlocksReadBack | app/exposure_ingest.py:244-297 | the same for any lines that show the blocks, whatever header precedes them |
| Parsers.BlankIsolates | app/exposure_ingest.py:251-259 | for every text, well-formed or not: a blank line keeps the blocks before and after it apart and loses none |
| Joining.UrlSeparatesIff | app/exposure_ingest.py:270-279 | for all lines: they may be cut off from every continuation that begins with a URL line, blocks and line numbers alike, exactly when their scan ends in a complete block or in none |
| Joining.FieldsKeepApartIff | app/exposure_ingest.py:270-279 | and without line numbers exactly when no login waits for a password and no password for a login |
| Joining.PendingIsJoined | app/exposure_ingest.py:270-279 | a waiting login takes the next block's password, a waiting password the next block's login |
| Parsers.UsualLabelsFit | app/exposure_ingest.py:237-241 | the usual labels are read as intended |
| Parsers.ComboReadsBackIff | app/exposure_ingest.py:177-193 | an email, a separator and a password read back exactly when the separator is a colon or the password holds none |
| Parsers.ColonInPasswordMisreads | app/exposure_ingest.py:183-190 | email;password with a colon in the password is always cut at that colon instead |
| Redaction.RedactDetail | app/exposure_ingest.py:109-132 | the loop computes `Redacted`, for values of any kind |
| Redaction.NoSecretKeySurvives | app/exposure_ingest.py:135-136 | no redacted detail has a key that names a secret, in any letter case |
| Redaction.RedactionIsStable | app/exposure_ingest.py:109-132 | redacting a redacted detail changes nothing |
| Redaction.MaskIff | app/exposure_ingest.py:100-106 | two secrets have one mask exactly when both have at most three characters, or both have more and agree on the first two and the last |
| Redaction.MaskIs | app/exposure_ingest.py:100-106 | three stars for at most three characters, else the first two, four stars and the last |
| Redaction.EmptySecretLeavesNothing | app/exposure_ingest.py:109-132 | an empty secret leaves nothing |
| Redaction.SecretShowsInDigestOnly | app/exposure_ingest.py:109-132 | details that differ in one such secret only, differ after redaction in the digest column only |
| Redaction.DigestColumns | app/exposure_ingest.py:109-132 | a password leaves the digest of its normalised text, any other secret the digest of its text, each beside its mask; by the names of the keys, in any letter case |
| Redaction.DropsEntirely | app/exposure_ingest.py:109-132 | session data, cards and wallets leave nothing |
| Redaction.IdentityKeyIff | app/exposure_ingest.py:142-152 | two identity details without separators share a key exactly when tenant, email or label, kind of exposure and URL agree up to case and white space |
| Redaction.KeyApart | app/exposure_ingest.py:142-152 | tenants and exposure types never share a deduplication key |
| Redaction.CredentialKeyInjective | app/exposure_ingest.py:142-152 | with digests in the hash column, keys agree exactly when email and hash do |
| Redaction.RecordKeyIff | app/exposure_ingest.py:166-174 | two credential records share a key exactly when tenant, email and password agree up to case and surrounding white space |
| Dossier.Exposure.UpdateDossier | app/credential_intel.py:34-77 | the dossier fields are updated and the session flushed, only for an email with `@` |
| Dossier.Exposure.PersistRecord | app/routers/exposure_routes.py:216-251 | creates or deduplicates, looking at flushed findings only |
| Dossier.Exposure.ImportFile | app/routers/exposure_routes.py:299-317 | findings, dossiers and counters after the loop and commit; a refused flush leaves nothing behind |
| Dossier.Exposure.RollbackIngest | app/routers/exposure_routes.py:340-354 | deletes the batch's findings and nothing else |
| DossierRuns.RunFits | app/credential_intel.py:34-77 | over every run, rollbacks included: leak_count is the number of creations ever, and the hash list holds their hashes, each once, in order of creation |
| DossierRuns.LeakCountWithoutRollback | app/credential_intel.py:51-56 | without rollbacks leak_count is the number of distinct hashes plus one if a leak without password was seen; the hash list is duplicate-free and exactly the findings' hashes |
| DossierRuns.LeakCountIff | app/credential_intel.py:51-56 | in general leak_count is at least that, and equal exactly when no leak was created twice |
| Imports.RecordOvercountsIff | app/routers/exposure_routes.py:216-251 | a credential record adds to the excess exactly when the dossier lists its hash already while no stored finding has its key |
| DossierRuns.ImportAddsUp | app/routers/exposure_routes.py:299-317 | record count is created plus deduplicated plus errors; created findings are appended, all of this batch and tenant |
| DossierRuns.RollbackRestores | app/routers/exposure_routes.py:340-354 | import then rollback gives back exactly the earlier findings, and reports as many removed as were created |
| DossierRuns.RollbackIs | app/routers/exposure_routes.py:340-354 | refused exactly for a batch not of the tenant; else removes exactly the batch's findings, says how many, and keeps the others in order and every dossier |
| Imports.ReimportChangesNothing | app/routers/exposure_routes.py:216-231 | a file imported before, with any rollback-free steps between: accepted again, creates nothing, changes no finding and no dossier |
| Imports.RollbackInflatesLeakCount | app/routers/exposure_routes.py:340-354 | import, rollback, import: leak_count exceeds the number of distinct leaks |
| Aborts.OneLeakCountedTwice | app/routers/exposure_routes.py:340-354 | such a run, of one credential from an empty store |
| Aborts.RefusedIffRepeats | app/database.py:11-11 | an import is refused exactly when a record repeats a key new to the database with no flushing record since its first occurrence |
| Aborts.IntakeIs | app/routers/exposure_routes.py:216-251 | a single finding is never refused for its key, and created exactly when none of its key is stored; the row created |
| Aborts.CredentialFilesAreAccepted | app/credential_intel.py:72-73 | a file of credentials with email addresses is never refused |
| Aborts.IdentityTwiceIsRefused | app/exposure_ingest.py:196-213 | a file with a new identity record twice and nothing else is refused, whatever the record |
| Aborts.EmailTwiceIsRefused | app/exposure_ingest.py:196-213 | such a file, into an empty store |
| ReuseIndex.BuildIndex | app/routers/credentials_routes.py:53-60 | every hash maps to exactly the identities of the tenant that hold it |
| ReuseIndex.ReuseCountFor | app/routers/credentials_routes.py:63-68 | the indexed count equals the number of partners |
| ReuseIndex.ReusePartnerCount | app/credential_intel.py:99-109 | so does the count of the pairwise scan |
| ReuseIndex.IndexedPartners | app/routers/credentials_routes.py:188-199 | the index gives the same partner set as the scan |
| ReuseIndex.RelatedIsSymmetric | app/routers/credentials_routes.py:188-199 | being related by reuse is symmetric |
| ReuseIndex.PasswordReuse | app/routers/credentials_routes.py:160-184 | the groups of at least two, larger first and equal ones as they came, each shown by the first twelve characters of its hash, its size and its ids in ascending order |
| ReuseIndex.BySizeKeepsOrder | app/routers/credentials_routes.py:167-184 | groups of equal size stay in the order in which the index has them |
| ReuseIndex.GroupShownIff | app/routers/credentials_routes.py:167-184 | a hash has a group exactly when two identities of the tenant hold it, and no group of it has other members than all of them |
| Escapers.ChainIsOnePass | app/reporting.py:15-19 | with the backslash first, the chain of replaces is the per-character escape |
| Escapers.LateBackslashEscapesTwice | app/reporting.py:15-19 | with the backslash anywhere else it is not |
| Escapers.UnescapeEscape | app/exporters.py:22-37 | unescaping recovers the text |
| Escapers.QuotedReadsBack | app/exporters.py:409-411 | inside single quotes the escaped text is read whole and reading stops at the closing quote |
| Escapers.ReportEscape | app/reporting.py:15-19 | the replaces compute the one-pass escape, which unescapes to the input |
| Escapers.OutputsAreNotBare | app/reporting.py:15-19 | in what the escapers return every special character is escaped |
| Escapers.MdEscape | app/exporters.py:22-37 | escapes the text without carriage returns, and unescapes to it; None gives the empty text |
| Escapers.StixStr | app/exporters.py:409-411 | escapes backslash and quote, and reads back inside quotes before any continuation |
| LoginLimiter.Limiter.Login | app/routers/auth_routes.py:61-78 | one attempt: pruned and refused, or recorded at the later clock reading, or cleared on success |
| LoginLimiter.Limiter.RateLimited | app/routers/auth_routes.py:37-41 | keeps the attempts younger than the window and refuses at five |
| LoginLimiter.FailuresAreSpread | app/routers/auth_routes.py:37-45 | between successes any window shorter than 300 seconds holds at most 5 recorded failures |
| LoginLimiter.RefusedIff | app/routers/auth_routes.py:37-41 | refused exactly when 5 failures since the last success are younger than 300 seconds, pruning notwithstanding |

## Left out

- Workers.NothingIsLost: assumes that a provider's poll returns the next updates after the cursor in order, and that update ids within a stream are distinct.
- Workers.BalancedIffNoStaleCommit: the requests' status is what is counted; that the operator is shown the same answer twice is not modelled.
- Ingest.StoredIsAnsweredIff: validator and normalizer are a fixed outcome per update, and no test request opened later matches the update.
- Confirmation.VerifiesIff: nonces are unique in a tenant, being drawn at random; so too in `IngestLaw` and `Batch.VisitEnds`.
- Stuck.NothingMovesIff: steps of workers, streams and the clock; administration and newly opened test requests are excluded, since they can end the situation.
- LoginLimiter.Limiter.Login: attempts are serial, on a clock that does not go back.
- LeaseSessions.FencedIff: one session per worker name; deployed workers share one default name unless configured otherwise.
- LeaseSessions.DeadLetterIsRevived: leases committed by themselves, as `acquire` allows; the analysis run of the intelligence module takes the lease and completes in one transaction.
- Promotion.KeyInjective: for target references without `|`, which catalogue references are; the ISO date is a day number.
- PromotionRuns.PromotionInvariant: classifier, correlator and their sanitising are an arbitrary result; a person's triage changes a finding's status but the recomputation of its risk is not modelled.
- Outbox.KeyInjective: template names without `|`; the general condition is in `MaterialAgreesIff`.
- Outbox.OutboxInvariant: ids of deleted findings are never reused; the closed payload contract is one yes-or-no outcome.
- Aborts.RefusedIffRepeats: for hash columns without `|`, which every redacted password gives; an intake may carry its own `password_sha256` text.
- Imports.RollbackInflatesLeakCount: the same condition on the hash columns.
- Dossier.Exposure.UpdateDossier: leak_count and hashes only; sources, stealer families, risk maximum, VIP match and its alert are not modelled.
- Dossier.Exposure.PersistRecord: email and hash of the stored detail; sightings, last_seen, risk and provenance columns are not modelled.
- Redaction.RedactDetail: a value that is not text is its truth and what `str()` shows of it; a detail that is no object is not modelled.
- ReuseIndex.PasswordReuse: the other columns shown of a member are not modelled.
- Candidates.Generate: `max_results` is any integer, as in the source; candidates from certificate transparency are not modelled.
- Similarity.RatioRange: case folding is ASCII, and the ratio is a real number rather than a rounded float.
- Escapers.MdEscape: of other values than strings and None, the text `str()` gives is the input.
- Character classes are ASCII for case, letters and digits, Latin-1 for white space.
- Deleted rows' effect on a session's identity map, and copies of rows other than the leased event's, are not modelled.
- Findings of imports and findings of the intelligence promotion are kept in two separate stores.
- The CSV, JSON and breach parsers: per-record lookups on a library's rows; their output is the record list `Dossier` imports. The combolist loop is modelled per line.
- Source and license gates of the analysis run, provider secrets and health metrics of the worker.
- Delivery of alerts, case reopening and status workflow, retention purges racing a lease beyond clearing the row's content.
- Routing, schemas, authentication other than the limiter, scoring tables, dashboards, exports' layout, network lookups, cryptography.

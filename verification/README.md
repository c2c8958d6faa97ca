# Verification of the iroum-ax control plane

A Dafny model of the parts of iroum-ax that keep data consistent, and proofs about them. It covers:

- **Workflow life cycle** (`RowLocks`, `Workflows`, `FakeStore`): transactions that lock one row, send statements and
  commit, in any interleaving; the five workflow operations and their audit events; the in-memory store with its
  buffered transactions and injected failures, method by method.
- **Score review requests** (`Reviews`): a second instance of the row-lock protocol.
- **JWKS key cache** (`JwksCache`, `JwksProtocol`, `JwksServing`): the cache object, every interleaving of `GetKey` calls,
  background refreshes and clock ticks, and what a caller gets out of it.
- **Evidence versions** (`Evidences`, `EvidenceRuns`, `EvidenceRequests`): serial uploads on the table object, and
  interleaved uploads whose "latest" is read from a stale snapshot.
- **Evaluation items** (`EvalItems`, `EvalTree`, `EvalForest`): the parent links under inserts and moves, the tree the web
  client rebuilds from the flat list, and the two together.
- **Scores** (`Scores`, `ScoreRuns`, `Grades`): draft, confirm, correct; interleaved corrections; the grade scan.
- **Rubrics** (`Rubrics`): criteria, bands and archiving through the handlers, including the rounding of the columns.
- **Category report** (`Reports`, `Decimals`): exact decimal roll-up, printing, error bound.
- **Ingestion** (`Chunker`, `Worker`): the sliding window and the worker around it.

Where the code updates state in place the model is a class whose methods are proved equal to a specification function
(`Program`, `Expected`, `Apply`, `KeysOf`, `Chunks`, ...); the main results are lemmas about every run of those functions.
What each operation writes is stated once more without them, column by column and in terms of the request
(`Workflows.Did`, `Reviews.Did`, `Rubrics.Did`, `EvalItems.ChangedRow`, `Scores.ChangedScore`, `Evidences.StoredOnTop`, ...),
on the methods and for every step or commit of a run.
Interleaved systems are step functions `Next` over labels; a label sequence is a run.

## What the code does not keep

These are stated with the exact condition under which the expected property holds:

- An evaluation item that is a leaf can be moved under itself. It then stays there for good, it reaches no root, and the
  tree view does not show it (`EvalItems.ForestIffNoSelfMove`, `EvalForest.TreeShowsTableIff`).
- The design freezes the score fields of every row that has left DRAFT; the guard covers CONFIRMED only, so a SUPERSEDED
  row can be rewritten (`Scores.FieldsSafeIffConfirmed`, `Scores.SupersededIsEditable`). The design's
  list of transitions has DRAFT -> DRAFT and lacks DRAFT -> SUPERSEDED; the code refuses the first as a status request
  and allows the second, and the model follows the code.
- `SumWeightedByEvaluationItem` does not look at the status, so a corrected score counts together with the row it
  replaced (`Scores.CorrectionCountsTwice`).
- Two first uploads for one evaluation item can both commit as version 1 (`EvidenceRuns.LinearIffOneFirstVersion`,
  `EvidenceRuns.FirstUploadsCanCollide`).
- "A version with a successor keeps its body" is checked in one statement and enforced in the next: a re-upload that
  commits in between is overtaken by the write (`EvidenceRuns.SupersededIsFrozenIff`,
  `EvidenceRuns.LateWriteChangesSuperseded`).
- `VectorStore.upsert` is not all-or-nothing: with a working connection, failed attempts leave the table as it was exactly
  when each of them failed before its first row (`Worker.NothingRemainsIff`); otherwise the first rows of the document
  remain (`Worker.AnyPrefixCanRemain`).
- The worker builds its store without a connection, so it never stores a row, and a document with text fails exactly when
  at least one of its chunks embedded (`Worker.UnconnectedStoresNothing`, `Worker.Execute`).
- `staleMaxAge` bounds the age of returned keys only if it is positive and not below `ttl`; the cache options are not
  checked (`JwksProtocol.StaleBoundedIff`).
- "One active rubric per name and scope" does not hold for rubrics without a scope (`Rubrics.ActiveIsUniquePerScope`,
  `Rubrics.UniquenessKeptIff`, `Rubrics.UnscopedRubricsCollide`).
- The handler's band overlap test looks at unrounded numbers, so the exclusion constraint is needed
  (`Rubrics.RoundingOnlyTouchesEnds`); `UpdateRubric`'s transition table allows archiving, but the reason constraint
  always refuses it there (`Rubrics.UpdateNeverArchives`).
- `TextChunker` accepts a negative overlap and then drops characters (`Chunker.NothingLostIff`).
- The in-memory store overwrites a workflow on a duplicate create, where the database refuses it
  (`FakeStores.CreateIsAtomicIffFresh`).

## Model

| member | source | states |
|---|---|---|
| `RowLocks.Serializable` | apps/control-plane/internal/store/pg_store.go:250-402 | every interleaving of begin, lock-and-read, single statements, commit and abort leaves the table that the committed operations produce one after the other, in commit order |
| `RowLocks.CommitIsAtomic` | apps/control-plane/internal/store/pg_store.go:384-402 | a commit has exactly the effect of its whole operation executed at that instant |
| `RowLocks.NoDeadlock` | apps/control-plane/internal/store/pg_store.go:250-292 | while a transaction is open, some transaction can advance without giving up |
| `RowLocks.OperationsWereBegun` | apps/control-plane/internal/store/pg_store.go:250-402 | in every interleaving each open or committed operation is one that a caller began, with just these arguments |
| `RowLocks.LoneOperationCommits` | apps/control-plane/internal/store/pg_store.go:250-402 | an operation that nobody disturbs and that its row does not refuse commits, with its whole effect |
| `Workflows.AuditReplaysToStore` | apps/control-plane/internal/workflow/state_machine.go:83-211 | in every interleaving the committed events of a workflow replay to its stored state and form a path of the transition table from its creation; FAILED_DISPATCH only follows PENDING, FAILED_CALLBACK only RUNNING; the result is unset before the end |
| `Workflows.TerminalIsFrozen` | apps/control-plane/cmd/server/workflow_callback_handler.go:152-239 | a COMPLETED or FAILED workflow keeps its state and result in every continuation |
| `Workflows.OneFinisher` | apps/control-plane/cmd/server/workflow_callback_handler.go:176-215 | when a workflow has ended, exactly one committed operation has ended it: not before it, ever since it, and the row stays as it left it; its event is the only finishing one |
| `Workflows.AuditIsAppendOnly` | apps/control-plane/internal/store/pg_store.go:348-381 | the old audit log is a prefix of every later one |
| `Workflows.AtomicEffect` | apps/control-plane/internal/types/workflow.go:31-64 | an operation changes nothing, or appends one event about its own workflow that may follow the row, and leaves the row in the state that event replays to |
| `Workflows.RequestDoes` | apps/control-plane/internal/workflow/state_machine.go:83-211 | request by request, on the fields: create stores a PENDING row with its document; start takes PENDING to RUNNING; complete takes RUNNING to COMPLETED with the given result; fail takes PENDING or RUNNING to FAILED with FAILED_DISPATCH or FAILED_CALLBACK and the reason; each with its one event and nothing else, exactly when the row is in such a state, and nothing otherwise |
| `Workflows.CommitDoesItsRequest` | apps/control-plane/cmd/server/workflow_callback_handler.go:152-239 | in every interleaving a commit does that for the request its transaction was begun with: a callback on a RUNNING workflow leaves COMPLETED with WORKFLOW_COMPLETED if the worker completed and FAILED with FAILED_CALLBACK if not, storing its result or "{}"; off RUNNING it only records the rejection |
| `FakeStores.FakeTx.Commit` | apps/control-plane/internal/store/fake_store.go:158-186 | the in-place loops apply the buffers: inserts, then states, then results, then audit rows; a second commit does nothing |
| `FakeStores.FakeTx.Rollback` | apps/control-plane/internal/store/fake_store.go:190-201 | drops the buffers and never touches the store; after a commit it does nothing |
| `FakeStores.RollbackThenCommit` | apps/control-plane/internal/store/fake_store.go:158-201 | a rolled-back transaction has nothing left to commit |
| `FakeStores.CommitAgain` | apps/control-plane/internal/store/fake_store.go:158-201 | repeated commits and a rollback after the commit add nothing to the first commit |
| `FakeStores.StateMachine.ExecuteWorkflowCreateIn` | apps/control-plane/internal/workflow/transaction.go:34-59 | for every injected failure: the store and the answer are those of one atomic create, or nothing happened |
| `FakeStores.StateMachine.StartIn` | apps/control-plane/internal/workflow/state_machine.go:83-121 | the same for Start |
| `FakeStores.StateMachine.CompleteIn` | apps/control-plane/internal/workflow/state_machine.go:126-163 | the same for Complete, state and result together |
| `FakeStores.StateMachine.FailIn` | apps/control-plane/internal/workflow/state_machine.go:168-211 | the same for Fail, with the event that the old state calls for |
| `FakeStores.StateMachine.HandleCallbackIn` | apps/control-plane/cmd/server/workflow_callback_handler.go:152-275 | for every injected failure: done exactly for a RUNNING row when no call failed, which is then COMPLETED or FAILED as the worker says with the result and one event together; off RUNNING it only records a rejection; otherwise nothing changes |
| `FakeStores.StateMachine.RecordRejectedTerminal` | apps/control-plane/cmd/server/workflow_callback_handler.go:245-275 | the rejection is recorded as its own atomic step, or nothing changes when the audit insert fails |
| `FakeStores.StateMachine.ExecuteWorkflowCreate` | apps/control-plane/internal/workflow/transaction.go:34-59 | the answer and the fields left behind: done exactly when no call failed, and then one PENDING row with the given document and its WORKFLOW_CREATED event |
| `FakeStores.StateMachine.Start` | apps/control-plane/internal/workflow/state_machine.go:83-121 | done exactly when no call failed and the row was PENDING, which is then RUNNING with one event; any other answer leaves the store alone |
| `FakeStores.StateMachine.Complete` | apps/control-plane/internal/workflow/state_machine.go:126-163 | done exactly when no call failed and the row was RUNNING, which is then COMPLETED with the given result and one event |
| `FakeStores.StateMachine.Fail` | apps/control-plane/internal/workflow/state_machine.go:168-211 | done exactly when no call failed and the row was PENDING or RUNNING, which is then FAILED with the event its old state calls for |
| `FakeStores.StateMachine.HandleCallback` | apps/control-plane/cmd/server/workflow_callback_handler.go:152-275 | done exactly for a RUNNING row when no call failed: COMPLETED or FAILED as the worker says, the result stored, one event; a conflict exactly off RUNNING, with the rejection recorded |
| `FakeStores.ExpectedAnswers` | apps/control-plane/internal/store/fake_store.go:72-201 | the same for all five operations and every combination of injected failures, each kind of answer with what it says about the row |
| `FakeStores.AllOrNothing` | apps/control-plane/internal/store/fake_store.go:72-201 | whichever call fails, the store is the old one or the atomic step's; the old log stays a prefix and grows by at most one event |
| `FakeStores.CreateIsAtomicIffFresh` | apps/control-plane/internal/store/fake_store.go:158-186 | the in-memory create is the database's create exactly when the id is new; a duplicate is overwritten, not refused |
| `FakeStores.ExpectedKeepsAgreement` | apps/control-plane/internal/store/fake_store.go:72-201 | one operation with any failures, on a new id if it is a create, keeps audit log and rows in agreement |
| `FakeStores.RunAgreesIffNoOverwrite` | apps/control-plane/internal/store/fake_store.go:72-201 | over every serial run with failures chosen per operation, audit log and rows agree at the end exactly when no create went through on a stored id |
| `Reviews.AuditReplaysToRequest` | apps/control-plane/internal/store/score_review_request.go:120-441 | in every interleaving a request's events replay to its status, assignee, rejection reason and authors; a reason is present exactly on REJECTED requests; updated_by is the user of the last event |
| `Reviews.DecidedIsFrozen` | apps/control-plane/internal/store/score_review_request.go:40-50 | an APPROVED or REJECTED request never changes again in any continuation |
| `Reviews.RequestDoes` | apps/control-plane/internal/store/score_review_request.go:120-441 | request by request, on the columns and the event: insert stores a SUBMITTED request for its score; assign takes SUBMITTED to UNDER_REVIEW with the named reviewer; approve takes UNDER_REVIEW to APPROVED without a reason; reject takes it to REJECTED with exactly the given reason; the comment is the given one or, if blank, the stored one; exactly when the checks pass, and nothing otherwise |
| `Reviews.CommitDoesItsRequest` | apps/control-plane/internal/store/score_review_request.go:120-441 | in every interleaving a commit does that for the request its transaction was begun with, on the row as it is then |
| `JwksCaches.JwksCache.GetKey` | apps/control-plane/internal/auth/jwks_cache.go:155-227 | for one call: which answer each age of the cache gives, when a refresh is spawned, what a blocking fetch installs |
| `JwksCaches.JwksCache.Install` | apps/control-plane/internal/auth/jwks_cache.go:239-281 | the loop builds the map of the response and the swap publishes it with its time |
| `JwksCaches.KeysOfLastUsable` | apps/control-plane/internal/auth/jwks_cache.go:255-281 | a kid is cached exactly when the JWK Set (section 5 of RFC 7517) has a usable key for it, and then with the last such key |
| `JwksCaches.JwksCache.Reachable` | apps/control-plane/internal/auth/jwks_cache.go:141-150 | ready exactly when a fetch has succeeded less than staleMaxAge ago |
| `JwksCaches.JwksCache.BackgroundRefresh` | apps/control-plane/internal/auth/jwks_cache.go:177-186 | the background goroutine installs a response or keeps the old keys, and clears the flag either way |
| `JwksProtocol.ReturnedKeyIsFresh` | apps/control-plane/internal/auth/jwks_cache.go:155-281 | over every interleaving of calls, refreshes and clock ticks a returned key was installed under its kid by a successful fetch that is recent for the call |
| `JwksProtocol.StaleBoundedIff` | apps/control-plane/internal/auth/jwks_cache.go:101-132 | no call ever returns a key installed staleMaxAge or more before the call started, exactly when 0 < staleMaxAge and ttl <= staleMaxAge; the options are not checked against each other |
| `JwksProtocol.BoundedFetches` | apps/control-plane/internal/auth/jwks_cache.go:171-207 | refreshing is set exactly while one background refresh lives; at most one background and one blocking fetch exist; a non-empty cache has a success time |
| `JwksProtocol.LastSuccessIsMonotone` | apps/control-plane/internal/auth/jwks_cache.go:231-281 | the success time never goes back |
| `JwksProtocol.NoFetchWhileFresh` | apps/control-plane/internal/auth/jwks_cache.go:189-207 | while the cache keeps a fresh entry for a kid no call starts a blocking fetch for it |
| `JwksProtocol.WaiterTakesInstalledKey` | apps/control-plane/internal/auth/jwks_cache.go:189-207 | a caller that holds fetchMu while its kid is fresh returns the installed key in its next two steps, without a fetch |
| `JwksProtocol.WaiterNeverFetches` | apps/control-plane/internal/auth/jwks_cache.go:189-207 | in every run in which its kid stays fresh, a caller that waits on fetchMu or has just got it never fetches, and whatever it returns is a key the cache had during the run |
| `JwksServing.FirstReadDecides` | apps/control-plane/internal/auth/jwks_cache.go:160-195 | in every interleaving the first read of a call decides: a fresh key is returned as read; a key younger than staleMaxAge is returned whatever the fetches do; only a call that saw neither goes to wait for fetchMu |
| `JwksServing.ServableIsServed` | apps/control-plane/internal/auth/jwks_cache.go:165-187 | a call whose first read meets its kid younger than ttl or staleMaxAge returns that cached key in every continuation in which it returns, at the latest with its next step |
| `JwksServing.FailsOnlyIfNotServable` | apps/control-plane/internal/auth/jwks_cache.go:189-226 | over every run a call fails, as unavailable or as an unknown kid, only if its first read found no key to serve |
| `JwksServing.StaleHitRefreshes` | apps/control-plane/internal/auth/jwks_cache.go:171-187 | a first read that meets its kid at least ttl but less than staleMaxAge old: however the others move, the call returns that key and leaves refreshing set with exactly one background refresh, its own if none was alive |
| `JwksServing.CallAloneIsGetKey` | apps/control-plane/internal/auth/jwks_cache.go:155-227 | a call that nobody interrupts ends with the answer and the fields of the contract of `JwksCaches.JwksCache.GetKey`, for every cache, delay and answer of the network |
| `JwksServing.BackgroundAloneIsRefresh` | apps/control-plane/internal/auth/jwks_cache.go:177-186 | a background refresh that nobody interrupts installs the answer with its time or keeps the old keys, clears the flag and ends |
| `Evidences.EvidenceTable.Upload` | apps/control-plane/cmd/server/evidence_handlers.go:230-299 | a serial upload extends the item's line 1..n by one version with the given body, supersedes exactly the old last version and changes no other column or row, answers the stored version, and adds the one event naming it and the body's hash |
| `Evidences.EvidenceTable.ResolveVersion` | apps/control-plane/cmd/server/evidence_handlers.go:230-245 | the handler's version is the latest plus one, or 1; a repeated hash is only signalled |
| `Evidences.EvidenceTable.Latest` | apps/control-plane/internal/store/evidence.go:163-184 | the scan returns a row of highest version, or none if the item has no row |
| `Evidences.EvidenceTable.UpdateBodyColumn` | apps/control-plane/internal/store/evidence.go:253-281 | accepted exactly for a known column of a row without successor, and then changes that column alone |
| `Evidences.SerialRunsFormLines` | apps/control-plane/cmd/server/evidence_handlers.go:230-299 | after every serial run of uploads, each on the latest row of the table as it is, and of column updates, from the empty table, the versions of each item are exactly 1..n, only the last ACTIVE, told by one CREATED event and then n-1 VERSIONED events |
| `Evidences.SerialSupersededIsFrozen` | apps/control-plane/internal/store/evidence.go:253-281 | in serial runs a version with a successor keeps its row for good, body columns included |
| `Evidences.Serve` | apps/control-plane/cmd/server/evidence_handlers.go:230-299 | the table object, served the requests one after the other, ends with exactly the rows and the log of that run |
| `EvidenceRuns.NeverForks` | apps/control-plane/internal/store/evidence.go:219-234 | in every interleaving, stale reads included, no version gets two successors and a row is SUPERSEDED exactly when it has one |
| `EvidenceRuns.LinearIffOneFirstVersion` | apps/control-plane/internal/store/evidence.go:74-109 | the versions of an item form one line 1..n told by its audit events exactly when no two first uploads of it both committed |
| `EvidenceRuns.StaysLinearIff` | apps/control-plane/internal/store/evidence.go:219-234 | an item that has a version is one line in every continuation, under any interleaved re-uploads, exactly when it has one first version and no upload that found none is still under way |
| `EvidenceRuns.CommittedReuploadSawLatest` | apps/control-plane/internal/store/evidence.go:163-234 | a re-upload that commits on a linear item commits on top of the real latest version, however stale its snapshot was |
| `EvidenceRuns.SupersededIsFrozenIff` | apps/control-plane/internal/store/evidence.go:253-281 | in the interleaved system, where the successor count and the column update are two statements, a version with a successor keeps its row in every continuation exactly when no update of it that would change a column has already passed its count |
| `EvidenceRuns.LateUpdatesWereCheckedBefore` | apps/control-plane/internal/store/evidence.go:253-281 | no update starts on a version with a successor: the ones that still write it had passed their count before the successor was committed |
| `EvidenceRuns.LateWriteChangesSuperseded` | apps/control-plane/internal/store/evidence.go:258-273 | a run from the empty table in which the body of a version with a successor changes |
| `EvidenceRuns.FirstUploadsCanCollide` | apps/control-plane/cmd/server/evidence_handlers.go:230-299 | two first uploads of one item can both commit as version 1 |
| `EvidenceRequests.CommitStoresUpload` | apps/control-plane/cmd/server/evidence_handlers.go:230-299 | in every interleaving a commit stores the item and body its upload was begun with, as one ACTIVE version on top of the one it flipped, changes nothing else, and its event names that version, its predecessor and its hash |
| `EvidenceRequests.WriteStoresColumn` | apps/control-plane/internal/store/evidence.go:253-281 | in every interleaving a column write sets the column its check named to the value its check named and nothing else; the row had no successor at that check |
| `EvidenceRequests.LoneUploadCommits` | apps/control-plane/cmd/server/evidence_handlers.go:230-299 | from every reached state without another upload under way, an upload of an item whose versions form a line commits as the next version |
| `EvalItems.EvalItemTable.InsertEvalItem` | apps/control-plane/internal/store/eval_item.go:63-125 | accepted exactly for non-empty texts within their columns, an existing parent or none, a new id and a new code; then one ACTIVE row with every column as given is added and no other changes; a refusal changes nothing |
| `EvalItems.EvalItemTable.UpdateEvalItem` | apps/control-plane/internal/store/eval_item.go:206-287 | accepted exactly for a stored id, a known status, a leaf if parent or level is given, a stored parent or none, and a name that fits; then each column holds what was given or what it held, the code is kept and no other row changes; a refusal changes nothing |
| `EvalItems.OperationDoes` | apps/control-plane/internal/store/eval_item.go:63-287 | the same two statements for every operation of a run, with the condition of each refusal that names the parent, the id or the children |
| `EvalItems.ForestIffNoSelfParent` | apps/control-plane/internal/store/eval_item.go:270-287 | after every serial run the parent links have no cycle except an item naming itself; every item reaches a root within n-1 steps exactly when none does |
| `EvalItems.ForestIffNoSelfMove` | apps/control-plane/internal/store/eval_item.go:206-287 | a run ends in a forest exactly when it accepted no request to move an item under itself |
| `EvalItems.SelfMoveIsAccepted` | apps/control-plane/internal/store/eval_item.go:270-287 | such a request is accepted for every leaf |
| `EvalItems.SelfParentIsPermanent` | apps/control-plane/internal/store/eval_item.go:270-287 | an item that is its own parent stays so: the guard now counts it as its own child |
| `EvalTree.BuildTree` | apps/web/src/components/evaluation/item-tree.tsx:188-224 | the loops and the recursive sort return a forest whose every level lists exactly the items naming its parent (missing and empty parents: the roots), each once, sorted by code |
| `EvalTree.SortIsSorted` | apps/web/src/components/evaluation/item-tree.tsx:214-218 | the sibling sort is sorted for any order that is a total preorder |
| `EvalTree.LevelsAreExact` | apps/web/src/components/evaluation/item-tree.tsx:188-224 | with unique ids the top level shows exactly the items whose parentId is absent, empty or not in the list, below a node stand exactly the items whose parentId is its id, and each level is in the order of the codes |
| `EvalTree.NodeMapKeepsLast` | apps/web/src/components/evaluation/item-tree.tsx:188-224 | of several items with one id the node map keeps the last |
| `EvalTree.ShownIffRooted` | apps/web/src/components/evaluation/item-tree.tsx:188-224 | the displayed tree shows an item once if it reaches a root and hides it otherwise |
| `EvalTree.PermutationIffAcyclic` | apps/web/src/components/evaluation/item-tree.tsx:188-224 | with unique ids the displayed tree is a permutation of the list exactly when the parent links have no cycle |
| `EvalTree.SelfParentIsHidden` | apps/web/src/components/evaluation/item-tree.tsx:197-211 | an item that is its own parent, and everything below it, is not displayed |
| `EvalForest.TreeShowsTableIff` | apps/web/src/components/evaluation/item-tree.tsx:188-224 | after any serial run of the item table the screen shows every row once exactly when the run accepted no self-move |
| `Scores.ScoreTable.InsertScore` | apps/control-plane/internal/store/score.go:110-195 | accepted exactly for a non-blank item of at most 64 characters, a known level, a finite value, a new id and numbers that fit; then one DRAFT row with every column as given, value and weight rounded half away from zero, is added, no other row changes and one SCORE_CREATED about it is appended; a refusal changes nothing |
| `Scores.ScoreTable.UpdateScore` | apps/control-plane/internal/store/score.go:257-316 | accepted exactly for a stored id, no score field on a CONFIRMED row, a status the old one may turn into, and numbers and a grade that fit; then each column holds what was given or what it held, and one SCORE_UPDATED is appended unless nothing was given; a refusal changes nothing |
| `Scores.ScoreTable.SupersedeAndReplaceScore` | apps/control-plane/internal/store/score.go:332-391 | accepted exactly for a CONFIRMED row, a finite value, a new id and numbers that fit; then the old row is SUPERSEDED and otherwise kept, a CONFIRMED row of its item, evidence and level holds the given value, weight and metadata, and two events say so; a refusal changes nothing |
| `Scores.OperationDoes` | apps/control-plane/internal/store/score.go:110-391 | the same three statements for every operation of a run |
| `Scores.RefusalSays` | apps/control-plane/internal/store/score.go:110-391 | which check refuses an operation: invalid input, not found, a frozen CONFIRMED row, a status it may not take, a row that is not CONFIRMED |
| `Scores.RowsOnlyEvolve` | apps/control-plane/internal/store/score.go:396-416 | over every run no row is deleted or relabelled, no status moves back, and a row that stays CONFIRMED keeps value, weight and grade |
| `Scores.EveryRowIsAudited` | apps/control-plane/internal/store/score.go:110-140 | over every run rows and SCORE_CREATED events are in bijection, each row's first event, followed only by SCORE_UPDATED |
| `Scores.FieldsSafeIffConfirmed` | apps/control-plane/internal/store/score.go:264-270 | the score fields of a row that has left DRAFT survive every operation exactly while the row is CONFIRMED |
| `Scores.FieldsLastIff` | apps/control-plane/internal/store/score.go:264-270 | over every run the score fields of a row that has left DRAFT stay the same all the way exactly when each update of them that meets the row SUPERSEDED, gives no status and fits the columns, writes what is there already |
| `Scores.LateRowsCanChange` | apps/control-plane/internal/store/score.go:257-316 | every row of a run that has left DRAFT has a continuation that changes its score fields |
| `Scores.SupersededIsEditable` | apps/control-plane/internal/store/score.go:264-270 | an update of the value is accepted for every SUPERSEDED row |
| `Scores.CorrectionCountsTwice` | apps/control-plane/internal/store/score.go:460-478 | a correction adds the new product to the weighted sum and keeps the old one |
| `Scores.RawSumIs` | apps/control-plane/internal/store/score.go:460-478 | the sum is zero for no rows, and a row adds value * weight exactly when it is a raw row of the item with both set, whatever its status |
| `ScoreRuns.ReplacementsFormChains` | apps/control-plane/internal/store/score.go:332-391 | in every interleaving of corrections working from unlocked reads each row is replaced at most once and replaces at most one, and no chain of replacements returns to its start |
| `ScoreRuns.InterleavingIsSerial` | apps/control-plane/internal/store/score.go:332-391 | every interleaving has the effect of its committed corrections, executed serially in commit order |
| `ScoreRuns.ConfirmedCountIsConserved` | apps/control-plane/internal/store/score.go:347-380 | every interleaving conserves the number of CONFIRMED rows of every (item, evidence, level) |
| `ScoreRuns.OnlyReplacedRowsChange` | apps/control-plane/internal/store/score.go:361-380 | nothing is deleted; an old row is flipped to SUPERSEDED exactly when a committed correction replaced it, and is otherwise unchanged |
| `ScoreRuns.TwoEventsEach` | apps/control-plane/internal/store/score.go:347-390 | each committed correction adds exactly its two audit events, a rolled-back one none |
| `ScoreRuns.CommitDoesItsRequest` | apps/control-plane/internal/store/score.go:332-391 | in every interleaving a commit corrects the row its transaction was begun with by the value, weight and metadata it was begun with, on the table as it is then |
| `ScoreRuns.LoneCorrection` | apps/control-plane/internal/store/score.go:332-391 | a correction that runs alone reaches its commit and corrects the row when its checks pass, and leaves the tables alone otherwise |
| `Grades.DetermineGrade` | apps/control-plane/internal/store/score.go:598-648 | returns the letter of a satisfied threshold with the highest min_value; fails exactly when none is satisfied |
| `Grades.HigherScoreHigherGrade` | apps/control-plane/internal/store/score.go:598-648 | a higher score never gets a lower threshold, nor none where a lower score had one |
| `Grades.GradeIsDetermined` | apps/control-plane/internal/store/score.go:600-606 | when no two thresholds share a min_value the order of the rows cannot change the grade |
| `Grades.AtTheBoundary` | apps/control-plane/internal/store/score.go:629-640 | a score equal to min_value satisfies the threshold exactly under "gte"; above it under "gte" and "gt"; below it never; an unknown rule is never satisfied |
| `Rubrics.RubricTables.HandleCreateRubric` | apps/control-plane/internal/store/rubric.go:168-219 | accepted exactly for a non-blank name and a scope within their columns and a new id; then one draft with every column as given and no archive reason is added, no other row changes, and one event by its author is appended; a refusal changes nothing |
| `Rubrics.RubricTables.HandleUpdateRubric` | apps/control-plane/cmd/server/rubric_handlers.go:505-577 | accepted exactly for a rubric that is not archived, a name and a scope that fit, a status the old one may turn into, no active rubric in the way of an activation, no active namesake in the scope, and a reason if archived; then name, scope, status and metadata are as asked, version, author and reason are kept; a refusal changes nothing |
| `Rubrics.RubricTables.HandleArchiveRubric` | apps/control-plane/internal/store/rubric.go:423-459 | accepted exactly for an active rubric with a reason, which is then archived with that reason and otherwise kept, with one event; a refusal changes nothing |
| `Rubrics.RubricTables.HandleAddCriterion` | apps/control-plane/cmd/server/rubric_handlers.go:696-710 | accepted exactly for an existing item, a weight in [0,1] that with the stored weights of the rubric is at most 1, and a rubric that is not archived; then one criterion with the rounded weight and one event are appended; a refusal changes nothing |
| `Rubrics.RubricTables.HandleAddBand` | apps/control-plane/cmd/server/rubric_handlers.go:768-781 | accepted exactly for a letter that fits, min below max before and after rounding, numbers that fit, a rubric that is not archived, and no band of it that meets the interval before or after rounding; then one band with the rounded ends and one event are appended; a refusal changes nothing |
| `Rubrics.RubricTables.ApplyRubric` | apps/control-plane/internal/store/rubric.go:641-662 | whatever order the bands come in: returns a band containing the score, and fails exactly when none does |
| `Rubrics.RequestDoes` | apps/control-plane/cmd/server/rubric_handlers.go:505-781 | the same for every request of a run: it does what it asks, column by column, exactly when its checks pass, and nothing otherwise |
| `Rubrics.RefusalSays` | apps/control-plane/cmd/server/rubric_handlers.go:505-781 | which check refuses a request: not found, an active rubric in the way, archived, no reason, weights above 1 before a weight out of bounds, an overlap before anything else about the interval |
| `Rubrics.ContainingBandIsUnique` | apps/control-plane/internal/store/rubric.go:523-568 | in every run the bands of a rubric are disjoint, so at most one contains a score |
| `Rubrics.WeightsStayBounded` | apps/control-plane/cmd/server/rubric_handlers.go:696-710 | in every run each stored weight is in [0,1] and a rubric's weights sum to at most 1, although the check precedes the rounding |
| `Rubrics.ArchivedIsFrozen` | apps/control-plane/internal/store/rubric.go:346-568 | once archived, a rubric, its criteria and its bands never change |
| `Rubrics.ReasonIffArchived` | apps/control-plane/internal/store/rubric.go:423-459 | in every run a rubric carries a non-blank archive reason exactly when it is archived |
| `Rubrics.UpdateNeverArchives` | apps/control-plane/internal/store/rubric.go:55-63 | the transition active -> archived that the update path allows is never accepted there |
| `Rubrics.ActiveIsUniquePerScope` | apps/control-plane/cmd/server/rubric_handlers.go:535-549 | two active rubrics share a name and a scope only when that scope is NULL |
| `Rubrics.UniquenessKeptIff` | apps/control-plane/cmd/server/rubric_handlers.go:505-577 | from rubrics whose active ones are unique per name and scope, an accepted request keeps them so exactly when it is not an update that leaves its row active without a scope under the name of another active rubric without a scope |
| `Rubrics.RunStaysUniqueIff` | apps/control-plane/cmd/server/rubric_handlers.go:505-577 | a run stays unique all the way exactly when it accepts no such update |
| `Rubrics.UnscopedRubricsCollide` | apps/control-plane/cmd/server/rubric_handlers.go:505-577 | a run from the empty tables in which two active rubrics end up with one name and no scope |
| `Rubrics.RoundingOnlyTouchesEnds` | apps/control-plane/cmd/server/rubric_handlers.go:768-781 | a band that passes the handler's test violates the exclusion constraint exactly when a rounded end lands on the neighbour's end |
| `Rubrics.RoundedBandCanTouch` | apps/control-plane/cmd/server/rubric_handlers.go:768-781 | such a request, which only the constraint refuses |
| `Reports.CategoryReport` | apps/control-plane/cmd/server/report_handlers.go:217-283 | the loop shows each child's sum and the exact sum of all; the grade is that of the total, or null; a failed query fails the report |
| `Reports.PrintedReadsRounded` | apps/control-plane/cmd/server/report_handlers.go:251-255 | reading a printed number back gives it rounded half away from zero to four decimals; the sign is the number's own and a leading zero only stands for a zero whole part |
| `Reports.NumericToRatIsExact` | apps/control-plane/cmd/server/report_handlers.go:161-176 | a finite numeric converts to mantissa * 10^exp: times 10^-exp it is the mantissa when exp is negative; any other one is zero |
| `Reports.FourDecimalsAreUnits` | apps/control-plane/cmd/server/report_handlers.go:161-176 | a numeric of at most four decimals converts to exactly mantissa * 10^(4 + exp) units of 10^-4, for either sign of its exponent; missing and non-finite ones count as zero |
| `Reports.TotalIsSumOfItems` | apps/control-plane/cmd/server/report_handlers.go:239-255 | for sums of at most four decimals each printed item reads back to its mantissa * 10^(4 + exp) units, and the printed total, like the number that is graded, is exactly the sum of those |
| `Reports.TotalErrorBound` | apps/control-plane/internal/store/score.go:460-478 | the printed total is off the unrounded sum of score * weight over n children by at most n half-units of 10^-4 |
| `Reports.SumOverflowsIff` | apps/control-plane/internal/store/score.go:460-478 | the cast of a weighted sum to numeric(12,4) overflows exactly when the sum is within half a unit of 10^8 or beyond |
| `Chunker.NewChunker` | pipelines/ingestion/text_chunker.py:26-34 | refused exactly for chunk_size <= 0 or overlap >= chunk_size |
| `Chunker.Chunk` | pipelines/ingestion/text_chunker.py:36-63 | the loop terminates with the windows at the starts 0, step, 2*step, ... up to the first that reaches the end |
| `Chunker.ChunkLengths` | pipelines/ingestion/text_chunker.py:36-63 | every chunk is non-empty and at most chunk_size long |
| `Chunker.ChunksRebuildText` | pipelines/ingestion/text_chunker.py:36-63 | for overlap >= 0 each later chunk is longer than the overlap, and the first chunk followed by each later one without its overlap is the text |
| `Chunker.NothingLostIff` | pipelines/ingestion/text_chunker.py:26-34 | no character is lost exactly when overlap >= 0 or the text fits into one chunk; the constructor accepts a negative overlap |
| `Chunker.ChunkCount` | pipelines/ingestion/text_chunker.py:52-63 | for overlap >= 0 and a longer text there are 1 + ceil((n - chunk_size) / step) chunks |
| `Chunker.ChunkAt` | pipelines/ingestion/text_chunker.py:36-63 | chunk i is the chunk_size characters from i * step on, cut off at the end of the text, and a next one exists exactly when this one stops short of the end and the next start is inside; only the empty text has no chunk |
| `Worker.EmbedAndUpsertChunks` | pipelines/workers/ingestion_worker.py:226-311 | for any store handed to it: indexed + failed is the number of chunks on every path that returns; at most three attempts, at most one of them stored, which needs a store with a connection; the table is the one those attempts leave, row by row |
| `Worker.VectorStore.Upsert` | pipelines/mapping/vector_store.py:31-61 | the loop writes the rows one by one, an existing id keeps its other columns, and an error leaves the rows already written behind |
| `Worker.UpsertedOne` | pipelines/mapping/vector_store.py:41-51 | a new row is stored whole; a row whose id is taken gets the new name and embedding and keeps its detail and parent; no other row changes |
| `Worker.AttemptsLeavePrefix` | pipelines/workers/ingestion_worker.py:293-309 | whatever the attempts answered, with new ids the table gains a prefix of the surviving rows, each once and whole; after a stored attempt exactly the survivors |
| `Worker.AnyPrefixCanRemain` | pipelines/mapping/vector_store.py:31-61 | every prefix of the survivors is what some failing attempt of a store with a connection leaves behind |
| `Worker.NothingRemainsIff` | pipelines/workers/ingestion_worker.py:293-309 | with new ids the attempts leave the table as it was exactly when each of them failed before its first row |
| `Worker.UnconnectedStoresNothing` | pipelines/workers/ingestion_worker.py:288-291 | with the store the worker builds, which has no connection, the first attempt raises before its first row and nothing is ever stored |
| `Worker.SurvivorsAreEmbedded` | pipelines/workers/ingestion_worker.py:253-282 | the rows stored are exactly the chunks that embedded to 768 dimensions, each with its own text and vector |
| `Worker.RetryOutcome` | pipelines/workers/ingestion_worker.py:293-309 | the retry loop ends with its first attempt that does not find the table rebuilding, and as that one ended: stored, or failed with its exception; after three rebuilds it ends in the runtime error |
| `Worker.Execute` | pipelines/workers/ingestion_worker.py:90-206 | for any store handed to it: one callback, posted last: completed exactly when there is no error; every key of the result is pinned to the text, the OCR answer, the embedded and failed chunks, the last attempt or the trigger, on each path; scoring is triggered once on completion and never on failure; a completed task has stored exactly the survivors, a failed one a prefix of them, and nothing exactly when no attempt wrote a row; without a connection nothing is stored and a task with text completes exactly when no chunk embedded |

## Left out

- HTTP, JSON, gRPC, multipart, SQL text, RBAC and JWT checks: a table is a map or a list, a statement is its effect, a
  generated UUID is an input (fresh where the database guarantees it).
- Times in audit events are inputs; `created_at` and `updated_at` columns and Go's nil-versus-empty byte slices are not
  modelled. Several events of one transaction carry the same time input.
- The `StateMachine` mutex is dropped from the interleaved workflow system: it only removes interleavings, and the row
  lock alone is shown to suffice. A failed statement aborts its transaction, which is the abort step.
- `FakeStore`: the listing and audit-query paging, seeding, and `ExecuteWorkflowTransition` (which never reads the current
  state) are not modelled.
- Reviews: the metadata column, stored as given by the insert and never changed, is not modelled.
- JWKS: decoding of RSA and EC key material is a parameter of the response; the two unavailable errors are one.
- Evidence: generated ids are never reused; body column values are assumed to fit their columns. The `UPDATE` of a body
  column and the commit after it are one step, since the row lock it takes keeps everybody else from that row meanwhile.
- Evaluation items: the audit events of inserts and updates, and concurrent moves, are not modelled. An id length counts
  characters, not bytes (the same for score item ids and rubric names). The remaining columns are opaque texts.
- EvalForest.TreeShowsTableIff: takes the list to be the whole table, with `hierarchy_code` as code and `display_name` as
  name. The server has no endpoint that lists all items (only create, read, children and update under
  `/api/v1/eval-items`), and the web client asks `/api/v1/evaluation-items`.
- User ids are assumed to fit their columns.
- EvalTree.BuildTree: the comparator `localeCompare` is any total preorder; children lists are kept beside the nodes, keyed
  by id, instead of inside aliased node objects.
- Scores: an update or a weight that is NaN or infinite, and concurrent `UpdateScore`, are not modelled; inputs are exact
  numbers that the columns round half away from zero.
- Rubrics.RubricTables.HandleAddCriterion: the sum of the stored weights is exact where the handler adds float64 values.
- Rubrics: criteria and bands added concurrently, listing, and cloning (an insert with copied fields) are not modelled.
- Reports.CategoryReport: the total handed to the grade scan is not converted to float64 first. A big.Rat is a real number;
  which children a category has is an input.
- Worker.Execute: takes the store as an input, so that stores with a connection are covered too; `VectorStore.upsert`
  itself never asks for a retry, only other stores behind the same interface do.
- Worker: OCR, embedding and scoring services are inputs, and so is the row at which an upsert attempt fails; each row is
  in the table once its statement has run (the connection's own transaction is not modelled); reading the document
  metadata cannot fail; logging is dropped.
- Metrics, tracing, configuration, queues, OIDC, the language-model and text-analysis code, and all screens but the tree.

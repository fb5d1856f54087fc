# BookiE: a verified model of its stateful cores

BookiE is a desktop database client. This project models, in Dafny, the parts of its application layer
whose correctness is hardest to see from the code, and proves what they promise.

* **Workspace persistence** (`WorkspaceProtocol`, `WorkspaceSafety`, `WorkspaceTheorems`, `WorkspaceForget`,
  `WorkspaceLeaks`, `WorkspaceAnswers`, `WorkspaceServices`, `WorkspaceQueues`, `WorkspaceStore`). Client
  threads save and flush, one writer thread drains a coalescing queue, prefetches fill a cache, connections
  are forgotten and allowed again, save tokens are revoked. The protocol is a state machine of twenty-two
  kinds of steps, one per critical section; writes may fail with or without reaching the disk. The theorems
  hold for every interleaving. The queue and the cache are also classes whose methods are proved to do what
  the steps do.
* **Workspace records** (`WorkspaceRecords`, `WorkspaceClamp`, `WorkspaceClampLoops`, `WorkspaceLimits`,
  `WorkspaceDatabases`, `Utf8`). The normaliser that bounds a saved workspace, as loops proved against a specification, and the
  record that remembers one workspace per database.
* **Encrypted result spool** (`SpoolFormat`, `Spool`, `SpoolQuota`, `SpoolShared`). Pages of rows are cut
  into chunks, sealed, framed and read back; failed pages are rolled back; a quota is shared by
  compare-and-swap, and each file keeps its account with it. Nonces follow the deterministic construction of
  section 8.2.1 of NIST SP 800-38D.
* **Change tracker** (`RowIdentity`, `ChangeTracker`, `TrackerHistory`, `Materialize`, `MaterializedBatch`). Pending edits, drafts
  and deletions with an operation log. The log is proved to refine a history of snapshots, and the batch of
  statements not to depend on the order in which hash maps are read.
* **Filter compiler** (`Texts`, `Like`, `Filter`). Rules become a WHERE clause with bound parameters; the
  clause is evaluated in three-valued logic, and LIKE as in section 8.5 of ISO/IEC 9075-2.
* **Completion index** (`Completion`) and **sidebar tree** (`SidebarTree`, `SidebarKeys`, `SidebarContents`,
  `SidebarReveal`).
  Caches, key sets and path strings that must agree with plain definitions.
* **Settings file** (`StateFile`) and **SQL size limits** (`SqlText`, `SqlCursor`). A coalescing writer, and a check of
  an insertion that must agree with a check of the whole document.

`Options`, `Octets` and `Ordering` hold what several of these share.

## Reading the model

Code that changes an object in place is a class or a method with loops, proved against functions; theorems
are about those functions and about the state machines built from them. Library code is a parameter: the
cipher (inverse and length laws only), the page encoding (inverse law only), the SQL lexer, Unicode case
folding, value parsers, SQL builders, comparison of SQL values. `R` in the workspace protocol is the record type;
the theorems ask only that its normaliser is idempotent, which `WorkspaceStore` supplies.

A few findings, each with its exact condition or a counterexample:

* A forgotten workspace stays gone exactly as long as every allow call of that very connection ends with no
  older entry queued or in flight (`SinceExactly`). Calls that do not overlap meet this; two that overlap need
  not (`OverlappingAllowsLeak`). A removal that fails leaves exactly the old record.
* Undo restores a pending deletion exactly when the row was not already marked (`MarkedTwice` is a run), and
  a cell edit recorded under a draft's key only when there was nothing to take back (`DraftKeyEdited`). The
  grid never makes the second call, because `apps/linux/app/src/ui/browse_tab/row_ops.rs` edits drafts in
  another way (lines 325-345); only the tracker's public interface allows it. `RunRefines` and `UndoThenRedo`
  leave out just these two calls; `LogBounded` and `DiscardedNeverReturns` hold for every run. The touched
  flag of a drafted cell is restored exactly under the condition in `DraftFlagsUndone`; `NullByHand` is a run
  that loses it.
* A remembered database is lost exactly when it is not in the fold stated by `RecordIsMap`; `LosingRun` loses
  one.
* Sidebar keys collide exactly when something is listed twice, or relations without a schema share a node
  with a schema whose name is empty (`EmptyNameExample`).
* The insertion check counts a carriage return that the document check ignores, so the two can disagree by
  one byte; `ChecksAgree` says exactly when they agree.

In the comments of `filter.rs` the pattern operators are said to be case sensitive on all drivers. The code
leaves that to the engine; the model compares characters exactly.

## Model

| member | source | states |
|---|---|---|
| WorkspaceQueues.WorkspaceQueue.Save | crates/app-services/src/workspace_state.rs:65-74 | the queue after a save is the protocol's queue after a save: next sequence number, entry replaced |
| WorkspaceQueues.WorkspaceQueue.RequestFlush | crates/app-services/src/workspace_state.rs:76-82 | a flush is answered at once exactly when everything accepted is persisted, and otherwise waits for the newest sequence |
| WorkspaceQueues.WorkspaceQueue.TakePending | crates/app-services/src/workspace_state.rs:84-86 | drains the map in any order: every queued entry once, nothing left |
| WorkspaceQueues.WorkspaceQueue.RestorePending | crates/app-services/src/workspace_state.rs:88-98 | after a failed write every entry is back unless a newer save of the connection came meanwhile |
| WorkspaceQueues.WorkspaceQueue.CompleteAttempt | crates/app-services/src/workspace_state.rs:100-116 | a finished attempt sends exactly its own result to the waiters it reached, in order, and keeps the others; to the callers that is the protocol's step |
| WorkspaceQueues.SplitWaiters | crates/app-services/src/workspace_state.rs:100-116 | one pass parts the waiters an attempt reached from those it did not, order kept |
| WorkspaceQueues.MemoryCell.Install | crates/app-services/src/workspace_state.rs:615-637 | a prefetch installs only what was neither saved nor forgotten since it began and could be read |
| WorkspaceQueues.SaveCoordinated | crates/app-services/src/workspace_state.rs:639-657 | a save is refused for a forgotten connection or a revoked token and then changes nothing; otherwise memory and queue change together as in the protocol |
| WorkspaceSafety.StepKeeps | crates/app-services/src/workspace_state.rs:474-708 | every step of clients, writer, prefetch, forget and allow keeps the joint invariant of log, queue, disk, flushes, wake and cache |
| WorkspaceTheorems.FlushOkIsDurable | crates/app-services/src/workspace_state.rs:639-708 | in every interleaving with failed writes, a flush answered Ok has each earlier save, or a newer one of that connection, on disk, unless the connection was forgotten since |
| WorkspaceTheorems.StoredNeverGoesBack | crates/app-services/src/workspace_state.rs:667-708 | the stored save of a connection that is not forgotten is never replaced by an older one |
| WorkspaceTheorems.CacheHoldsLatestSave | crates/app-services/src/workspace_state.rs:395-412 | at every reachable state the cache of a connection with a live save holds its latest accepted save, as saved or clamped, however prefetches interleave |
| WorkspaceTheorems.UnansweredFlushIsServed | crates/app-services/src/workspace_state.rs:76-116 | an unanswered flush has the newest sequence queued or in flight, and once woken its token, the woken writer or the batch in flight covers it |
| WorkspaceTheorems.WriterNeverStuck | crates/app-services/src/workspace_state.rs:659-707 | while a flush waits the writer can always step, at the latest after the running forget |
| WorkspaceTheorems.WriterStepAdvances | crates/app-services/src/workspace_state.rs:667-707 | every writer step brings a waiting flush strictly closer to its answer |
| WorkspaceTheorems.FlushAnsweredWithinEightWriterSteps | crates/app-services/src/workspace_state.rs:595-612 | eight writer steps after its wake every flush has an answer, whatever else happens between them |
| WorkspaceAnswers.StepAnswers | crates/app-services/src/workspace_state.rs:100-116 | a step answers a waiting flush exactly when it reports a write attempt that reaches it, and with the result of that attempt |
| WorkspaceAnswers.FirstReportAnswers | crates/app-services/src/workspace_state.rs:100-116 | in any interleaving the answer of a flush is, for good, the result of the first reported attempt that reaches it |
| WorkspaceAnswers.AnswerHasCause | crates/app-services/src/workspace_state.rs:76-116 | from its start on, a flush has Ok at once if all accepted saves were persisted, else the result of the first attempt that reached it, else no answer: an error means that this attempt failed |
| WorkspaceAnswers.AnsweredInTime | crates/app-services/src/workspace_state.rs:595-612 | eight writer steps after its wake a flush has the result of an attempt reported since |
| WorkspaceForget.StepForgets | crates/app-services/src/workspace_state.rs:516-593 | for any one connection, each step keeps the invariant about where its records come from, if only its own allow calls do not overlap |
| WorkspaceForget.SinceExactly | crates/app-services/src/workspace_state.rs:516-593 | through any run, nothing from before a forget is queued past the block, stored, cached or about to be, if and only if every allow call of the connection ends when no entry from before the forget is queued or in flight |
| WorkspaceForget.CleanlyForgotten | crates/app-services/src/workspace_state.rs:516-593 | under exactly that condition, after the removal step of a forget, succeeded or failed, disk and cache only ever hold saves of that connection accepted after it, or, only if this removal failed, the record it should have removed |
| WorkspaceForget.ApartIsClean | crates/app-services/src/workspace_state.rs:558-593 | allow calls of a connection that do not overlap meet that condition, as each drains the queue before it ends |
| WorkspaceForget.ForgottenStaysGone | crates/app-services/src/workspace_state.rs:516-593 | the same whenever allow calls of that very connection do not overlap; other connections, earlier failed forgets and stale queued entries do not matter |
| WorkspaceForget.DrainedIsGone | crates/app-services/src/workspace_state.rs:558-593 | when the drain of an allow call returns Ok nothing of its connection is queued or in flight |
| WorkspaceForget.RevokedTokenNeverSaves | crates/app-services/src/workspace_state.rs:474-514 | no token handed out before a forget is accepted by a later save, in any interleaving |
| WorkspaceServices.PrefetchFills | crates/app-services/src/workspace_state.rs:395-412 | a prefetch puts what disk held at its load, or nothing, into the cache for every connection asked for that was readable and neither saved nor forgotten since it began, and changes nothing else |
| WorkspaceServices.TokenServes | crates/app-services/src/workspace_state.rs:474-514 | a token handed out for a connection that is not forgotten can save until the connection is forgotten or the token dropped |
| WorkspaceServices.BlockedTokenNeverSaves | crates/app-services/src/workspace_state.rs:474-514 | a token handed out for a forgotten connection never saves, even when saves are allowed again |
| WorkspaceServices.AllowEndsAsDrain | crates/app-services/src/workspace_state.rs:558-593 | an allow call lifts the block exactly when its drain returned Ok, and leaves it when the drain failed |
| WorkspaceLeaks.OverlappingAllowsLeak | crates/app-services/src/workspace_state.rs:558-593 | the rule about allow calls is needed: a schedule of two overlapping ones of the same connection brings a forgotten save back to disk |
| WorkspaceLeaks.FailedRemovalLeaks | crates/app-services/src/workspace_state.rs:516-556 | a run in which the removal fails and the old record is still stored after the forget |
| WorkspaceStore.ClampSettles | crates/app-services/src/workspace_state.rs:716-738 | the store's normaliser satisfies the idempotence the protocol theorems ask of it |
| WorkspaceStore.StoreFlushIsDurable | crates/app-services/src/workspace_state.rs:595-708 | the flush theorem for the real record type and normaliser |
| WorkspaceStore.StoreCacheKeepsEditors | crates/app-services/src/workspace_state.rs:395-412 | what a client reads back after saving has every editor tab of its last save |
| Utf8.FloorCharBoundary | crates/app-services/src/workspace_state.rs:883-892 | the byte count found by stepping back is that of the longest prefix within the limit |
| Utf8.TruncatedIsLongest | crates/app-services/src/workspace_state.rs:883-892 | no longer prefix of whole characters fits the limit |
| WorkspaceClampLoops.RetainMarked | crates/app-services/src/workspace_state.rs:759-813 | one retain pass gives the kept tabs and moves the selection with its tab |
| WorkspaceClampLoops.RetainKnownTabs | crates/app-services/src/workspace_state.rs:787-813 | keeps exactly the tabs of known kinds and moves the selection |
| WorkspaceClampLoops.MarkSurplus | crates/app-services/src/workspace_state.rs:759-785 | the backward pass drops the last surplus non-editor tabs and counts them, saturating |
| WorkspaceClampLoops.DropNonEditorTabsOverLimit | crates/app-services/src/workspace_state.rs:759-785 | tabs, selection and count after enforcing the tab limit |
| WorkspaceClampLoops.DropTableOnlyDatabasesOverLimit | crates/app-services/src/workspace_state.rs:740-757 | databases without an editor tab are dropped, smallest name first, down to the limit |
| WorkspaceClampLoops.ClampConnection | crates/app-services/src/workspace_state.rs:716-738 | the in-place normaliser computes the specified clamp |
| WorkspaceClamp.ClampIdempotent | crates/app-services/src/workspace_state.rs:716-881 | clamping a clamped record changes nothing, for every record |
| WorkspaceClamp.ClampedTabsAreSurvivors | crates/app-services/src/workspace_state.rs:759-813 | the clamped tabs are the surviving ones of the original list, in order, each cleaned |
| WorkspaceLimits.SurvivorsTidied | crates/app-services/src/workspace_state.rs:811-876 | what becomes of every surviving tab: mode, offset, sort and preview stay, names become their longest prefix that fits, a page size not offered becomes a thousand, older kinds become table tabs with the same fields, an editor keeps its text and loses only a file that cannot be restored |
| WorkspaceLimits.GroupsAreFirst | crates/app-services/src/workspace_state.rs:715-725 | the first 256 short group keys survive in order |
| WorkspaceLimits.SchemasAreLeast | crates/app-services/src/workspace_state.rs:715-731 | the least 256 distinct storable schema names survive, strictly sorted |
| WorkspaceLimits.ClampFixed | crates/app-services/src/workspace_state.rs:715-738 | the normaliser changes nothing exactly when the record is within every limit |
| WorkspaceClamp.SelectionFollowsTab | crates/app-services/src/workspace_state.rs:759-813 | the selection is on the same tab whenever that tab survives, else on the first |
| WorkspaceClamp.LimitCounts | crates/app-services/src/workspace_state.rs:759-785 | the count of omitted tabs grows by exactly the tabs dropped for the limit, and no editor tab is among them |
| WorkspaceClamp.EditorsKept | crates/app-services/src/workspace_state.rs:716-813 | every editor tab is kept in order |
| WorkspaceClamp.RememberedEditorsKept | crates/app-services/src/workspace_state.rs:740-757 | a remembered database with an editor tab is never dropped and keeps its editor tabs |
| WorkspaceDatabases.RecordIsMap | crates/app-services/src/workspace_state.rs:164-186 | any sequence of merges with clamping between them behaves as a map from database to its clamped last save, and a database is found exactly when it is in the fold of the saves that evicts the least names without an editor tab above the limit |
| WorkspaceDatabases.RecordLosesNothing | crates/app-services/src/workspace_state.rs:164-186 | a database with an editor tab, or any database while at most seventeen are known, is always found again |
| WorkspaceDatabases.FewAreKept | crates/app-services/src/workspace_state.rs:164-186 | however often they are saved, up to seventeen databases are all kept by that fold |
| WorkspaceDatabases.EighteenthDisplaces | crates/app-services/src/workspace_state.rs:164-186 | in a run of any length, the first database over the limit drops exactly the least earlier name whose last save had no editor tab, and nothing if there is none |
| WorkspaceDatabases.LosingRun | crates/app-services/src/workspace_state.rs:164-186 | a run of saves after which a saved database is not found |
| SpoolFormat.BigEndianRoundTrip | crates/app-services/src/stream_result_spool.rs:598-629 | fixed-width big-endian numbers read back |
| SpoolFormat.NonceInjective | crates/app-services/src/stream_result_spool.rs:616-620 | different sequence numbers give different nonces |
| SpoolFormat.FrameRoundTrip | crates/app-services/src/stream_result_spool.rs:561-596 | a frame found anywhere in the file is read back with its sequence and text |
| SpoolFormat.FramesRoundTrip | crates/app-services/src/stream_result_spool.rs:540-559 | a page of contiguous frames reads back as its chunks joined, however they were cut |
| SpoolFormat.NonceBytes | crates/app-services/src/stream_result_spool.rs:616-620 | a nonce is four zero bytes and the sequence number |
| SpoolFormat.AadBytes | crates/app-services/src/stream_result_spool.rs:622-629 | the associated data says version, page, sequence number and length, each at its place |
| SpoolFormat.AadBinds | crates/app-services/src/stream_result_spool.rs:622-629 | frames of different page, number or length are never sealed with the same associated data |
| SpoolFormat.FrameVerdict | crates/app-services/src/stream_result_spool.rs:561-596 | whatever the file holds, a frame is read exactly when the cipher opens it under this page and its own number and length; otherwise the error says why |
| SpoolFormat.WrongPageRefused | crates/app-services/src/stream_result_spool.rs:561-596 | a genuine frame of one page is refused where another page is read |
| SpoolFormat.WrongNumberRefused | crates/app-services/src/stream_result_spool.rs:540-559 | a genuine frame of the page is refused where another sequence number is due |
| SpoolFormat.PageIsAuthentic | crates/app-services/src/stream_result_spool.rs:540-559 | whatever the file holds, a page that is read is the join of as many opened chunks as asked for, under consecutive numbers, frame after frame |
| Spool.SpoolFile.WriteFrame | crates/app-services/src/stream_result_spool.rs:482-502 | appends one whole frame, or some prefix of it with an error; its account follows every single write |
| Spool.SpoolFile.WritePayloadChunk | crates/app-services/src/stream_result_spool.rs:452-480 | spends one fresh nonce, appends the sealed frame and charges its size; on error the file only grew within the charge; its account with the shared quota moves in step |
| Spool.PageWriter.WriteBuffer | crates/app-services/src/stream_result_spool.rs:395-409 | turns the buffer into one more chunk without changing the bytes accepted so far; it fails only if disk, cipher or quota failed or the numbers ran out |
| Spool.PageWriter.Write | crates/app-services/src/stream_result_spool.rs:417-436 | accepts a slice of any length across chunk borders; the accepted bytes grow by exactly that slice |
| Spool.PageWriter.Flush | crates/app-services/src/stream_result_spool.rs:438-449 | the partial buffer becomes a short chunk; nothing accepted is lost |
| Spool.Serialize | crates/app-services/src/stream_result_spool.rs:330-367 | however the serializer slices its output, the writer has accepted exactly the payload, unless something failed |
| Spool.RollbackPage | crates/app-services/src/stream_result_spool.rs:504-520 | a failed page is cut off the file and its bytes given back, or its bytes stay charged when cutting fails |
| Spool.GrowthKeepsPages | crates/app-services/src/stream_result_spool.rs:330-367 | later appends and spent nonces leave every stored page readable |
| Spool.PageIsStored | crates/app-services/src/stream_result_spool.rs:356-366 | a page is stored with its offset, chunk count and first nonce at the old end of the file |
| Spool.WritePage | crates/app-services/src/stream_result_spool.rs:341-361 | without an error the chunks written are the payload and follow the old file; an error other than a frame that cannot be numbered means that something failed |
| Spool.AppendSerializedPage | crates/app-services/src/stream_result_spool.rs:330-367 | success adds exactly the page's payload; failure leaves all pages as they were; with something to store, numbers left and nothing failing it succeeds |
| Spool.AppendPage | crates/app-services/src/stream_result_spool.rs:310-328 | pages come in order and at most 4096, with the error for each violation; in order, with room and nothing failing the page is appended |
| Spool.ReadPagePayload | crates/app-services/src/stream_result_spool.rs:540-559 | reads the frames of a page as the reference reader does, or reports the read that failed |
| Spool.LoadPage | crates/app-services/src/stream_result_spool.rs:522-538 | loading a page gives back exactly the payload it was appended with, unless a seek or read fails, and then an I/O error |
| Spool.RunAttempts | crates/app-services/src/stream_result_spool.rs:310-367 | whatever sequence of appends, failures in mid-page and rollbacks: each page appended is there with its payload, only pages in order are appended and every one of them is unless something failed or ran out, and no nonce is used twice |
| Spool.LoadRows | crates/app-services/src/stream_result_spool.rs:522-538 | a page of rows comes back as it went in, unless a seek or read fails |
| Spool.AppendAndLoad | crates/app-services/src/stream_result_spool.rs:310-367 | after any run of appends, every page in order is appended unless something failed or ran out, and every page appended loads with the rows it was given, unless the read fails |
| SpoolQuota.StepKeeps | crates/app-services/src/stream_result_spool.rs:635-652 | every step of reserving, committing, rolling back and dropping keeps the accounting invariant |
| SpoolQuota.QuotaConserved | crates/app-services/src/stream_result_spool.rs:303-367 | under any interleaving the shared counter is the sum held by live spools and open pages, within the limit, and each file is no longer than its charge |
| SpoolQuota.NeverUnderflows | crates/app-services/src/stream_result_spool.rs:504-520 | neither a rollback nor a drop takes more than the counter holds |
| SpoolQuota.AccountIsReplay | crates/app-services/src/stream_result_spool.rs:303-367 | in any interleaving a spool's account is what its own moves since its creation make it |
| SpoolQuota.ReserveAlone | crates/app-services/src/stream_result_spool.rs:635-652 | an undisturbed reservation succeeds exactly when the bytes fit and then grows counter and page by them; otherwise only the page fails |
| SpoolQuota.TurnDecides | crates/app-services/src/stream_result_spool.rs:635-652 | in any interleaving a reservation is refused, taken or repeated as the value last seen, the limit and the counter say |
| SpoolShared.FileMatchesAccount | crates/app-services/src/stream_result_spool.rs:330-367 | a file that made the moves the run has for its spool has the length and the charge that the shared quota has for it, between pages, between frames and inside a frame |
| SpoolShared.AccountedThroughout | crates/app-services/src/stream_result_spool.rs:330-502 | between pages, between the frames of a page and inside a frame, a file's moves account for its length and for what its spool holds |
| SpoolShared.FilesWithinLimit | crates/app-services/src/stream_result_spool.rs:303-367 | under any interleaving, wherever each thread is inside its page, the bytes in all files are within the shared counter and that within the limit, and the counter is the sum of what the spools and their open pages hold |
| RowIdentity.ValueOf | crates/app-services/src/change_tracker_row_identity.rs:72-93 | a key value leads back to a value with that key exactly when its decimal or JSON text is read as it was printed; text that cannot be parsed comes back as text |
| RowIdentity.RowKeyRoundTrip | crates/app-services/src/change_tracker_row_identity.rs:9-16 | a row key is made exactly from readable primary-key values and gives those values back if and only if each decimal and JSON document among them is read as it was printed |
| RowIdentity.RowStrictTotal | crates/app-services/src/change_tracker_row_identity.rs:3-7 | row keys are strictly and totally ordered |
| RowIdentity.RowOrder | crates/app-services/src/change_tracker_row_identity.rs:3-7 | stored rows come before drafts, stored rows by the first key value that differs, drafts by id |
| RowIdentity.KindOrder | crates/app-services/src/change_tracker_row_identity.rs:31-48 | key values of different kinds are ordered as the kinds are declared |
| RowIdentity.NumberKeys | crates/app-services/src/change_tracker_row_identity.rs:31-48 | numbers, dates and times are ordered by size |
| RowIdentity.TextKeys | crates/app-services/src/change_tracker_row_identity.rs:31-48 | texts and what is carried as text are ordered by code points |
| ChangeTracker.FindDraft | crates/app-services/src/change_tracker.rs:217-221 | the loop finds the first draft with the id |
| ChangeTracker.RetainDrafts | crates/app-services/src/change_tracker.rs:200-205 | removes the draft; the length tells whether it was there |
| ChangeTracker.RetainOps | crates/app-services/src/change_tracker.rs:211-212 | removes exactly the operations about a draft |
| ChangeTracker.StorePending | crates/app-services/src/change_tracker.rs:271-292 | a pending edit keeps its base and disappears when it restates it |
| ChangeTracker.TabChangeTracker.CellEdited | crates/app-services/src/change_tracker.rs:151-176 | the object does what the value-level tracker does for a cell edit |
| ChangeTracker.TabChangeTracker.RowInserted | crates/app-services/src/change_tracker.rs:178-189 | a new draft gets the next id and is logged |
| ChangeTracker.TabChangeTracker.RowDeleted | crates/app-services/src/change_tracker.rs:191-198 | the row is marked and the mark logged |
| ChangeTracker.TabChangeTracker.DraftDiscarded | crates/app-services/src/change_tracker.rs:200-215 | a discarded draft leaves rows, edits, marks and both logs |
| ChangeTracker.TabChangeTracker.DraftCellEdited | crates/app-services/src/change_tracker.rs:217-234 | edits the first draft with the id, if the column exists |
| ChangeTracker.TabChangeTracker.SetDraftCell | crates/app-services/src/change_tracker_draft.rs:20-25 | sets the value and the flag of a draft's cell, or nothing outside it |
| ChangeTracker.TabChangeTracker.UndoLast | crates/app-services/src/change_tracker.rs:236-269 | the object does what the value-level undo does and returns the operation |
| ChangeTracker.TabChangeTracker.RedoLast | crates/app-services/src/change_tracker.rs:294-330 | the object does what the value-level redo does and returns the operation |
| ChangeTracker.TabChangeTracker.ClearAll | crates/app-services/src/change_tracker.rs:342-350 | forgets everything but the id counter |
| ChangeTracker.TabChangeTracker.PendingCount | crates/app-services/src/change_tracker.rs:115-122 | drafts, deletions and the edits of rows not deleted |
| TrackerHistory.StepRefines | crates/app-services/src/change_tracker.rs:143-330 | every command but the two below that cannot be taken back takes the tracker and a history of snapshots from related to related states |
| TrackerHistory.RunRefines | crates/app-services/src/change_tracker.rs:143-330 | after any run without the two calls below that cannot be taken back, the tracker shows what a history of snapshots shows |
| TrackerHistory.LogBounded | crates/app-services/src/change_tracker.rs:143-330 | after any run at most fifty operations are kept to be undone or redone |
| TrackerHistory.UndoThenRedo | crates/app-services/src/change_tracker.rs:236-330 | after any run without these two calls, n undos show the view recorded n changes ago and n redos bring the present back |
| TrackerHistory.DiscardedNeverReturns | crates/app-services/src/change_tracker.rs:200-215 | in any run, no undo, redo or insertion after a discard shows that draft again |
| TrackerHistory.FlagNeedsEdit | crates/app-services/src/change_tracker.rs:178-252 | in any run, a drafted cell is named in the INSERT only if an edit of that very cell was made |
| TrackerHistory.DeleteUndone | crates/app-services/src/change_tracker.rs:191-198 | marking a row is undone exactly when it was not already marked |
| TrackerHistory.CellEditUndone | crates/app-services/src/change_tracker.rs:151-176 | a cell edit is undone exactly when its key names a stored row, or the edit under a draft's key had nothing to take back |
| TrackerHistory.DraftFlagsUndone | crates/app-services/src/change_tracker.rs:236-252 | undoing a draft cell restores its flag exactly when the flag already said whether the value was other than null |
| TrackerHistory.MarkedTwice | crates/app-services/src/change_tracker.rs:191-198 | a run: a row marked twice is no longer marked after one undo |
| TrackerHistory.DraftKeyEdited | crates/app-services/src/change_tracker.rs:151-176 | a run: a cell edit under a draft's key is still pending after its undo |
| TrackerHistory.NullByHand | crates/app-services/src/change_tracker.rs:217-252 | a run: a draft cell set to null, then to a value, then undone, with another flag than before |
| Materialize.MaterializeDeletes | crates/app-services/src/change_tracker.rs:513-548 | the loop over the map builds the deletes in key order, or stops at the first error |
| Materialize.GroupByRow | crates/app-services/src/change_tracker.rs:468-477 | grouping in any order gives each edited row that is not deleted all its edits, each column once |
| Materialize.MaterializeUpdates | crates/app-services/src/change_tracker.rs:456-511 | carries on with one update per row in key order, columns in order |
| Materialize.MaterializeInserts | crates/app-services/src/change_tracker.rs:428-454 | carries on with the drafts in order |
| Materialize.MaterializeChanges | crates/app-services/src/change_tracker.rs:409-427 | the batch is a function of the pending changes: iteration order of the maps does not matter |
| Materialize.AllAligned | crates/app-services/src/change_tracker.rs:409-548 | the batch exists exactly when every statement can be built; statements and sources stand side by side, and an error is that of the first that fails |
| Materialize.KeysListed | crates/app-services/src/change_tracker.rs:478-526 | updated and deleted rows are listed once each by strictly increasing key |
| Materialize.EditsListed | crates/app-services/src/change_tracker.rs:468-481 | a row's edits have strictly increasing columns and are exactly the pending ones |
| Materialize.SortedEdits | crates/app-services/src/change_tracker.rs:478-481 | sorting by column removes any trace of the order in which edits were gathered |
| Materialize.NeverBoth | crates/app-services/src/change_tracker.rs:469-472 | a row is deleted exactly when marked and updated exactly when edited and not marked |
| MaterializedBatch.UpdateMeans | crates/app-services/src/change_tracker.rs:440-508 | the update of a row goes to the builder of its driver with the readable key values and every pending edit once, by column, with old and new value, or for other drivers with the new values alone |
| MaterializedBatch.DeleteMeans | crates/app-services/src/change_tracker.rs:510-550 | the delete of a row goes to the builder of its driver with the readable key values, and for MongoDB with the original values |
| MaterializedBatch.BatchMeans | crates/app-services/src/change_tracker.rs:408-550 | the batch has, for every marked row, edited unmarked row and draft, in that order and by key, its source beside the statement its builder makes of it, or the first error |
| Like.EscapeIsEscaped | crates/core/src/filter.rs:426-436 | the chain of replacements escapes each special character once |
| Like.PatternTokens | crates/core/src/filter.rs:271-280 | every built pattern is well formed and reads back as the typed text between the right wildcards |
| Like.PatternMeans | crates/core/src/filter.rs:271-291 | for every dialect, typed string and text, the pattern matches exactly when the text contains, starts with or ends with the string |
| Filter.PatternClauseMeans | crates/core/src/filter.rs:281-291 | with each engine's own default escape, every pattern means contains, starts with or ends with |
| Filter.NoClauseNeedsDefault | crates/core/src/filter.rs:285-289 | where no escape is named the patterns mean what they should exactly if the engine escapes by backslash |
| Filter.BuildRange | crates/core/src/filter.rs:315-326 | a BETWEEN rule: both bounds bound in order, with the error for a blank, missing or unreadable bound |
| Filter.BuildMembership | crates/core/src/filter.rs:328-346 | an IN or NOT IN rule: one parameter per item, with the errors for an empty list or the first unreadable item |
| Filter.BuildRule | crates/core/src/filter.rs:230-348 | a rule fails with its error or yields a clause that mentions exactly its new parameters in order and says, for every row, what the rule says |
| Filter.FragmentCloses | crates/core/src/filter.rs:210-217 | the closing parenthesis around the user's SQL is read as code exactly when that SQL ends in code or in a line comment, so no comment swallows it |
| Filter.BuildFilterWhere | crates/core/src/filter.rs:190-228 | the filter fails with the first rule's error; there is no clause exactly when there are no rules and no SQL but spaces; otherwise every parameter is mentioned once in order and the clause says for every row what the rules and the user's own SQL together say |
| Completion.KeyShape | crates/app-services/src/completion_identifiers.rs:109-122 | a key holds a null character exactly when the reference has a schema, and its bare name is the table's |
| Completion.LowerFolds | crates/app-services/src/completion_identifiers.rs:113-117 | folding forgets the case of ASCII letters and nothing else |
| Completion.KeysCompareReferences | crates/app-services/src/completion_identifiers.rs:109-122 | a table is meant by a reference's key exactly when the names agree and the reference leaves the schema open or names the same one |
| Completion.KeySetScans | crates/app-services/src/completion.rs:261-275 | looking a key up in the precomputed set answers as the scan of all tables |
| Completion.NarrowByKeys | crates/app-services/src/completion.rs:139-147 | filtering by cached keys is filtering the names themselves |
| Completion.FindOnly | crates/app-services/src/completion.rs:244-255 | finds the only table with a bare name, whatever the map's order |
| Completion.SchemaIndex.SetTables | crates/app-services/src/completion.rs:107-118 | replaces the catalogue and its keys and drops the cache |
| Completion.SchemaIndex.RefreshCatalogue | crates/app-services/src/completion.rs:100-105 | takes over catalogue, grammar and connection and retires what was fetched |
| Completion.SchemaIndex.Clear | crates/app-services/src/completion.rs:156-165 | empties the index and keeps keys and cache consistent |
| Completion.SchemaIndex.SyncConnection | crates/app-services/src/completion.rs:167-180 | a new connection empties the index, the same one changes nothing |
| Completion.SchemaIndex.TablesMatching | crates/app-services/src/completion.rs:120-148 | after any sequence of operations the narrowed tables are the whole catalogue filtered anew |
| Completion.SchemaIndex.KnownColumns | crates/app-services/src/completion.rs:244-255 | columns by exact key, or by bare name when only one table has it |
| Completion.SchemaIndex.NeedsColumns | crates/app-services/src/completion.rs:261-275 | the fast answer is the scan's answer, in either grammar state |
| Completion.SchemaIndex.RequestMissing | crates/app-services/src/completion.rs:193-207 | asks for needed tables only, once each, never for one being fetched; then all needed ones are being fetched |
| Completion.SchemaIndex.Complete | crates/app-services/src/completion.rs:213-228 | an answer is used exactly when it is of this generation and still awaited, and then only once |
| Completion.NarrowingIsHarmless | crates/app-services/src/completion_proposals.rs:37-56 | leaving out early what does not fit changes no proposal |
| Completion.SchemaIndex.Proposals | crates/app-services/src/completion.rs:402-450 | the proposals are those of listing everything in order and keeping what fits |
| SidebarTree.KeyPartInjective | crates/app-services/src/sidebar_tree.rs:194-196 | different names have different key parts, and no key part holds a separator |
| SidebarTree.BySchema | crates/app-services/src/sidebar_tree.rs:91-101 | one pass over each list groups relations by schema, tables that are views left out |
| SidebarTree.PushGroup | crates/app-services/src/sidebar_tree.rs:153-192 | appends a group and its leaves with their keys and parents |
| SidebarTree.BuildNodes | crates/app-services/src/sidebar_tree.rs:90-126 | the nodes are those of each schema in order |
| SidebarTree.AppendCatalogEntries | crates/app-services/src/sidebar_tree.rs:128-151 | appends the catalogue group and its entries |
| SidebarTree.TreeIsOk | crates/app-services/src/sidebar_tree.rs:90-192 | in every tree parents come first and a key is its parent's key with one more part |
| SidebarContents.TreeShows | crates/app-services/src/sidebar_tree.rs:90-196 | tables that are no views, and views, are shown schema by schema in the catalogue's order, as what they are, under their group and with the right counts and depths; schemas are in order and have nodes exactly when several are named |
| SidebarKeys.KeyAtInjective | crates/app-services/src/sidebar_tree.rs:104-192 | a key says where its node stands |
| SidebarKeys.KeyText | crates/app-services/src/sidebar_tree.rs:104-192 | the text of every kind of key |
| SidebarKeys.KeysDistinct | crates/app-services/src/sidebar_tree.rs:90-196 | keys are pairwise distinct exactly when nothing is listed twice and no empty schema name shares a node with relations without schema |
| SidebarKeys.EmptyNameExample | crates/app-services/src/sidebar_tree.rs:90-126 | a catalogue whose keys collide: one relation without schema, one in the schema with the empty name |
| SidebarReveal.CollapsedAbove | crates/app-services/src/sidebar_tree.rs:208-217 | the parent walk finds a collapsed ancestor exactly when there is one |
| SidebarReveal.MarkMatch | crates/app-services/src/sidebar_tree.rs:246-253 | marks a match and the visible nodes above it, nothing else |
| SidebarReveal.VisibleNodes | crates/app-services/src/sidebar_tree.rs:224-263 | lists in order exactly the visible nodes, with or without a search |
| SidebarReveal.SearchMeans | crates/app-services/src/sidebar_tree.rs:36-44 | a search finds exactly the relations whose lower-cased name, with its schema if it has one, contains the text |
| SidebarReveal.KeysAbove | crates/app-services/src/sidebar_tree.rs:198-206 | the loop over separators lists the keys above |
| SidebarReveal.RevealWorks | crates/app-services/src/sidebar_tree.rs:273-319 | the plan names the relation's node, opens only collapsed ancestors, clears the search exactly when it must, and leaves the node visible |
| SidebarReveal.CatalogueReveals | crates/app-services/src/sidebar_tree.rs:273-319 | for any table or view of any catalogue whose schema is not hidden there is a plan, and following it shows the node |
| StateFile.SharedState.Update | crates/app-services/src/state_file.rs:110-122 | refused when the file could not be read, else a new value and revision |
| StateFile.SharedState.TakeNewest | crates/app-services/src/state_file.rs:71-85 | an awake worker takes exactly the step the protocol gives it: the write it takes up is the protocol's, and it leaves exactly when the exit step is possible |
| StateFile.SharedState.Finish | crates/app-services/src/state_file.rs:90-97 | records the attempted revision and its error |
| StateFile.SharedState.Look | crates/app-services/src/state_file.rs:124-142 | a look answers exactly when the protocol can answer, with the answer the protocol records, and times out only where the protocol does |
| StateFile.StepKeeps | crates/app-services/src/state_file.rs:50-153 | every step keeps the invariant of value, revisions, file and flushes |
| StateFile.WritesFollowRevisions | crates/app-services/src/state_file.rs:68-97 | writes reach the file in strictly increasing revision order, each with its revision's value |
| StateFile.FlushOkIsDurable | crates/app-services/src/state_file.rs:124-142 | a flush answered Ok means the file holds, from then on, a revision at least that of the flush's start |
| StateFile.FlushReportsLastWrite | crates/app-services/src/state_file.rs:86-144 | an answered flush reports how the last finished write went and nothing older |
| StateFile.ExitsWhenDone | crates/app-services/src/state_file.rs:71-83 | the worker leaves only after close with the last revision attempted, and nothing changes after |
| StateFile.UnreadableIsKept | crates/app-services/src/state_file.rs:110-117 | a file that could not be read is never written |
| StateFile.WorkerCanMove | crates/app-services/src/state_file.rs:71-96 | while a flush waits the worker can step |
| StateFile.TwoWritesServe | crates/app-services/src/state_file.rs:124-137 | two finished writes after a flush began always cover it |
| StateFile.DropEndsWorker | crates/app-services/src/state_file.rs:71-155 | after the file is dropped the worker always has a step until it has left, and six steps are enough |
| StateFile.ClientsNeverBlocked | crates/app-services/src/state_file.rs:100-142 | until the file is dropped an update and a flush can be made at any time |
| SqlText.DocumentOk | crates/app-services/src/sql_text.rs:18-28 | the document check accepts exactly when the size and every line without its return fit |
| SqlText.InsertionOk | crates/app-services/src/sql_text.rs:30-67 | the insertion check accepts exactly when the total and every touched line, returns counted, fit |
| SqlText.AcceptedStaysValid | crates/app-services/src/sql_text.rs:30-67 | an insertion accepted into a valid document leaves a valid document |
| SqlText.RefusalIsReal | crates/app-services/src/sql_text.rs:30-67 | a refused insertion would exceed the total, or the reported line of the result would be too long |
| SqlText.ChecksAgree | crates/app-services/src/sql_text.rs:18-67 | inserting into a valid document is accepted exactly when the result is a valid document and no touched line that ends in a newline is one byte too long only by a carriage return before it |
| SqlText.ReturnsCanDiffer | crates/app-services/src/sql_text.rs:18-67 | an insertion that is refused although the document it makes is valid |
| SqlText.DropIsSound | crates/app-services/src/sql_text.rs:69-90 | a drop accepted into a valid document leaves one; a refusal is a real excess or a cursor inside a character |
| SqlCursor.CursorBetweenCharacters | crates/app-services/src/sql_text.rs:69-90 | in a document of whole characters a cursor is accepted exactly between two of them |

## Left out

- Files, directories and draft files of the workspace store, its start and its shutdown: file-system code; the disk is a map that a write updates, wholly or not at all.
- A writer thread that could not be started: every flush then fails at once, without touching the protocol.
- Counters wrapping around at 64 bits and poisoned locks: counters are unbounded and locks never fail.
- Restoring tabs from a record and discarding preview tabs: easy members beside the clamp.
- WorkspaceTheorems.CacheHoldsLatestSave: the cached value is the save as given or clamped, because one entry point caches before clamping and the other after.
- WorkspaceDatabases.RecordIsMap: compares workspaces with their own remembered databases set aside, as the record does not nest.
- AES-GCM, key generation, MessagePack and JSON: only their inverse and length laws are used.
- Spool.Serialize: the serializer is a list of slices and flushes, so that any slicing is covered; its value conversion is the inverse law of the page encoding.
- Subscribers, error-row markers and the registry of trackers: no effect on the pending changes.
- ChangeTracker.TabChangeTracker.SetDraftCell: draft rows are values in the tracker's sequence, so a slot changed in place appears as a replaced row.
- Printing of decimals and JSON documents: such values are carried by their printed form, and their parsers are parameters.
- Materialize.MaterializeChanges: statement builders are functions that may fail; the SQL text they produce is not modelled.
- The text of the WHERE clause (quoting, casts, placeholder spelling): clauses are trees and placeholders are numbers; of the user's own SQL the parentheses and line end around it are modelled, and what it says about a row is a parameter.
- Filter.BuildRule: the three raw LIKE operators are compiled and their parameters bound, but what they match is a parameter.
- Filter.BuildFilterWhere: PostgreSQL, MySQL and ClickHouse are taken to escape with a backslash by default, SQLite, DuckDB and SQL Server with nothing; any other driver is taken to escape with a backslash.
- Scope resolution, replacement ranges and labels of completion: they rest on the SQL lexer.
- Completion.SchemaIndex.Complete: cancellation of running requests is not modelled.
- Collapse-state persistence and toggling in the sidebar: set operations without a law of their own.
- StateFile.FlushOkIsDurable: time is not modelled; a flush that times out is answered with an error.
- SqlText.DropIsSound: white space is a parameter, and a cursor past the end is taken as the end when the size is reported.
- CSV import mappings, catalogue change tracking, paging, backups, connections and drivers: easy members, or wrappers around code outside these files.

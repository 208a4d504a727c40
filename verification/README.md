# A verified model of the sqlitelog module

The nginx module writes access log entries to SQLite. This project models its logic in Dafny and
proves what it is meant to guarantee. `dafny verify dfyconfig.toml` checks everything.

## What is modelled

**The shared transaction buffer.** All workers push log entries into one queue in shared memory.
When the queue reaches its maximum or a push finds no room, when a flush timer fires, or when a
worker exits, somebody drains the queue into private memory under the mutex, releases the mutex and
writes the rows in one transaction. An entry that did not fit goes back to the head of the queue.

- `Slab`, `Node`, `Lists`, `Buffer`: the data structures as heap objects. The circular linked queue
  refines a plain sequence of rows, and the blocks in use are accounted for down to the last one.
- `Protocol`: any number of workers and posted tasks as a transition system with an explicit program
  counter. A step label says who moves, whether memory suffices and how SQLite answers.
- `Conservation`, `Order`, `Synchronous`, `LockDiscipline`, `Occupancy`, `Shutdown`, `Blanks`: theorems over
  every run. `Scenarios` holds runs that show where the hypotheses of these theorems are needed.
- `Reachability`, `Uninterrupted`: from every reachable state the system can run each handler to its end, and
  what it does then, by itself or through a posted task, is what the specification of the methods says.
- `Worker`: the handlers of one worker as methods over the real queue and a real connection, each equal
  to a specification function about which the promises are proved.

The transition system and the methods share their meaning: a push is `Buffer.PushSpec`, a drain is
`Lists.Relist`, a transaction is `Database.InsertListSpec`, and the methods of `Buffer` and of
`Connection` are proved against exactly these functions.

**The database code.** `Sqlite` is an oracle that may fail any call with any code, and that may roll
back an open transaction on failure; the code of a failed call stays readable until the next call. `Database` says what the code does with such an oracle and proves
that a batch is written once or not at all; `Connection` is the code itself, and the checkpoint loop.

**The encoder.** `Escape` and `Variables`: the two passes over a value, truncation, log entries.

**Formats.** `Format`, `SqlText`: checking a directive, compiling it to columns, building the two SQL
statements. `EndToEnd` follows the number of columns from the directive to the bound parameters.

## Where the code falls short of what one expects

Each of these is settled by lemmas: where the expectation fails, and the condition under which it holds.

- An accepted directive uses all of its arguments if and only if the first one after the table name is a
  variable (`Format.UsedOnceIffFirstIsVariable`). A table name that starts with `$` lets an orphan type
  through.
- A NUL in a table name spoils both statements; without one both are exact (`SqlText.SqlInsert`,
  `SqlText.SqlCreateTable`).
- Entries are committed in push order in every run in which drains do not overlap and nobody pushes past
  an overflowed entry that waits for its drain (`Order.OrderThroughOverflow`). Without thread pools the
  second condition always holds. Two drains that are ready can be committed in either order
  (`Scenarios.EitherDrainMayWin`). A push that fits while an overflowed entry waits keeps the order if and
  only if the two entries are equal (`Order.AcceptedPushOvertakes`), and of two waiting entries whichever
  is drained first goes ahead (`Order.EitherWaitingEntryMayWin`).
- While SQLite works, a list is written if and only if the connection is open and has no transaction in
  progress (or is a failed handle whose code is that of a moved file): `Database.WorkingSqliteWritesIffFit`.
  The flush timer knows nothing of this, so a flush over any other connection drops the whole shared queue
  (`Scenarios.FlushWritesIffFit`). There are three such connections.
  - A disabled worker has closed its connection, and its flush timer keeps running. Without a connection a
    flush is lost whatever SQLite answers (`Scenarios.FlushIsHopelessIffNotOpen`).
  - The same goes for a handle that a failed open left behind.
  - A failed COMMIT leaves its transaction open. BEGIN then fails with a code that leads to no retry, so the
    connection is wedged until it is closed, while its worker stays enabled. One busy COMMIT during a flush
    suffices (`Scenarios.BusyCommitWedges`, `Scenarios.WedgedTimerDropsTheQueue`,
    `Scenarios.OneBusyCommitLosesLaterEntries`).
- After a shutdown the queue is empty if and only if the last look at it listed it, or found it empty and
  put nothing back (`Shutdown.ShutdownKeepsEverything`). A worker that is disabled or not connected leaves
  without a look, and so leaves the queue behind (`Shutdown.QuitLeavesTheQueue`, `Shutdown.SyncShutdown`).
- A row without values is committed if and only if a transaction succeeds whose drain found the queue empty
  (`Blanks.BlankRowIffEmptyDrain`). Without thread pools that takes an entry that overflowed an empty queue.
- The comment and the manual say that a list is tried again when the file was moved. The code also does so
  when the extended error code is OK (`src/ngx_http_sqlitelog_db.c:334-335`), which it can be only after a
  ROLLBACK that worked (`Database.WhatIsRetried`). So the code of the failed insert does not matter: if SQLite
  works again, a list whose insert failed is written if and only if the transaction was still there to be
  rolled back (`Database.OneFailureIsRetriedIff`, `Database.RolledBackListIsRetried`).

## Model

| member | source | states |
|---|---|---|
| Escape.NeedsEscape | src/ngx_http_sqlitelog_op.c:280-306 | the bitmap test selects exactly control bytes, the double quote, the backslash and bytes from 0x7F up |
| Escape.EscapedLength | src/ngx_http_sqlitelog_op.c:299-330 | the text of a value is three bytes longer per escaped byte, so the counting pass sizes the writing pass exactly |
| Escape.NothingToEscape | src/ngx_http_sqlitelog_op.c:107-114 | the count is zero exactly if the text is the value itself, so the plain copy is right whenever it is chosen |
| Escape.RoundTrip | src/ngx_http_sqlitelog_op.c:274-331 | a reader of `\xHH` groups gets every byte string back |
| Escape.EscapeIsInjective | src/ngx_http_sqlitelog_op.c:274-331 | different values are never stored as the same text |
| Escape.EscapedIsPrintable | src/ngx_http_sqlitelog_op.c:316-330 | every byte written is in 0x20..0x7E and not a double quote, and a backslash only opens a complete group |
| Escape.OpEscape | src/ngx_http_sqlitelog_op.c:274-331 | without a destination it returns the number of escaped bytes; with one it writes exactly the text and leaves the rest of the buffer alone |
| Escape.GroupSpelling | src/ngx_http_sqlitelog_op.c:316-322 | a byte is written as itself, or as a backslash, a small x and its two digits out of 0-9 and A-F, the high one first |
| Escape.TruncationShape | src/ngx_http_sqlitelog_module.c:662-678 | a cut text is the whole text of a prefix of the value, followed by at most three bytes of the next group |
| Escape.CutPointIsLargest | src/ngx_http_sqlitelog_module.c:662-678 | a prefix of the value has its whole text before the cut if and only if it is no longer than the cut point |
| Escape.TruncatedTextDecodes | src/ngx_http_sqlitelog_module.c:662-678 | apart from that fragment the cut text reads back as a prefix of the value |
| Variables.NullOnlyWhenEmpty | src/ngx_http_sqlitelog_module.c:651-658 | a generic or unescaped column is NULL if and only if the variable is missing or empty |
| Variables.StoredTextIsAPrefix | src/ngx_http_sqlitelog_module.c:655-678 | the truncation law at 4096 bytes for a stored value, including when nothing is cut |
| Variables.StoredLength | src/ngx_http_sqlitelog_module.c:674-678 | at most 4096 bytes of the text of a value are stored, and all of it if it is no longer |
| Variables.GetLen | src/ngx_http_sqlitelog_op.c:156-201 | the announced size is the length of the text, and the escape flag says whether anything is to be escaped |
| Variables.Run | src/ngx_http_sqlitelog_op.c:96-142 | steered by that flag, the writing pass fills exactly the announced bytes and touches no others |
| Variables.Evaluate | src/ngx_http_sqlitelog_module.c:650-679 | a column yields its stored value, or fails exactly if it needs a buffer and there is no memory |
| Variables.LogEntry | src/ngx_http_sqlitelog_module.c:627-683 | the entry holds one stored value per column, in column order; it fails exactly if memory runs out on the way |
| Lists.RebuiltIffWellFilled | src/ngx_http_sqlitelog_db.c:394-403 | cutting the flat list at its parts gives the queued rows back if and only if all rows but the last have `n` values, the last at most `n`, and only a lone row is empty |
| Lists.RelistArity | src/ngx_http_sqlitelog_db.c:394-403 | rows of the format's arity come back one per part; an empty queue comes back as one empty part |
| Lists.RelistEntries | src/ngx_http_sqlitelog_buf.c:184-217 | a drain carries exactly the queued entries, in queue order |
| Lists.CommittedDrain | src/ngx_http_sqlitelog_db.c:394-403 | committing a drain adds the queued entries, and at most a blank row that is no entry |
| Lists.List.Add | src/ngx_http_sqlitelog_buf.c:194 | the assumption on list pushes: a part is filled before the next one is started |
| Node.FootprintSize | src/ngx_http_sqlitelog_node.c:44-100 | a node occupies two blocks and one more per value that is not NULL |
| Node.CopyValues | src/ngx_http_sqlitelog_node.c:54-86 | values are copied up to the first failing allocation, and each copied value that is not NULL has a block of its own |
| Node.CreateLocked | src/ngx_http_sqlitelog_node.c:23-115 | a node with the entry's values and exactly its footprint allocated; or NULL with the pool as before, exactly if some allocation fails |
| Node.FreeElts | src/ngx_http_sqlitelog_node.c:102-107 | the rollback and destroy loops free the blocks of the values and no others |
| Node.DestroyLocked | src/ngx_http_sqlitelog_node.c:124-140 | frees exactly what creating the node allocated |
| Buffer.Buffer.constructor | src/ngx_http_sqlitelog_module.c:1647-1655 | the new queue is well formed and empty, and only the context is allocated |
| Buffer.Buffer.PushLocked | src/ngx_http_sqlitelog_buf.c:67-93 | appends the entry with outcome OK or DONE, or overflows and changes nothing; keeps ring, length and footprint |
| Buffer.Buffer.UnshiftLocked | src/ngx_http_sqlitelog_buf.c:133-153 | puts the entry before all others or changes nothing, without regard to the maximum; keeps ring, length and footprint |
| Buffer.Buffer.Unshift | src/ngx_http_sqlitelog_buf.c:105-119 | the same with the mutex taken and given back |
| Buffer.CopyNode | src/ngx_http_sqlitelog_buf.c:189-216 | the values of a node are pushed in order, NULLs without a copy, or memory runs out |
| Buffer.Buffer.CopyLocked | src/ngx_http_sqlitelog_buf.c:184-217 | the list holds the values of all nodes in queue order, or memory runs out; the queue is not touched |
| Buffer.Buffer.ClearLocked | src/ngx_http_sqlitelog_buf.c:219-229 | every node is given back, the queue is empty, and only the context stays allocated |
| Buffer.Buffer.ListLocked | src/ngx_http_sqlitelog_buf.c:282-300 | a drain takes all rows in order and empties queue and pool, or leaves queue, length, links and pool as they were |
| Worker.DrainIsAtomic | src/ngx_http_sqlitelog_module.c:563-596 | a drain takes the whole queue to the database in order, or leaves it for want of memory, or loses it with a failed transaction; exactly when is told |
| Worker.DrainWorksIffFit | src/ngx_http_sqlitelog_module.c:563-596 | while SQLite works, a drain succeeds if and only if there is memory for the list and the connection is fit: open without a transaction, or failed with the code of a moved file |
| Worker.HandlingKeepsTheLog | src/ngx_http_sqlitelog_module.c:520-614 | for each outcome of the push and each result, where the entry and the queued entries are afterwards; on success the log has grown by the entry, at its end |
| Worker.HandlingComesTo | src/ngx_http_sqlitelog_module.c:520-614 | for every SQLite: a push that fits and stays below the maximum succeeds without a drain; any other fails if and only if listing, the transaction or the unshift fails, with the queue each leaves |
| Worker.WorkingHandlingSucceeds | src/ngx_http_sqlitelog_module.c:520-614 | while SQLite works, with memory and a fit connection: below the maximum the entry is queued and nothing is written, at the maximum queue and entry are committed and the queue is empty, and without room the queue is committed and the entry alone is queued |
| Worker.WorkingRequestsSucceed | src/ngx_http_sqlitelog_module.c:261-325 | the same for a whole request, which succeeds |
| Worker.RequestComesTo | src/ngx_http_sqlitelog_module.c:261-325 | a request succeeds if and only if its entry could be built and handling it succeeds; queue and committed rows are those of the handling either way |
| Worker.RequestKeepsTheLog | src/ngx_http_sqlitelog_module.c:261-325 | a successful request has added its entry at the end of the log; after a failed one the connection is gone if and only if closing it works |
| Worker.CleanExitWritesAll | src/ngx_http_sqlitelog_module.c:800-876 | an exit is clean if and only if the worker is enabled and connected and the queue is empty or its drain succeeds; then all logged entries are in the database |
| Worker.WorkingExitsAreClean | src/ngx_http_sqlitelog_module.c:800-876 | while SQLite works, an enabled worker with memory and a fit connection leaves an empty queue, has it committed, and has closed its connection |
| Worker.FlushComesTo | src/ngx_http_sqlitelog_buf.c:417-497 | for every SQLite: a flush succeeds if and only if the queue is empty afterwards and its entries are committed; the queue is kept if and only if it was empty or memory ran out |
| Worker.WorkingFlushesSucceed | src/ngx_http_sqlitelog_buf.c:417-497 | while SQLite works, a flush with memory and a fit connection commits the whole queue and empties it |
| Worker.Worker.ListAndInsert | src/ngx_http_sqlitelog_module.c:563-596 | list, unlock, insert: queue, session and result are exactly those of the specified drain |
| Worker.Worker.InsertList | src/ngx_http_sqlitelog_module.c:586-596 | needs the mutex to be free; session and result are those of the transaction with its retry |
| Worker.Worker.HandleN | src/ngx_http_sqlitelog_module.c:520-614 | queue, session and result are exactly the specified composition of push, drain and unshift |
| Worker.Worker.Handle | src/ngx_http_sqlitelog_module.c:204-326 | as specified for an enabled worker; a failure closes the connection and disables the worker; a disabled worker changes nothing and reports success |
| Worker.Worker.Flush | src/ngx_http_sqlitelog_buf.c:417-497 | an empty queue is left alone; otherwise, with memory for a pool, exactly the specified drain |
| Worker.Worker.Exit | src/ngx_http_sqlitelog_module.c:798-877 | queue, session and result are exactly those of the specified last drain and close |
| Database.InitCommitsNothing | src/ngx_http_sqlitelog_db.c:39-101 | connecting commits nothing and ends without an open transaction when it succeeds |
| Database.InitSucceedsIff | src/ngx_http_sqlitelog_db.c:39-101 | connecting succeeds if and only if every one of its calls works: closing an old handle, opening, the timeout, the table, and the script if there is one |
| Database.BindKeepsRows | src/ngx_http_sqlitelog_db.c:247-267 | binding commits nothing, and a transaction is kept or lost as a whole |
| Database.TryInsertInTransaction | src/ngx_http_sqlitelog_db.c:213-311 | inside a transaction a successful insert adds its row to the transaction, and nothing is committed |
| Database.TryInsertSucceedsIff | src/ngx_http_sqlitelog_db.c:213-311 | an insert succeeds if and only if preparing it, binding each value and the step work |
| Database.InsertPartsInTransaction | src/ngx_http_sqlitelog_db.c:394-403 | if all inserts succeed the transaction holds the list, and nothing is committed yet |
| Database.TryInsertListIsAtomic | src/ngx_http_sqlitelog_db.c:359-423 | one attempt commits the list once and in order if it reports success and nothing otherwise, whatever an earlier attempt left open |
| Database.AttemptSucceedsIff | src/ngx_http_sqlitelog_db.c:359-423 | an attempt succeeds if and only if the connection is open without a transaction and every call works, from BEGIN to COMMIT |
| Database.AttemptReportsItsFailure | src/ngx_http_sqlitelog_db.c:405-422 | otherwise the first failing call decides the result, whether or not the ROLLBACK works |
| Database.InsertListIsAtomic | src/ngx_http_sqlitelog_db.c:323-347 | all or nothing, at most once, across reconnecting and retrying, for every pattern of SQLite answers |
| Database.OkMeansCommitted | src/ngx_http_sqlitelog_db.c:323-347 | a list that is not empty was committed if and only if the result is OK |
| Database.DatabaseHoldsWhatWasReported | src/ngx_http_sqlitelog_db.c:323-423 | over every sequence of calls the database gains exactly the lists reported as written; no transaction left open surfaces later |
| Database.RetryRecovers | src/ngx_http_sqlitelog_db.c:333-346 | if the first attempt failed in a retryable way, with the code of a moved file or with OK, and SQLite works from then on, the list is written |
| Database.WhatIsRetried | src/ngx_http_sqlitelog_db.c:333-344 | over an open connection, a failed call that came last leads to a retry if and only if its code is that of a moved file; no such call came last if and only if an insert failed and the ROLLBACK worked |
| Database.OneFailureIsRetriedIff | src/ngx_http_sqlitelog_db.c:323-347 | if one call of an attempt fails and SQLite works otherwise, the list is written after all if and only if that call is BEGIN or COMMIT and reports a moved file, or is one of an insert and leaves the transaction open |
| Database.RolledBackListIsRetried | src/ngx_http_sqlitelog_db.c:333-344 | a list whose insert fails, with whatever code, is written after all if the ROLLBACK works and SQLite works from then on |
| Database.FailedReconnectDecides | src/ngx_http_sqlitelog_db.c:172-200 | when the file was moved and cannot be opened again, a list or a single insert ends with the result of opening it |
| Database.OtherCodesAreFinal | src/ngx_http_sqlitelog_db.c:333-346 | any extended code but 0 and 1032 ends it with the result of the first attempt |
| Database.WorkingSqliteWritesIffFit | src/ngx_http_sqlitelog_db.c:323-423 | while SQLite works, a list is written if and only if the connection is fit; without a handle or over a failed one the result is MISUSE, over an open transaction ERROR, and nothing changes |
| Database.HopelessIffNotOpen | src/ngx_http_sqlitelog_db.c:323-423 | a list fails whatever SQLite answers if and only if the handle is missing, or failed to open with another code than that of a moved file |
| Database.OpenTransactionWedges | src/ngx_http_sqlitelog_db.c:379-392 | over a connection with an open transaction, every list of every sequence fails while SQLite works, and the transaction stays open |
| Database.FailedCommitWedges | src/ngx_http_sqlitelog_db.c:405-422 | how a connection gets there: all calls work but the COMMIT, which fails with a code that leads to no retry and keeps the transaction |
| Database.InsertIsAtomic | src/ngx_http_sqlitelog_db.c:172-200 | the unbuffered insert is all or nothing across its retry and leaves no transaction open |
| Database.OneFailedInsertIsRetriedIff | src/ngx_http_sqlitelog_db.c:172-200 | the unbuffered insert is tried again, and then written, if and only if its failing call reports a moved file |
| Connection.Db.Init | src/ngx_http_sqlitelog_db.c:39-101 | session and result code are those of the specification, for every oracle |
| Connection.Db.TryInsert | src/ngx_http_sqlitelog_db.c:213-311 | session and result code as specified; on success parameter `i + 1` was bound with value `i` and the binder of column `i` |
| Connection.Db.TryInsertList | src/ngx_http_sqlitelog_db.c:359-423 | session and result code as specified, although the loop stops at the first failure |
| Connection.Db.InsertList | src/ngx_http_sqlitelog_db.c:323-347 | session and result code as specified; the committed rows grow by the list or not at all |
| Connection.Db.Insert | src/ngx_http_sqlitelog_db.c:172-200 | session and result code as specified |
| Connection.InsertFailureLasts | src/ngx_http_sqlitelog_db.c:396-403 | stopping at the first failing row gives the result of the whole list |
| Connection.Jitter | src/ngx_http_sqlitelog_db.c:617-620 | a random draw is cut to its leading digits: all of it up to 100, and otherwise the longest lead that is at most 100 |
| Connection.Checkpoint | src/ngx_http_sqlitelog_db.c:602-650 | ends for every pattern of answers within max(timeout, 1) + 149 ms and 1 + max(1, ceil(timeout / 50)) calls; gives up only after the whole timeout, and reports success then |
| Conservation.NothingIsLostOrDuplicated | src/ngx_http_sqlitelog_module.c:446-614 | in every run the arrived entries are exactly the queued, in-hand, committed and dropped ones, with multiplicity |
| Conservation.StepConserves | src/ngx_http_sqlitelog_thread.c:54-195 | every step of every actor keeps that balance and the arity of all entries |
| Conservation.FailuresDropWhatIsHeld | src/ngx_http_sqlitelog_module.c:566-607 | a step gives up exactly the entries in its actor's hands if it is a drain, unshift, post or transaction that fails, and nothing otherwise |
| Conservation.ListOutcome | src/ngx_http_sqlitelog_buf.c:167-232 | a drain moves all queued entries into the actor's hands, or drops at most the overflowed entry |
| Conservation.InsertOutcome | src/ngx_http_sqlitelog_module.c:586-608 | a transaction commits the batch and keeps the overflowed entry in hand, or drops both |
| Uninterrupted.WherePushesGo | src/ngx_http_sqlitelog_module.c:446-513 | a push ends the request if and only if the entry fits and the queue stays below the maximum; otherwise the queue is listed, by the request itself or by a task that it posts, and an entry without room goes along |
| Uninterrupted.RequestRuns | src/ngx_http_sqlitelog_module.c:520-614 | from every reachable state with a resting enabled worker and a free mutex, a synchronous request can run to its end, with queue, database, connection and worker as specified for the method |
| Uninterrupted.EmptyRequestRuns | src/ngx_http_sqlitelog_module.c:261-325 | so can one whose entry cannot be built, which disables its worker |
| Uninterrupted.TimerRuns | src/ngx_http_sqlitelog_buf.c:391-497 | so can the flush timer: the state after it is exactly that of the specified flush |
| Uninterrupted.AsyncRequestRuns | src/ngx_http_sqlitelog_module.c:446-513 | with a thread pool, a request that fills the queue posts a task that leaves queue, database and its connection as handling the entry is specified to, while the worker stays as it was; any other request posts nothing |
| Uninterrupted.UnpostedRequestRuns | src/ngx_http_sqlitelog_module.c:460-513 | if the task cannot be posted the worker is disabled, an entry that was queued stays queued, and one without room is dropped |
| Uninterrupted.AsyncTimerRuns | src/ngx_http_sqlitelog_buf.c:508-583 | with a thread pool, the timer posts a task whose drain is exactly the specified one |
| Uninterrupted.AsyncTimerShares | src/ngx_http_sqlitelog_thread.c:125-195 | and the worker goes on with the connection as the task has left it, be it a new one, a wedged one or none |
| Uninterrupted.AsyncRequestIsWritten | src/ngx_http_sqlitelog_thread.c:54-116 | while SQLite works, with memory and a fit connection, a request that fills the queue has queue and entry committed by its task, and one without room for its entry has the queue committed and the entry queued |
| Uninterrupted.AsyncTimerWrites | src/ngx_http_sqlitelog_thread.c:125-195 | while SQLite works, over a fit connection, the timer has a filled queue committed by its task, and nothing is dropped |
| Uninterrupted.WhoStartsEnabled | src/ngx_http_sqlitelog_module.c:742-761 | a worker starts enabled and with a timer if and only if every call of connecting works |
| Uninterrupted.ExitRuns | src/ngx_http_sqlitelog_module.c:798-877 | a leaving worker can run to its end, with queue, database and connection as specified for the method |
| LockDiscipline.EveryStepIsMutexStep | src/ngx_http_sqlitelog_module.c:537-584 | a step changes only its own actor and at most adds one; the mutex changes hands only by taking and releasing it |
| LockDiscipline.MutualExclusion | src/ngx_http_sqlitelog_buf.h:11-18 | in every reachable state at most one actor is in a critical section, and it is the one that holds the mutex |
| LockDiscipline.NoSqliteUnderTheMutex | src/ngx_http_sqlitelog_buf.h:15-18 | nobody calls SQLite while holding the mutex |
| LockDiscipline.CriticalSectionsEnd | src/ngx_http_sqlitelog_buf.c:433-485 | the holder of the mutex can always move; each of its steps brings it closer to the release, and nobody else releases the mutex or touches the queue |
| LockDiscipline.HeldThroughout | src/ngx_http_sqlitelog_buf.c:433-485 | over any stretch of a run from taking the mutex on in which it does not become free, it stays with that holder, whose steps are counted down from three |
| LockDiscipline.OneReleasePerAcquire | src/ngx_http_sqlitelog_module.c:537-584 | every critical section of a run that ends, ends with the one release by its holder, after at most three steps of the holder, the release included |
| LockDiscipline.NobodyIsStuck | src/ngx_http_sqlitelog_module.c:537-584 | no deadlock: every actor can move, or waits for a holder that can |
| Order.OrderThroughOverflow | src/ngx_http_sqlitelog_module.c:556-608 | in every run, with or without thread pools, in which drains do not overlap and nobody pushes past a waiting overflowed entry, committed rows, drained rows, queue and waiting entry are the pushes in order, less what was dropped |
| Order.AcceptedPushOvertakes | src/ngx_http_sqlitelog_module.c:460-506 | from any state with a waiting overflowed entry, a push that fits ends up ahead of it; where the order was intact it stays so if and only if the entries are equal |
| Order.EitherWaitingEntryMayWin | src/ngx_http_sqlitelog_thread.c:74-115 | of two waiting overflowed entries, the one that is drained first ends up ahead, whichever was pushed first |
| Synchronous.SyncRunsKeepOrder | src/ngx_http_sqlitelog_module.c:556-608 | without thread pools it suffices for the order that drains do not overlap |
| Synchronous.SyncRunsArePatient | src/ngx_http_sqlitelog_module.c:537-584 | without thread pools no push gets past a waiting entry, because it waits under the mutex |
| Synchronous.SingleWorkerKeepsOrder | src/ngx_http_sqlitelog_module.c:520-614 | with one synchronous worker at a time, also across reloads, the log is appended to in push order without further hypothesis |
| Synchronous.StepStaysSync | src/ngx_http_sqlitelog_module.c:284-288 | a run without thread pools never reaches a state of the asynchronous handlers |
| Synchronous.RunStaysFilled | src/ngx_http_sqlitelog_module.c:556-567 | in every run without thread pools, whoever is about to list without an overflowed entry in hand has a queue with entries before it |
| Order.StepInOrder | src/ngx_http_sqlitelog_buf.c:133-153 | every step under these conditions keeps the order, in particular a push that overflows, a post, a drain, a transaction and an unshift |
| Occupancy.QueueStaysBounded | src/ngx_http_sqlitelog_buf.c:85-92 | whenever the mutex is free, the queue and the overflowed entries number at most max - 1 plus the workers that are alive at the same time, one less for a maximum of two or more, however often workers are replaced |
| Occupancy.StepStaysBounded | src/ngx_http_sqlitelog_module.c:556-608 | every synchronous step but a failed drain keeps that bound |
| Shutdown.ShutdownKeepsEverything | src/ngx_http_sqlitelog_module.c:804-848 | once all workers and tasks are gone every entry is a row, dropped, or in the queue as the last look left it; the queue is empty if and only if that look listed it, or found it empty and put nothing back |
| Shutdown.SyncShutdown | src/ngx_http_sqlitelog_module.c:798-848 | in every run without thread pools that ends with all workers gone, the last look is a worker leaving without one because it is disabled or not connected, with the queue kept; or finding the queue empty; or listing a queue with entries, which is empty afterwards if and only if that worked |
| Shutdown.LastLookDecides | src/ngx_http_sqlitelog_module.c:804-848 | every run at whose end nobody will touch the queue again has a last look, by an actor that was not past before, and the final queue is the one just after it |
| Shutdown.PastStaysPast | src/ngx_http_sqlitelog_module.c:804-877 | once nobody is left who will touch the queue, no step but the start of a worker changes it |
| Shutdown.HowWorkersLook | src/ngx_http_sqlitelog_module.c:800-834 | an exiting worker leaves without a look only if it is disabled or not connected; otherwise it finds the queue empty or tries to list it |
| Shutdown.QuitLeavesTheQueue | src/ngx_http_sqlitelog_module.c:800-805 | if the last worker is disabled or not connected, whatever is queued when it leaves stays queued |
| Shutdown.StepStaysProper | src/ngx_http_sqlitelog_module.c:1641-1645 | every step keeps exiting workers and tasks to their checks, drains and unshifts, also when new workers take over the old queue |
| Blanks.BlankRowsOfDrain | src/ngx_http_sqlitelog_db.c:394-403 | a drain carries one blank row if it found the queue empty, and none otherwise |
| Blanks.BlankRowIffEmptyDrain | src/ngx_http_sqlitelog_db.c:394-403 | over runs, a step commits a blank row if and only if it is a transaction that succeeds and whose actor found the queue empty when it drained it |
| Blanks.SyncBlankRowsComeFromOverflows | src/ngx_http_sqlitelog_module.c:556-567 | without thread pools only a push that overflowed drains an empty queue |
| Scenarios.EitherDrainMayWin | src/ngx_http_sqlitelog_module.c:581-596 | from every reachable state with two drains ready to be written, both commit orders are reachable |
| Scenarios.DrainsMayOvertake | src/ngx_http_sqlitelog_module.c:581-596 | a run without failures in which the later of two entries is committed first |
| Scenarios.TasksLetLaterEntriesOvertake | src/ngx_http_sqlitelog_thread.c:74-115 | a run with one drain at a time in which a posted overflowed entry ends up behind a later push |
| Scenarios.DisabledWorkerLeavesEntries | src/ngx_http_sqlitelog_module.c:800-802 | a run that ends with no worker left and an entry still in the buffer |
| Scenarios.FlushWritesIffFit | src/ngx_http_sqlitelog_buf.c:446-490 | while SQLite works, a flush writes a queue with entries if and only if the connection is fit; otherwise it drops the queue and the connection stays as unfit as it was |
| Scenarios.FlushIsHopelessIffNotOpen | src/ngx_http_sqlitelog_buf.c:446-490 | a flush drops a queue with entries whatever SQLite answers, if and only if the handle is missing, or failed to open with another code than that of a moved file |
| Scenarios.TimerFlushes | src/ngx_http_sqlitelog_buf.c:391-497 | from every reachable state with a resting worker, a free mutex and a filled queue, the timer can flush: the state after it is exactly that of the transaction, and the worker is as enabled as before |
| Scenarios.WedgedTimerDropsTheQueue | src/ngx_http_sqlitelog_buf.c:446-490 | from every such state with an open transaction on the connection, a flush drops the whole queue although SQLite works, and the worker stays enabled and wedged |
| Scenarios.BusyCommitWedges | src/ngx_http_sqlitelog_buf.c:484-490 | from every such state with a fit connection, one busy COMMIT during a flush leads there |
| Scenarios.OneBusyCommitLosesLaterEntries | src/ngx_http_sqlitelog_buf.c:484-490 | a run in which SQLite fails once, at a COMMIT, and a later entry is lost while SQLite works |
| Scenarios.HealthyWorkersEntryIsLost | src/ngx_http_sqlitelog_buf.c:446-490 | a run in which a disabled worker's timer loses an entry of a healthy worker |
| SqlText.MarksAlternate | src/ngx_http_sqlitelog_sql.c:131-138 | the marks are `?` at even and `,` at odd positions, 2n - 1 bytes in all |
| SqlText.OneMarkPerColumn | src/ngx_http_sqlitelog_sql.c:112-119 | there are exactly `n` placeholders |
| SqlText.DeclareShape | src/ngx_http_sqlitelog_sql.c:63-84 | a declaration is the name of the column, one space, and its type |
| SqlText.SmallCreateTable | src/ngx_http_sqlitelog_sql.c:23-89 | the CREATE statement of two columns, letter by letter |
| SqlText.SmallInsert | src/ngx_http_sqlitelog_sql.c:101-144 | the INSERT statement of two columns, letter by letter |
| SqlText.FillMarks | src/ngx_http_sqlitelog_sql.c:131-139 | looking back one byte alternates the marks from a `?` on and ends with the parenthesis; nothing else is written |
| SqlText.PutAndMeasure | src/ngx_http_sqlitelog_sql.c:129-130 | the length found after printing is that of the printed text up to its first NUL |
| SqlText.SqlInsert | src/ngx_http_sqlitelog_sql.c:101-144 | the buffer is filled exactly, and the statement is right if and only if the table name has no NUL |
| SqlText.WriteDeclarations | src/ngx_http_sqlitelog_sql.c:63-84 | writes the joined declarations and the parenthesis within the computed length |
| SqlText.SqlCreateTable | src/ngx_http_sqlitelog_sql.c:23-89 | the precomputed length is exact, and the statement is right if and only if the table name has no NUL, for columns without one |
| Format.NVariables | src/ngx_http_sqlitelog_fmt.c:262-280 | the counted variables are as many as the columns that the parser builds, and none exactly if no argument starts with a dollar sign |
| Format.Check | src/ngx_http_sqlitelog_module.c:1374-1430 | a directive passes if and only if it comes before any use of the combined format, no argument is empty, the name is neither `combined` nor taken, some argument is a variable, and no type stands behind anything but a variable; each error names a fault that is there |
| Format.UsedOnceIffFirstIsVariable | src/ngx_http_sqlitelog_module.c:1416-1430 | all arguments of an accepted directive are used, each once and in order, if and only if the first one after the table name is a variable |
| Format.OrdinaryTableUsesAll | src/ngx_http_sqlitelog_module.c:1416-1430 | so it is for every table name that does not start with a dollar sign |
| Format.OrphanTypeIsAccepted | src/ngx_http_sqlitelog_module.c:1419-1428 | an accepted directive with a type that belongs to no variable |
| Format.PrintedIsAccepted | src/ngx_http_sqlitelog_module.c:1374-1430 | whatever columns are written as arguments pass the checks |
| Format.ParseOfPrint | src/ngx_http_sqlitelog_fmt.c:84-140 | reading written columns gives the same columns, with any mix of explicit and missing types |
| Format.PrintThenCompile | src/ngx_http_sqlitelog_fmt.c:106-134 | explicit types survive in upper case, with their names, binders and variables |
| Format.GivenTypesAreCapitalized | src/ngx_http_sqlitelog_fmt.c:111-118 | in the compiled columns a given type keeps its length, its small letters become capital ones, and every other character stays |
| Format.BlobInAnySpelling | src/ngx_http_sqlitelog_col.c:51-56 | a type that spells BLOB in whatever case makes a column with that type, the blob binder and no escaping |
| Format.CapitalizedArguments | src/ngx_http_sqlitelog_fmt.c:111-118 | of the arguments only the types right behind a variable change, and they in their small letters only |
| Format.HowColumnsAreWritten | src/ngx_http_sqlitelog_op.c:50-76 | a column is bound as a blob exactly if its type is BLOB, left unescaped for that type or `binary_remote_addr`, and has an operation of its own for nine variables |
| Format.TypesThatAreNotGiven | src/ngx_http_sqlitelog_fmt.c:20-44 | without a type, which variables are BLOB, REAL and INTEGER; all others are TEXT |
| Format.CompiledTwice | src/ngx_http_sqlitelog_fmt.c:111-118 | the arguments that compilation leaves behind compile to the same columns |
| Format.UpperInPlace | src/ngx_http_sqlitelog_fmt.c:113-117 | one argument is put in upper case where it stands, and no other is touched |
| Format.ColumnAt | src/ngx_http_sqlitelog_fmt.c:98-135 | a variable becomes its column, and only the type behind it changes |
| Format.FmtInit | src/ngx_http_sqlitelog_fmt.c:56-162 | one column per variable in order and both statements; fails exactly if a variable has no name |
| EndToEnd.OneArity | src/ngx_http_sqlitelog_fmt.c:76-161 | variables, columns, placeholders, entry values, values in each node of a buffer with the entries, sizes of the drained parts and bound parameters are one number, at least one |
| EndToEnd.ParameterIsItsColumn | src/ngx_http_sqlitelog_db.c:247-267 | parameter `i + 1` of the `r`-th queued request is bound with the value of the directive's `i`-th variable in that request and with that column's binder |

## Left out

- SQLite itself: finalizing succeeds after a successful step and does not change the error code of a failed one, a failed COMMIT commits nothing, and closing a connection rolls back; statements, locks between processes and the contents of the file are not modelled.
- Init scripts: arbitrary SQL; the model lets them fail but has no effect of theirs on the logging table.
- nginx itself: slab pages, the implementation of the mutex, the event loop and thread pools. Allocation may fail at any point, and timers and posted tasks run at any time.
- Memory as a number: a call gets the number of allocations that succeed; as the code stops at the first failure, this covers every pattern. Each list push and each copy counts as one.
- Freeing a block only marks it as free while the pool is locked: the clearing loop follows the link of a node that it has just freed (`src/ngx_http_sqlitelog_buf.c:220-226`).
- Several threads on one connection: a worker and its tasks may find the connection changed between their transactions, but a transaction attempt is one step, so calls of two threads are not interleaved inside one.
- Specialized variables such as `$msec` or `$status`: they announce a size and print a text of their own; the model takes it that the text has that size.
- Unbuffered logging and its thread handler: one insert per request, covered as `Database.InsertSpec` but not as steps of the transition system.
- Variable lookup: a variable without a name fails to compile, every other name has an index; allocation failures while the configuration is read are not modelled.
- Duplicate format names are compared as whole strings, while the code stops comparing at a NUL.
- Reloads keep the format and the maximum; a reload that changes them starts another configuration of the model.
- The `if=` condition: a rejected request hands over no entry.
- The checkpoint on exit has no effect on rows, and its sleeping time is a plain number that does not wrap around.
- Reading files, parsing options, merging configurations, and log messages.
- The extended error code is a free answer of the oracle only after a call that worked, where SQLite leaves it undefined; SQLite that works answers with OK there. Result codes are kept in their extended form, which the code tells apart from OK and DONE only.
- Worker.Worker.Flush: the second look at the length is the first one again, because a method runs without interference; the transition system has both looks.
- Order.OrderThroughOverflow: promises nothing when drains overlap or a push goes past a waiting entry, because the order is then lost or left to chance, as the lemmas beside it show.

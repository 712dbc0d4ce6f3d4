# Verified models of the multicore programming exercises

This project models the concurrent and in-place algorithms of the repository and proves what they are for:

- **The transaction engine** (`project2`): the lock table with its FIFO reader/writer queues and its deadlock search, the
  record store with undo, any number of workers under two-phase locking, and the log validator that serves as the
  sequential specification.
- **The wait-free snapshot** (`project3`): stamped registers, the double collect and the borrowed snapshot.
- **The list-based sets** (`lab11`): the lock-free list, the optimistic list and the hand-over-hand list.
- **The queues** (`lab12`, `lab13`): the ticketed ring and the linked queue.
- **The CLH lock** (`lab10`).
- **The in-place radix sort** (`project1`).

## How it is modelled

Code that one thread runs over its own data is imperative Dafny: the lock table (`LockTableObject.LockTable`), the record
store and the worker's record list (`Storage.Database`, `Storage.WorkerThread`), the validator (`Validator`) and the radix
sort on an array (`RadixSort`). Each method is proved against a function on values, and the properties are proved about that
function.

Code whose point is the interleaving of threads is a step machine. A state holds the shared memory and, for every thread, its
program counter and locals; a step is one atomic access of one thread (a load, a store, a compare-and-swap, a lock
operation), with a branch taken in the same step as the load it depends on. A run is a sequence of states from an initial
one. Numbers of threads, keys, capacities and steps are unbounded, and every theorem about a machine speaks of all its runs. The
step machine of the engine uses the functions that the methods of the lock table and the record list are proved against.
Fields that name instants, tickets or histories are auxiliary: no step depends on them, and the comments say which they are.

| module | models |
|---|---|
| `Locks`, `Deadlock`, `Refusals`, `LockTableObject` | the lock table, the waits-for relation and the search, what its answers mean, the class |
| `LockNodes`, `PlainTables`, `NodeClients`, `NodeWaits` | the lock table with its list nodes, where a thread may be in a queue more than once, and its clients |
| `DeadlockLimit`, `SearchLimits` | the clients for which the search is right |
| `Storage`, `Validator` | the record store with undo, the validator |
| `Transactions`, `Serializability`, `Engine`, `Termination` | the engine's steps, its invariant, its theorems, how its runs end |
| `Snapshot`, `SnapshotResults`, `SnapshotCalls` | the snapshot's steps and invariant, its results, its calls |
| `LockFreeHeap`, `LockFreeList`, `LockFreeCalls`, `LockFreeChanges`, `LockFreeAlone` | the lock-free list: its nodes, its steps, its calls, what a call changes, that a call alone returns |
| `ListHeap`, `NodeLocks`, `LockWaits`, `OptimisticList`, `HandOverHand`, `OptimisticProgress`, `HandOverHandProgress` | the two lists with locks: their nodes, their mutexes, chains of lock waits, their steps, that their calls return |
| `RingQueue`, `LinkedQueue`, `ClhLock` | the two queues and the lock |
| `RingProgress`, `LinkedQueueCalls`, `ClhProgress` | their calls as wholes, and that they come to an end |
| `RadixSpec`, `RadixSort` | what a pass does to a sequence of records, the sort on an array |
| `Options`, `Sums` | an optional value, sums over all threads |

Conventions. Threads, records and registers are numbered from 0; the program numbers them from 1. A token's list iterator is
represented by the pair of thread and queue, which identifies it because a thread is in a queue at most once
(`Engine.LockQueues`). `LockNodes` gives the tokens node numbers instead and allows a thread to be in a queue more than once;
`PlainTables` shows that while none is, both models do the same. List and queue nodes are numbered in the order in which they become reachable.

## Findings

- **Deadlock search.** `detectCycle` carries a flag that depends on the path and a visited set that does not, so what it is
  worth depends on the client. The statements are about all clients, of any size and in all runs from the empty table, that
  keep three obligations: a thread asks for a read lock only while it owns fewer than `n`; unless `again` is allowed, it asks
  for no record that it already has a queue element for; and after a refusal it releases all its locks. (While it waits it
  cannot ask.) The workers keep them with `n` = 1 and without `again`.
  - No deadlock arises unreported if and only if `n` is 0, or `n` is 1 and `again` is not allowed
    (`SearchLimits.MissesNothingExactly`). Two read locks are too many: `DeadlockLimit.MissedDeadlockRun`. Asking twice is
    wrong too: when two threads have locked a record for reading and one asks for writing, it waits for itself, and the search
    comes to it with a false flag (`SearchLimits.UpgradeMissed`).
  - The assertion in `hasCycle`, at line 94 of `project2/src/locktable.cpp`, never fails if and only if `again` is not allowed
    (`SearchLimits.AssertionExactly`). So the search does all that it should exactly for `n` of at most 1 and no record twice
    (`SearchLimits.SearchWorksExactly`).
  - Every report is of a real cycle of waits if and only if `n` is 0 (`SearchLimits.ReportsAreRealExactly`): with read locks
    the search follows granted elements too, and `SearchLimits.FalseAlarm` is a run of clients like the workers to a report of
    a deadlock that is none.
  - A deadlock that arises stays for ever: `SearchLimits.DeadlockIsForever`.
- **Snapshot.** Line 50 of `project3/src/snapshot.cpp` borrows from the older of the two copies. Every result is still the
  contents of all registers at one instant, and all results are ordered; but the instant may lie before the call. A scan is
  linearizable as written if and only if there is at most one register (`SnapshotResults.AsWrittenIsLinearizable`); borrowing
  from the newer copy makes it linearizable for every capacity (`SnapshotResults.RepairedIsLinearizable`).
- **Lock-free `list_remove`.** After a successful mark the loop at lines 105-116 of `lab11/lockfree.cpp` goes round again, so
  the function can only return false, and lines 120-121 are never reached. It is modelled as written.
  `LockFreeCalls.DeletesAndAnswersFalse` is a run with one thread in which a remove deletes its key and answers false. When
  no other thread inserts or deletes the key during the call, the answer is the intended one if and only if the key was
  absent at the call (`LockFreeCalls.RemoveAnswersAsIntended`); whatever the others do, it is when the key is absent
  throughout (`LockFreeCalls.AbsentMeansNoMark`).

## Model

| member | source | states |
|---|---|---|
| Locks.GrantedPrefix | project2/src/locktable.cpp:29-45 | in a queue kept by `canEnter`, everything ahead of a granted element is granted, and is a reader unless it is the head |
| Locks.AddLockKeeps | project2/src/locktable.cpp:7-15 | a request by a thread that is not in the queue keeps the table well formed: no thread twice in a queue, grants in order, tokens and elements in correspondence |
| Locks.SetGrantedKeeps | project2/src/locktable.cpp:29-45 | a grant by `canEnter` keeps the table well formed |
| Locks.UnlockAllKeeps | project2/src/locktable.cpp:75-81 | erasing all elements of a thread, wherever they stand, keeps the table well formed; the grants left over are still in order |
| Locks.EraseFacts | project2/src/locktable.cpp:25-27 | erasing one element removes that thread and leaves the element of every other thread as it was |
| Locks.TryEnterTwice | project2/src/locktable.cpp:83-84 | the `canEnter` inside `hasCycle` and the one of the waiting loop that follows give the same answer and table |
| LockTableObject.LockTable.constructor | project2/include/locktable.hpp:71-78 | a new table is well formed and empty |
| LockTableObject.LockTable.AddLock | project2/src/locktable.cpp:47-51 | appends a blocked element and its token: the new state is `Locks.AddLock` of the old |
| LockTableObject.LockTable.CanEnter | project2/src/locktable.cpp:29-45 | answer and new state are those of `Locks.TryEnter` |
| LockTableObject.LockTable.Unlock | project2/src/locktable.cpp:25-27 | erases exactly the element of the token |
| LockTableObject.LockTable.UnlockAll | project2/src/locktable.cpp:75-81 | the loop over the tokens removes the thread from every queue: the new state is `Locks.UnlockAll` of the old |
| LockTableObject.LockTable.DetectCycle | project2/src/locktable.cpp:103-124 | the recursive search with its shared visited set computes `Locks.Detect`; every `--it` is at an element with a predecessor |
| LockTableObject.LockTable.HasCycle | project2/src/locktable.cpp:83-101 | the answer is `Locks.HasCycle`; the assertion at line 94 is never reached |
| LockTableObject.LockTable.RequestLock | project2/src/locktable.cpp:47-57 | the outcome of a request, deadlock or grant or wait, and the new table are those of `Locks.RequestLock`, which keeps tables well formed |
| Refusals.GrantedAtOnce | project2/src/locktable.cpp:29-53 | a request is granted at once if and only if the queue is empty, or it is to read and all in the queue are granted readers |
| Refusals.RefusalHasChain | project2/src/locktable.cpp:54-124 | a refusal, of a reader or a writer, rests on a chain of threads from the requester back to itself in the new table: each has an element right behind one of the next, and one after the first from a blocked element |
| Refusals.NoRefusalWithoutWaiter | project2/src/locktable.cpp:54-124 | no request is refused while no other thread owns a blocked element |
| Refusals.NodeGrantedAtOnce | project2/src/locktable.cpp:29-53 | the grant at once with list nodes, threads in a queue twice included |
| Refusals.NodeRefusalHasChain | project2/src/locktable.cpp:54-124 | the chain behind a refusal with list nodes |
| Refusals.NoNodeRefusalWithoutWaiter | project2/src/locktable.cpp:54-124 | and no refusal while nobody else waits |
| Deadlock.DetectClosed | project2/src/locktable.cpp:103-124 | a search that finds nothing has explored every thread it visited: each predecessor of each of their elements was visited too, and was not the requester beyond a blocked element |
| Deadlock.WalkDown | project2/src/locktable.cpp:108-121 | everything ahead of a blocked element of a visited thread has been visited, unless the one neighbour that was reached with a false flag stands in between |
| Deadlock.EscapeIsOldCycle | project2/src/locktable.cpp:103-124 | a waits-for path that leaves the visited threads past that neighbour would have closed a cycle before the request |
| Deadlock.RequestKeepsAcyclic | project2/src/locktable.cpp:47-124 | completeness of the search: with at most one reader element a thread, whenever `hasCycle` answers false the requester can wait and the real waits-for relation stays acyclic |
| Deadlock.RequestLockAcyclic | project2/src/locktable.cpp:47-65 | the same for the whole request, with its grant, its refusal and its wait |
| Deadlock.UnlockAllAcyclic | project2/src/locktable.cpp:75-81 | releasing locks creates no wait |
| Deadlock.SetGrantedAcyclic | project2/src/locktable.cpp:29-45 | granting a lock creates no wait |
| Deadlock.TwoReadersOk | project2/src/locktable.cpp:7-45 | the table of the counterexample is well formed, before and after the request |
| Deadlock.TwoReadersBefore | project2/src/locktable.cpp:83-124 | its waits-for relation is acyclic before the request |
| Deadlock.TwoReadersMissDeadlock | project2/src/locktable.cpp:83-124 | a request in it closes a cycle of waits, and `hasCycle` answers false |
| DeadlockLimit.RequestWithinOne | project2/src/locktable.cpp:47-65 | with the limit 1, whatever a request answers, there is no deadlock afterwards |
| DeadlockLimit.MissedDeadlockRun | project2/src/locktable.cpp:47-124 | for every limit from 2 on, a run of nine requests from the empty table to a deadlock that none of them reported |
| Deadlock.BehindCannotEnter | project2/src/locktable.cpp:29-45 | an element that is blocked behind another, with a writer from that one through itself, cannot enter |
| LockNodes.DropOk | project2/src/locktable.cpp:75-81 | erasing any nodes keeps the order of grants and the identity of nodes |
| LockNodes.AskOk | project2/src/locktable.cpp:47-57 | a request keeps the tables with nodes well formed, whoever asks for what, twice or not |
| PlainTables.AskPlain | project2/src/locktable.cpp:47-57 | a request for a record that the thread is not queued for: the assertion holds, and answer and table are those of `Locks.RequestLock` |
| PlainTables.ReleasePlain | project2/src/locktable.cpp:75-81 | erasing the nodes that the tokens name is `Locks.UnlockAll` when no thread is in a queue twice |
| NodeClients.RunNodesOk | project2/src/locktable.cpp:7-81 | every step of every client keeps the tables with nodes well formed |
| NodeClients.PlainRunIsRun | project2/src/locktable.cpp:7-124 | a run in which nobody asks twice is a run of the model with one element a thread and queue |
| NodeClients.LiftRun | project2/src/locktable.cpp:7-124 | and every such run comes from one with nodes |
| NodeWaits.SearchSweeps | project2/src/locktable.cpp:103-124 | among writers, a search that answers false has visited whoever stands right ahead of a node of a visited thread, and not the requester |
| NodeWaits.WritersComplete | project2/src/locktable.cpp:83-124 | among writers, a request that is left to wait makes no deadlock, even if threads are in a queue more than once |
| NodeWaits.SearchChain | project2/src/locktable.cpp:103-124 | among writers, a search that answers true has found a chain of waits to the requester |
| SearchLimits.MissesNothingExactly | project2/src/locktable.cpp:47-124 | for all clients that release after a refusal: no run reaches a deadlock if and only if threads own no read locks, or at most one and ask for no record twice |
| SearchLimits.UpgradeMissed | project2/src/locktable.cpp:83-124 | a run within the limit 1 in which a reader asks to write its record and waits for itself unreported |
| SearchLimits.AssertionExactly | project2/src/locktable.cpp:90-96 | the assertion in `hasCycle` never fails if and only if no thread asks for a record twice |
| SearchLimits.SearchWorksExactly | project2/src/locktable.cpp:83-124 | every deadlock is reported in time and the assertion holds if and only if the limit is at most 1 and no record is asked for twice |
| SearchLimits.ReportsAreRealExactly | project2/src/locktable.cpp:83-124 | every refused request closes a cycle of waits through its thread if and only if threads own no read locks |
| SearchLimits.FalseAlarm | project2/src/locktable.cpp:83-124 | for every limit from 1 on, a run from the empty table to a refusal with no cycle of waits |
| SearchLimits.DeadlockIsForever | project2/src/locktable.cpp:57-62 | the threads of a cycle of waits are still in it, and waiting, at every later moment of the run |
| Validator.SortedUnique | project2/src/validator.cpp:65-73 | a log sorted by commit id that has the ids 1 to E is the only order that can pass |
| Validator.FirstLine | project2/include/database.hpp:8-8 | all records start at 100, so that the first line, on three distinct records, is right exactly with the values 201 and 0 |
| Validator.SumOfReplay | project2/src/validator.cpp:88-89 | conservation: transactions on three distinct records raise the sum of all records by one each |
| Validator.CheckReplay | project2/src/validator.cpp:69-110 | accepts exactly the serial histories: ids 1, 2, ..., indices in range, and the values that the replay from 100s produces |
| Validator.ReadLogs | project2/src/validator.cpp:44-58 | the lines of all files, file by file |
| Validator.Validate | project2/src/validator.cpp:44-120 | accepts if and only if the lines of all files together, in some order, are a serial history of exactly E transactions |
| Storage.Database.constructor | project2/src/database.cpp:24-30 | all records start at 100 |
| Storage.Database.Get | project2/src/database.cpp:35-38 | the value, or the error for an index out of range |
| Storage.Database.Set | project2/src/database.cpp:40-43 | changes that record only, or reports the index out of range and changes nothing |
| Storage.WorkerThread.Prepare | project2/src/worker.cpp:77-79 | forgets the saved records |
| Storage.WorkerThread.ReadRecord | project2/src/worker.cpp:81-85 | returns the stored value and saves it as not updated |
| Storage.WorkerThread.UpdateRecord | project2/src/worker.cpp:87-103 | marks the first saved entry of the record, reading the record first if there is none, and then overwrites it |
| Storage.WorkerThread.Rollback | project2/src/worker.cpp:109-115 | the loop restores the store to `Storage.UndoAll` of it and keeps the saved list |
| Storage.UndoAllAt | project2/src/worker.cpp:109-115 | what the undo leaves in a record: the saved value if its entry is marked, else the value it had |
| Storage.UpdateKeepsOrigin | project2/src/worker.cpp:87-115 | an update never changes what a later rollback restores, for a record read before as well as for one that was not |
| Transactions.StepLockInv | project2/src/worker.cpp:117-294 | every step of every worker keeps the lock invariant: a well-formed table, tokens that match the program counters, waits-for acyclic |
| Serializability.RunKeepsInv | project2/src/worker.cpp:117-294 | in every reachable state the data invariant holds: the log is serial, clean records are committed, dirty ones are saved, each transaction has read committed values |
| Engine.LockQueues | project2/src/locktable.cpp:7-45 | in every reachable state a queue holds no thread twice, and its granted elements are a prefix: all readers, or one writer at the head |
| Engine.CycleAssertUnreachable | project2/src/locktable.cpp:83-96 | in every reachable state a request finds another thread's element before its own when it cannot enter |
| Engine.NeverDeadlocked | project2/src/locktable.cpp:47-124 | in every reachable state, of any number of workers, no waits-for path of waiting workers comes back to its start |
| Engine.AbortHasChain | project2/src/worker.cpp:149-160 | a transaction is rolled back for a deadlock only on a chain of threads back to itself, and only while another worker waits |
| Engine.SomeWorkerCanStep | project2/src/locktable.cpp:57-62 | while a worker is unfinished, some worker can take a step that is not a yield |
| Termination.RankFalls | project2/src/worker.cpp:117-294 | every step of a transaction but a yield brings it nearer to its commit or the end of its undo, whatever the others do |
| Termination.TerminatedIsDone | project2/src/worker.cpp:47-61 | a worker that has drawn an order number past E undoes its writes, and from then on is done for good |
| Termination.AnyThreeRecords | project2/src/worker.cpp:127-132 | a worker that begins may pick any three distinct records |
| Termination.SoloRuns | project2/src/worker.cpp:117-294 | a transaction with no other under way is not refused: it commits under the next order number, or that is past E and its worker is done |
| Termination.EveryRunCanFinish | project2/src/worker.cpp:47-71 | from every reachable state, with at least three records, the run can be continued until all workers are done |
| Engine.CommitLogIsSerial | project2/src/worker.cpp:260-293 | at every moment the commits so far have the ids 1, 2, ... without a gap and are a serial history, with the values that their predecessors produce, and the log files hold exactly these lines |
| Engine.CommittedSum | project2/src/worker.cpp:210-283 | every commit raises the sum of the committed records by exactly one |
| Engine.CleanRecordsAreCommitted | project2/src/worker.cpp:140-293 | a record that no running transaction has overwritten holds the value of the serial replay |
| Engine.DirtyRecordIsSaved | project2/src/worker.cpp:81-103 | a record is dirty in at most one transaction, whose saved entry holds the committed value |
| Engine.RollbackRestores | project2/src/worker.cpp:109-115 | on the deadlock path and on the path past E, the undo restores the committed value of every record that the transaction had overwritten and changes no other |
| Engine.UndoneSoFar | project2/src/worker.cpp:109-115 | while a worker undoes one entry a step and others go on, the entries it has passed hold their committed values |
| Engine.RollbackFinished | project2/src/worker.cpp:109-115 | at the end of the undo every record that the transaction has read holds its committed value, and none is dirty in it |
| Engine.FinishedRunValidates | project2/src/worker.cpp:270-293 | when all workers have terminated (as they can from every state, `Termination.EveryRunCanFinish`), the store is the replay of exactly E transactions, its sum has grown by E, and the log files meet the condition of `Validator.Validate` |
| Snapshot.CleanCollect | project3/src/snapshot.cpp:46-67 | two collects with equal stamps show the registers at the instant between them |
| Snapshot.RunKeepsInv | project3/src/snapshot.cpp:19-75 | the invariant of all runs, for both ways of borrowing |
| SnapshotResults.ScanShowsOneInstant | project3/src/snapshot.cpp:38-75 | as written: a result is the contents of all registers at one instant not after the return |
| SnapshotResults.StoredSnapsShowOneInstant | project3/src/snapshot.cpp:29-36 | so is the snapshot stored in every written register, at an instant before the write that put it there |
| SnapshotResults.ResultsAreOrdered | project3/src/snapshot.cpp:38-75 | any two results, of any threads at any times, are comparable: one has no smaller stamp anywhere |
| SnapshotResults.WhereResultsComeFrom | project3/src/snapshot.cpp:42-67 | a clean collect shows an instant inside the scan; a borrowed result comes from a register write inside the scan whose own scan began after that thread's previous write |
| SnapshotResults.AsWrittenIsLinearizable | project3/src/snapshot.cpp:48-54 | every result lies between call and return if and only if there is at most one register; for more, a run with a stale result is given |
| SnapshotResults.RepairedIsLinearizable | project3/src/snapshot.cpp:48-54 | with the newer copy at line 50, every result lies between call and return |
| SnapshotResults.BoundedPasses | project3/src/snapshot.cpp:44-61 | wait-freedom: the label is passed at most capacity + 1 times, and each pass after the first has set one more `moved` |
| SnapshotCalls.WaitFree | project3/src/snapshot.cpp:29-75 | every step of a call brings it nearer to its return and steps of others do not set it back, so it returns within a number of own steps that the capacity bounds |
| SnapshotCalls.AlwaysHasStep | project3/src/snapshot.cpp:29-75 | at every moment of a call its thread has a step |
| SnapshotCalls.UpdatesAreStored | project3/src/snapshot.cpp:29-36 | the stamp of a register counts the updates of its thread that are over, and its value is that of the last of them |
| SnapshotResults.BorrowedSnapPresent | project3/src/snapshot.cpp:48-51 | the register borrowed from has been written, so its snapshot is there with one entry a register |
| LockFreeHeap.InsertOk | lab11/lockfree.cpp:94-94 | the insertion keeps the list sorted and every unmarked node reachable, and puts in a key that was absent |
| LockFreeHeap.MarkOk | lab11/lockfree.cpp:113-113 | marking a node deletes its key, which was present, and changes no other |
| LockFreeHeap.UnlinkOk | lab11/lockfree.cpp:62-62 | unlinking a marked node, by any thread, leaves the set and the reachability of all other nodes |
| LockFreeHeap.Hindsight | lab11/lockfree.cpp:125-132 | a node that was reachable at an instant was reachable, then or later, while its word was what it is now |
| LockFreeList.ListStructure | lab11/lockfree.cpp:46-116 | in every reachable state keys increase along every chain of references, all chains end at the tail, and unmarked nodes are reachable from the head |
| LockFreeList.MarkedNodesAreFrozen | lab11/lockfree.cpp:46-116 | a marked node's word never changes again |
| LockFreeList.RefinesSet | lab11/lockfree.cpp:60-116 | only the insertion at line 94 adds a key, one that was absent; only the mark at line 113 deletes one, that was present; no other step changes the set |
| LockFreeList.AnswersAreLinearizable | lab11/lockfree.cpp:79-132 | what every call returns was true at an instant of the call, for a true `list_add` the instant recorded at its own insertion, `list_contains` across marked and unlinked nodes included; any return of `list_remove` saw the key absent |
| LockFreeCalls.AddReportsItsOwn | lab11/lockfree.cpp:85-96 | a true `list_add` has put its key, which was absent, into the set itself, at an instant of the call |
| LockFreeCalls.InsertionsAreDistinct | lab11/lockfree.cpp:85-96 | no two true calls report the same insertion |
| LockFreeCalls.AbsentMeansNoMark | lab11/lockfree.cpp:105-116 | a remove whose key is never in the set during the call marks nothing |
| LockFreeCalls.RemoveAnswersAsIntended | lab11/lockfree.cpp:100-116 | a remove whose key nobody else touches has deleted it if and only if it was in the set at the call; so its answer false is the intended one if and only if the key was absent at the call |
| LockFreeCalls.DeletesAndAnswersFalse | lab11/lockfree.cpp:105-116 | a run with one thread in which a remove deletes its key and answers false |
| LockFreeCalls.RestartsMeanProgress | lab11/lockfree.cpp:51-116 | lock-freedom: the failed compare-and-swaps of a call are at most the changes that other threads have made since it began |
| LockFreeCalls.MarksMeanProgress | lab11/lockfree.cpp:105-116 | the rounds that `list_remove` adds after its own marks are at most one more than the changes of others |
| LockFreeCalls.ContainsGoesUp | lab11/lockfree.cpp:125-132 | `list_contains` goes from node to node with strictly increasing keys and changes nothing |
| LockFreeChanges.ChangesOfACall | lab11/lockfree.cpp:79-132 | what a returned call has changed, all its compare-and-swaps together: a true add has put in its key, once, at the instant recorded, and nothing else; a false add and `list_contains` nothing; a remove has taken out its key as often as it has marked, and nothing else |
| LockFreeChanges.CallsReturn | lab11/lockfree.cpp:79-132 | a call ends by its answer only |
| LockFreeAlone.AloneReturns | lab11/lockfree.cpp:46-132 | obstruction-freedom: from every reachable state a call that goes on alone returns, within a number of steps that the range of the keys bounds |
| ListHeap.EditedLive | lab11/optimistic.cpp:85-121 | inserting or unlinking a node changes whether it is on the list, and that of no other node |
| ListHeap.Lookup | lab11/optimistic.cpp:75-82 | two neighbours on the list decide whether a key between them is in the set |
| ListHeap.WasLive | lab11/optimistic.cpp:43-52 | hindsight for a list without marks |
| LockWaits.EndOfChain | lab11/optimistic.cpp:69-70 | when whoever is waited for wants a greater key, every chain of lock waits ends at a thread that waits for nobody |
| OptimisticList.WalkOn | lab11/optimistic.cpp:43-52 | the validating walk stays on nodes that were on the list while it ran, and does not pass `prev` if `prev` is on the list |
| OptimisticList.ValidateIsExact | lab11/optimistic.cpp:43-52 | the unlocked walk answers true if and only if `prev` is on the list and linked to `curr` at that moment |
| OptimisticList.ValidatedStays | lab11/optimistic.cpp:72-90 | that stays so until the thread itself stores or unlocks, after a decision that stores nothing too |
| OptimisticList.AlwaysSorted | lab11/optimistic.cpp:55-140 | the list is sorted in every reachable state, and every node, removed ones too, leads to the tail |
| OptimisticList.RefinesSet | lab11/optimistic.cpp:55-140 | the store of `list_add` inserts a key that was absent, the store of `list_remove` deletes one that was present, and no other step changes anything |
| OptimisticList.AnswersAreLinearizable | lab11/optimistic.cpp:55-163 | every answer is right for the set at an instant of the call; what the call itself has changed is said by `OptimisticList.OneChangeACall` |
| OptimisticList.OneChangeACall | lab11/optimistic.cpp:55-163 | a call that has answered true to an add or a remove has changed the list exactly once, at the instant its answer speaks of; any other has not changed it |
| OptimisticList.CallsReturn | lab11/optimistic.cpp:55-163 | a call ends by its answer only |
| OptimisticProgress.RestartsMeanProgress | lab11/optimistic.cpp:63-75 | a call fails to validate at most as often as others have changed the list since it began |
| OptimisticProgress.EveryCallCanReturn | lab11/optimistic.cpp:55-163 | from every reachable state the run can be continued, without a new call, until all calls have returned |
| NodeLocks.LocksStep | lab11/optimistic.cpp:69-76 | locking or unlocking one node keeps the mutexes and the program counters in agreement |
| OptimisticList.LocksExclude | lab11/optimistic.cpp:69-70 | a node is locked by one thread at a time |
| OptimisticList.NoCycleOfLockWaits | lab11/optimistic.cpp:69-70 | since locks are taken in the order of the keys, no chain of lock waits comes back to its start |
| OptimisticList.SomeThreadMoves | lab11/optimistic.cpp:69-74 | from every thread the chain of lock waits leads to one that can take a step |
| HandOverHand.LockedNeighbours | lab11/fine_grained.cpp:49-59 | the two nodes that a thread has locked are neighbours on the list, whatever the others do, until it stores or unlocks |
| HandOverHand.FreedNodesAreForgotten | lab11/fine_grained.cpp:96-101 | no thread has a reference to a freed node |
| HandOverHand.FreesWhatNobodyUses | lab11/fine_grained.cpp:96-101 | a thread about to free a node is the only one with a reference to it, and the node is not on the list |
| HandOverHand.RemovedNodesAreFreed | lab11/fine_grained.cpp:96-101 | no leak: a node that is off the list is freed or its remover is about to free it; when no call is under way the freed nodes are exactly those off the list |
| HandOverHand.RefinesSet | lab11/fine_grained.cpp:44-104 | the store of `list_add` inserts a key that was absent, the store of `list_remove` deletes one that was present, and no other step changes anything |
| HandOverHand.AnswersAreLinearizable | lab11/fine_grained.cpp:44-125 | every answer is right for the set at an instant of the call; what the call itself has changed is said by `HandOverHand.OneChangeACall` |
| HandOverHand.OneChangeACall | lab11/fine_grained.cpp:44-125 | a call that has answered true to an add or a remove has changed the list exactly once, at the instant its answer speaks of; any other has not changed it |
| HandOverHand.CallsReturn | lab11/fine_grained.cpp:44-125 | a call ends by its answer only |
| HandOverHandProgress.StepsCount | lab11/fine_grained.cpp:49-59 | each step of a call brings it nearer to its return and the steps of others do not set it back |
| HandOverHandProgress.EveryCallCanReturn | lab11/fine_grained.cpp:44-125 | from every reachable state the run can be continued, without a new call, until all calls have returned |
| HandOverHand.NoCycleOfLockWaits | lab11/fine_grained.cpp:49-59 | a thread keeps one lock while it takes that of the next node, and no chain of lock waits comes back to its start |
| HandOverHand.SomeThreadMoves | lab11/fine_grained.cpp:49-59 | from every thread the chain of lock waits leads to one that can take a step |
| RingQueue.DequeueReturnsItsKey | lab12/queue_bounded.cpp:58-73 | the dequeue with ticket t returns the key of the enqueue with ticket t |
| RingQueue.OneThreadInABucket | lab12/queue_bounded.cpp:44-73 | at most one thread is between a bucket's guard and the end of its `flag++` |
| RingQueue.StoredKeysStay | lab12/queue_bounded.cpp:54-55 | a key that has been enqueued and not returned stands in its bucket |
| RingQueue.TicketsArePermanent | lab12/queue_bounded.cpp:34-34 | tickets are drawn once, and neither the key of a ticket nor its answer ever changes |
| RingQueue.QuiescentResults | lab12/queue_bounded.cpp:33-73 | when no call is under way, the dequeues have returned exactly the first keys in the order of their tickets: nothing lost, nothing twice |
| RingQueue.RefinesFifo | lab12/queue_bounded.cpp:33-73 | the ring refines a FIFO queue: a draw appends its key at the back or serves one dequeue from the front or both, and no other step does anything |
| RingQueue.ServedInOrder | lab12/queue_bounded.cpp:34-59 | dequeues are served one at a time, in the order of their tickets |
| RingQueue.EffectInsideCall | lab12/queue_bounded.cpp:58-73 | the instant at which a dequeue takes effect lies inside its call |
| RingQueue.OwedCallsMove | lab12/queue_bounded.cpp:37-68 | while a dequeue has its enqueue, or an enqueue has the dequeue of the round before, some call can take a step that is not a turn of its wait |
| RingProgress.EveryOwedCallCanReturn | lab12/queue_bounded.cpp:33-73 | from every reachable state the run can be continued, without a new call, until every call has returned but a dequeue whose enqueue has not been called and an enqueue without room |
| LinkedQueue.RefinesQueue | lab13/queue_unbounded.cpp:28-68 | only a successful swing of `next` appends, the key of that call; only a successful swing of `head` removes, the first key, which that call returns |
| LinkedQueueCalls.EnqueuesAreLinkedOnce | lab13/queue_unbounded.cpp:33-48 | the keys of all calls of `enqueue` so far are, as a multiset, those of the nodes after the sentinel and those of the calls that have yet to link: none is lost and none linked twice |
| LinkedQueueCalls.DequeuesTakeOnce | lab13/queue_unbounded.cpp:50-68 | each call of `dequeue` takes one node; at rest there are as many answers as calls, the keys of the first nodes in order |
| LinkedQueue.TailIsNearTheEnd | lab13/queue_unbounded.cpp:38-47 | `tail` is the last node or the one before it, and each node is linked to the one enqueued next |
| LinkedQueue.TailCanFallBehindHead | lab13/queue_unbounded.cpp:47-62 | a run in which `tail` falls behind `head` |
| LinkedQueue.AnswersInOrder | lab13/queue_unbounded.cpp:50-68 | the dequeues return the keys in the order of the nodes, each node for one call |
| LinkedQueue.WaitsOnEmpty | lab13/queue_unbounded.cpp:55-59 | a dequeue that finds no next node sees an empty queue |
| LinkedQueue.RetriesMeanProgress | lab13/queue_unbounded.cpp:38-65 | lock-freedom: the fruitless rounds of a call are bounded by what others have linked or taken since it began |
| LinkedQueueCalls.AloneReturns | lab13/queue_unbounded.cpp:33-68 | from every reachable state a call that goes on alone returns within ten steps, unless it is a dequeue that finds the queue empty |
| ClhLock.MutualExclusion | lab10/prac_clhlock.cpp:13-25 | at most one thread is between `lock` and `unlock` |
| ClhLock.EntryOrderIsSwapOrder | lab10/prac_clhlock.cpp:13-19 | threads enter in the order of their tail swaps |
| ClhLock.CellsArePartitioned | lab10/prac_clhlock.cpp:21-25 | through every recycling, each of the N + 1 cells is the own cell of exactly one thread, or the spare one |
| ClhLock.FirstInQueueMoves | lab10/prac_clhlock.cpp:16-18 | while a thread spins, the first in the queue can take a step that is not a turn of its loop |
| ClhLock.NoIncrementLost | lab10/prac_clhlock.cpp:27-50 | when every thread has done its rounds, the counter is the number of threads times the rounds |
| ClhProgress.EveryRunCanFinish | lab10/prac_clhlock.cpp:13-50 | from every reachable state the run can be continued until every thread has done its rounds, and the counter is then the number of threads times the rounds |
| RadixSpec.SwapStep | project1/src/radixsort.cpp:42-44 | a swap stays inside the bucket of the record in hand, which has room, keeps all counts and the multiset, and places one more record |
| RadixSpec.SortedIsByKey | project1/src/radixsort.cpp:10-14 | sorted from the first byte on means in the order of the whole ten-byte keys: of two records the keys are equal, or the first has the smaller byte where they first differ |
| RadixSpec.LeqAntisym | project1/src/radixsort.cpp:11-13 | only equal keys are in order both ways |
| RadixSpec.UnplacedStep | project1/src/radixsort.cpp:38-48 | moving a bucket pointer takes one unplaced slot away, so the loops end |
| RadixSpec.EarlyExit | project1/src/radixsort.cpp:33-36 | when bucket i ends where the records end and the buckets before it are full, every record is in its bucket, so the early exit is right |
| RadixSpec.BucketRearranged | project1/src/radixsort.cpp:51-74 | rearranging one bucket moves no bucket boundary |
| RadixSpec.BucketsSorted | project1/src/radixsort.cpp:51-74 | buckets in byte order, each sorted by the rest of the key, are sorted by unsigned comparison of the key |
| RadixSort.CountBytes | project1/src/radixsort.cpp:19-23 | the histogram of the byte |
| RadixSort.BucketStarts | project1/src/radixsort.cpp:25-28 | every pointer starts after the records with smaller bytes |
| RadixSort.Chase | project1/src/radixsort.cpp:39-46 | the cycle ends with a record of byte i at the pointer of bucket i; the multiset is kept despite the hole |
| RadixSort.FillBucket | project1/src/radixsort.cpp:38-48 | bucket i is filled to its end, and no pointer leaves its bucket |
| RadixSort.FlagPass | project1/src/radixsort.cpp:30-49 | one pass leaves every record in the bucket of its byte and every pointer at the end of its bucket, under the early exit too |
| RadixSort.SortBucket | project1/src/radixsort.cpp:54-57 | the recursive call on bucket i leaves the buckets before it sorted and nothing outside it changed |
| RadixSort.RadixSort | project1/src/radixsort.cpp:9-75 | for every input: a permutation of the input, sorted by unsigned comparison of the key bytes from the given one on (from the first one on: in the order of the keys, `RadixSpec.SortedIsByKey`), and nothing outside the slice changed |

## Left out

- The engine's step machine and those of the concurrent data structures work on values, not on objects: one state holds all
  threads, and updates in place are steps. The classes and arrays are the sequential parts.
- The table mutex of the engine: each section under it is one step, except for undoing, which holds the mutex over several
  steps while the other workers take none that needs it.
- Weak memory: all accesses are sequentially consistent. The fences in the sources have no counterpart.
- The reserved keys: calls of the lists with INT_MIN or INT_MAX, the keys of the sentinels, are excluded. `list_remove` of
  INT_MAX in `lab11/lockfree.cpp` would mark the tail.
- Clients of the lock table that go on with their locks after a refusal: the workers release all, and so do the clients here.
- Machine integers: stamps, flags, tickets, order numbers and record values do not wrap around.
- Addresses: list and queue nodes get fresh numbers, so a freed address that is allocated again is not modelled. A node that is
  not yet linked is private to its thread and appears when it is linked; the uninitialised `next` of a new node in
  `lab13/queue_unbounded.cpp` counts as null.
- HandOverHand.RefinesSet: the two stores of `list_add` in `lab11/fine_grained.cpp` are one step. No other thread can read either word between them, because that takes the lock of `prev`.
- LockFreeList.AnswersAreLinearizable: the intended result true of `list_remove` is not modelled, because the code cannot return it.
- Validator.Validate: `std::sort` is replaced by an insertion sort with the contract of a sorted permutation. The indices of a line are natural numbers counted from 0, so a line with an index that is 0 or below in the program, with which it would access memory out of range, cannot be represented; the text of messages is left out.
- RadixSort.RadixSort: `std::sort` below the threshold is replaced by an insertion sort with the contract of a sorted permutation. The OpenMP tasks work on disjoint slices and are run one after the other; `len` is not bounded.
- The external sort and the buffered files of `project1`, whose subject is file I/O.
- The random choice of the three records is any choice of three distinct ones. Thread creation and joining, timing, the printed
  logs and the deadlock counter are left out.
- Fairness: progress results say that a step is possible, what steps are paid with, and that every run can be continued to the end, not that every thread is scheduled.
- The prime counters, the test-and-set locks, the coarse-grained list and the queue with one lock: their properties are simple.
- `project4` is a patch to a database engine whose source is not part of this model.

# A verified model of the repository's algorithms and protocols

Dafny models of the programs in this learning repository that hold real algorithms or protocols,
with proofs of what they are for.  `dafny verify dfyconfig.toml` checks everything.  One file is
one module.

**The hash database** (`apue/apue.3e/db/db.c`) is modelled in four layers.

- `DbCodec`: decimal printing and parsing of the text fields, the index record, the hash.
- `DbLayout`: the bytes of the index and the data file as a linked structure, the free list and 137
  hash chains, and what unlinking, blanking, reusing and appending a record do to it.
- `DbFile`: the handle, a class with the fields of `DB`; every function of the program is a method
  over the bytes of the two files, proved against a plain key to data map.
- `DbProcesses`, `DbAtomic`, `DbSteps`, `DbRuns`, `DbHistory`, `DbCover`: any number of processes taking single lock,
  seek, read and write steps.  The proof that every call is atomic is by rely and guarantee; `DbHistory`
  says what each call returns from the calls before it alone; when no call is in progress the files are again a database of the kind `DbFile` opens.

**Concurrent protocols as step machines.**

- `FooOneLock`, `FooTwoLock`, `FooSafety`, `FooRefines`, `FooHistory`: the reference-counted table under one lock
  (`mutex3.c`) and under two kinds of locks (`mutex2.c`).  The second never touches freed memory,
  and every run of it stands for a run of the first that makes whole calls one after the other; what
  each call answers is told from the history of calls alone.
- `Semaph`: the System V semaphore set of `semaph.c`, with the exit of a process and its undo as a
  step of its own.
- `Printd`: the printer daemon's doubly linked job list and the threads that share it.
- `Barrier`: parallel sort, barrier, k-way merge.

**Data structures and algorithms.** `HashQuad` (quadratic probing), `BinQueue` (binomial queue),
`Leftist`, `Avl`, `Inversions`, `MaxSubarray`, `QuickSort`, `Ftw8` (directory walk in one growing
path buffer).  `Common` holds what several of them use.

## How the source is read

- Text is `seq<char>`, one character a byte; `int` and `off_t` are unbounded except where the
  program's own limits (`PTR_MAX`, `IDXLEN_MAX`, `DATLEN_MAX`, `LONG_MAX`, the `int32_t` job number)
  or its field widths matter.
- Names the repository uses but does not show (`hash`, `nextprime`, `swapchildren`, `isempty`,
  `heapsort`, `infinity`, `capacity`, `maxtrees`) appear as parameters or as contracts of what they
  must do.
- `binominal_queue.c` does not compile as written.  Its evident intent is modelled: line 34 reads
  h2's slot, line 35 tests t1 and t2, lines 53 and 57 clear slot i, and `h1` is the result.  A slot is cleared before its tree is combined
  with another, which makes no difference to the trees.
- The full-width blanks at line 207 of `04.1.3maxsubarray.c` are read as blanks.
- `path_alloc` is the one in `include/otherfunctions.c`, which allocates 256 bytes; the comment in
  `ftw8.c` speaks of PATH_MAX + 1.
- Steps of the machines are at the grain of one lock call or one access to shared memory.  In the
  database machine the read of one whole record is one step; `DbRuns.NoTornRead` shows that nobody
  can change the record while a process is about to read it.
- Fields called auxiliary in the text (list contents, plain maps, histories) are read by no step.

Where the code does less than a general promise, the exact condition is proved, and for the less
obvious ones an input on the failing side.

- An index record reads back exactly if its key has no `:` and no NUL (`DbCodec.ReadsBackIff`,
  `DbCodec.SeparatorInKey`), and a pointer field keeps its width exactly up to `PTR_MAX`
  (`DbCodec.PtrFieldFits`, `DbCodec.OffsetTooLarge`).
- A scan returns exactly the entries whose key is not blank (`DbFile.DB.ScanAll`, `DbFile.BlankKeyHidden`).
- `sem_create` initialises a set again exactly when there are `BIGCOUNT` users (`Semaph.Reinitialises`,
  `Semaph.CounterRunsOut`).
- The k-way merge goes on with a stale index once no head is below `LONG_MAX`.  `Barrier.Merge` says for
  which inputs that still gives the sorted permutation; `Barrier.LastOfAllWorks` and
  `Barrier.LastOfFirstFails` are one of each.
- The brute-force search leaves its indices unset exactly if no sum exceeds the first element
  (`MaxSubarray.BMaxSubarray`, `MaxSubarray.IndicesUnset`).
- A merge of binomial queues leaves the array of slots exactly beyond the capacity
  (`BinQueue.BinomialQueue.Merge`).

## Model

| member | source | states |
|---|---|---|
| DbCodec.AtolPad | apue/apue.3e/db/db.c:375-385 | a number printed with `%*d` in any width is read back by `atol` as that number |
| DbCodec.PadIs | apue/apue.3e/db/db.c:577-583 | a number printed with `%*d` stands at the right end of its field with only blanks in front |
| DbCodec.DecIs | apue/apue.3e/db/db.c:577-583 | the digits printed: no leading zero, the last digit is the number mod 10, the others print the rest |
| DbCodec.AtolOf | apue/apue.3e/db/db.c:375-385 | `atol` of literal texts: blanks, a sign, and where the number ends |
| DbCodec.PtrFieldFits | apue/apue.3e/db/db.c:619-631 | a pointer field has exactly 7 characters if and only if the offset is at most PTR_MAX |
| DbCodec.LenFieldFits | apue/apue.3e/db/db.c:577-583 | a length field has exactly 4 characters if and only if the length is at most 9999 |
| DbCodec.StrChr | apue/apue.3e/db/db.c:396-408 | finds the first separator before any NUL, or says there is none |
| DbCodec.ParseBodyInverts | apue/apue.3e/db/db.c:392-416 | the separator scan undoes the printing of a record body |
| DbCodec.ReadWritten | apue/apue.3e/db/db.c:343-418 | reading at the offset of a written record returns its chain pointer, key, data offset and data length |
| DbCodec.RecordText | apue/apue.3e/db/db.c:577-583 | the literal text of two index records and of pointer and length fields: `      0   6k:0:2` and a newline, `    967` for 967 |
| DbCodec.ReadsBackIff | apue/apue.3e/db/db.c:343-418 | with numbers in range a record reads back if and only if its key has no separator and no NUL |
| DbCodec.SeparatorInKey | apue/apue.3e/db/db.c:392-416 | the record of the key `a:b` is written and does not read back |
| DbCodec.OffsetTooLarge | apue/apue.3e/db/db.c:619-631 | 10000000 is the first offset that does not keep the pointer field at 7 characters |
| DbCodec.Hash | apue/apue.3e/db/db.c:306-316 | the hash of any key names one of the 137 chains |
| DbCodec.HashOneMore | apue/apue.3e/db/db.c:306-316 | one more character adds its value times its position, counted from 1 |
| DbCodec.HashOf | apue/apue.3e/db/db.c:306-316 | the chains of literal keys; order matters, and a byte above 127 counts as a negative char |
| DbLayout.WriteRec | apue/apue.3e/db/db.c:567-612 | rewriting a whole record in place with a record of the same length changes that record and nothing else in the file |
| DbLayout.WriteRecPtr | apue/apue.3e/db/db.c:619-631 | writing a record's pointer field in place changes that pointer and nothing else |
| DbLayout.WriteHead | apue/apue.3e/db/db.c:619-631 | writing a chain head changes that head and no record |
| DbLayout.AppendRec | apue/apue.3e/db/db.c:585-611 | a record written at the end of the index file is there, and everything before it is as it was |
| DbLayout.UnlinkOk | apue/apue.3e/db/db.c:516-522 | bypassing a record on a chain or on the free list leaves all 138 lists well formed, disjoint and acyclic, and the record on none |
| DbLayout.LinkFrontOk | apue/apue.3e/db/db.c:676-697 | putting a loose record at the front of a list leaves all lists well formed, disjoint and acyclic, with no record left out |
| DbLayout.KeyUnique | apue/apue.3e/db/db.c:260-301 | at most one chained record carries a key, and it is on the chain the key hashes to |
| DbLayout.KeyAbsent | apue/apue.3e/db/db.c:279-299 | a walk to the end of the key's chain without a match means the key is not in the map |
| DbLayout.BlankedLength | apue/apue.3e/db/db.c:472-497 | a deleted record, blanked and with any pointer, has exactly its old length |
| DbLayout.RefitLength | apue/apue.3e/db/db.c:689-697 | a free record reused for a key and data of its own lengths has exactly its old length |
| DbLayout.DeletedOk | apue/apue.3e/db/db.c:463-525 | after a delete every record is on exactly one list and the chains represent the map without the key |
| DbLayout.DeletedIdx | apue/apue.3e/db/db.c:491-522 | the three index writes of a delete, in program order, produce the bytes of that new structure |
| DbLayout.DeletedDat | apue/apue.3e/db/db.c:470-489 | the data write of a delete blanks that record's data and no other |
| DbLayout.FreeTaken | apue/apue.3e/db/db.c:778-790 | after a record of the free list is bypassed it is on no list, all lists are in order, the chain heads are as they were, and the map is unchanged |
| DbLayout.LiveIsMap | apue/apue.3e/db/db.c:835-875 | the non-blank records in file order are the entries of the map whose keys are not blank, each key once |
| DbFile.DB.constructor | apue/apue.3e/db/db.c:139-157 | a newly created database is valid and empty, and on disk every header field is six blanks and a `0`, with a newline at the end |
| DbFile.DB.Open | apue/apue.3e/db/db.c:120-127 | a handle on files that hold a layout and a map is valid, and the files are as they were |
| DbFile.DB.ReadIdx | apue/apue.3e/db/db.c:343-418 | of a record written at the offset it returns the pointer, key, data offset and data length and leaves the file offset right behind it; at the end of the file it returns -1 and moves nothing |
| DbFile.DB.WriteIdx | apue/apue.3e/db/db.c:567-612 | the index file afterwards is the old one with the encoded record (`DbCodec.RecordText`, `DbCodec.PadIs`) at the offset, or at the end |
| DbFile.DB.WriteDat | apue/apue.3e/db/db.c:532-560 | the record of the written region now reads the data, a record of any other region reads what it read before, and the file grows by exactly what did not fit |
| DbFile.DB.FindAndLock | apue/apue.3e/db/db.c:260-301 | 0 with the record of the key loaded and its link located, or -1 and no record of the chain carries the key |
| DbFile.DB.Fetch | apue/apue.3e/db/db.c:233-253 | the data of the key in the map, or nothing exactly if the key is absent; nothing changes |
| DbFile.DB.DoDelete | apue/apue.3e/db/db.c:463-525 | the loaded record's key leaves the map, both files keep their sizes, and the structure stays valid |
| DbFile.DB.Delete | apue/apue.3e/db/db.c:440-456 | returns 0 or -1 by presence of the key, and the map loses exactly that key |
| DbFile.DB.FindFree | apue/apue.3e/db/db.c:752-805 | takes the first record of the free list whose key and data lengths fit exactly, or reports that none fits, exactly if none does |
| DbFile.DB.Store | apue/apue.3e/db/db.c:637-746 | returns 1 exactly for DB_INSERT of a present key and -1 exactly for DB_REPLACE of an absent one or an unknown flag, with the map as it was; otherwise 0, and the map has the new data under the key; both files grow by exactly one record and its data, with those bytes at their ends, if a new key finds no fitting free record or a present key gets data of another length, and keep their sizes otherwise |
| DbFile.DB.StoreNew | apue/apue.3e/db/db.c:661-699 | the map gains exactly that entry: in a free record, with both file sizes unchanged, exactly if one fits, else appended |
| DbFile.DB.StoreOver | apue/apue.3e/db/db.c:700-739 | a present key gets the new data: in place with both file sizes unchanged if the length is the same, else by delete and append |
| DbFile.StoreTwice | apue/apue.3e/db/db.c:637-746 | of two stores under one key the second data is fetched, also when it has the length of the first |
| DbFile.FirstBytes | apue/apue.3e/db/db.c:532-631 | the literal bytes of both files after the first store into a new database: record, chain head and data |
| DbFile.DB.NextRec | apue/apue.3e/db/db.c:835-875 | the next record in file order whose key is not blank, or nothing at the end |
| DbFile.DB.ScanAll | apue/apue.3e/db/db.c:812-875 | after a rewind, repeated calls yield every entry of the map exactly once, except that a key that is empty or all blanks is taken for a free record |
| DbFile.BlankKeyHidden | apue/apue.3e/db/db.c:855-862 | a record stored under the key of one blank is fetched again but not found by a scan |
| DbSteps.StepKeeps | apue/apue.3e/db/db.c:260-805 | every single step of every process keeps the invariant: lists linked where nobody holds them, chains representing the map, locks exclusive, records in one place |
| DbAtomic.Stable | apue/apue.3e/db/db.c:270-301 | no step of one process changes what another relies on at its position |
| DbSteps.LocksKept | apue/apue.3e/db/db.c:270-277 | a process gets a lock only when no incompatible holder exists |
| DbRuns.RunInv | apue/apue.3e/db/db.c:233-805 | the invariant holds in every state of every run |
| DbRuns.ReturnIsAtomic | apue/apue.3e/db/db.c:233-746 | a step changes the map only when a call returns: a fetch returns what the map has, a delete 0 or -1 by presence and the key is gone, a store 0, 1 or -1 by presence and flag and on 0 the key has the data |
| DbRuns.Linearizable | apue/apue.3e/db/db.c:233-746 | in every run the calls in order of return are a sequential history of a plain map |
| DbHistory.Answers | apue/apue.3e/db/db.c:233-746 | in every run the results follow from the calls returned before: a fetch returns d exactly if the last successful store of the key had d and no successful delete came after, and NULL exactly if there is none; delete and store return 0, 1 or -1 accordingly |
| DbHistory.ReturnsOnce | apue/apue.3e/db/db.c:233-746 | in every run the calls a process made are those that returned, in that order, and at most one in progress |
| DbHistory.ReturnsAlone | apue/apue.3e/db/db.c:233-746 | a call that no other process disturbs returns |
| DbRuns.QuiescentLayout | apue/apue.3e/db/db.c:463-805 | whenever no call is in progress every record is on exactly one well-formed list and the chains represent the map |
| DbRuns.WaitsUpward | apue/apue.3e/db/db.c:483-560 | a process waits only for one further along the order chain lock, then free-list or append lock |
| DbRuns.NoDeadlock | apue/apue.3e/db/db.c:270-610 | in every non-empty set of processes one waits for no other of the set |
| DbRuns.Progress | apue/apue.3e/db/db.c:233-746 | while a call is in progress some call in progress can take its next step |
| DbRuns.NoTornRead | apue/apue.3e/db/db.c:343-435 | while a process is about to read a record no step of another changes it or its data |
| DbCover.StepCovered | apue/apue.3e/db/db.c:463-805 | no step leaves a gap: every byte of the index file is in a record, every byte of the data file in data, and all data has a record or a process about to append one |
| DbCover.QuiescentStored | apue/apue.3e/db/db.c:463-805 | after any run, with no call in progress and sizes within the limits, exactly one pair of files holds these records and data, without gaps, and it is a database as the one-process program keeps it, holding the map |
| FooSafety.TouchesLive | apue/apue.3e/threads/mutex2.c:19-104 | no step of any run reads or writes a freed object |
| FooSafety.FreedIsUnlinked | apue/apue.3e/threads/mutex2.c:95-98 | in every run an object is freed off every chain, unlocked, with no reference left but the one being dropped |
| FooSafety.CountsReferences | apue/apue.3e/threads/mutex2.c:45-104 | in every run an object anyone has a reference to is live and its count is the number of outstanding references |
| FooSafety.SecondLook | apue/apue.3e/threads/mutex2.c:74-84 | a count of 1 at the second check means the last reference, on an object still on its chain |
| FooSafety.WalkStarts | apue/apue.3e/threads/mutex2.c:85-89 | the object to unlink is the chain's head, or the head comes before it |
| FooSafety.WalkContinues | apue/apue.3e/threads/mutex2.c:90-92 | the unlink walk reaches the predecessor of its target and never the end of the chain |
| FooSafety.StepInv2 | apue/apue.3e/threads/mutex2.c:19-104 | every step keeps counts, chains, placement, locks and each thread's knowledge |
| FooSafety.InitInv2 | apue/apue.3e/threads/mutex2.c:5-17 | the empty table with idle threads satisfies the invariant |
| FooSafety.RunInv2 | apue/apue.3e/threads/mutex2.c:5-104 | the invariant holds in every state of every run |
| FooSafety.WaitsUpward | apue/apue.3e/threads/mutex2.c:19-104 | a thread waits only for one that holds a later kind of lock, so waits are acyclic |
| FooSafety.SomeoneSteps | apue/apue.3e/threads/mutex2.c:19-104 | in every state of every run, following waits from any thread leads to one that can step |
| FooRefines.AllocRun | apue/apue.3e/threads/mutex3.c:18-41 | run alone, the one-lock `foo_alloc` links the object with count 1 and gives the caller its reference |
| FooRefines.HoldRun | apue/apue.3e/threads/mutex3.c:43-49 | run alone, the one-lock `foo_hold` adds one to the count |
| FooRefines.HitRun | apue/apue.3e/threads/mutex3.c:51-65 | run alone, the one-lock `foo_find` finds the first object with the id on its chain and counts it up |
| FooRefines.MissRun | apue/apue.3e/threads/mutex3.c:51-65 | run alone, the one-lock `foo_find` returns NULL if no object of the chain has the id |
| FooRefines.ReleRun | apue/apue.3e/threads/mutex3.c:67-90 | run alone, the one-lock `foo_rele` drops one of several references |
| FooRefines.LastRunHead | apue/apue.3e/threads/mutex3.c:72-87 | run alone, the last release of the first object of a chain unlinks and frees it |
| FooRefines.LastRunNext | apue/apue.3e/threads/mutex3.c:72-87 | run alone, the last release of a later object unlinks it from its predecessor and frees it |
| FooRefines.SilentStep | apue/apue.3e/threads/mutex2.c:19-104 | all steps but the one where a call takes effect leave the one-lock state unchanged |
| FooRefines.StepRefines | apue/apue.3e/threads/mutex2.c:19-104 | every step of the two-lock table leaves the one-lock table as it is, or, exactly where a call takes effect, is one whole call of the same thread from its first step to its last, the very call that thread is in |
| FooRefines.RunRefines | apue/apue.3e/threads/mutex2.c:19-104 | every run of the two-lock table projects onto a run of the one-lock table that makes whole calls one after the other, with the same history of calls and results |
| FooHistory.EveryCallOnce | apue/apue.3e/threads/mutex2.c:19-104 | in every run each call of each thread takes effect exactly once, after it starts and before it returns, in the order in which the thread makes its calls, and returns what the history says |
| FooHistory.RunRight | apue/apue.3e/threads/mutex2.c:19-104 | in every run the answers follow from the calls before: `foo_find` gives the latest allocated object with the id that is still referenced, or NULL exactly if there is none; a release is the last exactly if one reference was left; `foo_alloc` gives an object with none |
| FooHistory.RunActed | apue/apue.3e/threads/mutex2.c:19-104 | every run comes from some sequence of steps and calls, so both hold of every run |
| FooHistory.HashSpreads | apue/apue.3e/threads/mutex2.c:5-6 | non-negative ids share a chain exactly if they differ by a multiple of 29; -1 counts as the largest unsigned long |
| FooRefines.SerialReaches | apue/apue.3e/threads/mutex3.c:18-90 | whole calls one after the other are a run of the one-lock step machine |
| Semaph.StepInv | apue/apue.3e/lib/semaph.c:90-291 | every step of any process keeps the lock exclusive, the user count exact, and [0] the value it was set to less what the undo values of live processes still owe |
| Semaph.OpStarts | apue/apue.3e/lib/semaph.c:283-289 | `sem_op` with an amount other than 0 comes to its semop with that amount |
| Semaph.OpEffect | apue/apue.3e/lib/semaph.c:283-291 | `sem_op` gets past its semop only with room for the amount, and then [0] has gone up by it and the undo value down, and nothing else changed |
| Semaph.LeaveEffect | apue/apue.3e/lib/semaph.c:77-81 | an exit gives [0] back the undo value of the process, down to 0 at most |
| Semaph.OthersKeepValue | apue/apue.3e/lib/semaph.c:89-253 | no other step of a process changes [0] or any undo value for it while the set is live and initialised |
| Semaph.SetUpBy | apue/apue.3e/lib/semaph.c:146-153 | in every run the value of an initialised set is the initval of the `sem_create` call that initialised it |
| Semaph.ValueOverRun | apue/apue.3e/lib/semaph.c:283-291 | over a run of one set [0] is its initial value, plus the amounts of the operations, plus what exits gave back; a process owes the reverse of its own operations |
| Semaph.CreatesNew | apue/apue.3e/lib/semaph.c:89-163 | alone, `sem_create` without a set leaves [0] at initval, [1] at 9999, [2] at 0 and the caller as the one user |
| Semaph.Joins | apue/apue.3e/lib/semaph.c:89-163 | alone, `sem_create` of a set in use takes one off [1] and leaves [0] as it is |
| Semaph.Closes | apue/apue.3e/lib/semaph.c:222-253 | alone, `sem_close` with other users left adds one to [1] and leaves [0] as it is |
| Semaph.ClosesLast | apue/apue.3e/lib/semaph.c:222-253 | alone, `sem_close` by the last user removes the set, with no undo value left anywhere |
| Semaph.WaitsExactly | apue/apue.3e/lib/semaph.c:124-291 | a process waits exactly while another one is inside the lock, or [0] is too small for its amount, or BIGCOUNT users are there |
| Semaph.ExitInv | apue/apue.3e/lib/semaph.c:54-81 | an exit at any point gives back exactly the lock and the user the process still held |
| Semaph.MutualExclusion | apue/apue.3e/lib/semaph.c:49-81 | in every run, two processes between lock and unlock are the same process, and [2] is then 1 |
| Semaph.Reinitialises | apue/apue.3e/lib/semaph.c:131-149 | a creator finds an initialised set's counter at 0 if and only if BIGCOUNT users have joined |
| Semaph.CounterRunsOut | apue/apue.3e/lib/semaph.c:131-149 | a run in which one process joins BIGCOUNT times and then initialises again the set all its users are still in |
| Semaph.InitialisedOnce | apue/apue.3e/lib/semaph.c:134-149 | once initialised a live set is never initialised again and [0] changes only by semop and undo |
| Semaph.KeepsFirstValue | apue/apue.3e/lib/semaph.c:134-149 | over a whole run a live set keeps the value it was first initialised with |
| Semaph.RemovesIfLast | apue/apue.3e/lib/semaph.c:240-252 | in every run, a closer goes on to remove the set if and only if no user remains, else to unlock it |
| Semaph.RemovedUnused | apue/apue.3e/lib/semaph.c:222-253 | in every run, a set disappears only while it has no user |
| Semaph.NeverStuckInside | apue/apue.3e/lib/semaph.c:124-162 | a process inside the lock never waits, no user's call meets a missing set, and [1] never exceeds BIGCOUNT |
| Semaph.RunInv | apue/apue.3e/lib/semaph.c:90-291 | the invariant holds in every state of every run with fewer than BIGCOUNT users |
| HashQuad.NoZeroProduct | data_structure_and_algorithm/hashtable/hashquad/hashquad.c:31 | a prime size divides a product only if it divides a factor |
| HashQuad.ProbesDistinct | data_structure_and_algorithm/hashtable/hashquad/hashquad.c:43-58 | with a prime size the first (p+1)/2 probes look at different cells |
| HashQuad.NextProbe | data_structure_and_algorithm/hashtable/hashquad/hashquad.c:53-55 | stepping by 2k-1 with a single subtraction stays in range and reaches probe k |
| HashQuad.ProbesLeft | data_structure_and_algorithm/hashtable/hashquad/hashquad.c:50-56 | in a table at most half full the search ends within the distinct probes |
| HashQuad.EndMeans | data_structure_and_algorithm/hashtable/hashquad/hashquad.c:43-58 | the search ends at the only cell that holds the key, and there is one exactly if some cell in use does |
| HashQuad.StoreKeeps | data_structure_and_algorithm/hashtable/hashquad/hashquad.c:60-70 | storing at that cell keeps every element findable and adds exactly the key to the set |
| HashQuad.HashTable.Find | data_structure_and_algorithm/hashtable/hashquad/hashquad.c:43-58 | terminates at the key's cell or an empty one; the cell is legitimate if and only if the key is in the set |
| HashQuad.HashTable.Insert | data_structure_and_algorithm/hashtable/hashquad/hashquad.c:60-70 | the set gains exactly the key, at most one cell changes, at most one more cell is in use |
| HashQuad.Rehash | data_structure_and_algorithm/hashtable/hashquad/hashquad.c:72-90 | from any table, even a full one, a new valid table with exactly the legitimate elements; NULL exactly if twice the size is below the minimum, which the branch reaches without elements |
| BinQueue.TreeSize | data_structure_and_algorithm/priority_queue/binqueue/binominal_queue.c:12-21 | a tree of order k has exactly 2^k elements |
| BinQueue.Combines | data_structure_and_algorithm/priority_queue/binqueue/binominal_queue.c:12-21 | two heap-ordered trees of order k become one of order k+1 with the elements of both |
| BinQueue.CombineNodes | data_structure_and_algorithm/priority_queue/binqueue/binominal_queue.c:12-21 | in place, writing only the two roots, the nodes spell the combined tree, own the nodes of both and share none |
| BinQueue.SlotsAreBits | data_structure_and_algorithm/priority_queue/binqueue/binominal_queue.c:23-66 | slot i is occupied if and only if bit i of the number of elements is set |
| BinQueue.ColumnAdds | data_structure_and_algorithm/priority_queue/binqueue/binominal_queue.c:35-64 | each case of the switch leaves the right sum and carry trees and conserves the elements |
| BinQueue.BinomialQueue.AddColumn | data_structure_and_algorithm/priority_queue/binqueue/binominal_queue.c:33-65 | in place, the switch leaves the column's sum in slot i and its carry as linked trees; no node is lost or shared between slots, queues and carry |
| BinQueue.BinomialQueue.Merge | data_structure_and_algorithm/priority_queue/binqueue/binominal_queue.c:23-66 | within the capacity 2^maxtrees - 1 the nodes spell a well-formed queue of the elements of both, no node is lost or shared and every slot of h2 is empty; the loop leaves the array exactly if the sizes exceed the capacity |
| BinQueue.BinomialQueue.FindMinTree | data_structure_and_algorithm/priority_queue/binqueue/binominal_queue.c:82-88 | the chosen root is an element and no element is smaller |
| BinQueue.BinomialQueue.DeleteMin | data_structure_and_algorithm/priority_queue/binqueue/binominal_queue.c:68-107 | in place, returns a minimum and removes exactly one occurrence of it; -infinity on an empty queue |
| BinQueue.Detach | data_structure_and_algorithm/priority_queue/binqueue/binominal_queue.c:89-101 | in place, the children of the removed root become a well-formed queue of 2^k - 1 elements on their own nodes, none shared |
| Leftist.MergeKeeps | data_structure_and_algorithm/priority_queue/leftist_heap/leftist_heap.c:8-33 | merge keeps heap order, the leftist rule and exact npl, and conserves the elements |
| Leftist.ManyNodes | data_structure_and_algorithm/priority_queue/leftist_heap/leftist_heap.c:21-33 | a heap with npl k at the root has at least 2^(k+1)-1 elements, so the right spine is logarithmic |
| Leftist.SpineIsNpl | data_structure_and_algorithm/priority_queue/leftist_heap/leftist_heap.c:27-30 | the right spine has npl + 1 nodes |
| Leftist.MergeNodes | data_structure_and_algorithm/priority_queue/leftist_heap/leftist_heap.c:8-19 | the in-place merge ends, shares no node, owns the nodes of both, and spells the merged tree |
| Leftist.Merge1Nodes | data_structure_and_algorithm/priority_queue/leftist_heap/leftist_heap.c:21-33 | the same for the helper that rewrites left, right and npl |
| Leftist.InsertKeeps | data_structure_and_algorithm/priority_queue/leftist_heap/leftist_heap.c:35-50 | inserting keeps the heap valid and adds exactly the element |
| Leftist.DeleteMinKeeps | data_structure_and_algorithm/priority_queue/leftist_heap/leftist_heap.c:52-65 | the root is a minimum, and what is left is valid and lacks exactly it |
| Leftist.DeleteMin | data_structure_and_algorithm/priority_queue/leftist_heap/leftist_heap.c:52-65 | in place: the two children are merged; an empty heap is handed back |
| Avl.LeftLeftKeeps | data_structure_and_algorithm/avl/avltree.c:69-80 | restores order, heights and balance of a tree heavy on the outer left, with the height it had before |
| Avl.RightRightKeeps | data_structure_and_algorithm/avl/avltree.c:82-93 | the mirror image |
| Avl.LeftRightKeeps | data_structure_and_algorithm/avl/avltree.c:95-100 | the double rotation does it when the left side is heavy on its inner side |
| Avl.RightLeftKeeps | data_structure_and_algorithm/avl/avltree.c:102-107 | the mirror image |
| Avl.InsertKeeps | data_structure_and_algorithm/avl/avltree.c:109-150 | insertion keeps search order, exact heights and balance, adds exactly the key, and grows by at most one level, on the side the key went to |
| Avl.NoMissingChild | data_structure_and_algorithm/avl/avltree.c:127-146 | no rotation ever follows a missing child |
| Avl.FibonacciMany | data_structure_and_algorithm/avl/avltree.c:109-150 | a tree of height h has at least Fib(h+2)-1 nodes |
| Avl.BuiltKeeps | data_structure_and_algorithm/avl/avltree.c:109-150 | every tree built by insertions is an AVL tree of exactly the inserted keys, and that flat |
| Avl.LeftLeftRotateNodes | data_structure_and_algorithm/avl/avltree.c:69-80 | in place, the nodes spell the rotated tree and nothing is lost or shared |
| Avl.RightRightRotateNodes | data_structure_and_algorithm/avl/avltree.c:82-93 | in place, the nodes spell the rotated tree and nothing is lost or shared |
| Avl.InsertNode | data_structure_and_algorithm/avl/avltree.c:109-150 | in place, the nodes spell the tree after insertion; at most fresh nodes are added |
| Avl.Find | data_structure_and_algorithm/avl/avltree.c:152-162 | returns a node with the key if and only if the key is in the tree |
| Avl.FindMin | data_structure_and_algorithm/avl/avltree.c:52-59 | returns the node with the smallest key, or NULL exactly for the empty tree |
| Avl.FindMax | data_structure_and_algorithm/avl/avltree.c:61-67 | returns the node with the largest key, or NULL exactly for the empty tree |
| Inversions.CountIsPairs | clrs/problems/02.4inversions.c:20-28 | the recursive count is the number of pairs p < q with a larger element at p |
| Inversions.CountAppend | clrs/problems/02.4inversions.c:30-38 | inversions of two halves together are those of each and those across |
| Inversions.CrossPerm | clrs/problems/02.4inversions.c:34-36 | rearranging each half does not change the inversions across |
| Inversions.CountRight | clrs/problems/02.4inversions.c:50 | with tmp right elements taken, j - i - tmp is the number of elements of the left run greater than the next right one, which is what the inversions across grow by |
| Inversions.MergeRuns | clrs/problems/02.4inversions.c:40-60 | from two sorted runs, a sorted permutation in the scratch array, with exactly the inversions across added |
| Inversions.InversionsIn | clrs/problems/02.4inversions.c:30-38 | sorts the range in place, adds exactly its inversions, touches nothing outside |
| Inversions.InversePairs | clrs/problems/02.4inversions.c:20-28 | adds to the total exactly the number of pairs p < q with a larger element at p in the original array, and leaves it a sorted permutation |
| MaxSubarray.MaxUnique | clrs/exercises/04.1.3maxsubarray.c:69-74 | there is only one maximum, so algorithms that find it agree |
| MaxSubarray.SumSplit | clrs/exercises/04.1.3maxsubarray.c:94-112 | a sum over a range is the sums of its parts, and of one place the element |
| MaxSubarray.BMaxSubarray | clrs/exercises/04.1.3maxsubarray.c:94-112 | the maximum; its indices are a subarray with that sum, and stay unset exactly if no sum of the array exceeds its first element |
| MaxSubarray.IndicesUnset | clrs/exercises/04.1.3maxsubarray.c:94-112 | the indices stay unset for the array 5 and are set for 5, 1 |
| MaxSubarray.MaxCross | clrs/exercises/04.1.3maxsubarray.c:141-170 | a real subarray across mid, at least as good as every one across mid that ends before end, although the left scan goes on to index 0 |
| MaxSubarray.MaxSubarr | clrs/exercises/04.1.3maxsubarray.c:120-139 | an inner call returns some real subarray at least as good as every one of its range |
| MaxSubarray.DMaxSubarray | clrs/exercises/04.1.3maxsubarray.c:114-118 | the outer call returns the maximum, with indices of a subarray that has it |
| MaxSubarray.LMaxSubarray | clrs/exercises/04.1.3maxsubarray.c:184-226 | one scan returns the maximum, with indices of a subarray that has it |
| MaxSubarray.AllThree | clrs/exercises/04.1.3maxsubarray.c:69-74 | the three algorithms return the same number for every non-empty array; no subarray has a larger sum, and the indices returned are those of a subarray with that sum |
| QuickSort.Median3 | data_structure_and_algorithm/sort/quicksort.c:24-38 | permutes the range, returns the median of the three, and leaves a sentinel at each end |
| QuickSort.Partition | data_structure_and_algorithm/sort/quicksort.c:46-58 | the unguarded scans stay in range and end; the pivot is placed with smaller elements left and larger ones right |
| QuickSort.InsertionSort | data_structure_and_algorithm/sort/insertion_sort.c:34-46 | sorts the range and permutes nothing outside it |
| QuickSort.BoundsKept | data_structure_and_algorithm/sort/quicksort.c:60-61 | permuting a range keeps it on its side of the pivot |
| QuickSort.BothSides | data_structure_and_algorithm/sort/quicksort.c:60-61 | sorted sides around a placed pivot make a sorted range |
| QuickSort.Qsort | data_structure_and_algorithm/sort/quicksort.c:40-64 | sorts the range and permutes nothing outside it |
| QuickSort.Quicksort | data_structure_and_algorithm/sort/quicksort.c:66-70 | a sorted permutation of the array |
| Ftw8.PreorderMatches | apue/apue.3e/filedir/ftw8.c:84-115 | the preorder list reports of each path what the file system answers for it, and every directory in it is reported unreadable or has each of its names called |
| Ftw8.PathsOnce | apue/apue.3e/filedir/ftw8.c:93-115 | no path is called twice, if and only if no directory that is read has a name twice |
| Ftw8.WalkOrder | apue/apue.3e/filedir/ftw8.c:89-115 | the call of a directory comes before everything below it, which comes in one block, with its names in the order of readdir |
| Ftw8.CallPerNode | apue/apue.3e/filedir/ftw8.c:84-115 | the calls of each kind are as many as the files, directories, unreadable directories and failing names in the tree, dot and dot-dot left out |
| Ftw8.MadeIsPrefix | apue/apue.3e/filedir/ftw8.c:93-114 | the calls made are the preorder list up to the first non-zero answer, which is the result |
| Ftw8.MadeAppend | apue/apue.3e/filedir/ftw8.c:108-115 | making two lists of calls is making the second only if the first was not stopped |
| Ftw8.Walker.AppendSlash | apue/apue.3e/filedir/ftw8.c:96-103 | no write beyond the buffer, the path is kept, and a longest name fits behind the slash |
| Ftw8.Walker.DoPath | apue/apue.3e/filedir/ftw8.c:76-121 | calls func on the full paths in preorder, which `Ftw8.PathsOnce`, `Ftw8.WalkOrder` and `Ftw8.CallPerNode` describe, up to the first non-zero answer and returns it; the caller's path stays in front |
| Ftw8.Walker.ReadEntries | apue/apue.3e/filedir/ftw8.c:108-115 | the readdir loop makes the calls of all entries but dot and dot-dot, in order |
| Ftw8.Walker.MyFtw | apue/apue.3e/filedir/ftw8.c:56-68 | the walk from any starting path, of any length, makes exactly those calls |
| Printd.JobList.AddJob | apue/apue.3e/printer/printd.c:285-292 | the doubly linked list represents the queue with the job at its end |
| Printd.JobList.ReplaceJob | apue/apue.3e/printer/printd.c:301-313 | the doubly linked list represents the queue with the job in front |
| Printd.JobList.RemoveJob | apue/apue.3e/printer/printd.c:320-331 | the doubly linked list represents the queue without the job, wherever it was |
| Printd.JobNumbers.GetNewJobNo | apue/apue.3e/printer/printd.c:256-267 | hands out the current number, a positive `int32_t`, and goes on to the next one or from the largest back to 1; the numbers handed out so far are those from the first one on |
| Printd.JobNosDistinct | apue/apue.3e/printer/printd.c:262-264 | in that order a number comes up again only after all others have |
| Printd.JobNumbers.GivenDistinct | apue/apue.3e/printer/printd.c:256-267 | two numbers handed out fewer than INT32_MAX calls apart differ |
| Printd.StepInv | apue/apue.3e/printer/printd.c:275-331 | every step of every thread keeps the lock, the order of the jobs and the pending wake-up |
| Printd.OneJobAStep | apue/apue.3e/printer/printd.c:275-331 | a step links at most one job, the one its client brings, behind all others, and finishes at most one, the one being printed |
| Printd.LinkedOnce | apue/apue.3e/printer/printd.c:275-294 | in every run the jobs linked and those on their way are exactly those that clients asked for, each as often |
| Printd.OneOutcome | apue/apue.3e/printer/printd.c:275-331 | the next step of a thread has one outcome, so each of the following runs is the only one of that thread alone |
| Printd.AddsLast | apue/apue.3e/printer/printd.c:275-294 | alone, `add_job` puts its job at the end and wakes a waiting printer |
| Printd.PrintsFirst | apue/apue.3e/printer/printd.c:684-839 | alone, the printer thread takes the first job and finishes that one |
| Printd.DefersFirst | apue/apue.3e/printer/printd.c:684-839 | alone, a deferred job ends up where it was, and nothing else changes |
| Printd.KeepsTurn | apue/apue.3e/printer/printd.c:832-839 | in every state of every run jobs added are jobs finished, then at most one in flight, then the queue: a deferred job keeps its turn |
| Printd.NoLostWakeUp | apue/apue.3e/printer/printd.c:688-697 | with jobs queued a blocked printer thread has a client about to signal it, which can step |
| Printd.NobodyStuck | apue/apue.3e/printer/printd.c:684-697 | while there is work or a call in progress some thread can take a step of its own |
| Printd.RunInv | apue/apue.3e/printer/printd.c:275-331 | in every state of every run the invariant holds and the jobs finished are the first of those added |
| Barrier.TakeChosen | apue/apue.3e/threads/barrier.c:67-76 | taking the smallest head keeps the output sorted, below everything left, and of the elements taken |
| Barrier.SmallestHead | apue/apue.3e/threads/barrier.c:68-74 | finds the first of the smallest heads below LONG_MAX, or that there is none, in which case the index stays the one before; reads no slice past its end |
| Barrier.Merge | apue/apue.3e/threads/barrier.c:59-78 | fills snums with a sorted permutation if and only if LONG_MAX does not occur or, from the largest number below it in the last slice that has it, as many places on as there are LONG_MAX hold just those; leaves nums exactly if those places do |
| Barrier.GoesOnRight | apue/apue.3e/threads/barrier.c:74-77 | with LONG_MAX about, the stale index gets it right exactly if the places it reads on hold LONG_MAX |
| Barrier.LastOfAllWorks | apue/apue.3e/threads/barrier.c:74-77 | the numbers 0, 1, 2, ... with LONG_MAX in place of the very last are merged right |
| Barrier.LastOfFirstFails | apue/apue.3e/threads/barrier.c:74-77 | the numbers 0, 1, 2, ... with LONG_MAX in place of the last of the first slice make the merge read past the end of nums |
| Barrier.StepInv | apue/apue.3e/threads/barrier.c:42-54 | every step keeps slices sorted behind the sort, the arrival count, and the bag of numbers |
| Barrier.FillsDrawn | apue/apue.3e/threads/barrier.c:90-95 | in every run the numbers sorted and merged are the first NUMNUM that main drew, in their order |
| Barrier.MergeIsSafe | apue/apue.3e/threads/barrier.c:101-108 | merge starts only with all slices sorted, and no step of any thread changes nums from then on |
| Barrier.MergeAfterBarrier | apue/apue.3e/threads/barrier.c:101-108 | in every interleaving the numbers main filled in end up in snums in ascending order, if and only if the sorted slices meet the condition of Merge, as they do without LONG_MAX |

## Left out

- db_open, db_close: flags, file names, allocation and the whole-file lock; the initialisation of a new index file and the opening of existing files are modelled.
- Error aborts of the database (`err_dump`, `err_sys`): reading damaged files gives an error value, and size limits are preconditions (`RoomFor`, data length).
- `cnt_*` counters, `_db_alloc`, `_db_free`, crashes in the middle of a call: no claim depends on them.
- DbRuns.Linearizable: `db_nextrec` and flags other than the three named ones are not calls of the process machine; files there have no size limit and records are values at offsets, tied to bytes when no call is in progress by DbCover.QuiescentStored.
- Record keys and data are bytes without encoding; `atol` beyond the width of `long` is not modelled.
- foo_alloc: failure of `malloc` and of `pthread_mutex_init` returns NULL before anything is shared, so it is not a call of the machine.
- FooRefines.RunRefines: callers use only objects they hold a reference to; a handed-over reference is a call `Pass`.
- sem_open: it joins without the lock, so no removal claim covers it; direct calls of `sem_rm` by other programs are left out for the same reason.
- Semaph.StepInv: identifiers are never reused by the kernel, values stay within the kernel's limits, and an undo below zero is clamped to zero; a creator sleeping on a set that is removed may also die, which is an exit.
- HashQuad.Rehash: freeing the old cells, and `malloc` failure; `destroy_table` and `retrieve` are not shown in the source.
- BinQueue.BinomialQueue.Merge: beyond the capacity the model stops where the program leaves the array of slots; `free` of the removed root and of the emptied queue.
- Avl: `delete_node`, whose key tests always select the double rotation and whose two-child case does not rebalance; printing and destruction of trees.
- `malloc` failure in the leftist heap and the AVL tree: success is assumed.
- Ftw8: `myfunc` with its counters, `realloc` and `closedir` failures, and file systems that change during the walk.
- Printd: worker list, printer status, spool files, persistent job numbers, HTTP and IPP traffic, cancellation of client threads.
- Barrier.Merge: where the stale index leaves nums the model stops; what the program reads there is not modelled.
- `heapsort` itself: a step of the machine may permute a slice in any way, and the call returns only with it sorted.
- Overflow of `int` in array sums, inversion counts and indices.
- Retyped copies of the programs, sockets, signals, terminals, daemons, scrapers, web code, other sorts, lists, stacks and queues: plumbing, or easy members.

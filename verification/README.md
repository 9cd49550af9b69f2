# A verified model of NmFS

NmFS is a distributed file system. Every directory is led by one client, which holds a lease given out by a
manager. The leader keeps the directory in memory, journals each change into a per-directory transaction, and a
pipeline of threads commits the transactions to a journal and checkpoints them to a store of 4 MiB objects.

This project models that core in Dafny and proves what it is meant to guarantee. `dafny verify dfyconfig.toml`
checks everything.

| file | what it holds |
|---|---|
| `Types.dfy` | bytes, names, inode numbers, inode blocks, little-endian numbers |
| `Transactions.dfy`, `Deltas.dfy` | the delta of a transaction as a value, that coalescing preserves meaning, and what a delta holds and how a call ends told from the operations alone |
| `TransactionObject.dfy` | the transaction class: merging, sync, serialize, deserialize, commit, checkpoint |
| `Pipeline.dfy`, `PipelineProof.dfy`, `PipelineSteps.dfy`, `CommitSteps.dfy` | the journal pipeline as a step machine, its invariant, and one lemma per kind of step |
| `EntryMarks.dfy` | the alive flags of the latest transaction follow the history |
| `JournalTheorems.dfy`, `ExactlyOnce.dfy`, `CallFates.dfy`, `Draining.dfy` | the theorems about whole runs of the pipeline: store and history, every call, every run's end |
| `JournalBytes.dfy`, `Accounting.dfy` | the pipeline together with the bytes of the journal objects, and where every transaction is |
| `JournalTable.dfy` | the journal table and the queue as objects |
| `Lease.dfy`, `DirectoryCache.dfy`, `LeaseTables.dfy` | the lease protocol, the directory cache on top of it, and the tables as objects |
| `ObjectKeys.dfy`, `StripedStore.dfy`, `RadosIo.dfy` | object names, the striped layout, and the store operations |
| `DentryObject.dfy`, `RecordCodec.dfy`, `RecordLayout.dfy`, `Framing.dfy` | the dentry object, the journal record and its layout, and records in a journal |
| `Tenure.dfy`, `LocalOps.dfy`, `TenureRuns.dfy`, `Rename.dfy` | memory against journal through all tenures of a client, the leader's operations and the runs they make, rename across directories |
| `Append.dfy`, `Paths.dfy` | append reservation, path splitting |

## How it is modelled

- **Concurrency.** Threads become step machines: a state, an `Event` datatype, `Enabled` and `Do`, and `Reaches`
  for runs. A step is one critical section or one reading of the clock, so every interleaving at lock boundaries is
  a run. Fields that only observe (the `seen` part of the pipeline, grants, `overlooked`, `pulled`) are never read by a
  step. Same-directory entry operations are serialised by the directory's mutex; `chreg` and `chself` are not.
- **Objects.** Code that changes fields in place is a class whose methods are proved against functions on values
  (`View`, `Contents`, `Records`); the machines and theorems use the same functions. Hash maps are walked in an
  order the code does not choose. Readings of the clock and answers of other machines are parameters.
- **The store.** An object is addressed by (category, key, number); `KeysInjective` and `UuidTextInjective` show
  that the names built from these are distinct. The librados primitives are taken as: a write extends with zeros, a
  read clips, truncating or removing a missing object does nothing. Offsets do not overflow. `zerofill` has the same
  cursor loop as `write` and shares it.
- **Inodes.** An inode block is the raw `struct _core` of x86-64 (104 bytes, inode number at 12, link count at 32,
  times at 64 to 96) and the link target; `sizeof(inode)` is 192.

## Where the code does less than its documentation or its callers expect

- `get_entry` may create an empty transaction for a new directory that the commit thread takes before `mkself`
  reaches it. Its checkpoint then finds no dentry object and throws. `StorePlusPendingIsHistory` is therefore an
  equivalence with "no such commit happened" (`stray`), `Doomed` is a run where it happens, and
  `LastingDirectoryReplays` shows that directories which exist throughout are never affected.
- The file-inode branch of `mkreg` and `rmreg` throws after the entry change was made, and the entry change stays
  (`InodeError`; the theorems count it as journalled). `ThrowsExactly`, `ThrowsInRuns` and `EndsExactly` say exactly when: the last
  operation on the same file in the same transaction left it alive (for `mkreg`) or deleted (for `rmreg`).
  `ThrowsAfterTheMark` is an input: a write to a file is journalled in its new directory before the rename is.
- `lease_dentry_table_mkdir` for a directory that is already cached leaves the cached table in place but renews the
  lease record. `LocalIffLeader` gives the exact condition and `MkdirOverCachedTable` a run with two leaders.
- `lease_table::acquire` promises the leader's address on failure; its insert-race branch returns the caller's own
  address, which is the leader's if and only if the lease is granted (`InsertOrReport`). Nothing here relies on it.
- `checkpoint` clears the first byte of the record's size, not its valid byte. `ScanVisitsRecords` gives the exact
  condition under which the scan still finds the records.
- `deserialize` skips `sizeof(inode)` instead of the stored size. `MarksRestoredIffSelfAbsent` shows the effect.
- `create_child_inode` refuses an existing name, but its callers ignore this and journal the creation.
  `TableFollowsJournal` gives the exact condition.
- `check_child_inode` reports "/" as present although no table holds it, so a rename across directories onto "/"
  takes the entry out of its source and then fails; `RenameAcross` states this case with the others.
- `rename` of a name onto itself within one directory would journal the removal of that name twice; `DroppedTwice`
  shows that the second call throws. The kernel answers such a rename before it gets here.
- `get_filename_from_path` counts an unsigned index down past zero when the path has no slash.

## Model

| member | source | states |
|---|---|---|
| `Coalescing.CoalescingPreservesMeaning` | client/journal/transaction.cpp:137-418 | for every sequence of operations a transaction takes, its delta applied to the stored list equals the operations applied one by one, from nothing when the directory was created in it |
| `Coalescing.MergeIsApply` | client/journal/transaction.cpp:137-389 | one accepted operation on the delta is that operation on the directory the delta stands for |
| `Coalescing.AliveMarkShows` | client/journal/transaction.cpp:407-417 | a name's alive flag says exactly whether the name is in the resulting list, and with which inode number |
| `Coalescing.FilesAreLatest` | client/journal/transaction.cpp:292-297 | for each file the delta holds exactly what the last operation on it left, and no other file |
| `Deltas.SelfIsLatest` | client/journal/transaction.cpp:137-389 | the directory inode a delta holds is that of the last mkself or chself, or of the first entry operation when there is none, with the times of the last entry operation after it, and there is none if no operation carried one |
| `Deltas.StatusIsLatest` | client/journal/transaction.cpp:137-164 | created or deleted as the last mkself or rmself says, unchanged exactly when there was neither |
| `Deltas.MarksAreLatest` | client/journal/transaction.cpp:180-374 | for each name the delta holds exactly the last word on it, a move saying one thing of its source and another of its destination, and no other name |
| `Deltas.FilesAreKept` | client/journal/transaction.cpp:267-389 | the same as FilesAreLatest where calls in between threw: these leave the file as it was |
| `Deltas.FilesAreKeyed` | client/journal/transaction.cpp:267-389 | every live file inode is kept under its own number |
| `Deltas.EndsExactly` | client/journal/transaction.cpp:137-389 | for every operation on every transaction: -1 if and only if it is committed, and if open, the entry logic_error exactly when the last word on the name forbids it, the file logic_error exactly when only the last operation on the file does, 0 otherwise |
| `Deltas.DroppedTwice` | client/journal/transaction.cpp:302-320 | removing the same name twice in one transaction always throws |
| `JournalTheorems.StorePlusPendingIsHistory` | client/journal/commit.cpp:17-30 | in every state of every run, store followed by issued, in-commit and open transactions replays to the fold of all operations journalled, if and only if no transaction of the directory was committed before its mkself |
| `JournalTheorems.StepKeeps` | client/journal/checkpoint.cpp:7-16 | every step of every thread keeps the pipeline invariant for all directories |
| `JournalTheorems.DrainedStoreIsHistory` | client/journal/checkpoint.cpp:7-16 | once nothing is pending the dentry object holds exactly the history |
| `Draining.EverythingReachesTheStore` | client/journal/commit.cpp:17-33 | from every reachable state the commit and checkpoint threads can run until nothing is open, in commit or queued, and then the dentry object is exactly the history, unless its own checkpoint thread crashed or a commit of it was stray |
| `Draining.CommitGoesOn` | client/journal/commit.cpp:20-30 | wherever the commit thread stands, its next step can be taken |
| `Draining.WorkerGoesOn` | client/journal/checkpoint.cpp:7-16 | a checkpoint thread with work that has not crashed can take its next step |
| `Accounting.TransactionsConserved` | client/journal/commit.cpp:17-30 | in every reachable state each transaction is in exactly one place: the table, the map being committed, the line of its directory, or checkpointed |
| `Accounting.OnlyItsLine` | client/journal/commit.cpp:26-29 | a transaction is in no line but that of its directory, and there once |
| `Accounting.JournalledBeforeWritten` | client/journal/commit.cpp:22-29 | whatever a checkpoint thread has taken or finished has its record, as frozen, in its directory's journal |
| `Accounting.StepCounts` | client/journal/checkpoint.cpp:7-16 | every step of every thread keeps this accounting |
| `JournalTheorems.LastingDirectoryReplays` | client/journal/transaction.cpp:391-418 | for a directory that exists throughout, replaying the pending work always gives the history |
| `JournalTheorems.NoEntryError` | client/journal/transaction.cpp:189-196 | creating absent and removing present names never meets the logic_error of the entry branches, whatever transaction the call lands in and whatever became of the store |
| `JournalTheorems.FlagsFollowHistory` | client/journal/transaction.cpp:217-224 | in every reachable state, alive flags of the latest transaction agree with the names the history leaves, and with the pending child list unless a commit was stray |
| `EntryMarks.MarksKeep` | client/journal/transaction.cpp:180-374 | every step of every thread keeps the flags in agreement with the history |
| `JournalTheorems.CommitNeverThrows` | client/journal/transaction.cpp:430-436 | commit never finds its transaction already committed |
| `ExactlyOnce.ExactlyOnceJournalled` | client/journal/journal.cpp:40-138 | every call that returned 0 took effect once, with the operation it asked for, in exactly one transaction of its directory, whose content and serialized record are its merges in order |
| `CallFates.EveryCallHasOneFate` | client/journal/journal.cpp:40-138 | in every reachable state each call ever made is under way in a thread, or changed a transaction, or threw before it changed anything, and only one of these |
| `CallFates.CallsGoOn` | client/journal/journal.cpp:40-138 | a thread ends only by trying an open transaction, its call placed in it or refused because of its entries; a call that met a committed transaction, chself and chreg included, is still there and looks the table up again |
| `CallFates.Tried` | client/journal/journal.cpp:63-67 | the whole state after a call is tried: unchanged but for the thread going round its loop, the call rejected, or the call placed |
| `CallFates.ReturnedExactly` | client/journal/journal.cpp:128-138 | a call that took effect returned 0 if and only if it did not clash with the last operation on its file in that transaction |
| `CallFates.EndsInRuns` | client/journal/transaction.cpp:137-389 | in every reachable state, how the next try of a call ends, told from the flag and the operations merged into its transaction so far |
| `CallFates.LoopEnds` | client/journal/journal.cpp:40-138 | from every reachable state a call that runs alone ends within four steps: the loop goes round at most once more |
| `ExactlyOnce.ThrowsInRuns` | client/journal/transaction.cpp:292-297 | in every run a merge throws from the file-inode branch if and only if its transaction is open, the entry branch lets it pass and it clashes with the last operation on the file in that transaction |
| `Coalescing.ThrowsExactly` | client/journal/transaction.cpp:327-334 | the same for one transaction and every operation |
| `Coalescing.ThrowsAfterTheMark` | client/journal/transaction.cpp:276-297 | an input where mkreg throws and its mark stays |
| `ExactlyOnce.CommittedNeverChanges` | client/journal/transaction.cpp:426-446 | no step changes a transaction whose committed flag is set |
| `ExactlyOnce.Doomed` | client/journal/journal_table.cpp:16-47 | a run in which an empty transaction is committed before mkself reaches it, so that replaying ends in a corrupt directory |
| `CommitSteps.FreezeKeeps` | client/journal/transaction.cpp:430-436 | setting the committed flag keeps the invariant, and marks exactly the stray commits |
| `CommitSteps.IssueKeeps` | client/journal/commit.cpp:26-29 | routing a transaction to its directory's queue keeps the order of the directory's pending work |
| `CommitSteps.WriteKeeps` | client/journal/transaction.cpp:395-418 | writing the dentry object moves one transaction from pending to stored without changing the replay |
| `ThreadSteps.ApplyKeeps` | client/journal/journal.cpp:70-78 | trying a call, whatever its end, keeps the invariant: a merge into a transaction taken earlier extends history and pending work by the same operation, and any other end leaves both alone |
| `ThreadSteps.InsertKeeps` | client/journal/journal_table.cpp:27-35 | inserting a fresh transaction, or finding one inserted meanwhile, changes nothing pending |
| `CommitSteps.ReplaceMapKeeps` | client/journal/journal_table.cpp:38-47 | swapping the whole table changes nothing pending, even under threads that hold its transactions |
| `Pipeline.Route` | client/journal/commit.cpp:27-29 | the first byte of the inode number modulo eight, which is its first eight bytes as a number modulo eight |
| `TransactionObjects.Transaction.MkSelf` | client/journal/transaction.cpp:137-150 | the object after the call and its result are those of the delta function, which the theorems on deltas determine |
| `TransactionObjects.Transaction.RmSelf` | client/journal/transaction.cpp:152-164 | the object after the call and its result are those of the delta function, which the theorems on deltas determine |
| `TransactionObjects.Transaction.ChSelf` | client/journal/transaction.cpp:166-178 | the object after the call and its result are those of the delta function, which the theorems on deltas determine |
| `TransactionObjects.Transaction.MkDir` | client/journal/transaction.cpp:180-206 | the object after the call and its result are those of the delta function, with the logic_error for a name already added |
| `TransactionObjects.Transaction.RmDir` | client/journal/transaction.cpp:208-234 | the object after the call and its result are those of the delta function, with the logic_error for a name already deleted |
| `TransactionObjects.Transaction.MvDir` | client/journal/transaction.cpp:236-265 | the object after the call and its result are those of the delta function |
| `TransactionObjects.Transaction.MkReg` | client/journal/transaction.cpp:267-300 | the object after the call and its result are those of the delta function, with both logic_errors |
| `TransactionObjects.Transaction.RmReg` | client/journal/transaction.cpp:302-337 | the object after the call and its result are those of the delta function, with both logic_errors |
| `TransactionObjects.Transaction.MvReg` | client/journal/transaction.cpp:339-374 | the object after the call and its result are those of the delta function |
| `TransactionObjects.Transaction.ChReg` | client/journal/transaction.cpp:376-389 | the object after the call and its result are those of the delta function |
| `TransactionObjects.Transaction.CarryOut` | client/journal/transaction.cpp:406-417 | whatever order the marks are walked in, the list ends up with each mark carried out |
| `TransactionObjects.Transaction.Sync` | client/journal/transaction.cpp:391-424 | the dentry object goes from the list it held to that list with the marks carried out, an empty one for a new directory; it fails exactly for a directory that is not there or cannot be decoded; the inodes are written to their own objects; other directories and journals stay |
| `TransactionObjects.CarriedIsSync` | client/journal/transaction.cpp:391-418 | what sync does to the dentry object is the sync of the pipeline theorems |
| `TransactionObjects.FitsAnyOrder` | client/meta/dentry.cpp:103-110 | whether a list fits its object depends on its names only, not on the order walked |
| `TransactionObjects.Transaction.SyncInode` | client/meta/inode.cpp:193-198 | the inode object becomes what it was overwritten from its start by block and link target; nothing else changes |
| `TransactionObjects.InodeReadBack` | client/meta/inode.cpp:162-191 | block and link target are read back from the inode object, whatever it held before |
| `TransactionObjects.Transaction.SyncFiles` | client/journal/transaction.cpp:420-423 | in any order, each live file inode is written to its own object and no other object changes |
| `TransactionObjects.Transaction.SyncDeleted` | client/journal/transaction.cpp:395-399 | a removed directory has neither an inode nor a dentry object left, and no other inode object changes |
| `TransactionObjects.Transaction.Serialize` | client/journal/transaction.cpp:5-71 | the bytes are the record of the transaction for some order of its maps |
| `TransactionObjects.Transaction.Deserialize` | client/journal/transaction.cpp:73-131 | ends as parsing the record says, for every byte string, and fills the transaction accordingly |
| `TransactionObjects.Transaction.Commit` | client/journal/transaction.cpp:426-446 | freezes the transaction, appends its record at the end of the journal and remembers where; refused if committed before |
| `TransactionObjects.Transaction.Checkpoint` | client/journal/transaction.cpp:448-457 | as sync, then one zero byte at the record's start, and only if sync did not throw |
| `JournalTables.JournalTable.Find` | client/journal/journal_table.cpp:20-25 | the open transaction of the directory, if any |
| `JournalTables.JournalTable.Insert` | client/journal/journal_table.cpp:27-35 | one transaction per directory; one inserted meanwhile is kept |
| `JournalTables.JournalTable.ReplaceMap` | client/journal/journal_table.cpp:38-47 | the whole table changes hands and an empty one takes its place |
| `JournalTables.MQueue.Issue` | client/journal/mqueue.hpp:17-23 | what was issued is what was dispatched followed by the queue |
| `JournalTables.MQueue.Dispatch` | client/journal/mqueue.hpp:25-37 | values come out once each, in the order they were issued; an empty queue gives none |
| `LeaseProtocol.MutualExclusion` | client/lease/lease_table_client.cpp:77-96 | in every reachable state, with answers delayed, reordered or repeated, the records of two clients never both say that they lead a directory |
| `LeaseProtocol.NoTwoCallsBothMine` | client/lease/lease_table_client.cpp:82-95 | the same for calls that read the record first and the clock later |
| `LeaseProtocol.NoTwoRunningGrants` | manager/lease/lease_table.cpp:39-68 | the same for the manager's answers, delivered or not |
| `LeaseProtocol.AcquireAlone` | manager/lease/lease_table.cpp:39-68 | a request served by one thread while nobody is inside cas for the directory: the lease passes exactly when free or due, otherwise it is reported as it stands, and the answer says which, whatever else is under way |
| `LeaseProtocol.AnswerRecorded` | client/lease/lease_client.cpp:34-44 | an answer that arrives replaces the record exactly when its due time is larger, and changes nothing else |
| `LeaseProtocol.DueIdentifiesHolder` | manager/lease/lease_table.cpp:14-30 | due times of one directory strictly increase, so a due time identifies its holder |
| `LeaseProtocol.StepKeeps` | manager/lease/lease_table.cpp:39-68 | every step keeps: the entry is the last grant, a grant follows the end of the one before it, every claim is backed by a grant |
| `ManagerLeases.LeaseEntry.Cas` | manager/lease/lease_table.cpp:14-30 | the lease changes hands only at or after its due time; the answer reports the entry |
| `ManagerLeases.LeaseTable.InsertOrReport` | manager/lease/lease_table.cpp:57-67 | a free directory is granted; an entry inserted meanwhile is reported unchanged, due or not; the address returned is the caller's, and the leader's if and only if granted |
| `ManagerLeases.LeaseTable.Acquire` | manager/lease/lease_table.cpp:39-68 | an uninterrupted call gives the lease exactly when it is free or due, and changes no other entry |
| `ClientLeases.LeaseEntry.SetInfo` | client/lease/lease_table_client.cpp:33-40 | only a larger due time replaces the record |
| `ClientLeases.LeaseTable.Check` | client/lease/lease_table_client.cpp:49-75 | true exactly for a lease in the records whose due time is after the clock |
| `ClientLeases.LeaseTable.Mine` | client/lease/lease_table_client.cpp:77-96 | true exactly for a known lease held by this client before its due time |
| `ClientLeases.LeaseTable.Update` | client/lease/lease_table_client.cpp:98-129 | the record with the largest due time seen is kept, for this directory only |
| `ClientLeases.LeaseTable.Acquire` | client/lease/lease_client.cpp:21-46 | a lease already held needs no answer; any other answer is recorded and returned |
| `DirectoryCache.LocalIffLeader` | client/in_memory/directory_table.cpp:78-195 | in every reachable state a cached table is LOCAL exactly when the record says leader, if and only if no answer was overlooked for it |
| `DirectoryCache.SingleLeader` | client/in_memory/directory_table.cpp:130-166 | if directories are made under numbers not cached yet, at one instant at most one client is handed a LOCAL table |
| `DirectoryCache.HandedExactly` | client/in_memory/directory_table.cpp:130-166 | at every client and in every state a cached table of either location under a running record is handed out, and only such |
| `DirectoryCache.GetAlone` | client/in_memory/directory_table.cpp:78-166 | a local caller's request end to end, through the manager and back: a hit changes nothing; otherwise the table is LOCAL exactly when the lease was its own, free or due, and entry, record and cache agree on it |
| `DirectoryCache.MkdirAlone` | client/in_memory/directory_table.cpp:107-128 | the same for a new directory: a refusal leaves the cache as it is, and so does a table cached already |
| `DirectoryCache.MkdirOverCachedTable` | client/in_memory/directory_table.cpp:107-128 | without that condition a run in which two clients are handed LOCAL tables at once |
| `DirectoryCache.RecordIsAnswer` | client/lease/lease_client.cpp:34-44 | once an answer is processed the record is that answer, even when its due time was known before |
| `DirectoryCache.FreshNeverOverlooks` | client/in_memory/directory_table.cpp:107-128 | under that condition no answer is ever overlooked |
| `DirectoryTables.DirectoryTable.Add` | client/in_memory/directory_table.cpp:168-180 | a table already cached stays |
| `DirectoryTables.DirectoryTable.Delete` | client/in_memory/directory_table.cpp:182-195 | the table is gone, no other is |
| `DirectoryTables.DirectoryTable.Lease` | client/in_memory/directory_table.cpp:78-105 | the new table is LOCAL exactly when the lease was granted |
| `DirectoryTables.DirectoryTable.Get` | client/in_memory/directory_table.cpp:130-166 | a cached table of either location is handed out and nothing changes if and only if its record is known and not yet due; otherwise it is dropped, remote callers are refused and local ones get LOCAL exactly when the lease is theirs or granted |
| `ObjectKeys.KeysInjective` | lib/rados_io/rados_io.cpp:7-28 | object names are distinct for distinct (category, key, number) |
| `ObjectKeys.UuidTextInjective` | client/meta/uuid_controller.cpp:43-45 | distinct inode numbers have distinct keys |
| `Striping.OthersKept` | lib/rados_io/rados_io.cpp:191-245 | an operation on one file leaves every other file as it is |
| `Striping.LaysUnique` | lib/rados_io/rados_io.cpp:271-299 | a layout determines its flat file and its number of objects |
| `Striping.ContentsAt` | lib/rados_io/rados_io.cpp:161-189 | byte i of a file is byte i mod 4 MiB of its object i div 4 MiB |
| `Striping.ContentsLength` | lib/rados_io/rados_io.cpp:271-299 | the objects are numbered from zero without a gap and all but the last are full |
| `Striping.BlendAt` | lib/rados_io/rados_io.cpp:191-245 | byte by byte, a file after a write: the data, else the file as it was, else zero |
| `Striping.ResizedAt` | lib/rados_io/rados_io.cpp:325-386 | byte by byte, a file cut or extended |
| `Striping.FlatReadAt` | lib/rados_io/rados_io.cpp:161-189 | byte by byte, what a read delivers, and how much |
| `Rados.RadosIo.Write` | lib/rados_io/rados_io.cpp:191-245 | from any well-formed layout: the old bytes zero-padded to the offset and overwritten by the buffer; the layout is well formed again and no other file changes |
| `Rados.RadosIo.Zerofill` | lib/rados_io/rados_io.cpp:72-95 | zeros written at an offset inside or at the end of the file |
| `Rados.RadosIo.LowerBound` | lib/rados_io/rados_io.cpp:201-220 | the backward scan's bound is the file size whenever it is below the offset |
| `Rados.RadosIo.FillHole` | lib/rados_io/rados_io.cpp:198-225 | a file that ends below the offset is zero-padded up to it, any other is left alone |
| `Rados.RadosIo.Truncate` | lib/rados_io/rados_io.cpp:325-386 | the file cut or zero-extended to the length; the layout is well formed again |
| `Rados.RadosIo.CutTo` | lib/rados_io/rados_io.cpp:361-385 | cutting one object and removing those above it leaves the prefix |
| `Rados.RadosIo.Read` | lib/rados_io/rados_io.cpp:161-189 | the byte count, returned or carried by the exception, is the clipped length, the buffer starts with exactly those bytes, and the exception is raised exactly when the range reaches past the last object |
| `Rados.RadosIo.Exist` | lib/rados_io/rados_io.cpp:247-269 | looking at the first object decides |
| `Rados.RadosIo.Stat` | lib/rados_io/rados_io.cpp:271-299 | the sizes sum to the length of the flat file |
| `Rados.RadosIo.Remove` | lib/rados_io/rados_io.cpp:301-323 | no object of the file is left |
| `DentryCodec.DentryRoundTrip` | client/meta/dentry.cpp:44-101 | decoding a buffer that starts with the encoding, in any order and with anything behind it, gives the child list back |
| `DentryCodec.DecodesExactly` | client/meta/dentry.cpp:73-101 | for every buffer: decoding succeeds if and only if the buffer holds entries, and gives their meaning, repeated and NUL-holding names included |
| `DentryCodec.FirstWins` | client/meta/dentry.cpp:97 | of entries with the same name up to the first NUL, the first one counts |
| `DentryCodec.EntryWritten` | client/meta/dentry.cpp:44-71 | where an entry is in an encoding, and its length, name and inode number there |
| `DentryCodec.StoredRoundTrip` | client/meta/dentry.cpp:5-19 | after the list is written over any earlier object, longer or shorter, loading gives it back, for NUL-free names and an encoding within one object |
| `DentryCodec.EncodeLength` | client/meta/dentry.cpp:47-48 | the encoding fills exactly the computed size |
| `DentryObjects.Dentry.AddChild` | client/meta/dentry.cpp:21-30 | the name is bound, replacing an earlier number |
| `DentryObjects.Dentry.DeleteChild` | client/meta/dentry.cpp:32-42 | the name is gone, a missing one is no error |
| `DentryObjects.Dentry.Serialize` | client/meta/dentry.cpp:44-71 | the buffer holds the encoding in the order walked |
| `DentryObjects.Dentry.Deserialize` | client/meta/dentry.cpp:73-101 | the list is what decoding the buffer gives, for every buffer; reads past it are told apart |
| `DentryObjects.Dentry.Sync` | client/meta/dentry.cpp:103-110 | the stored object decodes to this list whatever it held before, and no other file changes |
| `DentryObjects.Load` | client/meta/dentry.cpp:5-19 | gives the stored list, or the error exactly when there is no object |
| `RecordCodec.RecordRoundTrip` | client/journal/transaction.cpp:5-131 | without the directory's inode, deserializing a record restores the marks exactly and the file inodes that are not deleted, for any order, without a duplicate key |
| `RecordCodec.MarksRestoredIffSelfAbsent` | client/journal/transaction.cpp:84-113 | of a record without live file inodes, the marks are restored if and only if the directory's inode is absent |
| `RecordCodec.RecordSized` | client/journal/transaction.cpp:64-68 | a record starts with its own size |
| `RecordLayout.SelfWritten` | client/journal/transaction.cpp:15-31 | the valid byte is 1; then the size, block and link target of the directory's inode, or -1 |
| `RecordLayout.MarkWritten` | client/journal/transaction.cpp:34-49 | where mark k is in a record: status byte, length, name and inode number |
| `RecordLayout.FileWritten` | client/journal/transaction.cpp:51-62 | where live file inode k is in a record: size, block and link target |
| `RecordLayout.ListsEnd` | client/journal/transaction.cpp:49-62 | the byte -1 stands behind the marks and the int -1 at the end |
| `RecordLayout.SelfRestored` | client/journal/transaction.cpp:84-92 | a record that is restored at all gives the directory's inode back |
| `RecordLayout.MarksParsedExactly` | client/journal/transaction.cpp:94-113 | for every byte string: the marks are read if and only if marks of distinct names and the ending byte stand there, any status but zero being an added name |
| `Types.LittleEndian` | client/journal/transaction.cpp:64-68 | the bytes of an int and of a size_t, digit by digit |
| `JournalBytes.RecordsEndToEnd` | client/journal/transaction.cpp:426-457 | in every run of the pipeline, with stat and write apart and checkpoints in between, each journal is what it was followed by its directory's records end to end in commit order; each record is its frozen transaction, offsets point to the starts, and checkpoints have changed their own records' first bytes only |
| `JournalBytes.ScanInRuns` | client/journal/journal.cpp:23-37 | in every run, for a journal that was empty and fits one object, the scan visits exactly the record starts and ends at the size if and only if every checkpointed record's size is a multiple of 256 |
| `Framing.ClearOne` | client/journal/transaction.cpp:455-456 | clearing one record's first byte changes one byte of the journal, where the record starts |
| `Framing.ScanVisitsRecords` | client/journal/journal.cpp:26-37 | the same for any records laid end to end |
| `Framing.Scan` | client/journal/journal.cpp:26-37 | the indices of the loop, and whether it ends at the size |
| `Framing.VisitsExactly` | client/journal/journal.cpp:26-37 | for every buffer: the scan ends at the size having visited exactly the indices that lead there by the sizes read |
| `Tenure.MemoryIsStorePlusPending` | client/fs_ops/local_ops.cpp:61-348 | in every state of every run of a client, for every table it holds, pulled or made at any moment while other directories have pending work: both halves agree, and with no call under way they equal the stored list with all pending transactions applied, if and only if no commit of the directory was stray; a table pulled with nothing of its directory pending never sees a stray commit |
| `Tenure.StepKeeps` | client/in_memory/directory_table.cpp:78-195 | operations, journal steps, pulling, adopting and releasing tables, and changes by other clients all keep this |
| `Tenure.TableFollowsJournal` | client/in_memory/dentry_table.cpp:37-82 | the table follows the journalled operation exactly unless an existing name is created with another number |
| `LocalOps.StepsAreJournalled` | client/fs_ops/local_ops.cpp:61-348 | whatever table changes an operation makes, the table ends up as its journal calls say |
| `TenureRuns.StepsAreRuns` | client/fs_ops/local_ops.cpp:61-348 | the steps of an operation are a run of the client that ends with the operation's table and with the history longer by exactly its journal calls |
| `DentryTables.DentryTable.CreateChildInode` | client/in_memory/dentry_table.cpp:37-52 | binds an absent name in both halves, leaves a present one alone |
| `DentryTables.DentryTable.DeleteChildInode` | client/in_memory/dentry_table.cpp:67-82 | removes the name from both halves |
| `DentryTables.DentryTable.GetChildInode` | client/in_memory/dentry_table.cpp:84-93 | the inode under a name, or no_entry |
| `DentryTables.DentryTable.CheckChildInode` | client/in_memory/dentry_table.cpp:104-111 | the number under a name, nil if there is none, the root for "/" |
| `DentryTables.DentryTable.PullChildMetadata` | client/in_memory/dentry_table.cpp:123-140 | in any order, both halves hold the loaded list, unless a child's inode block is missing |
| `LocalOps.Mkdir` | client/fs_ops/local_ops.cpp:61-84 | the new inode under an absent name, the two journal calls in order, an empty dentry for the new directory; an existing name leaves the table alone but is journalled |
| `LocalOps.Create` | client/fs_ops/local_ops.cpp:298-322 | the same for a file |
| `LocalOps.Symlink` | client/fs_ops/local_ops.cpp:131-154 | -EEXIST and no change for an existing name, otherwise the new inode in the table, and list and journal agree |
| `LocalOps.Unlink` | client/fs_ops/local_ops.cpp:324-348 | the last link removes the entry from table, list and journal; otherwise the inode with its count lowered by one, round below zero, and every other field as it was, is kept and journalled for its parent, and the list stays |
| `LocalOps.OnlyNlink` | client/meta/inode.cpp:286-288 | setting the link count is read back and changes no other field |
| `LocalOps.LastLink` | client/fs_ops/local_ops.cpp:329-330 | one less, in 64 unsigned bits |
| `LocalOps.RmdirTop` | client/fs_ops/local_ops.cpp:86-102 | -ENOTEMPTY unless empty, so the removal journalled is a legal one |
| `LocalOps.RmdirDown` | client/fs_ops/local_ops.cpp:104-129 | the name goes from list and journal |
| `LocalOps.RenameSameParent` | client/fs_ops/local_ops.cpp:170-212 | the inode moves to the new name, replacing what is there, by journalled steps that each create an absent or delete a present name; errors change nothing |
| `Rename.RenameAcross` | client/fs_ops/fuse_ops.cpp:490-566 | in all four placements the source loses the old name, the destination binds the new name to the same inode, every field a message carries arrived, nothing else changes, and exactly this is journalled; a missing name or flags change nothing, and the name "/" loses the entry |
| `Rename.Travel` | client/fs_ops/fuse_ops.cpp:490-566 | by way of no, one or two messages, number, fields and link target are those of the source's inode |
| `Rename.TakeOut` | client/rpc/rpc_server.cpp:482-520 | the source half, at this or another client: the name goes from list and journal, errors change nothing |
| `Rename.PutIn` | client/rpc/rpc_server.cpp:522-561 | the destination half, at this or another client: the name is bound to the inode that arrived, replacing what is there, by journalled steps that each create an absent or delete a present name |
| `Rename.TransferKeepsInode` | client/meta/inode.cpp:317-397 | an inode sent in a rename message arrives with the same number, fields and link target |
| `Types.BytesRoundTrip` | client/meta/uuid_controller.cpp:8-33 | splitting a number into integers and splicing them gives its bytes back |
| `Append.AppendsAreApart` | client/rpc/rpc_server.cpp:689-710 | in any run of local and remote writes an append starts at or after the end of every range reserved before it |
| `Append.RangesPlaced` | client/rpc/rpc_server.cpp:689-710 | in any such run an append starts exactly at the end of the file as all ranges before it make it, any other write at the offset asked for, and the size is the largest end |
| `Append.CarriedBytesStay` | client/fs_ops/local_ops.cpp:358-377 | in any such run and whatever the order of the store writes, bytes written to a range nobody else reserved stay |
| `Append.AppendsTile` | client/fs_ops/local_ops.cpp:358-377 | appends alone tile the growth of the file, and once all their store writes are done, in any order, the file is the old one followed by the data in order of reservation |
| `Append.FileInode.LocalWrite` | client/fs_ops/local_ops.cpp:358-377 | the bytes go to the file's end for O_APPEND and to the offset given otherwise, the size covers them, and the inode is journalled exactly when the file grows |
| `Append.FileInode.RpcWrite` | client/rpc/rpc_server.cpp:689-710 | the range starts at the file's end for O_APPEND and at the offset given otherwise, the size covers it, and the inode is journalled exactly when the file grows |
| `Paths.SplitsAndJoins` | client/in_memory/directory_table.cpp:36-76 | the names visited for a path are those of its parent followed by its file name, and joined with slashes they give the path back |
| `Paths.NamesAreNames` | client/in_memory/directory_table.cpp:6-22 | every name visited is non-empty and without a slash |
| `Paths.ParentDirPath` | client/util.cpp:4-17 | the part before the last slash, the root for a top-level name, an error exactly without a slash |
| `Paths.FilenameFromPath` | client/util.cpp:19-32 | the part after the last slash; without a slash the index runs off the front |
| `Paths.SetNameBound` | client/in_memory/directory_table.cpp:6-22 | the next name reaches to the next slash or the end of the path, or there is none |
| `Paths.Traverse` | client/in_memory/directory_table.cpp:43-51 | the loop visits the names between the slashes in order |

## Left out

- Crash recovery and `journal::check` beyond its index: the call at lease acquisition is commented out and it throws for cleared records.
- The order of file-inode writes from different directories: their transactions are checkpointed from different queues in no fixed order, so what one sync writes is stated for that sync (`SyncFiles`) and not for runs.
- `delete_entry` and shutdown of the pipeline: operations still in the open table are dropped there without a flush.
- Clock skew, manager restart, and operations that outlive their lease: the code has no fencing.
- Tenures of two clients that overlap in the store: nothing in the code waits for pending transactions when a lease changes hands, so another client's changes to a directory are taken to be in the store before it is pulled.
- Failures of the store other than a missing object, and failed requests beyond ending the call.
- The retry loops on -ENOTLEADER: the same valid REMOTE table can be returned again and again, so they need not end.
- gRPC, protobuf, FUSE and librados set-up, `remote_ops`, `remote_inode`: a remote call is a step at the other client.
- Permissions, timestamps of the operations (the parent inode is a parameter, already stamped), file handles, client ids, logging: these would only add easy members.
- Symbolic links in journal records: their targets are read from the store while deserializing.
- Data removal in `unlink`, and keeping the `inode` field `p_ino` (a parameter where it is read): they do not touch entries.
- LocalOps.RenameSameParent: asks for two different names, since the kernel answers a rename onto itself (see `DroppedTwice`), and covers the call that is not interrupted; the code lets go of the mutex between finding the inode and moving it (client/fs_ops/local_ops.cpp:181-187).
- Rename.TakeOut: covers the call that is not interrupted; the code lets go of the mutex between finding the inode and taking it out (client/fs_ops/local_ops.cpp:221-227).
- Paths.SplitsAndJoins: stated for absolute paths without empty components or a slash at the end, as FUSE passes them.

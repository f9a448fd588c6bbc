# A verified model of the gLite Workload Management System

This project models the parts of the workload management system whose correctness is hard to see
and proves what they promise. Each Dafny module follows one component:

- `Disk`, `Programs`, `Recovery`, `Undoing`, `Insertion`, `Removal`, `Atomicity`: the crash-safe list in
  a file (FileContainer). An operation is the sequence of disk writes it issues, a crash is a prefix
  of it (perhaps with part of an appended record), and recovery is the fall-through switch of
  `recover_data`. The main results give the exact set of crash points that are survived.
- `RecoveryProgram`, `Crashes`, `SecondCrash`, `Interrupted`: recovery as the sequence of writes it
  issues in its turn, and which crashes inside it are survived by recovering again.
- `Layout`, `Bytes`, `Creation`, `FileRecovery`, `FileCrashes`, `Durable`, `DurableTwice`: the same file
  as bytes. Every write of the model is shown to be what the bytes written do, recovery reads and
  writes those bytes, and what is said of one crash and of two is said of the bytes they leave.
- `StaleEnd`: what `add_data` does with an end of the file read before recovery.
- `Sessions`: several processes with cached limits and stamps over one file, refining one sequence.
- `Compaction` and `Container`: compaction, and the container as a class whose methods issue the
  writes one by one.
- `Pipe`: the bounded pipe between tasks, a monitor with two condition variables, as a step relation
  over any number of threads and as a class.
- `Dag`: the DAG manager, its two-phase pass over colours, and whole runs against an environment.
- `Resubmission`: the counts read back from the event log and the bound they put on a job.
- `Selection`, `BulkMatch`: the choice of a destination, clustering and scheduling.
- `Events`: the event scheduler with its timed and its ready queue.
- `Filename`, `Jobdir`: the two name codecs. `Common` holds what several modules share.

Where the original changes state in place, the model is a class or a method with loops, and its
contract ties the new state to a specification function; the properties are proved of that function.

Inputs from outside are parameters: clocks, the thread a notification picks, random draws, the
matches found for a description, the status the logging service reports, the token file.

Where the code and its intention part, the model follows the code and states the exact condition:

- Crashes between the clearing of the backups and the status byte that announces it are not survived,
  nor are most of those while a list is emptied or filled for the first time
  (`InsertionIsAtomic`, `RemovalIsAtomic`, `ClearedIsLost`, `FirstIsLost`, `OnlyIsLost`).
- A crash inside recovery is not survived from the status byte `truncateFile` writes to the last write
  that restores something, nor from the cut of the consistency check to the link of the last element
  (`InsertionIsDurableTwice`, `RemovalIsDurableTwice`, `RecoveryCanBreak`).
- `add_data` reads the end of the file before it recovers. When recovery moves the end, the element is
  not inserted though the answer is good (`InsertedIffEndIsFresh`, `AddAfterCrashBreaks`, `AddData`);
  for the same reason reading the list fails then (`FillVector`, `CompactData`).
- `add_data` takes offset 0 for a place and writes an iterator over the stamp (`StampStaysLost`).
- Empty data is refused by `add_data` only after the list was relinked; the next opening recovers
  from that exactly when the list has elements (`AddData`). When another process does that opening,
  the one refused at an end of the list keeps wrong limits (`RefusalLeavesStaleCache`).
- Compaction empties the file before it finds that an element is refused (`CompactionStopsAtEmpty`).
- Nodes with lists of their own can share a cluster, and so the description they are matched with,
  and still disagree on an attribute significant to one of them (`SameKeyCanDisagree`,
  `ClusterAgreesIff`).
- With its token there, a job that says no shallow count is refused although its deep count would allow
  the request (`SilentJobIsRefused`).
- Of events scheduled for one time with one priority the last scheduled is carried out first
  (`WaitingTies`, `ExpiredTies`).
- The 16-bit stamp counter can wrap (`UpdatedStampIsNewer`).
- With two or more workers the scheduler can look at the first event of an empty queue
  (`SafeWithOneWorker`, `TwoWorkersBreak`).
- A character from 128 on is sign-extended in a file name and does not decode to itself
  (`RoundTrip`), though names stay unique (`EncodeIsInjective`).
- A DAG node still called submitted is queued again by the next pass (`QueuedAgain`,
  `QueuedTwice`).
- A pipe of size zero can leave a reader and a writer waiting for each other (`DeadlockNeedsNoRoom`).

## Model

| member | source | states |
|---|---|---|
| `Disk.ChainIsUnique` | common/src/utilities/filecontainer.cpp:1459-1592 | a file holds at most one list: limits and links determine the chain the consistency walk follows |
| `Layout.HeaderTiles` | common/src/utilities/filecontainer.cpp:232-244 | the header fields and backup slots tile the header: each begins where the one before it ends, from offset 0 to the first record; a record takes calculateDataSize bytes |
| `Layout.FieldsAreApart` | common/src/utilities/filecontainer.cpp:232-244 | no two header fields share a byte and all lie in the header |
| `Layout.RecordText` | common/src/utilities/filecontainer.cpp:1096-1127 | the text writeDataHere leaves is exactly calculateDataSize bytes long |
| `Layout.DigitsRoundTrip` | common/src/utilities/filecontainer.cpp:1657-1681 | zero-filled digits of a number, wherever they stand, read back as the number, for every width, in decimal and in hexadecimal |
| `Layout.RecordLines` | common/src/utilities/filecontainer.cpp:1080-1127 | a record is in the file exactly when its four lines and its data are at their offsets |
| `Layout.IterTextIs` | common/src/utilities/filecontainer.cpp:1657-1681 | an iterator is written as its two positions in hexadecimal, the one before first |
| `Layout.SizeTextIs` | common/src/utilities/filecontainer.cpp:1080-1094 | a size is written in decimal with 'g' behind it for a record in use and 'i' for an erased one |
| `Layout.ReadIterator` | common/src/utilities/filecontainer.cpp:1669-1681 | reading an iterator line gives back whichever two positions were written there |
| `Layout.ReadSizeAndState` | common/src/utilities/filecontainer.cpp:879-905 | reading a size line gives back whichever size and state were written there |
| `Layout.ReadData` | common/src/utilities/filecontainer.cpp:1270-1320 | the buffered loop reads exactly the bytes asked for |
| `Layout.ReadDataHere` | common/src/utilities/filecontainer.cpp:1270-1320 | whatever record was written at an offset, line ends in its data included, is read back whole; an erased one only when forced |
| `Bytes.StatusBytesDiffer` | common/interface/glite/wms/common/utilities/filecontainer.h:122-149 | no two statuses share their byte |
| `Bytes.StatusBytesAre` | common/interface/glite/wms/common/utilities/filecontainer.h:122-149 | the bytes run from 'a' in the order of the enumeration, with '0', '1' and a blank for closed, opened and empty |
| `Bytes.TextsAre` | common/src/utilities/filecontainer.cpp:505-527 | a stamp is written epoch first, a slot its position first, limits the first element first |
| `Bytes.FieldWritten` | common/src/utilities/filecontainer.cpp:390-412 | writing one header field leaves every other field and every record as it was |
| `Bytes.FirstLineWritten` | common/src/utilities/filecontainer.cpp:836-854 | writing an iterator over a record changes its two pointers and nothing else |
| `Bytes.HeaderWritten` | common/src/utilities/filecontainer.cpp:1028-1094 | marking a record changes its state letter and pointers; size, data and file-order line stay |
| `Bytes.Appended` | common/src/utilities/filecontainer.cpp:1096-1127 | an append adds the record and disturbs nothing |
| `Bytes.CutShort` | common/src/utilities/filecontainer.cpp:347-373 | truncating the file keeps exactly the records that end by the new length |
| `Bytes.EmptyPut` | common/src/utilities/filecontainer.cpp:479-503 | createEmptyBackup clears the four slots and the backup of the limits, and nothing else |
| `Bytes.WriteSimulates` | common/src/utilities/filecontainer.cpp:390-582 | whatever the write, the bytes it leaves hold the disk the model leads to |
| `Bytes.RunSimulates` | common/src/utilities/filecontainer.cpp:1820-1978 | the bytes after any number of writes of a program hold the state of the model at that point |
| `Bytes.CrashSimulates` | common/src/utilities/filecontainer.cpp:1096-1127 | every file a crash can leave, a partly appended record included, holds a disk that a crash of the model leaves |
| `Bytes.LimitsReadBack` | common/src/utilities/filecontainer.cpp:584-604 | limits and their backup are read back as written |
| `Bytes.SlotReadsBack` | common/src/utilities/filecontainer.cpp:529-561 | a backup slot is read back as the position and the pointers saved in it |
| `Bytes.SizeReadsBack` | common/src/utilities/filecontainer.cpp:441-458 | the element count is read back as written |
| `Recovery.WalkVisitsChain` | common/src/utilities/filecontainer.cpp:1459-1592 | from any element on, the consistency walk counts exactly the elements still to come and its extent covers them all |
| `Recovery.WalkWholeChain` | common/src/utilities/filecontainer.cpp:1459-1592 | from the first limit it ends at the last one, having counted the list |
| `Recovery.CheckKeepsList` | common/src/utilities/filecontainer.cpp:1459-1592 | on a file that holds a non-empty list and a count within the allowance, checkConsistency succeeds, keeps the list and leaves a matching count |
| `Recovery.CountIsCorrected` | common/src/utilities/filecontainer.cpp:1520-1548 | the count is corrected exactly when it is short by no more than a positive allowance, over by no more than a negative one, or the allowance is zero |
| `Recovery.EmptyRecovers` | common/src/utilities/filecontainer.cpp:2232-2245 | a file left empty is created again exactly when it counts no element and its first element is not at its end; one that was to be cut is cut, or created again when cut to nothing |
| `Undoing.SlotRestores` | common/src/utilities/filecontainer.cpp:2189-2413 | writing a saved iterator back undoes a change of the pointers it saved |
| `Undoing.MarkRestores` | common/src/utilities/filecontainer.cpp:1056-1078 | un-marking restores an erased record |
| `Undoing.UndoneIsRestored` | common/src/utilities/filecontainer.cpp:2189-2413 | when the undo steps bring the list back, recovery ends in a well-formed container with it |
| `Undoing.ClearedIsLost` | common/src/utilities/filecontainer.cpp:2189-2413 | with the backups cleared and the status not yet saying so, recovery gives up |
| `Insertion.AtEndStates` | common/src/utilities/filecontainer.cpp:1174-1219 | the disk after every number of writes of addDataAtEnd |
| `Insertion.AtEndKeepsPromise` | common/src/utilities/filecontainer.cpp:1174-1219 | at each status byte of addDataAtEnd the backups hold what the matching undo needs |
| `Insertion.AeUndone` | common/src/utilities/filecontainer.cpp:2251-2272 | the cases ae_* bring every such disk back to the list before |
| `Insertion.AtBeginStates` | common/src/utilities/filecontainer.cpp:1129-1172 | the disk after every number of writes of addDataAtBegin |
| `Insertion.AtBeginKeepsPromise` | common/src/utilities/filecontainer.cpp:1129-1172 | at each status byte of addDataAtBegin the backups hold what the matching undo needs |
| `Insertion.AbUndone` | common/src/utilities/filecontainer.cpp:2274-2301 | the cases ab_* bring every such disk back to the list before |
| `Insertion.InMiddleStates` | common/src/utilities/filecontainer.cpp:1221-1268 | the disk after every number of writes of addDataInMiddle |
| `Insertion.InMiddleKeepsPromise` | common/src/utilities/filecontainer.cpp:1221-1268 | at each status byte of addDataInMiddle the backups hold what the matching undo needs |
| `Insertion.AmUndone` | common/src/utilities/filecontainer.cpp:2303-2334 | the cases am_* bring every such disk back to the list before |
| `Insertion.FirstIsLost` | common/src/utilities/filecontainer.cpp:2251-2272 | recovery fails at every crash point of an insertion into an empty list from its first status byte on: there is no element to restore |
| `Removal.EndStates` | common/src/utilities/filecontainer.cpp:907-1026 | the disk after every number of writes that remove the first or the last of several elements |
| `Removal.EndKeepsPromise` | common/src/utilities/filecontainer.cpp:907-1026 | at each status byte of such a removal the backups hold what the matching undo needs |
| `Removal.Rd1Undone` | common/src/utilities/filecontainer.cpp:2346-2366 | the cases rd_limits, rd_iterator and rd_mark1 restore limits, neighbour and mark in fall-through order |
| `Removal.MiddleStates` | common/src/utilities/filecontainer.cpp:907-1026 | the disk after every number of writes that remove an inner element |
| `Removal.MiddleKeepsPromise` | common/src/utilities/filecontainer.cpp:907-1026 | at each status byte of such a removal the backups hold what the matching undo needs |
| `Removal.Rd2Undone` | common/src/utilities/filecontainer.cpp:2368-2388 | the cases rd_iterator2, rd_iterator3 and rd_mark2 restore both neighbours and the mark |
| `Removal.OnlyIsLost` | common/src/utilities/filecontainer.cpp:2340-2344 | a file cut to its header whose count still says one element is no well-formed container, whatever its links |
| `Atomicity.InsertionIsAtomic` | common/src/utilities/filecontainer.cpp:1820-1875 | crash atomicity of add_data: on any list, at any place, a crash after any write or inside the append is recovered to the old or the new sequence if and only if it does not fall between clearing the backups and their status byte and, on an empty list, not while the status points at a missing element |
| `Atomicity.InsertionCompletes` | common/src/utilities/filecontainer.cpp:1820-1875 | uninterrupted, add_data of non-empty data leaves a well-formed container with the element inserted, its place in the file order filled in, and every other record as it was but for its pointers |
| `Atomicity.UnfinishedIsUndone` | common/src/utilities/filecontainer.cpp:1820-1875 | interrupted before its closing writes, add_data leads back to the old sequence, or nowhere, exactly on the condition of InsertionIsAtomic |
| `Atomicity.RefusalIsRestored` | common/src/utilities/filecontainer.cpp:1096-1127 | an add refused for empty data, on a list with elements, is recovered to the very same elements |
| `Atomicity.RemovalIsAtomic` | common/src/utilities/filecontainer.cpp:1910-1978 | crash atomicity of remove_data, again with the exact condition; for an only element just the opening writes and the finished removal are survived |
| `Atomicity.RemovalCompletes` | common/src/utilities/filecontainer.cpp:1910-1978 | uninterrupted, remove_data leaves a well-formed container without the element; with others left its record stays in the file, erased, and no other record is marked |
| `Creation.NewFileIsEmpty` | common/src/utilities/filecontainer.cpp:306-345 | the bytes createEmptyFile writes hold the empty container, which is well-formed |
| `Creation.NewFileLines` | common/src/utilities/filecontainer.cpp:306-345 | the lines of a new file: the time with a counter of zero, no element, closed, blank backups, limits that name the end of the header |
| `Durable.AddIsLegal` | common/src/utilities/filecontainer.cpp:1820-1875 | every write add_data issues fits its columns and overwrites records only |
| `Durable.RemoveIsLegal` | common/src/utilities/filecontainer.cpp:1910-1978 | the same for remove_data, truncation of the file included |
| `RecoveryProgram.UndoIsPlanned` | common/src/utilities/filecontainer.cpp:2229-2400 | whatever the status, the fall-through switch does what its list of writes does, or fails, or creates the file again |
| `RecoveryProgram.CheckIsProgram` | common/src/utilities/filecontainer.cpp:1459-1592 | checkConsistency does what its list of writes does: the count, the cut, its status, the link of the last element |
| `RecoveryProgram.RecoveryIsProgram` | common/src/utilities/filecontainer.cpp:2189-2413 | recover_data succeeds exactly when it has a list of writes, or creates the file again, and leaves what they make of the disk |
| `FileRecovery.HeaderIsRead` | common/src/utilities/filecontainer.cpp:414-604 | status, count, the four slots and both limits read from a file that holds a disk are those of the disk |
| `FileRecovery.WalkIsRead` | common/src/utilities/filecontainer.cpp:1459-1592 | the walk over the bytes counts and reaches what the walk over the disk does |
| `FileRecovery.PlanIsRead` | common/src/utilities/filecontainer.cpp:2229-2400 | the switch decides on the bytes, the links it reads on its way included, as it does on the disk |
| `FileRecovery.CheckSimulates` | common/src/utilities/filecontainer.cpp:1459-1592 | checkConsistency reads on the bytes what it reads on the disk and leaves a file that holds what it leaves of the disk |
| `FileRecovery.RecoverySimulates` | common/src/utilities/filecontainer.cpp:2189-2413 | where the undo steps write over records only, and where the file is created again, recover_data on the bytes leaves a file that holds what it leaves of the disk |
| `FileRecovery.WritesAreRead` | common/src/utilities/filecontainer.cpp:2189-2413 | recovery issues on the bytes the very writes it issues on the disk, and each hits what it is meant for |
| `FileCrashes.ClearedFails` | common/src/utilities/filecontainer.cpp:2189-2413 | recover_data on the bytes fails once the backups are cleared and the status does not say so: behind offset 0 there is no size line, and the check has nowhere to start |
| `FileCrashes.HeadlessFails` | common/src/utilities/filecontainer.cpp:2251-2272 | it fails on a file whose list had no element to restore |
| `FileCrashes.EmptiedFails` | common/src/utilities/filecontainer.cpp:2340-2344 | on a file being cut to its header it fails or leaves the count of one element in a bare header |
| `Durable.FileHoldsOne` | common/src/utilities/filecontainer.cpp:1459-1592 | the bytes of a file hold at most one sequence, under one stamp |
| `Durable.InsertionIsDurable` | common/src/utilities/filecontainer.cpp:1820-1875 | crash atomicity of add_data on the bytes: after any write, and any number of bytes into the append, recover_data on those bytes leaves a file holding the old or the new sequence exactly on the condition of InsertionIsAtomic, the status read from the file |
| `Durable.RemovalIsDurable` | common/src/utilities/filecontainer.cpp:1910-1978 | the same for remove_data |
| `Crashes.InsertionKinds` | common/src/utilities/filecontainer.cpp:1820-1875 | what every crash of add_data leaves: a list at rest, one still to be counted, kept promises, cleared backups or a missing element |
| `Crashes.RemovalKinds` | common/src/utilities/filecontainer.cpp:1910-1978 | the same for remove_data, where the file may also be half emptied |
| `SecondCrash.CheckCrash` | common/src/utilities/filecontainer.cpp:1555-1592 | a crash inside checkConsistency is survived exactly outside the stretch from its cut to the link of the last element, where recovery leaves no list that holds together |
| `SecondCrash.ShortenedIsLost` | common/src/utilities/filecontainer.cpp:1459-1592 | after the cut a second walk finds nothing more to cut, so the last element keeps pointing past the end |
| `Interrupted.UncutSettles` | common/src/utilities/filecontainer.cpp:2251-2400 | a switch that does not truncate keeps the promises it found at each of its writes, so every crash in it is survived |
| `Interrupted.CutSettles` | common/src/utilities/filecontainer.cpp:347-373 | a switch that truncates is exposed exactly from the status truncateFile writes to its last write that restores something |
| `Interrupted.InsertionRecoveredTwice` | common/src/utilities/filecontainer.cpp:2189-2413 | a survived crash of add_data followed by a crash of its recovery after any write: recovering again finds the old or the new sequence exactly when the second crash is in neither stretch |
| `Interrupted.RemovalRecoveredTwice` | common/src/utilities/filecontainer.cpp:2189-2413 | the same for remove_data |
| `DurableTwice.UnheldFileHoldsNothing` | common/src/utilities/filecontainer.cpp:1459-1592 | a file that holds a disk whose links lead nowhere holds no sequence, whatever else could be read into it |
| `DurableTwice.InsertionIsDurableTwice` | common/src/utilities/filecontainer.cpp:2189-2413 | the same on the bytes: add_data dies anywhere, recover_data on the bytes left dies after any write, and recover_data on what is left then finds the old or the new sequence exactly when the second crash was not exposed |
| `DurableTwice.RemovalIsDurableTwice` | common/src/utilities/filecontainer.cpp:2189-2413 | the same for remove_data |
| `Interrupted.RecoveryCanBreak` | common/src/utilities/filecontainer.cpp:347-373 | for every list with an element there are two crashes of which the first is survived and the second is not |
| `StaleEnd.InsertedIffEndIsFresh` | common/src/utilities/filecontainer.cpp:1820-1875 | add_data with the end of the file it read on entry leaves the element inserted exactly when that is still the end and the offset is not 0 |
| `StaleEnd.CrashMovesEnd` | common/src/utilities/filecontainer.cpp:1820-1837 | a crash of an add at the end after which recovery moves the end of the file |
| `StaleEnd.AddAfterCrashBreaks` | common/src/utilities/filecontainer.cpp:1820-1837 | after that crash every add_data that answers good with nothing in between leaves a file without the element inserted |
| `StaleEnd.StampStaysLost` | common/src/utilities/filecontainer.cpp:836-854 | an iterator written at offset 0 leaves epoch 0 in the stamp, for good and also when the data is refused |
| `Sessions.UpdatedStampIsNewer` | common/src/utilities/filecontainer.cpp:1628-1646 | update_stamp exceeds the stamp on disk exactly when the clock has moved on or the 16-bit counter does not wrap |
| `Sessions.UpdatedStampIs` | common/src/utilities/filecontainer.cpp:1628-1646 | its epoch is the later of the clock and the file's; its counter is zero in a new epoch and otherwise one more than the highest known in it |
| `Sessions.CacheIsCurrent` | common/src/utilities/filecontainer.cpp:282-304 | what a process works with after catching up with the file is what the file says |
| `Sessions.CreatedIsSound` | common/src/utilities/filecontainer.cpp:306-345 | a created file and no process yet: the empty sequence, coherent |
| `Sessions.RefusalIsUndone` | common/src/utilities/filecontainer.cpp:1096-1127 | what a refused add leaves is recovered to the same list, while the refused process keeps the limits it had moved unless the place was inside the list |
| `Sessions.RefusedAddKeepsSound` | common/src/utilities/filecontainer.cpp:1096-1127 | a refused add and the recovery after it keep the caches coherent and the sequence, when the refused process recovers itself or the place was inside the list |
| `Sessions.RefusalLeavesStaleCache` | common/src/utilities/filecontainer.cpp:1096-1127 | when another process recovers, the refused one takes a wrong cache for current exactly when the place was at an end of the list |
| `Sessions.StepRefines` | common/src/utilities/filecontainer.cpp:1820-1978 | every step of any process, refusal, crash, crash inside the recovery after it, or reopening keeps the caches coherent and is a step of one sequence |
| `Sessions.RunStaysSound` | common/src/utilities/filecontainer.cpp:742-779 | on every run no cached stamp is newer than the file's, and equal stamps mean equal limits and count |
| `Sessions.RunRefinesSequence` | common/src/utilities/filecontainer.cpp:1820-1978 | every run of any number of processes, emptying, refilling, refusals, crashes and crashes inside recovery included, maps step by step to a run of one sequence |
| `Compaction.RebuiltIsPacked` | common/src/utilities/filecontainer.cpp:2139-2187 | a list written again from the header on lies gapless in list order |
| `Compaction.CompactionStopsAtEmpty` | common/src/utilities/filecontainer.cpp:2139-2187 | compaction that comes upon an empty element has emptied the file: opening it again finds the elements before that one as a well-formed list exactly when there is one of them |
| `Compaction.CompactionKeepsSequence` | common/src/utilities/filecontainer.cpp:2139-2187 | compaction keeps the sequence, leaves no erased record, and the file is the header plus the sizes of the live records |
| `Container.FileContainer.WriteDataHere` | common/src/utilities/filecontainer.cpp:1096-1127 | appends the record between its two status bytes; empty data is refused before anything is written |
| `Container.FileContainer.AddDataAtEnd` | common/src/utilities/filecontainer.cpp:1174-1219 | issues exactly the planned writes and moves the limits |
| `Container.FileContainer.AddDataAtBegin` | common/src/utilities/filecontainer.cpp:1129-1172 | issues exactly the planned writes and moves the limits |
| `Container.FileContainer.AddDataInMiddle` | common/src/utilities/filecontainer.cpp:1221-1268 | issues exactly the planned writes |
| `Container.FileContainer.RemoveDataPointer` | common/src/utilities/filecontainer.cpp:907-1026 | issues exactly the planned writes of one of the four removal paths and moves the limits |
| `Container.FileContainer.Traverse` | common/src/utilities/filecontainer.cpp:1459-1592 | the loop along the list finds what the walk function finds |
| `Container.FileContainer.CheckConsistency` | common/src/utilities/filecontainer.cpp:1459-1592 | leaves the file and the limits the specification gives, and fails exactly when it does |
| `Container.FileContainer.UndoByStatus` | common/src/utilities/filecontainer.cpp:2189-2413 | the fall-through switch undoes what the status says was begun |
| `Container.FileContainer.RecoverData` | common/src/utilities/filecontainer.cpp:2189-2413 | recovery succeeds exactly when the specification does, with its file and limits |
| `Container.FileContainer.Prepare` | common/src/utilities/filecontainer.cpp:1393-1452 | a container not closed is recovered first; afterwards the process works with the limits and the count of the file, and remembers its stamp whenever recovery kept it or created the file again |
| `Container.FileContainer.CreateEmptyFile` | common/src/utilities/filecontainer.cpp:306-345 | the file and the limits become those of a new container, and the stamp in memory that of the file |
| `Container.FileContainer.AddData` | common/src/utilities/filecontainer.cpp:1820-1875 | reads the end, then recovers, then inserts: a good answer means the element is in the list exactly when recovery did not move the end and the offset is not 0; then it is at the place asked for and the writes are those of the crash theorem; each refusal has its exact condition, and the process can go on unless the stamp was overwritten |
| `Container.FileContainer.RemoveData` | common/src/utilities/filecontainer.cpp:1910-1978 | recovers, then removes the element asked for; an offset that is no live record is refused, 0 and the end of the file as a syntax error; with elements left the record stays, erased; the process can go on after every answer but an unrecoverable file |
| `Container.FileContainer.ReadList` | common/src/utilities/filecontainer.cpp:1358-1391 | the loop reads the sequence, first to last, or stops with an error when the file ends before the end it was given |
| `Container.FileContainer.FillVector` | common/src/utilities/filecontainer.cpp:1358-1391 | recovers and reads the sequence, exactly when recovery did not move the end read before it |
| `Container.FileContainer.CompactData` | common/src/utilities/filecontainer.cpp:2139-2187 | leaves the compacted file of the sequence recovery finds, or stops at its first empty element; a process already initialised fails exactly when recovery moved the end |
| `Container.AddLast` | common/src/utilities/filecontainer.cpp:1820-1875 | behind a list at rest the element is added and the process can go on |
| `Container.RemoveElement` | common/src/utilities/filecontainer.cpp:1910-1978 | from a list at rest the element is removed and the process can go on |
| `Container.AddThenRemove` | common/src/utilities/filecontainer.cpp:1820-1978 | one process, two operations in a row: what it added it removes again and the sequence is the one before |
| `Container.RemoveTwice` | common/src/utilities/filecontainer.cpp:1910-1978 | an element cannot be removed twice: its offset is refused the second time and the list stays |
| `Pipe.NoWakeupIsLost` | common/src/task/Task.h:100-215 | for any threads, interleaving and spurious wakeups: a sleeping reader means the woken readers are enough for the queue, a sleeping writer that the woken writers are enough for the free places, and nobody sleeps on a closed end |
| `Pipe.SleepersAreRight` | common/src/task/Task.h:100-215 | once everybody notified has run, readers sleep only on an empty pipe still open for writing, writers only on a full one still open for reading |
| `Pipe.DeadlockNeedsNoRoom` | common/src/task/Task.h:100-215 | readers and writers can wait for each other exactly on a pipe of size zero |
| `Pipe.WokenCanResume` | common/src/task/Task.h:100-152 | a notified thread can always go on, and then is no longer notified |
| `Pipe.RunIsBoundedFifo` | common/src/task/Task.h:100-215 | on every run the fields hold what the log of events says, and the log is that of a bounded FIFO |
| `Pipe.FifoSoFar` | common/src/task/Task.h:100-215 | at every moment what was read is a prefix of what was written, short of it by at most the size of the pipe |
| `Pipe.PipeIsFifo` | common/src/task/Task.h:100-215 | items come out in order; Eof and Empty are thrown only with nothing left to read; nothing is added once the read end is closed |
| `Pipe.QueueFollowsCalls` | common/src/task/Task.h:100-166 | at every moment of every run a write that goes through appends the very item its caller gave, however often it waited, a read takes the oldest item, and nothing else touches the queue |
| `Pipe.GivenIsDelivered` | common/src/task/Task.h:100-166 | what was taken and what is still there are, in order, the items given to the writes that went through |
| `Pipe.LastOneCloses` | common/src/task/Task.h:175-215 | an end is closed exactly when at some moment of the run a close left it closed as often as opened; its count is what was opened less what was closed |
| `Pipe.WaitersStay` | common/src/task/Task.h:100-215 | a thread waits from a call that ends in a wait until its own next action that does not; nobody is forgotten and nobody waits without having called |
| `Pipe.CallNotifies` | common/src/task/Task.h:100-166 | a put or a take notifies one thread of the other side if one sleeps there, and no other call does |
| `Pipe.CloseNotifies` | common/src/task/Task.h:189-215 | the last to leave an end notifies everybody on the other side, the others nobody |
| `Pipe.IdleCanCall` | common/src/task/Task.h:100-152 | a thread that does not wait can call read and write in any state |
| `Pipe.BoundedPipe.Read` | common/src/task/Task.h:100-115 | read up to its return, its exception or its next wait is the step of the model |
| `Pipe.BoundedPipe.TryRead` | common/src/task/Task.h:117-134 | the same for try_read |
| `Pipe.BoundedPipe.Write` | common/src/task/Task.h:136-152 | the same for write: its item is appended when it returns, and kept for it when it waits |
| `Pipe.BoundedPipe.ResumeWrite` | common/src/task/Task.h:144-151 | the same for write coming out of a wait, where the read end is looked at again and the item kept for it is the one appended |
| `Pipe.BoundedPipe.TryWrite` | common/src/task/Task.h:154-166 | the same for try_write, which appends its item exactly when it returns |
| `Pipe.BoundedPipe.OpenReadEnd` | common/src/task/Task.h:175-180 | adds to the number of readers |
| `Pipe.BoundedPipe.OpenWriteEnd` | common/src/task/Task.h:182-187 | adds to the number of writers |
| `Pipe.BoundedPipe.CloseReadEnd` | common/src/task/Task.h:189-201 | the end is closed exactly when the last reader leaves, and then all writers are notified |
| `Pipe.BoundedPipe.CloseWriteEnd` | common/src/task/Task.h:203-215 | the end is closed exactly when the last writer leaves, and then all readers are notified |
| `Dag.QueuesReadyNodes` | core/src/submit_request.cpp:394-492 | a pass queues exactly the nodes not started whose parents are all DONE OK |
| `Dag.OneActionEach` | core/src/submit_request.cpp:394-492 | a pass queues or aborts a node at most once, never both, and takes the nodes in order |
| `Dag.AbortsDoomedNodes` | core/src/submit_request.cpp:418-459 | a pass aborts exactly the nodes not started with a parent that failed or was given up earlier in the pass |
| `Dag.AbortHasCause` | core/src/submit_request.cpp:418-459 | a node is aborted only below an aborted or cancelled one |
| `Dag.RunKeepsInv` | core/src/submit_request.cpp:340-514 | in every state of every run a queued node has all parents DONE OK, a started node was queued, an aborted node is below a failed one |
| `Dag.QueuedAfterAncestors` | core/src/submit_request.cpp:340-514 | when a node has been queued, each of its ancestors is DONE OK at that moment and ever after |
| `Dag.NothingBelowFailure` | core/src/submit_request.cpp:340-514 | below a node that is aborted or cancelled at some point of a run nothing is queued at any point of it |
| `Dag.NeverQueuedAndAborted` | core/src/submit_request.cpp:394-492 | the manager never both queues and aborts a node |
| `Dag.QueuedAgain` | core/src/submit_request.cpp:394-492 | a pass queues a node a second time exactly when the log still calls it submitted |
| `Dag.QueuedTwice` | core/src/submit_request.cpp:394-492 | on every graph two passes in a row both queue a node without parents |
| `Dag.VerdictIsRight` | core/src/submit_request.cpp:494-514 | the DAG is logged done exactly when every node is DONE OK; when it is logged aborted nothing is in flight and nothing is left to start |
| `Dag.SomethingIsDone` | core/src/submit_request.cpp:394-492 | on a ranked graph a pass with something to start and nothing in flight queues or aborts a node |
| `Dag.StallsOnlyOnCycles` | core/src/submit_request.cpp:394-492 | a pass can be left with nodes to start, nothing in flight and nothing done exactly on a cyclic graph |
| `Dag.ManageDag` | core/src/submit_request.cpp:340-514 | both loops and the verdict, with colours changed in place, compute the actions, in node order, and the verdict of the specification |
| `Dag.LookAtParents` | core/src/submit_request.cpp:422-471 | the loop over the in-edges, which stops at the first red parent, tells whether one is red and otherwise whether all are green |
| `Resubmission.FindLastDeep` | core/src/lb_utils.cpp:525-536 | the last deep resubmission, or the end when there is none |
| `Resubmission.CountsAreRight` | core/src/lb_utils.cpp:540-565 | the counts read back are the number of all deep resubmissions and of the shallow ones behind the last of them, wherever that is |
| `Resubmission.ChecksAreLimits` | core/src/submission_utils.cpp:127-168 | the checks let a count through exactly when the job says a higher one and the system allows a higher one, that is below max(0, min(job, system)) |
| `Resubmission.LimitIsNamed` | core/src/submission_utils.cpp:127-168 | a refusal names the limit of the job where that is hit and that of the system otherwise |
| `Resubmission.RequestIs` | core/src/submit_request.cpp:682-713 | with the token there the shallow count decides unless the job says -1, without it or with -1 the deep count does; the request is logged or refused with the reason |
| `Resubmission.SilentJobIsRefused` | core/src/submit_request.cpp:682-713 | with the token there a job that says no shallow count is refused, whatever its deep count allows |
| `Resubmission.ResubmissionsAreBounded` | core/src/submit_request.cpp:682-713 | every reachable log holds at most D deep resubmissions and at most (D+1)(S+1)-1 in all |
| `Resubmission.BoundIsReached` | core/src/submit_request.cpp:682-713 | some run reaches the bound, and there every further request is refused |
| `BulkMatch.MakeKey` | core/src/bulkmm_utils.cpp:176-210 | the loop collects the significant attributes that have a value, or falls back to the name |
| `BulkMatch.FoundMore` | core/src/bulkmm_utils.cpp:176-210 | one more attribute on the list adds itself and its value at the end of the key, or nothing when it has none |
| `BulkMatch.NearestCounts` | core/src/bulkmm_utils.cpp:128-174 | a value and a list of significant attributes are those of the node, or else of what the nodes share, or else of the whole |
| `BulkMatch.ClustersGoByValues` | core/src/bulkmm_utils.cpp:128-210 | nodes that see different values of an attribute on both their lists are in no cluster together; nodes with the same list that see the same values, and any at all, are |
| `BulkMatch.SameKeyAgrees` | core/src/bulkmm_utils.cpp:176-210 | nodes with a common key agree on every attribute significant to both |
| `BulkMatch.SameKeyAgreesIff` | core/src/bulkmm_utils.cpp:128-210 | on an attribute significant to one of them they agree exactly when it is significant to the other as well or has no value there |
| `BulkMatch.SameKeyCanDisagree` | core/src/bulkmm_utils.cpp:128-210 | two nodes with a common key that disagree on an attribute significant to the first |
| `BulkMatch.ClusterAgreesIff` | core/src/bulkmm_utils.cpp:128-210 | nodes of one cluster agree on everything significant to the first exactly when the list of the second names all of it that the second has values for |
| `BulkMatch.SameListsAgree` | core/src/bulkmm_utils.cpp:128-150 | nodes of one cluster whose lists hold the same attributes agree on all of them |
| `BulkMatch.LonelyKey` | core/src/bulkmm_utils.cpp:202-207 | a node without significant attributes shares its key exactly with a node whose only attribute is called like it and is empty |
| `BulkMatch.AloneWithoutAttributes` | core/src/bulkmm_utils.cpp:202-207 | so it is alone as long as no attribute unparses to nothing |
| `BulkMatch.Clusterize` | core/src/bulkmm_utils.cpp:455-467 | the clusters are the classes of nodes with a common key, names in order, with the description of the first |
| `BulkMatch.ClustersPartition` | core/src/bulkmm_utils.cpp:455-467 | every node is in exactly one cluster, that of its key |
| `BulkMatch.TemplateIsFirst` | core/src/bulkmm_utils.cpp:455-467 | a cluster is matched with the description of the first node with its key |
| `BulkMatch.MembersInOrder` | core/src/bulkmm_utils.cpp:455-467 | the names of a cluster come in the order of the nodes |
| `BulkMatch.MakePool` | core/src/bulkmm_utils.cpp:503-527 | the matches chosen from are all of them with positive weights or, without fuzzy rank, those of maximal rank with weight one |
| `BulkMatch.ScheduleCluster` | core/src/bulkmm_utils.cpp:482-573 | every node of a cluster with matches gets the match its draw falls to; without matches none does |
| `BulkMatch.ChosenIsBest` | core/src/bulkmm_utils.cpp:516-536 | without fuzzy rank the match chosen has maximal rank among all matches |
| `BulkMatch.DoBulkMatch` | core/src/bulkmm_utils.cpp:580-603 | each node ends exactly once, scheduled with a match of its cluster or pending, and pending exactly when its cluster has no matches |
| `BulkMatch.Conserved` | core/src/bulkmm_utils.cpp:538-573 | scheduled and pending together are the nodes, each once |
| `Selection.MaxPartition` | core/src/bulkmm_utils.cpp:263-278 | a permutation in place with the matches of maximal rank, and no others, in front |
| `Selection.Partition` | core/src/bulkmm_utils.cpp:273-277 | a permutation with the matches of the given rank in front |
| `Selection.PartialSum` | core/src/bulkmm_utils.cpp:311-311 | in place, each element becomes the sum up to it |
| `Selection.MakeDistribution` | core/src/bulkmm_utils.cpp:280-315 | partial sums of the weights: for every match the curve at the scaled distance of its rank from the mean |
| `Selection.MeanBalances` | core/src/bulkmm_utils.cpp:299-299 | the mean is the one number that the ranks exceed as much as they fall short of it |
| `Selection.BetterIsLikelier` | core/src/bulkmm_utils.cpp:304-305 | on a rising curve with a positive factor, of two ranks the higher has the greater weight |
| `Selection.LowerBound` | core/src/bulkmm_utils.cpp:341-343 | the first element not less than the point, by halving |
| `Selection.Select` | core/src/bulkmm_utils.cpp:334-349 | every draw in [0,1) chooses a valid match, the only one that owns it |
| `Selection.OwnedInterval` | core/src/bulkmm_utils.cpp:334-349 | the draws that choose a match are those of one half-open interval |
| `Selection.OwnedShare` | core/src/bulkmm_utils.cpp:334-349 | it is as long as the share of its weight in the total |
| `Selection.EqualShares` | core/src/bulkmm_utils.cpp:516-536 | each of k matches of equal weight owns a draw interval of length 1/k |
| `Events.InsertReadyKeeps` | core/src/events.cpp:129-143 | scheduling keeps the ready queue in order of priority and time and adds just the event |
| `Events.InsertWaitingKeeps` | core/src/events.cpp:145-162 | scheduling at a time keeps the waiting queue in order of time and adds just the event |
| `Events.ExpiredToReadyMoves` | core/src/events.cpp:83-94 | exactly the events with time at most now leave the waiting queue, and nothing is lost |
| `Events.ReadyTies` | core/src/events.cpp:129-143 | a ready event goes behind those of its time and priority |
| `Events.WaitingTies` | core/src/events.cpp:145-162 | a waiting event goes before those of its time and priority |
| `Events.ExpiredTies` | core/src/events.cpp:83-94 | expired events go behind the ready ones of their time and priority, in the order they waited in |
| `Events.StoppedTakesNothing` | core/src/events.cpp:164-226 | once stopped the scheduler hands out nothing, and every worker that looks leaves for good |
| `Events.NothingAfterStop` | core/src/events.cpp:164-226 | in every run nothing is taken after a stop |
| `Events.RunKeeps` | core/src/events.cpp:129-216 | over any run of any workers and schedulers what was scheduled is waiting, ready or taken, each as often, and nothing is taken before its time |
| `Events.RunTakesFirst` | core/src/events.cpp:164-216 | whenever an event is taken, all that were ready or had expired have a higher priority number, or the same and no earlier time |
| `Events.RunAwaits` | core/src/events.cpp:183-190 | a lone worker in its timed wait has something to wait for |
| `Events.TwoWorkersBreak` | core/src/events.cpp:183-190 | a run of two workers that looks at the first event of an empty queue |
| `Events.SafeWithOneWorker` | core/src/events.cpp:183-190 | some run does so exactly when there are two workers or more |
| `Events.Scheduler.AddReady` | core/src/events.cpp:129-143 | inserts behind every event that is not after the new one |
| `Events.Scheduler.Schedule` | core/src/events.cpp:129-143 | schedule is the step of the model |
| `Events.Scheduler.ScheduleAt` | core/src/events.cpp:145-162 | schedule_at is the step of the model: inserted before the first event of that time or later |
| `Events.Scheduler.ExpireWaiting` | core/src/events.cpp:83-94 | the queues become those of the specification |
| `Events.Scheduler.CollectNext` | core/src/events.cpp:180-200 | expires, then takes the first event among all ready or expired, leaves when stopped, or goes into the timed wait |
| `Events.Scheduler.Work` | core/src/events.cpp:164-200 | a pass of a worker up to its next wait or its event is the step of the model |
| `Events.Scheduler.Stop` | core/src/events.cpp:218-226 | stop is the step of the model |
| `Filename.HexInt` | common/src/utilities/manipulation.cpp:73-91 | the digits of a number, at least two |
| `Filename.ParseString` | common/src/utilities/manipulation.cpp:103-120 | the value of two hexadecimal digits in either case, 0 when one is none |
| `Filename.ToFilename` | common/src/utilities/manipulation.cpp:153-173 | the two-index loop encodes character by character |
| `Filename.FromFilename` | common/src/utilities/manipulation.cpp:175-197 | the two-index loop decodes code by code, or reads past the end where the last code is cut short |
| `Filename.RoundTrip` | common/src/utilities/manipulation.cpp:153-197 | decoding undoes encoding exactly on 7-bit strings |
| `Filename.DecodedLength` | common/src/utilities/manipulation.cpp:153-197 | every byte from 128 on is sign-extended and comes back as seven characters |
| `Filename.EncodeIsInjective` | common/src/utilities/manipulation.cpp:153-173 | no two byte strings share a file name, 7-bit or not |
| `Filename.EncodedIsClean` | common/src/utilities/manipulation.cpp:65-68 | file names hold letters, digits, '.', '-', ' ' and '_' only |
| `Filename.PlainIsKept` | common/src/utilities/manipulation.cpp:65-68 | exactly the identifiers made of letters, digits, '.', '-' and ' ' are their own file names |
| `Filename.CodesAre` | common/src/utilities/manipulation.cpp:153-173 | any other character is '_' and two digits, with ffffff before them from 128 on |
| `Filename.BadCodeIsZero` | common/src/utilities/manipulation.cpp:103-120 | a code that is not two hexadecimal digits stands for the character zero |
| `Filename.CutShort` | common/src/utilities/manipulation.cpp:175-197 | a name whose first '_' has fewer than two characters behind it is cut short |
| `Jobdir.FileName` | common/src/utilities/jobdir.cpp:129-151 | the name is the time in columns of fixed width, fraction included, then thread and tag |
| `Jobdir.NameHasColumns` | common/src/utilities/jobdir.cpp:129-151 | year, month, day, 'T', hour, minute, second, a dot and the fraction, each in its column, then '_' and the thread, then '_' and the tag if there is one |
| `Jobdir.NamesAreInTimeOrder` | common/src/utilities/jobdir.cpp:129-151 | for differing times and any thread and tag, names compare as the times do |
| `Jobdir.EntriesAreInTimeOrder` | common/src/utilities/jobdir.cpp:215-230 | entries sorted by name come in order of delivery |
| `Jobdir.PaddingIsNeeded` | common/src/utilities/jobdir.cpp:136-141 | without the padding a request on the full second would sort after later ones of that second |

## Left out

- Container.FileContainer.CompactData: a crash inside compaction is not modelled; the original relies on a copy of the file there. Recovery that neither keeps the stamp nor creates the file again, which writes an iterator over the stamp, is excluded.
- Container.FileContainer.AddData: an offset inside a record or on an erased one is outside the contract; the original parses whatever line is there. Recovery that makes the file longer, which takes a file shorter than a header, is excluded. The clock is past the epoch.
- Container.FileContainer.RemoveData: an offset inside a record is outside the contract, as is a live record that is in no list.
- Container.FileContainer.Prepare: where recovery has written an iterator over the stamp, nothing is promised about the stamp in memory.
- StaleEnd.StampStaysLost: only the epoch is stated; what the rest of the stamp and the count become depends on the digits of the iterator, and with a letter among them the line is no stamp at all.
- Sessions.RunRefinesSequence: an add that opens a crashed file is, where recovery leaves the end of the file in place, the reopening followed by the add; where it does not, it is the subject of StaleEnd and no step. A third crash in a row is no step. A refused add on an empty list, which is not recovered, is no step, nor is one at an end of the list that another process recovers.
- Bytes.CrashSimulates: a header field or an iterator is written as a whole; only an append can be torn, and the operating system keeps the order of writes.
- Bytes.WriteSimulates: an iterator written at offset 0, over the stamp, or at the end of the file is modelled on the disk value only.
- FileRecovery.RecoverySimulates: all four slots and both limits must be readable, where the original reads those its status needs.
- FileRecovery.WalkIsRead: where no size line follows an iterator the walk is lost; the original goes on to the offset the iterator names. No disk that a crash leaves has such a place in its list.
- BulkMatch.ClusterAgreesIff: no attribute unparses to an empty text; `LonelyKey` says what happens where one does.
- Container.FileContainer.RecoverData: a file whose links form a cycle, on which the walk of the original does not end, is outside the contract.
- Layout.ReadDataHere: what is read from text no write produced is left open.
- Layout.DigitsRoundTrip: bases other than ten and sixteen are not covered; the original writes numbers in these two only.
- Pipe.NoWakeupIsLost: counts of open ends may be any integer, as in the original; that users open an end before using it is not required.
- Selection.MakeDistribution: the arc tangent raised above zero is any positive curve and arithmetic is over the reals; over no match the mean is taken as zero, where the original divides zero by zero and does not use it.
- BulkMatch.DoBulkMatch: clusters are handled in any order, of which the original's order by key is one; adapting the description of a scheduled node is left out.
- Dag.ManageDag: the failure branches (the log cannot be queried, no context for a node) are excluded; all non-terminal states of a node are one.
- Resubmission.ResubmissionsAreBounded: the replanner, which also logs shallow resubmissions, is off.
- Events.RunKeeps: which worker a notification wakes is any; the function run for an event is left out.
- Filename.FromFilename: reading past the end of a name, undefined in the original, is an explicit outcome.
- File-order pointers of the container: the code fills them in but never follows them for the list order.
- FileContainer truncate, iterator increment and decrement, fc_removed, stream errors: not modelled; each is one write, one read or an error passed on.
- FileIterator takes 16 hexadecimal digits, as with 64-bit offsets.
- JobDir set_old and old_entries, get_reduced_part: one rename, one sort, one short recursion.
- empty of the pipe, ready_size and waiting_size: one lookup each.
- Replanner, cancel processor, purger, matchmaking itself, logging, proxies, configuration, user interfaces: they depend on external services.

# cscan, modelled and verified

cscan is a TCP scanner. One thread sends connection attempts to random targets at a bounded pace and
keeps the pending ones in a table until they are answered or time out. What answers goes through a bounded queue to a
worker thread, whose modules write what they find into a CBA file that all threads share. A Python class reads that
file and gives each thread's entries back. This project models those parts in Dafny and proves what they promise.

The modules, from the bottom up:

| module | models |
|---|---|
| `Sequences`, `Bytes`, `CbaFormat` | sequences, byte order, machine integers, the packets of a CBA file and their bytes |
| `CbaDecode`, `CbaReader` | the reader: as functions over bytes and over whole packets, and as classes with a cursor, one mutable state per thread and the files that exist |
| `CbaFiles` | the files a reader asks the file system for, and which of them are granted |
| `CbaWire` | the bytes of a CBA file in plain numbers |
| `CbaInterleave` | reading back packets, one thread, any interleaving of threads, appended files |
| `CbaOrder` | the order in which a pass yields entries, and the module it may be asked for |
| `CbaDisk` | what the stored files hold in the end |
| `CbaCalls`, `CbaMeaning` | the writer's interface: the packets a call sends, and what entries and files a sequence of calls means |
| `CbaRecords` | the log in its users' terms: records of named modules, written and read back |
| `CbaExtract` | which stored files are extracted, by module |
| `CbaRuns` | several runs that append to one file, on machines of any byte order |
| `CbaDeferral` | what fits in the deferral buffer |
| `CbaActs`, `CbaWriter` | what a call does to the file, lock by lock and write by write; the writer as a class with its deferral buffer |
| `CbaSession` | several writers and runs and a reader on one file |
| `LogLock`, `LogRuns` | any interleaving of the threads' locking and writing, and the flush that does without the lock; what the file then holds |
| `Ring`, `Queue`, `QueueProtocol` | the result queue: ring buffer, in-place class, and threads with lock, waits and late signals |
| `QueueDelivery`, `Results`, `ResultDelivery` | one scanner and one worker: no lost wakeup, coming to rest, delivery up to the poison pill |
| `QueueCrews` | the queue with any number of producers and workers |
| `SocketList`, `Kernel`, `ScanHistory`, `ScanLoop` | the pending table, the operating system as arbitrary answers within its promises, what these say was sent, found and given up, the scanning thread |
| `Counting`, `Targets`, `PortSpec`, `PortTexts`, `Ports`, `TableFile` | target tables, binary search, rejection sampling, portspec text, weighted ports, table files |
| `Resampling`, `TimeBucket` | event counts by time and their resampling |

How it is built:

* Code that updates state in place is a class or a method with loops, proved against functions on values; the
  properties are lemmas about those functions and invariants of those methods.
* Every scan is followed for a finite number of steps, `budget`, which is arbitrary: what holds at the end of
  `ConnThread` holds between any two rounds of any run. What the kernel answers is chosen freely in `Kernel`.
* In `QueueProtocol` a step is one of: take the lock, test the queue under it (and put, get, or fall asleep), unlock,
  signal, wake up for no reason. A run is any sequence of enabled steps.
* In `LogLock` a step is one of: take the file lock, write under it, release it, flush without it. The steps of a
  thread are those its calls make (`CallActs`), which the methods of `Writer` are proved to make.
* The reader's file system is a map from the files that exist to what they hold, the paths that cannot be opened
  (`blocked`), and the file each path leads to (`links`). `Written` counts every file a thread stores; `Survive` leaves
  those that could be opened, and `StoreAll` is the disk on which they have been put in place one after the other.
* What a scan has sent, found and given up is told by the kernel's answers and the clock alone (`Sends`, `Seen` and
  `Patient` in `ScanHistory`): no table of the scanner's comes into it.
* Writer and reader are proved against functions that both could share. `CbaWire` and `CbaRecords` therefore say in
  plain numbers what is in the file and what comes out of it, and `EncByte`, `NameKept`, `CodeKept`, `StringKept`,
  `WholeKept`, `DictExactly`, `EntriesInOrder` and `ExtractedExactly` what such functions mean.
* `AllSound` and `AllClear` in `CbaCalls` are the conditions under which a thread's calls can be read back: they are
  checks a caller can make before each call, and `FitsExactly`, `InsideExactly`, `DeferExactly` and `DataExactly` show
  that they are what the code needs.
* Where C says nothing of what happens next (a write or a read outside an array, an `int` that overflows), the model
  says when it comes to that and stops.

Where the code does not do what one would expect, the model keeps the code, shows an instance, and says exactly when
it does:

* A stored file's name is left in the file by a reader that does not extract for the module, which then loses its
  place (`FitsExactly`, `NameLeftInFile`).
* The reader refuses a file whose name exists, one it has stored itself included, but records its event. Every
  file is stored if and only if none is blocked and, without `overwrite`, none exists and no two are the same
  (`FilesKeptExactly`, `SecondFileLost`). With `overwrite` a later file takes the place of an earlier one: all are stored
  and hold their data in the end if and only if, moreover, those that share a place have the same data
  (`LastingExactly`, `FirstFileReplaced`). Entries do not depend on any of it (`LogKeepsEveryThread`).
* A file name with two slashes in front, pairs of dots aside, leads out of the directory for extracted files
  (`RelativeExactly`, `EscapesTheDirectory`).
* A deferred string is written outside the deferral buffer if and only if there is no room even for one of length
  zero: the negative room becomes a 16-bit length (`InsideExactly`, `LongStringOverruns`). A row of strings behind a
  head stays inside if and only if all but the last fit in whole and leave room for the last one's header
  (`RowInsideExactly`).
* An empty deferred string overwrites the last byte of its own header (`DeferExactly`, `EmptyDeferIsAHead`).
* Data chunks carry the first two bytes of a four-byte length, which is right on little-endian machines only
  (`DataExactly`, `BigEndianLosesData`).
* A run appends in its own machine's byte order, whatever the file's: its bytes are the right ones if and only if the
  orders agree or no number of its packets depends on the order (`OrdersAgree`, `OtherOrder`).
* Flushing what was deferred does not take the file lock. In a run, every packet and every flush stands in the file
  in one piece if and only if no flush falls between two writes of one packet (`WholeExactly`, `FlushCanTear`); the file
  then reads as the calls mean (`WholeRunReads`). They do so in every run of some threads' calls if and only if there
  are no two threads of which one flushes a head that waits and the other sends anything but flags
  (`AlwaysWholeExactly`).
* The queue signals only when it was empty or full. A thread can be left asleep for good although it could go on if
  and only if the queue has room for two and there are two producers or two workers (`StuckExactly`); the code has
  one of each. A result with address 0, which an unreadable address on standard input turns into, stops the worker
  (`ResultsExecuted`).
* A first port weight of 0 takes every draw; draws follow the weights if and only if none is negative and the first
  is positive, and only then does the table compiler accept a printed portspec (`WeightsExact`, `ZeroFirst`,
  `BothTables`).
* A portspec that was not printed may be read by the scanner and the table compiler in two ways, or by one only
  (`CommaAtEnd`, `Underscore`, `SpaceBeforeColon`). One the compiler accepts is read alike if and only if every part of
  it is: known white space in front, no underscore in a number but 0, and a weight that the scanner finds, or 1
  (`ReadAlikeExactly`).
* Without the random device every draw is the largest word. The search for an address then stays inside the table if
  and only if that holds all addresses (`DrawIp`); a port comes out if and only if the first weight is 0 or the
  weights together are 2^32 (`NoDeviceNoPort`).
* A truncated table file is accepted once its count can be read, and complete if and only if it is long enough
  (`TruncatedAccepted`, `CountAlone`); which counts give a table at all is `CountsLoaded`.
* Resampling takes the keys as they stand. It fails exactly when there are keys and the size is 0 or the first key
  below zero; every bucket holds its own keys if and only if those that come behind a later bucket's have nothing to
  count and find their bucket opened (`Sample`, `ResampledExactly`), which is so for sorted keys.

## Model

| member | source | states |
|---|---|---|
| Bytes.DecEnc | cba_reader.py:53-54 | unpacking the bytes of an integer that fits gives the integer back, in either byte order |
| Bytes.EncByte | cba_reader.py:53-54 | byte i of an integer is its i-th digit to base 256, from the low end or from the high end as the order says |
| CbaWire.WireFormat | cba.h:3-9 | type numbers, widths and marker letters as bytes: heads 0, strings 1, files 2, data 3, numbers 4 and 5, flags 6, 128 more and four bytes for a code, lengths of one or two bytes |
| CbaDecode.Table.Put | cba_reader.py:81-85 | updating one thread's state leaves all others as they were |
| CbaDecode.Sanitized | cba_reader.py:153-159 | the name opened has no two dots in a row, and a clean relative name is opened as it is |
| CbaDecode.FirstPairDropped | cba_reader.py:156-157 | pairs of dots are taken out from the left, without looking back |
| CbaDecode.RelativeExactly | cba_reader.py:156-165 | the name opened is absolute if and only if the stored one begins with two slashes, pairs of dots aside |
| CbaDecode.EscapesTheDirectory | cba_reader.py:156-165 | instances: "//e" and "/../e" open "/e" |
| CbaDecode.WriteAtBytes | cba_reader.py:93-94 | byte by byte, a write leaves the data where it goes, what was there elsewhere, and zeros in a gap |
| CbaFiles.WantedProjects | cba_reader.py:146-161 | the files asked for in the whole log are, thread by thread, those the thread's own packets ask for |
| CbaFiles.AllGranted | cba_reader.py:161-169 | every file asked for can be opened if and only if none is blocked and, without overwriting, none exists and no two are the same, whatever their order |
| CbaFiles.StorableByThread | cba_reader.py:161-169 | that holds for the whole log if and only if it holds for each thread and no two threads share a file |
| CbaFiles.GrantedAlone | cba_reader.py:161-169 | which files a thread is granted does not depend on the others, unless one of them asks for the same file |
| CbaFiles.ReadingSurvives | cba_reader.py:87-104 | a refused file changes nothing in a thread's reading but that it is not stored |
| CbaCalls.StringKept | cba.c:342-352 | a string is kept up to its first NUL, cut to the buffer, and behind a head to the room left |
| CbaCalls.NameKept | cba.c:96-112 | a module name of up to 255 characters is kept whole, and of a longer one as many as the remainder by 256; paths likewise by 65536 |
| CbaCalls.CodeKept | cba.c:116-119 | a code is the number with the same four bytes, and none exactly if it is 0 |
| CbaCalls.WholeKept | cba.c:280-296 | what is read from a file is kept whole and in order up to the first empty read |
| CbaCalls.DictExactly | cba_reader.py:25-27 | a code has a value if and only if an event has it, and then the last such event's |
| CbaInterleave.PacketRead | cba_reader.py:75-171 | reading a packet's bytes, whatever follows them, does to the thread's state what the packet says and stops exactly at its end |
| CbaInterleave.FitsExactly | cba_reader.py:146-171 | a packet is consumed whole if and only if its names are ASCII and a stored file's name is empty or extracted |
| CbaInterleave.NameLeftInFile | cba_reader.py:150-154 | an instance: without extraction a one-letter file name stays in the file |
| CbaInterleave.ShuffleRead | cba_reader.py:56-73 | however packets of any number of threads alternate, one pass yields for each thread what its own packets say, streams left open included, with files granted in the order of the log |
| CbaInterleave.TogetherAsAlone | cba_reader.py:56-93 | a thread reads the same entries from the shared file as from a file holding only its packets, and the same files unless another thread asks for one of them |
| CbaOrder.EntriesInOrder | cba_reader.py:56-73 | a pass yields for every head the entry its thread has under way there, and then the entries still under way in the order of their threads' first packets in the log, which is also that of the reader's states |
| CbaOrder.FilterExactly | cba_reader.py:67-69 | asked for one module, a pass yields of each thread exactly the entries of that module |
| CbaInterleave.PlayConcat | cba_reader.py:61-62 | packets read in two stretches give the outputs of both in order |
| CbaInterleave.HeadStartsAfresh | cba_reader.py:118-124 | a head closes the entry before it and forgets the rest of the thread's state |
| CbaInterleave.AppendComposes | cba_reader.py:67-124 | packets appended by a second run read, thread by thread, as the first run's outputs followed by the second's, read on the disk the first leaves |
| CbaInterleave.KeptExactly | cba_reader.py:161-169 | every thread is read in full if and only if all files can be opened and, unless existing ones are overwritten, told apart |
| CbaDisk.FilesStored | cba_reader.py:87-104 | where no two files overlap in the log, a pass leaves the disk as it was but for the files stored, each in its place, one after the other |
| CbaDisk.LastStands | cba_reader.py:163-165 | of the files stored in one place the last one's data is there in the end |
| CbaDisk.LastingExactly | cba_reader.py:161-169 | everything is given back and every file holds its data in the end if and only if the files can be opened, told apart unless overwritten, and agree where they share a place |
| CbaReader.ThreadState.constructor | cba_reader.py:14-15 | a new thread state is the empty one |
| CbaReader.ThreadState.Reset | cba_reader.py:17-23 | resetting gives the empty state |
| CbaReader.ThreadState.AddEvent | cba_reader.py:25-27 | an event is appended and becomes its code's latest value |
| CbaReader.CBA.constructor | cba_reader.py:39-47 | the first byte decides the byte order and is consumed |
| CbaReader.CBA.ReadChunk | cba_reader.py:87-104 | the chunk part of a pass, on the object, against the chunk function |
| CbaReader.CBA.ReadHead | cba_reader.py:118-124 | the head part, against its function: the old entry goes out before the state is cleared |
| CbaReader.CBA.Open | cba_reader.py:162-169 | opening succeeds exactly on a path not blocked whose file is new or may be overwritten, and leaves that file empty |
| CbaReader.CBA.Write | cba_reader.py:93-94 | what is fed to an open file is written over what is there from the handle's place on |
| CbaReader.CBA.ReadFile | cba_reader.py:146-171 | the file part, against its function, with the name consumed only when extracting and the file opened only if the file system lets it |
| CbaReader.CBA.ReadEvent | cba_reader.py:106-171 | header, code and body of an event, against their function |
| CbaReader.CBA.ReadPacket | cba_reader.py:75-171 | one packet moves the cursor, the one thread's state and the disk as the function says and leaves the other threads |
| CbaReader.CBA.Final | cba_reader.py:71-73 | entries still open come out in the order of the reader's states, which is that of `EntriesInOrder` |
| CbaReader.CBA.Entries | cba_reader.py:56-64 | one pass yields exactly what the pass function yields, exceptions included, and leaves the disk and, at the end of the file, the states it says |
| CbaMeaning.RecordStrings | cba.c:147-158 | the strings behind a head become the first events of its entry |
| CbaMeaning.FlushCommits | cba.c:165-176 | flushing closes the old entry and begins the one whose head was waiting, with its deferred strings |
| CbaMeaning.PlayChunks | cba.c:209-231 | data of any length, cut into chunks, decodes to one event with all of it and its code |
| CbaMeaning.PlayFile | cba.c:280-296 | a file delivered by any short reads, once open, is stored whole, and one not opened is ignored whole |
| CbaMeaning.CallDelivers | cba.c:94-339 | the packets of any one call, read after all before them with every file granted, say what the call means |
| CbaMeaning.AbandonedHead | cba.c:94-114 | a head replaced, or followed by nothing, leaves no trace with all that was deferred behind it |
| CbaMeaning.CallsRead | cba.c:94-339 | a thread's packets, with every file granted, decode to what its calls mean and leave no stream open |
| CbaMeaning.CallTurn | cba.c:273-298 | a call's packets begin and end its file, and nothing of a file is held back |
| CbaMeaning.LogKeepsEveryThread | cba.c:389-414 | in whatever order the packets of several threads' calls reach the file, each thread's entries are exactly what its calls mean, and its files those of them that the file system grants |
| CbaMeaning.FilesKeptExactly | cba_reader.py:161-169 | one pass gives back everything the calls mean, files included, if and only if these can be opened and, unless overwritten, told apart; and they hold their data in the end if and only if moreover those that share a place agree |
| CbaMeaning.SecondFileLost | cba_reader.py:163-171 | an instance: of two files of one name the first is kept and the second dropped, but both events recorded |
| CbaMeaning.FirstFileReplaced | cba_reader.py:163-165 | an instance: when overwriting, both are given back and the second one's data replaces the first one's |
| CbaRecords.RecordsMean | cba.c:94-339 | written call by call, records whose names and strings fit give their files and, each under its own name, an entry with one event for every string and item, with kind, code and value |
| CbaRecords.RecordsComeBack | README.md:179-182 | however threads alternate, one pass gives back each thread's records with their names, codes and values, in order |
| CbaRecords.DeferWithoutHead | cba.c:141-162 | a deferred string that no head waits for goes into the entry under way at once |
| CbaExtract.ExtractedExactly | cba_reader.py:146-171 | a named file is asked for and its event recorded if and only if the module of its thread's last head, or "*", is to be extracted |
| CbaExtract.NameTakenExactly | cba_reader.py:146-171 | the name is taken off the file under that condition exactly; otherwise two bytes are, and the chunks are ignored |
| CbaExtract.OneModuleAsked | cba_reader.py:151-165 | an instance: told to extract for "rfb", the reader gets the file "a" of that module and its entry |
| CbaRuns.RunsRead | cba.c:44-73 | a thread's calls in successive runs decode to what they mean, each run going on in the entry the one before left |
| CbaRuns.HeadFirstExactly | cba.c:94-114 | a run's packets begin with a head, or there are none, if and only if it writes nothing before its first head |
| CbaRuns.RunsApart | cba_reader.py:118-124 | runs that begin with heads mean what each means on its own, one after the other |
| CbaRuns.LogKeepsEveryRun | cba.c:44-73 | one pass over a file that any number of runs have appended to gives each thread's entries run after run, and the files granted |
| CbaRuns.RunsKeptExactly | cba_reader.py:161-169 | every file of every run is stored if and only if all can be opened and, unless overwritten, told apart; and holds its data in the end if and only if moreover those that share a place agree |
| CbaRuns.OrdersAgree | cba.c:60-68 | a run's bytes are what a machine of the file's order would have left if and only if the orders agree or no number in its packets depends on the order |
| CbaRuns.OtherOrder | cba_reader.py:138-140 | an instance: the number 42 appended by a big-endian machine reads as another number |
| CbaDeferral.InsideExactly | cba.c:349-361 | deferring a string writes inside the buffer only, if and only if there is room for one of length zero |
| CbaDeferral.RowInsideExactly | cba.c:141-162 | a row of strings behind a head is deferred inside the buffer if and only if all but the last fit in whole and leave room for the last one's header |
| CbaDeferral.LongStringOverruns | cba.c:352-360 | an instance: behind a head without a name and a string of 2036 characters, any further one is given length 65532 |
| CbaActs.CallUnitsSend | cba.c:121-382 | the writes a call makes under the lock, and what it flushes, are the bytes of the packets it sends |
| CbaActs.ThreadUnitsSend | cba.c:121-382 | so are those of all calls of a thread, in order |
| CbaWriter.DeferExactly | cba.c:342-361 | a deferred string is a proper packet if and only if it is not empty or the byte it overwrites was 0 |
| CbaWriter.EmptyDeferIsAHead | cba.c:354-358 | an instance: the empty string without a code becomes an empty head and a stray byte |
| CbaWriter.DataExactly | cba.c:209-231 | the chunks of data are framed right if and only if the machine is little-endian or there is no data |
| CbaWriter.BigEndianLosesData | cba.c:223-224 | an instance: on a big-endian machine one byte of data goes out as an empty chunk |
| CbaWriter.Writer.WriteHeader | cba.c:396-414 | a header carries the waiting code, once |
| CbaWriter.Writer.Head | cba.c:94-114 | a head replaces what was held back and sends nothing |
| CbaWriter.Writer.Code | cba.c:116-119 | sets the code for the next header |
| CbaWriter.Writer.Bit | cba.c:121-139 | flushes and sends a flag with its code, under the lock but for the flush |
| CbaWriter.Writer.BufferStr | cba.c:349-361 | a string lands behind what is in the deferral buffer, cut to the room left, or would be written outside the buffer, exactly when there is no room |
| CbaWriter.Writer.DeferStr | cba.c:141-162 | behind a waiting head a string is held back, if there is room for it to begin; otherwise it is sent |
| CbaWriter.Writer.Flush | cba.c:165-176 | sends what is held back in one write, without the lock, and empties the buffer |
| CbaWriter.Writer.SendStr | cba.c:369-382 | a string is sent with the waiting code, in three writes under the lock |
| CbaWriter.Writer.Str | cba.c:180-194 | flushes and sends a string |
| CbaWriter.Writer.Data | cba.c:196-234 | flushes and sends data; the packets are the right ones when the byte order allows |
| CbaWriter.Writer.SendChunks | cba.c:209-231 | the chunk loop ends and sends every byte once, then the terminator |
| CbaWriter.Writer.File | cba.c:236-299 | flushes and sends a file under its name |
| CbaWriter.Writer.SendFile | cba.c:280-296 | the read loop sends what was read up to the first empty read, then the terminator |
| CbaWriter.Writer.Int32 | cba.c:302-319 | flushes and sends a 32-bit number |
| CbaWriter.Writer.Int64 | cba.c:322-339 | flushes and sends a 64-bit number |
| CbaSession.WriteSession | cba.c:21-26 | several writers taking turns append an interleaving of their packets to the file, in which no two files overlap |
| CbaSession.WriteRuns | cba.c:44-73 | any number of runs leave one byte-order marker, that of the first, and behind it what each has added |
| CbaSession.WriteAndRead | README.md:177-190 | several threads write a file call by call in any order, run after run, and one reader gets back, thread by thread, the entries the calls mean and the files granted; these are all, and hold their data in the end, under the exact conditions of `Keepable` and `Lasting` |
| LogLock.WholeExactly | cba.c:165-173 | in a run of threads that keep the lock, every packet of every thread and every flush stands in the file in one piece if and only if no flush with bytes falls between two writes with bytes of one packet |
| LogLock.ThreadHas | cba.c:121-382 | a thread flushes, or goes on with a packet after its first write, exactly if one of its calls is of such a kind |
| LogLock.AlwaysWholeExactly | cba.c:165-173 | they do so in every run of the threads' calls if and only if there are no two threads of which one flushes a head that waits and the other sends anything but flags |
| LogRuns.FileHolds | cba.c:389-394 | in a run of any threads' calls without such a flush the file is packet after packet |
| LogRuns.RunInterleaves | cba.c:389-394 | and these are an interleaving of what the threads' calls send, in which no two files overlap |
| LogRuns.ArrangedInTurn | cba.c:273-298 | the lock keeps files apart: none begins in the log while another is under way |
| LogRuns.WholeRunReads | cba.c:389-394 | so one pass over it gives each thread's entries as its calls mean them, all files if and only if they can be opened and, unless overwritten, told apart, and all with their data in the end if and only if moreover those that share a place agree |
| LogRuns.FlushCanTear | cba.c:165-173 | an instance: a run of two threads' calls that the lock allows, in which the flush lands inside a number and the reader misreads it |
| Ring.PutAppends | queue.c:47-59 | a put appends to the queue, for every capacity |
| Ring.GetRemoves | queue.c:81-94 | a get removes the oldest item, for every capacity |
| Queue.Queue.constructor | queue.c:11-22 | a new queue is empty |
| Queue.Queue.Put | queue.c:51-59 | in place: the item is appended, and the flag says whether the queue was empty |
| Queue.Queue.Get | queue.c:84-94 | in place: the oldest item comes out, and the flag says whether the queue was full |
| QueueProtocol.SafeStep | queue.c:45-72 | the lock has one holder at every step |
| QueueProtocol.FifoStep | queue.c:32-100 | every step keeps what was got, then what is held, equal to what was put |
| QueueProtocol.AlwaysFifo | queue.c:32-100 | in every run of any number of producers and workers the queue is FIFO in lock order, loses and duplicates nothing, and keeps each thread's order |
| QueueDelivery.GoodStep | queue.c:61-72 | every step keeps: a thread asleep that could go on is about to be signalled |
| QueueDelivery.AlwaysGood | queue.c:45-100 | no wakeup is lost in any run of one producer and one worker |
| QueueDelivery.NeverBothAsleep | queue.c:48-49 | the two are never both asleep |
| QueueDelivery.Delivery | queue.c:32-100 | whenever the two are at rest the worker has received the script up to its first stop item, and the scanner is done if and only if the rest fits in the queue as it was made |
| QueueDelivery.MeasureDrops | queue.c:32-100 | every step but a spurious wakeup uses up a measure |
| QueueDelivery.ComesToRest | queue.c:32-100 | n queued items take at most 20 n + 10 steps |
| ResultDelivery.ResultsExecuted | cscan.c:421-442 | the modules run on exactly the queued results, once each and in order, before the worker stops, if and only if none has address 0 |
| QueueCrews.OneSlotServes | queue.c:51-72 | on a queue of capacity one no thread of any crew is left asleep that could go on |
| QueueCrews.WorkersHang | queue.c:71-82 | with room for two and two workers or more, one can sleep for good beside a full slot |
| QueueCrews.ProducersHang | queue.c:48-49 | with room for two, one worker and two producers or more, one can sleep for good beside a free slot |
| QueueCrews.StuckExactly | queue.c:45-100 | a thread can be left asleep that could go on if and only if there is room for two and a second producer or worker |
| SocketList.WalksAgree | socket_list.h:11-27 | walking forwards from the first descriptor and backwards from the last reads the same list |
| SocketList.LinkLast | socket_list.c:27-37 | linking a descriptor behind the last keeps the links consistent |
| SocketList.UnlinkAt | socket_list.c:47-55 | bypassing a descriptor anywhere keeps the links consistent |
| SocketList.SocketList.constructor | socket_list.c:5-11 | a new list is empty |
| SocketList.SocketList.Add | socket_list.c:19-40 | adding appends; the descriptor equal to the size is ignored |
| SocketList.SocketList.Del | socket_list.c:42-60 | removing takes out that descriptor from any place and returns the one behind it |
| ScanLoop.PacedGap | cscan.c:97-112 | n sends after a given one are stamped at least n intervals after it |
| ScanLoop.SendsApart | cscan.c:97-112 | an attempt n sends after a given one is made at least n intervals after the clock by which that one's slot was asked for |
| ScanLoop.ExceptOne | cscan.c:316-317 | handling events one by one takes exactly their descriptors out of the list |
| ScanLoop.LaterSplit | cscan.c:328-340 | on a sorted list the expired entries are a prefix |
| ScanLoop.Scanner.CheckConnectInterval | cscan.c:97-112 | the stored send time is the last one plus the interval or, if that is later, the clock read on entry; it never ends up older than the clock at the call, nor ahead of it at the end, and the sleep is exactly what is missing |
| ScanLoop.Scanner.BindSocket | cscan.c:154-181 | the ports from the first on are tried in order while they are in use, port 0 once; another error ends the process, and when all are in use the probe goes on unbound |
| ScanLoop.Scanner.AddPending | cscan.c:223-223 | the probe is entered last, under its target, with a deadline one connect timeout from the clock |
| ScanLoop.Scanner.Attempt | cscan.c:183-185 | the attempt is counted and its answer, with target and time, is all that happens |
| ScanLoop.Scanner.TryConnect | cscan.c:124-226 | one probe: set up or the end of the process, then counted, and, as the answer says, refused, queued, appended to the list with its target and a deadline one connect timeout from the clock, or the end of the process |
| ScanLoop.Scanner.Probe | cscan.c:252-267 | the targets picked are those sent to, but for the canary's turn, which comes once; every send is in a slot of its own; what is left in progress is watched |
| ScanLoop.Scanner.Fill | cscan.c:250-269 | the table is filled to its limit and never beyond, one stamp per probe |
| ScanLoop.Scanner.WaitTime | cscan.c:271-281 | the wait is until the earliest deadline of all pending probes and at most the connect timeout |
| ScanLoop.Scanner.Await | cscan.c:271-286 | it is with this wait, and with all pending probes, that the kernel is asked for events |
| ScanLoop.Scanner.ReapEvents | cscan.c:293-318 | exactly the descriptors with events go, the others keep their order, and exactly the open targets but the canary are queued |
| ScanLoop.TellSeen | cscan.c:293-318 | what the events report of the listed probes is what the kernel's history says was found |
| ScanLoop.Scanner.Reap | cscan.c:293-340 | after events and timeouts what was queued is what was found, and every pending probe is listed under the target it was sent to |
| ScanLoop.Scanner.ReapExpired | cscan.c:320-340 | exactly the probes whose time is up are closed, none before a connect timeout has passed since it was sent, and all left have time |
| ScanLoop.Scanner.Round | cscan.c:242-345 | a round keeps the books balanced, waits once, until the first deadline, and after it nothing is pending whose time is up |
| ScanHistory.FoundOnce | cscan.c:293-318 | no attempt is found twice |
| ScanLoop.Scanner.ConnThread | cscan.c:228-346 | over any run: what was queued is exactly what the kernel's answers say was found, in order; no probe is given up before a connect timeout has passed since it was sent; sent = answered + pending + timed out, never too many pending, every attempt left in progress pending or closed once |
| ScanLoop.Scanner.Conserved | cscan.c:228-346 | the same between rounds; and an attempt n sends after another is made at least n intervals after the clock by which the other's slot was asked for |
| ScanLoop.Scanner.Scan | cscan.c:764-775 | a scan and the pill behind it: the modules run on exactly what the kernel's answers say was found, if and only if none of it has address 0 |
| Targets.AddressesAt | target.c:50-50 | the r-th address lies in the span whose counts enclose r |
| Targets.AddressesIncrease | compile-targets.py:57-60 | no address comes twice |
| Targets.SoFarBelowEnd | target.c:50-50 | end minus count does not wrap |
| Targets.GetBinmask | compile-targets.py:39-45 | the mask is the least that covers the choices, less than twice their number |
| Targets.CompileRanges | compile-targets.py:52-62 | the table holds the end of each range and the addresses so far |
| Targets.FindPair | target.c:22-48 | the search ends at the first count that reaches r, by every exit, and stays inside the table if and only if there is one |
| Targets.RandomIp | target.c:22-50 | the result is the r-th address of all ranges joined, with no wrap, if and only if there are so many |
| Targets.DrawIp | target.c:18-51 | a random address is that of the first word accepted; without the device the search stays inside the table of all addresses only |
| Targets.GenRand32 | rand.c:4-23 | the result is the first masked word not above the bound, or -1 where the device cannot be opened |
| Targets.Uniform | README.md:228-228 | of all 32-bit words every address is drawn by the same number, and no other address by any |
| Targets.HalfAccepted | rand.c:16-20 | more than half of all words are accepted |
| Ports.ReadPortspec | compile-targets.py:24-32 | the compiler's loop over the parts of a portspec, exceptions included |
| Ports.CompilePorts | compile-targets.py:69-104 | from text to the port table of the compiler; fails exactly when the text cannot be read or a number not be packed |
| Ports.CountEntries | target.c:109-134 | the first pass over a portspec counts its entries, adds their weights, and says whether all fits an `int` |
| Ports.IntBinmask | target.c:131-132 | the mask in an `int` is the least that covers the weights, and leaves it above 2^30 |
| Ports.FillPairs | target.c:136-149 | the second pass writes the pairs of the same entries |
| Ports.MakePortRanges | target.c:107-152 | from text to the port table of the scanner, whenever no `int` overflows |
| Ports.SameTable | target.c:107-152 | there is one table for a list of entries |
| Ports.BothTables | compile-targets.py:26-78 | from a printed portspec both make the same table; where the scanner makes one the compiler does if and only if the first weight is positive |
| Ports.RandomPort | target.c:57-64 | the scan returns the port of the first entry whose count reaches r |
| Ports.DrawPort | target.c:53-65 | a random port is that of the entry the first word accepted chooses, or the largest word without the device |
| Ports.NoDeviceNoPort | target.c:53-65 | without the device no port comes out, unless the first weight is 0 or all together are 2^32 |
| Ports.ChoiceShare | target.c:57-62 | entry i is chosen exactly by the draws in its share |
| Ports.WeightsExact | target.c:53-65 | every entry is chosen by as many draws as its weight if and only if none is negative and the first is positive |
| Ports.WordsExact | rand.c:16-20 | of all 32-bit words each entry is chosen by its weight times the words for one draw |
| Ports.ZeroFirst | target.c:145-147 | a first weight of zero takes every draw |
| Ports.AlwaysChooses | target.c:58-64 | a draw always finds an entry |
| PortSpec.PortspecReads | target.c:139-149 | a printed portspec is read back entry by entry by the scanner |
| PortSpec.BothRead | compile-targets.py:24-32 | and by the compiler |
| PortSpec.ScanSigned | target.c:142-143 | the scanner takes a number behind white space, with a sign or without, up to what is no digit |
| PortSpec.PySigned | compile-targets.py:29-32 | so does the compiler, with nothing but white space around it |
| PortSpec.ParseAgain | target.c:136-149 | the second pass finds the same entries though the port variable is left over from the first |
| PortSpec.CommaAtEnd | target.c:142-149 | an instance: a comma at the end repeats the port for the scanner and is an error for the compiler |
| PortTexts.FieldScanned | target.c:142-143 | a number the compiler accepts is the one the scanner finds if and only if it has no underscore or is 0, behind white space that both know |
| PortTexts.PartScanned | target.c:142-143 | a part the compiler accepts is read alike by the scanner under the stated conditions exactly |
| PortTexts.ReadAlikeExactly | compile-targets.py:24-32 | so is a whole portspec if and only if all its parts are; the empty one is port 80 for the one and the variable's last value for the other |
| PortTexts.Underscore | compile-targets.py:29-32 | an instance: "1_0" is port 10 for the compiler and 1 for the scanner |
| PortTexts.SpaceBeforeColon | target.c:142-143 | an instance: in "80 :2" the scanner does not find the weight |
| TableFile.LoadRangeCfg | target.c:67-105 | what is loaded from a file of any length, whether memory is granted or not |
| TableFile.CountsLoaded | target.c:80-83 | a table comes back for the counts from 0 to 2^30 - 1 and none for those from -2 down to -2^30; C says nothing on -1 and where doubling overflows |
| TableFile.LoadsWhatWasCompiled | compile-targets.py:97-99 | the scanner reads back the table the compiler wrote |
| TableFile.TruncatedAccepted | target.c:98-104 | for such a count a file cut short gives a complete table if and only if it is long enough |
| TableFile.CountAlone | target.c:87-104 | an instance: a file with a count and nothing else is accepted |
| TimeBucket.SortSorts | metrics.py:77-84 | sorting keeps the keys and puts them in order |
| Resampling.ResampleMore | metrics.py:103-111 | one more key for the last bucket |
| Resampling.ResampledExactly | metrics.py:99-113 | keys resampled in the order they come in give every bucket the sum of its own keys if and only if late keys have nothing to count and find their bucket opened |
| Resampling.SampledTotal | metrics.py:99-113 | nothing gets lost, whatever the order |
| Resampling.NoneLate | metrics.py:99-113 | among keys in order none is late |
| TimeBucket.SumCounts | metrics.py:87-89 | all counts of an axis together are the events added on it |
| TimeBucket.TimeBucket.constructor | metrics.py:59-64 | a new collection is empty and in order |
| TimeBucket.TimeBucket.EnsureKey | metrics.py:66-74 | a new key gets zero counts, and the order flag stays truthful |
| TimeBucket.TimeBucket.AddEvent | metrics.py:87-89 | one event is counted |
| TimeBucket.TimeBucket.Sort | metrics.py:77-84 | the keys come into order, none lost |
| TimeBucket.TimeBucket.Sample | metrics.py:99-113 | increasing multiples of the size, all counts together the events added; each bucket the sum of its keys under that condition exactly, which sorted collections meet; fails exactly when there are keys and the size is 0 or the first below zero |

## Left out

- not_supported_resize (queue.c:102-162): never called and declared unsupported.
- A second pass over the same reader: it would start with the byte-order byte and the old states.
- Text output of the writer (no file open), formatting of strings, and writes that fail: a string is given formatted, and the file takes every byte.
- The writer's scratch buffer: only the deferral buffer is an array; the scratch contents are values.
- Two streams open to one file at once: no order in which the writers' calls reach the file makes them (`ArrangedInTurn`), and what the file would hold then depends on the reader's buffering, which is not modelled: a byte fed is a byte written.
- LogRuns.WholeRunReads: a run that tears a packet is not claimed to be misread; it is shown to be in one run.
- CbaRuns.OrdersAgree: speaks of bytes; a reader may still make the right event of wrong bytes, for instance of a last string cut short by the end of the file.
- Targets.GenRand32: the device is a finite sequence of words, and running out of them is reported; a read that fails is not modelled.
- Queue.Queue.Put, Queue.Queue.Get: the waiting loop is not in them; they begin where it ends, and QueueProtocol has the waiting.
- Statistics and metrics output, canary log messages, socket options: they change none of the modelled state.
- ScanLoop.Scanner.ConnThread: counters are unbounded, so their overflow after 2^31 probes is not modelled; the filling loop is followed for finitely many attempts.
- ScanLoop.Scanner.TryConnect: descriptor 0 in progress is taken for an error by the code and ends the process in the model too.
- Merging, inverting and reading address ranges: their module is not part of this model; merged ranges are assumed in order, apart and within 32 bits.
- PortSpec.PyInt: knows the white space and digits of ASCII only.
- TimeBucket.TimeBucket.Sample: sizes below zero, which the callers' quotients never are.
- Protocol probes in `modules/`, TLS, argument parsing, daemonizing, limits and plotting.

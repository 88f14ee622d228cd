# famfs: a verified model

famfs is a file system for memory that several hosts share without hardware cache coherence. One
host, the master, creates files and directories and appends each creation to a log in the shared
memory. Clients play that log. Files map to ranges of the memory that never overlap. This project
models five parts of famfs in Dafny and proves what they promise, over every run and every input.

`dafny verify dfyconfig.toml` checks the project.

## Parts

| Part | Modules | Form |
|---|---|---|
| Producer/consumer queue over incoherent memory | Fabric, Queue, QueueInvariant, QueueProof, QueueProducer, QueueConsumer, QueueTheorems, QueueSolo, QueueCode, QueueWaiting, QueueStaleLap | state machine of both hosts and both caches; a class whose methods are the calls |
| Space allocation and the bitmap rebuilt from the log | Bitmap, Units, Allocator, Meta, Rebuild, Buckets, Strided, BucketFits, FileAlloc, FileAllocExact, LockedLog, Sessions, Incidents, LockHolder, Layout | loops over a byte array; the answer to every request as a function of the bitmap; classes for a session and for the holder of the lock, proved against it; runs of sessions |
| The append-only log and its replay | Namespace, Master, Journal, Coding, Creator, Visibility, FullPlay | functions on name spaces; classes for the log and for the master's create calls; a state machine of master and client |
| The inode cache of the FUSE daemon | Inodes, Daemon, ICache, Handlers | value model and runs of requests; a linked heap structure and request handlers proved against them |
| File metadata as YAML | Numbers, Yaml, YamlParser, YamlRoundTrip, YamlKeys | event-emitting and event-parsing loops proved against functions, and their round trip |

Arith has four facts about multiplication and division; Common has word sizes, error numbers and an option type.

## What was found

Where the code does less than its comments or tests suggest, the model follows the code, shows a
concrete case, and states exactly when the promise holds.

- Queue. `pcq_consumer_get` treats a sequence mismatch after a good checksum as fatal. Memory that
  is only prefetched can produce one: the consumer's cache holds, in full, the entry that an
  earlier lap left in the bucket (`StaleLapIsFatal`, a run of two buckets). A get that nothing
  interrupts fails that way if and only if that is so when it begins (`SharedQueue.Get`); an
  eviction during the get can change the outcome, and then a mismatch is still such an entry
  (`MismatchIsEarlierLap`). The retry limit, in contrast, is never exhausted (`RetriesSuffice`).
- Allocator. The window test subtracts unsigned numbers and wraps. A bucket-limited search leaves
  its bucket if and only if no run fits, every unit from which a run would stick out is taken, and
  a run is free further on (`EscapeExact`, `EscapeHappens`). A search with a cursor and no range
  passes the end of the device, or of the bitmap, if and only if some run from the cursor on fits
  its window and none ends before that end (`OverrunExact`; runs from mkfs that do so are
  `PastDeviceHappens` and `OutsideHappens`). The cursor agrees
  with a search from the start if and only if no free run that lies in the device starts before it
  (`CursorExact`); requests of non-decreasing size never leave one behind (`CursorSound`), and a
  smaller request can (`CursorSkipsHoles`).
- Interleave parameters with zero strips pass validation (`ZeroStripsPass`). A request then divides
  by zero if and only if the file has at least one chunk (`DivisionExact`).
- A failed strided allocation gives back the bitmap byte for byte, or the assertion in
  `bitmap_free_contiguous` stops the process. It stops if and only if too few strips were found and
  the bitmap of some round sends a strip past the device (`StripedExact`; `AbortHappens` is a run
  from mkfs that stops there).
  Whether any shuffle can let a strip out of its bucket is decided by the bitmap before the call
  (`ShuffleExact`); if none can, every shuffle gets the same answer (`NoRiskAnswer`). More than 16
  strips, or a failure over more than 16 buckets, leave the strip array.
- A run can log an extent that ends past the device (`PastDeviceHappens`). It does if and only if
  some logged creation met a bitmap that sends it there (`RunInDevice`); the extents stay inside the bitmap that a
  rebuild allocates, disjoint, in every run (`EveryRunIsSound`).
- Log. A created path reaches clients, as the node that was created, if and only if it has fewer
  than 80 bytes, its local steps completed, a slot was left, and clients have its parent
  (`ReachExact`). So a directory whose `chown` fails exists on the master and never reaches a
  client, nor does anything made in it (`ChownFailureOrphans`); nor does a path of 80 bytes or more
  (`LongPathsNeverReplay`). A fresh replay gives the master's own name space if and only if no
  creation was of one of these kinds (`MasterLogReplays`).
- `__famfs_logplay` ignores a failure of `realpath` and uses the buffer, in which glibc leaves the
  first component that is missing. A file below a directory that clients do not have is therefore
  created under that directory's name. Under the name of an orphaned directory clients come to have
  a file exactly if a file below it is logged (`OrphanNameTaken`, `StrayHappens`).
- `__famfs_mkfile` logs a file that it could not map or open, and returns an error
  (`Creator.Host.Mkfile` says exactly when result and log disagree).
- Replay is incremental because no parent of a logged directory comes late (`MasterLogIncremental`). For other
  logs a second replay changes nothing if and only if no entry is left waiting for a late parent
  (`ReplayTwiceExact`, `LateParentBreaksReplay`). The retry in `famfs_validate_log_entry` rereads
  the copy that `__famfs_logplay` made on its stack, so it changes nothing.
- Inode cache. `famfs_open` takes two references and `famfs_release` gives back one: an inode that
  was opened once is never freed (`OpenReleaseLeaksOne`, `OpenedStays`). When nothing refers to the
  cache any more, exactly the root and what is at or above a pinned or once opened inode is still
  there (`QuietExact`), and only the root if and only if nothing was ever opened or had its
  attributes changed (`ForgettingDrains`).
- YAML. Metadata is read back exactly if and only if its map has 1 to 16 extents or strips; none
  and more than 16 fail with different errors (`ParseUndoesEmit`, `TestShadowYaml`).
- `linux_include/linux/famfs_ioctl.h` writes `strip_num = chunk_num % nchunks` and gives strip 4 of
  four strips in an example; its diagram has chunk modulo the number of strips, which the model
  follows.

## Model

| member | source | states |
|---|---|---|
| `Fabric.FlushRange` | src/fcc-x86_64.c:110-125 | the lines flushed are exactly those that the byte range touches, each once, in order; none for an empty range |
| `QueueInvariant.InitInv` | src/pcq_lib.c:202-234 | a freshly created queue satisfies the invariant, whatever old contents of the producer's file the consumer's cache holds |
| `QueueProof.ProducerEvictInv` | src/pcq_lib.c:329-412 | the invariant survives a write-back or eviction of any cell of the producer's cache at any time |
| `QueueProof.ConsumerEvictInv` | src/pcq_lib.c:428-567 | the same for the consumer's cache |
| `QueueProof.ProducerFillInv` | src/pcq_lib.c:329-412 | the invariant survives a prefetch of any cell into the producer's cache at any time |
| `QueueProof.ConsumerFillInv` | src/pcq_lib.c:428-567 | the same for the consumer's cache |
| `QueueProducer.StaleLimitIsSafe` | src/pcq_lib.c:359-381 | however old the producer's copy of consumer_index, a passed full test means that there is room |
| `QueueProducer.PublishHeld` | src/pcq_lib.c:403-408 | when producer_index is stored, memory holds the whole entry |
| `QueueProducer.PutAdvanceInv` | src/pcq_lib.c:329-412 | every step of a put keeps the invariant |
| `QueueConsumer.LimitIsSafe` | src/pcq_lib.c:455-480 | a passed empty test means that the next message is published |
| `QueueConsumer.GoodCopy` | src/pcq_lib.c:492-508 | a copy with a good checksum is a whole entry of that bucket, however torn the reads were |
| `QueueConsumer.BadCopyIsFirst` | src/pcq_lib.c:492-532 | a copy fails the checksum only before the bucket was invalidated in this get |
| `QueueConsumer.GetAdvanceInv` | src/pcq_lib.c:428-567 | every step of a get keeps the invariant |
| `QueueTheorems.StepInv` | src/pcq_lib.c:329-567 | every event of either host or of the hardware keeps the invariant |
| `QueueTheorems.HardwareExact` | src/fcc-x86_64.c:110-125 | what hardware may do at any time to any cell of either cache: write it back, so that memory has what the host stored, keeping a clean copy or none; or fetch it; nothing else changes |
| `QueueTheorems.RunInv` | src/pcq_lib.c:329-567 | the invariant holds after every sequence of events |
| `QueueTheorems.DeliveredIsPrefix` | src/pcq_lib.c:428-567 | over every run, the messages returned are a prefix of those published, in order, unaltered, with their sequence numbers, one for every message taken |
| `QueueTheorems.RetriesSuffice` | src/pcq_lib.c:492-532 | over every run the out-of-retries exit is never taken, and a bucket is invalidated at most once per get |
| `QueueTheorems.RingIsSound` | src/pcq.h:22-49 | over every run the indices are the message counters modulo the ring size, the ring never overflows, and memory holds every undelivered message |
| `QueueTheorems.PutsMissUndelivered` | src/pcq_lib.c:359-408 | no put ever writes to the bucket of an undelivered message |
| `QueueTheorems.ObserverCounts` | src/pcq_lib.c:85-96 | pcq_nmessages on what memory has counts exactly the published messages whose release has not reached memory |
| `QueueTheorems.MismatchIsEarlierLap` | src/pcq_lib.c:534-552 | the fatal sequence mismatch is always a whole entry from a number of full laps ago |
| `QueueSolo.GetAlone` | src/pcq_lib.c:428-567 | a get that nothing interrupts ends in the mismatch only if it began with a stale lap in its cache, and delivers only if it did not |
| `QueueSolo.EmptyIff` | src/pcq_lib.c:455-480 | a get that nothing interrupts finds the queue empty if and only if nothing is published beyond what was taken |
| `QueueSolo.AdvanceDelivers` | src/pcq_lib.c:559-566 | the accepted copy is the next message with the next sequence number |
| `QueueCode.FullTest` | src/pcq_lib.c:359-381 | the full test errs only towards full, and not at all when the producer has no copy of consumer_index or a current one |
| `QueueCode.SharedQueue.Get` | src/pcq_lib.c:428-567 | empty if and only if nothing is published; the fatal mismatch if and only if a stale lap is cached; otherwise the next message, whose bucket is released in memory |
| `QueueCode.SharedQueue.Put` | src/pcq_lib.c:329-412 | refused with nothing changed if and only if the queue looks full; otherwise the message is the next one, published in memory, and there was room for it; with a current copy of consumer_index it is refused only without room |
| `QueueWaiting.PutPoll` | src/pcq_lib.c:359-381 | in every reachable state, a put that waits drops its copy of consumer_index and looks again: it goes on with its message if and only if there is room, and memory and all else are as before |
| `QueueWaiting.PutResumes` | src/pcq_lib.c:359-381 | a put that waits when there is room goes on, whatever the consumer and the caches do between its steps |
| `QueueWaiting.GetPoll` | src/pcq_lib.c:455-480 | in every reachable state, a get that waits looks again: it goes on if and only if a message is published |
| `QueueWaiting.GetResumes` | src/pcq_lib.c:455-480 | a get that looks when a message is published goes on to fetch it, whatever the producer and the caches do between its steps |
| `QueueWaiting.PutsAreAsked` | src/pcq_lib.c:329-412 | over every run, the messages put, and the one pending, are those that callers asked to put and did not give up, in order |
| `QueueStaleLap.StaleLapIsFatal` | src/pcq_lib.c:534-552 | a concrete run from a fresh queue, with one prefetch, in which a get ends in the fatal mismatch |
| `Bitmap.Size` | src/bitmap.h:10-14 | the least number of bytes for that many bits |
| `Bitmap.BitOrder` | src/bitmap.h:38-61 | which bit of which byte stands for a unit, on three bitmaps written out |
| `Bitmap.Test` | src/bitmap.h:38-48 | the bit is set if and only if the unit is in use |
| `Bitmap.Set` | src/bitmap.h:54-61 | exactly that unit is added |
| `Bitmap.Set32` | src/bitmap.h:134-143 | exactly the unit whose number is the index truncated to 32 bits is added |
| `Bitmap.TestAndSet` | src/bitmap.h:70-81 | exactly that unit is added, and the result says whether it was free |
| `Bitmap.TestAndClear` | src/bitmap.h:90-103 | exactly that unit is removed, and the result says whether it was in use |
| `Allocator.SetExtent` | src/famfs_alloc.c:73-103 | the extent's units are added, units already in use are counted as errors, and the byte sum grows by the units that were new |
| `Allocator.AllocContiguous` | src/famfs_alloc.c:319-365 | the run found is the one that the scan defines; it is marked, and the cursor moves past it; otherwise nothing changes; the search reads past the bitmap if and only if that run does not end inside it |
| `Allocator.FreeContiguous` | src/famfs_alloc.c:367-384 | exactly the run is cleared if it is aligned, lies in the device and is wholly in use; otherwise one of the assertions fails |
| `Units.FirstFitExact` | src/famfs_alloc.c:319-365 | in a closed window the search finds the lowest free run that fits, and fails if and only if there is none |
| `Units.EscapeExact` | src/famfs_alloc.c:336-352 | when a bucket-limited search stays in its window, and the exact condition under which wrap-around lets it leave |
| `Units.EscapeHappens` | src/famfs_alloc.c:336-352 | a concrete search that leaves its bucket |
| `Units.ProtrudesExact` | src/famfs_alloc.c:336-352 | the exact condition under which a bucket-limited search returns a run past the end of the device, or of the bitmap |
| `Units.CursorExact` | src/famfs_lib_internal.h:41-46 | a search from the cursor agrees with a successful search from the start if and only if no free run that lies in the device starts before the cursor |
| `Units.CursorSound` | src/famfs_lib_internal.h:41-46 | requests of non-decreasing size never leave such a run behind: the search lands in the device exactly when one from the start succeeds, and on the same unit |
| `Units.CursorSkipsHoles` | src/famfs_lib_internal.h:41-46 | a smaller request after a larger one skips a hole that a search from the start would use |
| `Units.OverrunExact` | src/famfs_alloc.c:319-365 | the exact condition under which a search with a cursor and no range returns a run past the end of the device, or of the bitmap |
| `Units.OverrunHappens` | src/famfs_alloc.c:319-365 | a concrete session in which it does |
| `Rebuild.BuildBitmap` | src/famfs_alloc.c:145-304 | the bitmap marks exactly the superblock, log and logged extents; units asked for are units in use plus errors; bytes are those of the units in use; no error if and only if no two extents overlap |
| `Rebuild.RegionsExact` | src/famfs_alloc.c:145-304 | what a rebuild marks: the first 2 MiB and the log, and the extents or strips of exactly the files whose entries are valid |
| `Rebuild.FileBytesNext` | src/famfs_alloc.c:145-304 | the sum of file sizes counts each valid file once |
| `Rebuild.Accounting` | src/famfs_alloc.c:145-304 | conservation: units in use plus errors equal the units asked for, and the byte sum is that of the units in use |
| `Rebuild.ErrorsMeanOverlap` | src/famfs_alloc.c:73-103 | no error is counted if and only if the extents are pairwise disjoint |
| `Rebuild.OrderIndependent` | src/famfs_alloc.c:145-304 | bitmap, errors and bytes are the same for every order of the extents |
| `Buckets.Shuffle` | src/famfs_alloc.c:471-512 | for every rand(), the Fisher-Yates shuffle of the buckets, a permutation |
| `Buckets.EveryOrderHappens` | src/famfs_alloc.c:471-512 | every order of the buckets is the outcome of some rand() |
| `Buckets.BucketSeries.constructor` | src/famfs_alloc.c:471-512 | the series is the shuffle of consecutive bucket numbers, a permutation of them |
| `Buckets.BucketSeries.Next` | src/famfs_alloc.c:514-520 | the next bucket of the series, or -1 at its end |
| `Buckets.BucketSeries.Rewind` | src/famfs_alloc.c:522-525 | the series starts again, in the same order |
| `Buckets.VisitsOnce` | src/famfs_alloc.c:471-520 | every bucket occurs in the series exactly once |
| `Strided.PlaceApart` | src/famfs_alloc.c:674-702 | the strips taken share no unit with each other or with what was in use, and exactly they are added |
| `Strided.StripsHoldFile` | src/famfs_alloc.c:630-643 | equal strips of whole chunks hold the file, wasting less than one stripe |
| `Strided.FreeFirst` | src/famfs_alloc.c:704-731 | freeing one of several separate runs leaves exactly the others |
| `Strided.SameBytes` | src/famfs_alloc.c:704-731 | bitmaps that mark the same units are the same bytes |
| `BucketFits.RoundExact` | src/famfs_alloc.c:674-702 | one round of the bucket loop by the bitmap before it: when it takes a strip, when the strip ends past the device, and when the search leaves the bitmap |
| `BucketFits.OutsideExact` | src/famfs_alloc.c:674-702 | the loop leaves the bitmap if and only if the bitmap of some round that it gets to makes it |
| `BucketFits.SticksOutExact` | src/famfs_alloc.c:674-731 | a strip ends past the device, so that the rollback asserts, if and only if the bitmap of some round makes it |
| `BucketFits.StaysExact` | src/famfs_alloc.c:674-702 | every strip stays in its bucket if and only if no round would let one out, judged by the bitmap before the call and the strips that buckets have of their own |
| `BucketFits.ShuffleExact` | src/famfs_alloc.c:471-512 | some shuffle lets a strip out of its bucket if and only if some bucket is at risk in the bitmap before the call |
| `FileAlloc.ValidParam` | src/famfs_alloc.c:527-593 | parameters are accepted if and only if every documented bound holds; a chunk size that is no power of two, or no multiple of the unit, gets -EINVAL |
| `FileAlloc.PowerOfTwoExact` | src/famfs_alloc.c:551-555 | the bit test passes exactly 0 and the powers of two |
| `FileAlloc.ZeroStripsPass` | src/famfs_alloc.c:527-593 | parameters with zero strips are accepted |
| `FileAlloc.StridedHolds` | src/famfs_alloc.c:630-643 | the strips of a granted request hold the file |
| `FileAllocExact.GrantSound` | src/famfs_alloc.c:756-786 | for every request, bitmap, cursor and shuffle: what is granted was free, is disjoint, holds the file, and lies inside the bitmap |
| `FileAllocExact.GrantShape` | src/famfs_alloc.c:595-743 | for every request: a grant has the chunk size and number of strips asked for, each strip on device 0 and of just enough whole chunks; or, for a contiguous or a small request, one extent of just enough units, at whose end the cursor is left |
| `FileAllocExact.GrantOffsets` | src/famfs_alloc.c:756-786 | no grant for a file with bytes has offset 0 or chunk size 0 |
| `FileAllocExact.RefusalExact` | src/famfs_alloc.c:756-786 | a refusal carries the verdict on the parameters or -ENOMEM, and where it leaves the cursor |
| `FileAllocExact.WholeLowest` | src/famfs_alloc.c:424-457 | one extent is taken at the lowest free run from the cursor on, or from the start for a small file, and exactly it is added |
| `FileAllocExact.ContiguousIsRequest` | src/famfs_alloc.c:424-457 | contiguous requests in bytes are the requests in units that the cursor results are about |
| `FileAllocExact.ContiguousExact` | src/famfs_alloc.c:424-457 | a contiguous request is refused, leaves the bitmap, or ends past the device, each if and only if the free runs from the cursor on say so |
| `FileAllocExact.DivisionExact` | src/famfs_alloc.c:595-643 | accepted parameters lead to a division by zero if and only if they have no strips and the file has a chunk |
| `FileAllocExact.StripedExact` | src/famfs_alloc.c:595-743 | a strided request leaves the bitmap, or stops in the assertion of its rollback, each if and only if the bitmap of some round makes it |
| `FileAllocExact.NoRiskAnswer` | src/famfs_alloc.c:595-743 | with no bucket at risk every shuffle gets the same answer: granted if and only if enough buckets have room, and otherwise refused with nothing changed; and when the strip array is left |
| `FileAllocExact.StripsSpread` | src/famfs_alloc.c:674-702 | with no bucket at risk a grant takes its strips from different buckets, in the order of the shuffle, and passes over none that has room |
| `FileAllocExact.GrantInDevice` | src/famfs_alloc.c:756-786 | what is granted lies inside the device if and only if the bitmap before the call does not send it past the end |
| `LockedLog.Session.constructor` | src/famfs_alloc.c:763-773 | the session's bitmap is the one rebuilt from the log, of the length that the source allocates, and the cursor is at the start |
| `LockedLog.Session.AllocFile` | src/famfs_alloc.c:424-457 | for every size, the outcome that the bitmap and the cursor define: a map, -ENOMEM with nothing changed, or leaving the bitmap |
| `LockedLog.Session.TakeStrips` | src/famfs_alloc.c:674-702 | for every size, one strip per visited bucket whose search succeeds, until enough are taken or an array is left |
| `LockedLog.Session.Rollback` | src/famfs_alloc.c:704-731 | all strips are given back if and only if each lies in the device |
| `LockedLog.Session.AllocStrided` | src/famfs_alloc.c:595-743 | for every size and every outcome of rand(): all strips, a refusal with the bitmap as before, byte for byte, or a stop, as the bitmap and the shuffle define |
| `LockedLog.Session.Alloc` | src/famfs_alloc.c:756-786 | every request, with any parameters, ends exactly as defined by bitmap, cursor and some shuffle of the buckets |
| `Sessions.NextSound` | src/famfs_alloc.c:756-786 | every step keeps logged extents disjoint and inside the bitmap, and the session's bitmap above the one in the log |
| `Sessions.EveryRunIsSound` | src/famfs_alloc.c:145-304 | over every run of requests, refused and stopped ones included, logged extents never overlap each other, the superblock or the log, and lie inside the bitmap; a rebuild counts no error; and it never calls free what the session has in use |
| `Sessions.EveryRunHoldsFiles` | src/famfs_alloc.c:756-786 | over every run of requests every logged file has extents that hold it |
| `Sessions.EveryRunShapesFiles` | src/famfs_alloc.c:756-786 | over every run every logged file was asked for by a creation of the run, and has the chunk size, strips and lengths that were asked for |
| `Sessions.EveryRunPlayable` | src/famfs_lib.c:1775-1795 | over every run logplay refuses the map of no logged file that has bytes |
| `Sessions.RunInDevice` | src/famfs_alloc.c:145-304 | the log of a run lies inside the device if and only if no logged creation met a bitmap that sends it past the end |
| `Incidents.PastDeviceHappens` | src/famfs_alloc.c:424-457 | a concrete run from mkfs of two logged creations whose log ends past the device |
| `Incidents.OutsideHappens` | src/famfs_alloc.c:319-365 | a concrete run from mkfs whose second creation reads past the bitmap |
| `Incidents.AbortHappens` | src/famfs_alloc.c:704-731 | a concrete run from mkfs, with accepted parameters, whose interleaved creation stops in the assertion of its rollback |
| `LockHolder.Holder.constructor` | src/famfs_lib.c:5573-5583 | a fresh file system is the start of a run |
| `LockHolder.Holder.Open` | src/famfs_lib.c:3531-3557 | the next holder of the lock starts with the same log and without a bitmap: one step of a run |
| `LockHolder.Holder.Create` | src/famfs_lib.c:3955-4063 | the allocation and logging of every creation, whatever it ends in, are exactly one step of a run, keep the log and the session sound, and log the file with the granted map if and only if there is one |
| `Layout.ByteInExtent` | linux_include/linux/famfs_ioctl.h:44-86 | every byte of a file lies in one of its extents |
| `Layout.InjectiveInFile` | linux_include/linux/famfs_ioctl.h:44-86 | different offsets of a file are different device bytes |
| `Layout.NoByteShared` | linux_include/linux/famfs_ioctl.h:44-86 | over every run no device byte backs two files or two offsets |
| `Layout.EveryByteBacked` | linux_include/linux/famfs_ioctl.h:44-86 | over every run every byte of every logged file has a device byte inside one of its extents |
| `Layout.ChunkAt` | linux_include/linux/famfs_ioctl.h:44-86 | byte r of the chunk in row i and column k is byte r of chunk i of strip k, for every file |
| `Namespace.ReplayConcat` | src/famfs_lib.c:1691-1995 | replaying a log and then more equals replaying both at once |
| `Namespace.ParentOf` | src/famfs_lib.c:4213-4224 | the parent of a directory, a slash and a name is that directory |
| `Namespace.FileEntryExact` | src/famfs_lib.c:1755-1845 | a file entry whose parent exists creates the file, with its metadata, if and only if its path is relative and new, its parent a directory, and its map has no zero offset or chunk size; otherwise nothing |
| `Namespace.MkdirEntryExact` | src/famfs_lib.c:1913-1987 | a directory entry creates the directory, with mode, uid and gid, if and only if its path is relative and new and its parent a directory; otherwise nothing |
| `Namespace.ReplayBuilds` | src/famfs_lib.c:1691-1995 | if every entry takes effect at its turn, replay adds exactly one node per entry, that of the entry |
| `Namespace.ReplayIncremental` | src/famfs_lib.c:1691-1995 | for every log without late parents, replaying any prefix and later any prefix equals one replay of the longer one, on any name space |
| `Namespace.ReplayTwiceExact` | src/famfs_lib.c:1691-1995 | for every log, a second replay changes nothing if and only if no directory is left waiting for its parent; and what it waits for is a later entry of the log |
| `Namespace.NameTaken` | src/famfs_lib.c:1795-1838 | a missing directory that is not logged comes to exist, as a file, if and only if a file below it is logged |
| `Namespace.LateParentBreaksReplay` | src/famfs_lib.c:1691-1995 | with a parent logged after its child, a second replay changes the result |
| `Master.NotLate` | src/famfs_lib.c:2399-2427 | a new entry is never the parent of an earlier directory, even if its path was cut short, and even right after a slash |
| `Master.StepInv` | src/famfs_lib.c:3855-4063 | every creation, refused, failed and cut ones included, keeps every logged parent early and the local name space closed |
| `Master.MasterLogReplays` | src/famfs_lib.c:4188-4291 | over every run of creations, a fresh replay gives the master's own name space if and only if everything created was logged under its whole path |
| `Master.ReachExact` | src/famfs_lib.c:3855-4063 | after every run without cut paths, and however it goes on, a new node reaches clients if and only if its path is short enough, its local steps completed, a slot was left and clients have its parent; otherwise they have nothing there, or a stray file |
| `Master.CalmReach` | src/famfs_lib.c:4188-4291 | if no chown fails either, clients have every parent: the node reaches them if and only if its path is short enough, completed and had a slot |
| `Master.CalmLogBuilds` | src/famfs_lib.c:1691-1995 | over every run without cut paths and failed chowns, replay adds exactly one node per logged entry |
| `Master.MasterLogIncremental` | src/famfs_lib.c:1691-1995 | over every run of creations, clients may replay prefixes in any order of lengths |
| `Master.LongPathsNeverReplay` | src/famfs_lib.c:2504-2504 | a path of 80 bytes or more that the master creates stays in its name space and never reaches a client, in any run |
| `Master.ChownFailureOrphans` | src/famfs_lib.c:4140-4170 | after a failed chown no continuation brings that directory to a client, nor anything created in it |
| `Master.OrphanNameTaken` | src/famfs_lib.c:1795-1838 | after a failed chown under a parent that clients have, they get a file under the directory's name if and only if a file below the directory is logged |
| `Master.StrayHappens` | src/famfs_lib.c:1795-1838 | a concrete run after which the master has a directory where a client has a file |
| `Journal.SealedIsValid` | src/famfs_lib.c:1634-1669 | what append writes is what validation accepts, and reads back as the entry |
| `Journal.OtherIndexRefused` | src/famfs_lib.c:1634-1669 | an appended entry is accepted at its own index and at no other |
| `Journal.TornRefused` | src/famfs_lib.c:1634-1669 | under the checksum of an appended entry exactly that entry is accepted |
| `Journal.EntriesFit` | src/famfs_lib.c:5573-5583 | the last index is the largest for which header and entries fit in the log |
| `Journal.FamfsLog.Mkfs` | src/famfs_lib.c:5573-5583 | an empty valid log |
| `Journal.FamfsLog.Append` | src/famfs_lib.c:2399-2427 | the entry is appended with the next sequence number, no other entry changes, and the log stays valid |
| `Journal.FamfsLog.Log` | src/famfs_lib.c:2475-2515 | appended if and only if a slot is left, else -ENOMEM and nothing changes |
| `Journal.FamfsLog.Logplay` | src/famfs_lib.c:1691-1995 | on any contents of the log: a bad header is refused; otherwise exactly the entries before the first invalid one are played, and success says that there was none |
| `Journal.FamfsLog.PlayLog` | src/famfs_lib.c:1691-1995 | a valid log is played in full |
| `Coding.FormatExists` | src/famfs_lib.c:1634-1669 | some entry format can be read back and has no checksum collisions: what is assumed of formats can be met |
| `Creator.Host.Mkfile` | src/famfs_lib.c:3855-4063 | the log in memory and the local name space take exactly one step of the master's run, written out: which node is made, which entry is logged, cut to 79 bytes from 80 on; a descriptor without an entry exactly for a file that exists; an entry and an error exactly when the new file could not be mapped or opened |
| `Creator.Host.Mkdir` | src/famfs_lib.c:4188-4291 | success if and only if the path was free, its parent a directory, it was made, chown was not needed or worked, and a slot was left; then the directory has that mode, uid and gid, and its entry is appended; exactly one step of the master's run |
| `Visibility.AcceptedIsAppended` | src/famfs_lib.c:1634-1669 | whatever mixture of old and new words a client read, an entry that it accepts at an index is the one that the master appended there |
| `Visibility.MemoryNext` | src/famfs_lib.c:2399-2427 | every step keeps what words can be read: zero or the word of the entry appended there; and an index no larger than the log |
| `Visibility.ClientInv` | src/famfs_lib.c:1739-1751 | every step keeps what a client has read so far explainable by the log |
| `Visibility.ClientSeesAPrefix` | src/famfs_lib.c:2413-2423 | over every interleaving of appends, plays and stale reads, a client's name space is the replay of a prefix of the master's log |
| `Visibility.ClientFollowsMaster` | src/famfs_lib.c:2413-2423 | the same for logs that any run of the master's creations makes, failed and cut ones included |
| `FullPlay.CurrentPlayIsFull` | src/famfs_lib.c:1739-1751 | after every run, a play that reads current values and ends gives the client the replay of the whole log |
| `FullPlay.FullPlayExists` | src/famfs_lib.c:1739-1751 | after every run in which the master is done, a client can get the replay of the whole log |
| `Inodes.PutKeeps` | src/famfs_fused_icache.c:266-288 | the cascade keeps the cache well formed and every count accounted for |
| `Inodes.CascadeExact` | src/famfs_fused_icache.c:266-288 | exactly the maximal chain of unpinned ancestors whose counts reach zero is removed; one inode above it loses one reference; all else is unchanged |
| `Inodes.DiesExact` | src/famfs_fused_icache.c:266-288 | an inode leaves with its last references if and only if it is neither pinned nor the root |
| `Inodes.FindExact` | src/famfs_fused_icache.c:174-203 | the search finds an inode if and only if one with that number is cached, and finds that one |
| `Inodes.InsertKeeps` | src/famfs_fused_icache.c:218-249 | inserting a number that the search did not find keeps numbers unique, parents cached and counts accounted for |
| `Inodes.GetKeeps` | src/famfs_fused_icache.h:107-111 | one more reference is one more owed |
| `Inodes.PinKeeps` | src/famfs_fused.c:325-328 | pinning keeps the cache well formed and accounted for |
| `Daemon.StepInv` | src/famfs_fused.c:475-705 | every critical section of every handler keeps the cache well formed and accounted for |
| `Daemon.HeldIsCached` | src/famfs_fused.c:75-82 | what a handler holds or the kernel refers to is cached with at least one reference |
| `Daemon.ForgetExact` | src/famfs_fused.c:837-852 | in every reachable state: exactly the forgotten lookups go from ledger and count; an inode that had no other reference, unpinned and not the root, leaves the cache, and otherwise nothing else changes |
| `Daemon.OpenExact` | src/famfs_fused.c:1109-1147 | two references more, one open and one leak, and nothing else |
| `Daemon.ReleaseExact` | src/famfs_fused.c:1149-1174 | one open and one reference less, and nothing else, or the inode leaves with its last one |
| `Daemon.SetAttrExact` | src/famfs_fused.c:282-337 | the inode is pinned and nothing else changes |
| `Daemon.EveryRunIsAccounted` | src/famfs_fused.c:82-102 | over every interleaving of requests: numbers unique, parents cached, each count exactly lookups, holds, opens, leaks and children; nothing referred to has been freed |
| `Daemon.QuietReason` | src/famfs_fused.c:837-852 | when nothing refers to the cache, every inode left is at or above one that was pinned or opened |
| `Daemon.QuietExact` | src/famfs_fused.c:837-852 | after every run, when nothing refers to the cache, an inode is cached if and only if it is the root or at or above one that was pinned or opened |
| `Daemon.ForgettingDrains` | src/famfs_fused.c:837-852 | after every run, forgetting every lookup leaves the initial cache if and only if nothing was opened or had its attributes changed |
| `Daemon.ForgetEverything` | src/famfs_fused.c:837-852 | from every state without requests and open files, forgetting what was looked up leaves nothing that refers to the cache |
| `Daemon.CacheCanDrain` | src/famfs_fused.c:837-852 | after every run in which nothing was opened or had its attributes changed, forgetting what was looked up empties the cache down to the root |
| `Daemon.OpenedStays` | src/famfs_fused.c:1109-1147 | an inode that was opened is never freed, in any continuation |
| `Daemon.OpenReleaseLeaksOne` | src/famfs_fused.c:1149-1174 | open and release leave exactly one reference more, and nothing else changed |
| `ICache.InodeCache.constructor` | src/famfs_fused_icache.c:13-43 | a ring of the root alone, with two references |
| `ICache.InodeCache.Unlink` | src/famfs_fused_icache.c:272-279 | the ring without that inode is closed in both directions, and every other field is as before |
| `ICache.InodeCache.PutRefLocked` | src/famfs_fused_icache.c:266-288 | the heap follows the cascade; its assertion holds at every level; it terminates; no freed inode is touched |
| `ICache.InodeCache.InsertLocked` | src/famfs_fused_icache.c:218-249 | the ring with the inode at its head is closed, and the heap follows the insertion |
| `ICache.InodeCache.FindGetLocked` | src/famfs_fused_icache.c:174-203 | the inode of that number with one more reference, or null if none is cached; its assertion holds |
| `ICache.InodeCache.SetPinned` | src/famfs_fused.c:325-328 | exactly that inode becomes pinned |
| `Handlers.FamfsCtx.Get` | src/famfs_fused_icache.c:319-338 | never null for a nodeid that the kernel may refer to; one reference more |
| `Handlers.FamfsCtx.Put` | src/famfs_fused_icache.c:290-297 | drops the handler's reference |
| `Handlers.FamfsCtx.FindOrInsert` | src/famfs_fused.c:599-635 | the inode of that number, which gets two references if it was cached and else is inserted under its parent; one lookup and one hold more |
| `Handlers.FamfsCtx.Lookup` | src/famfs_fused.c:475-705 | null if and only if the name does not exist, and then nothing has changed; otherwise the inode of that number, still cached, with one lookup more and nothing else in the ledger |
| `Handlers.FamfsCtx.Forget` | src/famfs_fused.c:837-852 | exactly the forgotten lookups go from ledger and count; an inode without other references, unpinned and not the root, leaves the cache, and otherwise nothing else changes |
| `Handlers.FamfsCtx.SetAttr` | src/famfs_fused.c:282-337 | pins the inode unless the size was to change; nothing else changes |
| `Handlers.FamfsCtx.Open` | src/famfs_fused.c:1109-1147 | two references more, one of them for the open file and one leaked; nothing else changes |
| `Handlers.FamfsCtx.Release` | src/famfs_fused.c:1149-1174 | one open and one reference less; with its last reference an inode leaves |
| `Numbers.SignedRoundTrip` | src/famfs_yaml.c:280-280 | strtoull reads back what "%lld" printed for any 64-bit value |
| `Numbers.SignedRoundTrip32` | src/famfs_yaml.c:295-295 | a 32-bit field reads back what "%d" printed for any 32-bit value |
| `Numbers.HexRoundTrip` | src/famfs_yaml.c:94-94 | strtoull reads back what "0x%llx" printed |
| `Numbers.OctalRoundTrip` | src/famfs_yaml.c:310-310 | strtoull reads back what "0%o" printed |
| `Numbers.Samples` | src/famfs_yaml.c:94-310 | what the conversions print and what strtoull reads, on numbers written out |
| `Yaml.Emitter.EmitSimpleExtList` | src/famfs_yaml.c:31-141 | the events of the whole list are appended in order |
| `Yaml.Emitter.EmitStripedExtList` | src/famfs_yaml.c:143-238 | the events of the interleaved extent and its strips are appended |
| `Yaml.Emitter.EmitFileYaml` | src/famfs_yaml.c:395-484 | exactly the document of the file is appended |
| `YamlParser.Parser.ParseSimpleExtList` | src/famfs_yaml.c:554-687 | on any events, the outcome that the list grammar defines: extents, error code and events left |
| `YamlParser.Parser.ParseStripedExtList` | src/famfs_yaml.c:689-842 | the same for interleaved extents |
| `YamlParser.Parser.ParseFileYaml` | src/famfs_yaml.c:844-1004 | the same for the file section |
| `YamlParser.Parser.ParseShadowYaml` | src/famfs_yaml.c:1006-1072 | the same for the document |
| `YamlRoundTrip.SimpleRoundTrip` | src/famfs_yaml.c:554-687 | an emitted list is read back if and only if it has 1 to the maximum number of extents; none and too many have their own errors |
| `YamlRoundTrip.StripedRoundTrip` | src/famfs_yaml.c:689-842 | the same for the strips of an interleaved extent |
| `YamlRoundTrip.ParseUndoesEmit` | src/famfs_yaml.c:1006-1072 | parsing an emitted document consumes every event and fills in exactly what was emitted, or refuses with the error of an empty or too long list |
| `YamlRoundTrip.StateIsMeta` | src/famfs_lib.c:3698-3712 | the filled structure is the file metadata |
| `YamlRoundTrip.TestShadowYaml` | src/famfs_lib.c:3661-3716 | the read-back of emitted metadata is identical if and only if its map has 1 to 16 extents or strips |
| `YamlKeys.ExtentSets` | src/famfs_yaml.c:599-630 | which field of an extent each key sets |
| `YamlKeys.StripeSets` | src/famfs_yaml.c:689-842 | which field of an interleaved extent each key sets |
| `YamlKeys.AnyOrder` | src/famfs_yaml.c:554-687 | an extent with its keys in another order is the same extent |
| `YamlKeys.Incomplete` | src/famfs_yaml.c:554-687 | an extent without an offset or without a length is refused, whatever else it has |
| `YamlKeys.WrongCount` | src/famfs_yaml.c:844-1004 | a list of another length than announced is refused |
| `YamlKeys.UnknownKey` | src/famfs_yaml.c:978-984 | a key that the file section does not know is refused |
| `YamlKeys.OtherSection` | src/famfs_yaml.c:1048-1055 | a document with another section than "file" leaves the structure as it was |

## Assumptions of the model

- Checksums are collision free, and the words that memory has before the first write are no
  checksum. Message and log payloads are sequences of words; a word is never torn.
- A cache cell is one word. Whatever hardware does to a line is a series of steps on its words,
  so the model allows more behaviours than lines do.
- At the start of a queue each host's cached copies of its own cells, and the producer's of all cells, are current; the consumer's copies of the producer's cells need not be.
- A client's load may return any value that a log word has had since mkfs.
- Node ids are addresses. The kernel uses a nodeid only while it has a lookup or an open file, and
  forgets no more lookups than it made; `calloc` returns an address that is not in use.
- The outcomes of `rand`, `chown`, `calloc`, of local file operations and of lookups in the shadow tree are parameters.
- Log entries fit their fields: strings shorter than 80 bytes, at most 16 extents, 32-bit and 64-bit numbers.

## Left out

- Queue sequence numbers and message counters are unbounded; 64-bit wrap-around is not modelled.
- QueueCode.SharedQueue.Get: a call that waits for messages is a series of events of the state machine (QueueWaiting), not a method.
- QueueCode.SharedQueue.Put: a call that waits for room is likewise a series of events.
- LockedLog.Session.AllocStrided: for the allocation unit of 2 MiB, because lengths are rounded with that constant; the number of stripes is not truncated to an int.
- LockedLog.Session.Alloc: what happens after an access outside the bitmap or the strip array is not modelled; the outcome says that it comes to one, and runs go on as if the process had ended there.
- LockedLog.Session.Alloc: leaves out the refusal of interleaved requests by builds for kernel ABI 42.
- LockedLog.Session.constructor: requires a bitmap of at most 2^32 bits.
- LockedLog.Session.AllocFile: sizes are unbounded; in the source the rounding up to units wraps for sizes within one unit of 2^64.
- Bitmap.Size: the source passes the number of bits as an int, which turns negative from 2^31 bits on; such devices are not modelled.
- Allocator.AllocContiguous: requires a bitmap of at most 2^32 bits, above which 32-bit truncation marks other units.
- Rebuild.BuildBitmap: requires aligned extents inside the bitmap, as the source asserts or presumes; Sessions proves it of every run.
- Rebuild.BuildBitmap: takes the verdict of famfs_validate_log_entry on each entry as given, and leaves out the statistics that it only prints.
- Master.ReachExact: for runs without cut paths, since the entry of a cut path can carry the name of another path.
- Journal.FamfsLog.Logplay: on memory that does not change meanwhile; incoherent memory is the subject of Visibility and FullPlay.
- Replay records the logged attributes of a node; the write bits that a client clears, and ownership that is set only when both ids are non-zero, are not modelled.
- Master.LongPathsNeverReplay: stands for the standalone mode and for directories; in shadow mode an assertion stops the creation of a file with such a path, which is then not created.
- Paths are relative strings; of realpath the model has only what it leaves for a missing component; duplicate slashes, symbolic links and the shadow tree's own files are not modelled.
- The order and timing of cache-line flushes of the log beyond what a stale read can show.
- ICache: file descriptors, names, fmap metadata, attributes, the flock state and search statistics of an inode.
- Handlers: errors of famfs_do_lookup other than a missing name; readdir, getattr and statfs, which get and put one reference; and flock, which gets one and puts none.
- Scanning, quoting and escaping of YAML text: the model works on events, and running out of events is a parser error.
- YamlParser: array writes beyond 16 extents, which a hand-written document could ask for, go to a longer sequence.
- Interleaved maps have one interleaved extent, the only number that the format has room for.
- The zlib checksum itself, superblock contents, daxdev tables, mounting, locking of the log file, command-line tools and the kernel.

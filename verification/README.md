# xv6 in Dafny

A model of the parts of the xv6 RISC-V kernel, its file-system builder and a few of its programs that are hard
to get right, with proofs of what they are for:

* **Storage.** The redo log with group commit (`LogSpec`, `LogCode`, `LogRuns`), the buffer cache as a doubly linked
  ring and as a protocol between processes (`BioRing`, `BioRuns`), the bitmap allocator and inode block maps with
  file reads, writes and truncation, with an account of the blocks they take (`FsSpec`, `FsRoom`, `FsCode`),
  directories and path names on the bytes of those files (`Dirs`, `DirCode`, `Paths`), and the image mkfs builds, up to
  the lookup of a path in it (`Mkfs`, `MkfsBoot`). A disk is a sequence of blocks; a block write is atomic and
  synchronous, and a crash may fall between any two writes.
* **Virtual memory.** Sv39 page tables (section 4.4 of the RISC-V Privileged Architecture, version 20211203) built in
  place over the physical page allocator (`VmSpec`, `VmTear`, `VmSteps`, `VmRoom`, `VmCode`). Every tree refines a
  plain map from page numbers to entries, and every physical page has one owner at all times.
* **Protocols.** fork, exit, wait, kill and the wakeups between them (`ProcRuns`, `ProcCalls`), sleep locks (`SleepLock`), pipes (`Pipe`),
  the virtio disk queue of sections 2.6 and 5.2 of VIRTIO 1.1 (`VirtioSpec`, `VirtioDisk`, `VirtioRuns`), and a ring of
  processes that pass a byte round (`TokenRing`). A run is any interleaving of atomic steps; the results hold in every
  state of every run.
* **User code.** The storage allocator (`UmallocSpec`, `Umalloc`), the shell's parser (`ShellSpec`, `ShellFlat`, `Shell`), and grep
  (`Grep`).

Code that the source runs in place is a class or a loop here, proved against functions on values; protocols are
state machines with an inductive invariant. A panic or a failed assertion of the source is a result (`ok` false,
`Panic`, `NoCmd`) wherever a caller can reach it; where the model proves that no caller can, the contract says so
(`ensures ok`). The panics that only reject a caller's own mistake (walk above MAXVA, mappages of size 0 or over a
mapped page of a growing process, bmap out of range) are preconditions.

Where the code and what one would expect of it part ways, the model follows the code:

* The log region that mkfs lays out has LOGSIZE blocks, of which one is the header, while begin_op reserves against
  LOGSIZE. `LogRuns.LogSpaceSuffices` shows that operations within their budget never meet log_write's panic if and
  only if the region has more than LOGSIZE blocks, and `LogRuns.AbsorbedWriteCanPanic` that a write which would add
  nothing can still meet it.
* pipewrite returns early for a killed writer without waking readers. `Pipe.StrandsWhen` gives the exact condition, on
  the state and the arguments, under which that leaves a reader asleep beside unread bytes;
  `Pipe.KilledWriterStrandsReader` is a run that does.
* wait tests whether its caller was killed and then goes to sleep. `ProcCalls.OnlyWindowMissed` shows that a killed
  process sleeps in wait only if it was killed between the two, `ProcCalls.WindowMisses` that such a kill is always
  missed, and `ProcCalls.MissedKill` is a run that does.
* piperead takes a byte before it knows that the byte can be copied out. `Pipe.Pipe.Read` loses a byte exactly when
  `Pipe.Loses` holds of the state and the arguments; `Pipe.FailedCopyLosesByte` is a run that does.
* mkfs rounds the root directory's size up to the next block even when it is a whole number of blocks;
  `Mkfs.Image.Build` shows that the file has a hole exactly then, and `MkfsBoot.RootHole` builds such an image. mkfs
  marks its blocks in one bitmap block whatever the size of the disk.
* readi fills a hole with a fresh block. A lookup over a directory with a hole therefore panics when the disk has too
  little room: `DirCode.Dirlookup`, `DirCode.Dirlink` and `Paths.Namex` give the exact condition, the blocks missing in
  what is read against the free ones, and `MkfsBoot.MissingPanics` is an image and a lookup that do. With room,
  fileread meets log_write's panic, because it opens no operation of its own: `FsCode.File.FileRead` gives the exact
  condition, and `MkfsBoot.ReadingPanics` is an image and a read that do.
* writei copies from user memory into the cached block before it knows that the copy will succeed. When it fails, the
  bytes already copied stay in the cache behind the ones reported; `FsCode.FileSystem.Writei` says how many, and when.

## Model

| member | source | states |
|---|---|---|
| LogSpec.CrashDuringCommit | xv6-env/kernel/log.c:178-203 | a commit cut after any of its block writes leaves a disk from which recovery yields the old home blocks if the header write had not happened and all blocks of the group if it had |
| LogSpec.CrashDuringRecovery | xv6-env/kernel/log.c:68-123 | recovery cut after any of its writes leaves a disk from which recovery yields the same home blocks as before |
| LogSpec.RepeatedCrashes | xv6-env/kernel/log.c:116-123 | any number of crashes inside recovery, each anywhere, changes nothing of what the last recovery yields |
| LogSpec.RecoveredAt | xv6-env/kernel/log.c:116-123 | recovery takes each logged block from its slot, keeps every other home block and the slots, and leaves an empty header |
| LogCode.Log.InstallTrans | xv6-env/kernel/log.c:67-83 | issues exactly one home write per logged block, in order, and the disk becomes the old one overlaid with the slots |
| LogCode.Log.ReadHead | xv6-env/kernel/log.c:85-97 | the in-memory header is the one decoded from the disk |
| LogCode.Log.WriteHead | xv6-env/kernel/log.c:99-114 | one write, of a header block that encodes the in-memory header and keeps the rest of the block |
| LogCode.Log.WriteLog | xv6-env/kernel/log.c:177-191 | one slot write per logged block, with its cached contents; home blocks stay |
| LogCode.Log.WriteTrans | xv6-env/kernel/log.c:194-198 | the writes of a commit up to the one that decides it |
| LogCode.Log.Commit | xv6-env/kernel/log.c:193-203 | the writes issued are exactly those the crash theorems speak of; afterwards every cached home block is on the disk and the log is empty |
| LogCode.Log.RecoverFromLog | xv6-env/kernel/log.c:116-123 | the writes issued are exactly the recovery writes of the crash theorems, and the disk is the recovered one |
| LogCode.Log.BeginOp | xv6-env/kernel/log.c:125-142 | admitted exactly when no commit runs and the reservation fits LOGSIZE |
| LogCode.Log.LeaveOp | xv6-env/kernel/log.c:147-165 | the last operation of a group, and no other, is told to commit, and the panic "log.committing" is out of reach |
| LogCode.Log.EndOp | xv6-env/kernel/log.c:144-175 | the last operation of a group puts all of the group on the disk; any other touches neither disk nor log; the panic is out of reach |
| LogCode.Log.LogWrite | xv6-env/kernel/log.c:205-235 | panics exactly when the header is full or no operation is open; otherwise a block enters the group once however often it is written |
| LogCode.Log.constructor | xv6-env/kernel/log.c:54-65 | starting over a disk that survived a crash recovers it |
| LogRuns.NextInv | xv6-env/kernel/log.c:116-235 | the invariant of the logging protocol survives every step: begin, a change to a cached block, log_write, end, each write of a commit, a crash, each write of recovery |
| LogRuns.RunInv | xv6-env/kernel/log.c:116-235 | the invariant in every state of every run, crashes and recoveries included |
| LogRuns.CrashAtomicity | xv6-env/kernel/log.c:68-203 | in every state of every run, crashing there would recover exactly the updates up to the durable point, and that point never cuts an operation |
| LogRuns.IdleIsDurable | xv6-env/kernel/log.c:144-175 | with no operation open and no commit under way, the log is empty, every update is durable and the disk holds all of them |
| LogRuns.LastEndCommits | xv6-env/kernel/log.c:144-203 | the end of the last open operation is followed, by the steps of one commit, by a disk with all of the history and an empty log |
| LogRuns.UpdateAlone | xv6-env/kernel/log.c:125-235 | an operation on its own, from any state without one, puts its change to any home block on the disk |
| LogRuns.CommitFinishes | xv6-env/kernel/log.c:193-203 | a commit under way can always be carried through, and then all of the history is on the disk |
| LogRuns.CrashAlone | xv6-env/kernel/log.c:54-123 | a crash in any state is followed, by the steps of one recovery, by an idle system with exactly the updates that were durable |
| LogRuns.RecoveryFinishes | xv6-env/kernel/log.c:116-123 | a recovery under way can always be carried through, to a disk with everything that was durable |
| LogRuns.NoSteal | xv6-env/kernel/log.c:205-235 | until its commit no home block on the disk shows an update, while the cache shows all of them |
| LogRuns.AddNeverPanics | xv6-env/kernel/log.c:125-142 | with more than LOGSIZE log blocks, in every reachable state the header holds at most LOGSIZE entries and a block within an operation's budget can be added |
| LogRuns.LogSpaceSuffices | xv6-env/kernel/log.c:214-235 | block-adding log_write calls within budget never panic if and only if the region has more than LOGSIZE blocks |
| LogRuns.AbsorbedWriteCanPanic | xv6-env/kernel/log.c:219-231 | a reachable state in which log_write of a block already in the group panics |
| BioRing.BCache.constructor | xv6-env/kernel/bio.c:36-53 | the ring through all buffers is closed and doubly linked, every buffer unused |
| BioRing.BCache.LinkFront | xv6-env/kernel/bio.c:130-134 | the four pointer writes put the buffer at the head of the ring and change no other link |
| BioRing.BCache.Unlink | xv6-env/kernel/bio.c:128-129 | the two pointer writes take the buffer out of the ring |
| BioRing.BCache.FindCached | xv6-env/kernel/bio.c:65-73 | finds the block if and only if some buffer caches it |
| BioRing.BCache.FindUnused | xv6-env/kernel/bio.c:75-86 | the least recently used buffer without references, or none has |
| BioRing.BCache.Bget | xv6-env/kernel/bio.c:55-89 | returns the caching buffer if there is one, else recycles the least recently used free one, else panics; no other buffer changes and no block gets a second buffer |
| BioRing.BCache.Brelse | xv6-env/kernel/bio.c:114-137 | one reference less, and the last one moves the buffer to the front of the ring |
| BioRuns.NextInv | xv6-env/kernel/bio.c:58-151 | the cache invariant survives every step of bread, bwrite, log_write, brelse and commit by any process |
| BioRuns.RunInv | xv6-env/kernel/bio.c:58-151 | the cache invariant in every state of every run |
| BioRuns.BreadReturnsLatest | xv6-env/kernel/bio.c:91-103 | a buffer returned by bread holds the block asked for, with its latest contents |
| BioRuns.RefcntCounts | xv6-env/kernel/bio.c:114-151 | refcnt is the number of owners, waiters and references let go of but not yet counted down, plus one while the block is in the log |
| BioRuns.OneBufferPerBlock | xv6-env/kernel/bio.c:58-89 | two buffers never cache the same block of a device other than 0 |
| BioRuns.LoggedStaysCached | xv6-env/kernel/log.c:214-235 | a logged block is in the cache, valid and referenced, and its buffer is not recycled before the commit |
| BioRuns.SavedIsOnDisk | xv6-env/kernel/bio.c:105-112 | a block neither logged nor being changed is on the disk in its latest form |
| BioRuns.BreadAlone | xv6-env/kernel/bio.c:58-103 | in every state that satisfies the invariant, bread on its own returns the latest contents of the block, if its buffer is not locked or, when it has none, some buffer has no references |
| BioRuns.BrelseAlone | xv6-env/kernel/bio.c:114-137 | brelse gives up one reference and the lock, and changes nothing else |
| BioRuns.WriteThrough | xv6-env/kernel/bio.c:105-137 | a change that is written through and released is on the disk, and the buffer is free again |
| BioRuns.ReadAndRelease | xv6-env/kernel/bio.c:91-137 | bread and brelse of a cached block leave the whole cache as it was |
| BioRuns.SomeRun | xv6-env/kernel/bio.c:91-137 | a run with a miss, the sleep lock, the read, a change, log_write and brelse: a block left pinned by the log |
| FsSpec.PutBitTest | xv6-env/kernel/fs.c:75-77 | setting or clearing a bit changes that bit of the byte alone |
| FsSpec.PutWordWords | xv6-env/kernel/fs.c:408-413 | storing a little-endian word in an indirect block changes that word alone |
| FsSpec.WithBitBits | xv6-env/kernel/fs.c:66-105 | marking or unmarking block b changes the bit of b and of no other block of the disk |
| FsSpec.BitBytes | xv6-env/kernel/fs.c:75-77 | marking or unmarking a block keeps every byte of the disk below 256 |
| FsSpec.AllocateBlock | xv6-env/kernel/fs.c:64-88 | a free block marked and zeroed changes no file, and no inode names it yet |
| FsSpec.RecordSlot | xv6-env/kernel/fs.c:388-406 | storing a fresh block in an inode changes that address of that inode and no other address, keeps every block with one owner, and no file's contents change |
| FsSpec.RecordEntry | xv6-env/kernel/fs.c:407-416 | the same for an entry of the indirect block |
| FsSpec.DropSlot | xv6-env/kernel/fs.c:432-449 | zeroing an address whose blocks are unmarked keeps the invariant and every other file |
| FsSpec.Unmark | xv6-env/kernel/fs.c:91-105 | the block a slot names is marked, so freeing it cannot hit the panic, and unmarking it concerns that block alone |
| FsRoom.SpareOwner | xv6-env/kernel/fs.c:64-88 | the blocks the bitmap has free are the data blocks without an owner, in number |
| FsRoom.FilledJoin | xv6-env/kernel/fs.c:375-421 | reaching two stretches of a file one after the other takes from the free blocks exactly what reaching both takes, and changes only the addresses on the way |
| FsRoom.NeedFails | xv6-env/kernel/fs.c:375-421 | when the next stretch takes more than is free, so does anything that holds it |
| FsRoom.LogsJoin | xv6-env/kernel/fs.c:375-421 | a walk over several blocks logs something exactly when one of them is missing and the disk had a free block; otherwise nothing changes at all |
| FsCode.FileSystem.constructor | xv6-env/kernel/fs.c:41-47 | the file system of an image that satisfies the invariant |
| FsCode.FileSystem.FindFree | xv6-env/kernel/fs.c:70-85 | the lowest free block, or every block is in use |
| FsCode.FileSystem.Balloc | xv6-env/kernel/fs.c:64-88 | the lowest free block, marked, zeroed and owned by nobody; 0 exactly when the disk is full, with nothing changed; every block changed is logged |
| FsCode.FileSystem.Bfree | xv6-env/kernel/fs.c:90-105 | panics exactly on a block that is free already; else clears that bit alone, in a block it logs |
| FsCode.FileSystem.BmapSlot | xv6-env/kernel/fs.c:388-406 | the address in the inode, allocated if it was 0 and the disk has a free block, which then has one less; all other addresses of all inodes stay; every block changed is logged |
| FsCode.FileSystem.BmapEntry | xv6-env/kernel/fs.c:407-417 | the same for an address in the indirect block |
| FsCode.FileSystem.Bmap | xv6-env/kernel/fs.c:375-421 | the block that holds block bn; allocation changes no contents of any file, keeps the ownership invariant, and fails exactly when the holes on the way, indirect block included, outnumber the free blocks; something is logged exactly when there is a hole and a free block, and then every block changed |
| FsCode.FileSystem.WriteBlock | xv6-env/kernel/fs.c:517-527 | one block of one file takes the bytes, and no other block of any file changes; not to be had exactly when the holes on the way outnumber the free blocks; a block copied in full is logged, with every other block changed; a copy that failed half way leaves an allocated block changed and not logged |
| FsCode.FileSystem.WriteTurn | xv6-env/kernel/fs.c:516-528 | one turn goes on with one more block in the file and in the log, or stops where the loop must |
| FsCode.FileSystem.WriteBlocks | xv6-env/kernel/fs.c:516-528 | how far the loop gets, as a function of the source that can be read, the holes in the range and the free blocks; what it leaves is a prefix of the source; every block changed is logged, but for one with stray bytes of a failed copy |
| FsCode.OneTurn | xv6-env/kernel/fs.c:516-528 | a write within one block is done in full or not at all |
| FsCode.FileSystem.Writei | xv6-env/kernel/fs.c:498-539 | with room for the range it returns n, or, when the source cannot be read that far, the bytes of the blocks copied in full; those bytes, and on a failed copy a stray few behind them, are in the file and nothing else changed; without room it is short; the size grows with the bytes returned; -1 exactly for a bad range; every block changed is logged, the inode's always, but for one with stray bytes of a failed copy; a write of up to three blocks logs at most MAXOPBLOCKS blocks |
| FsCode.FileSystem.SetSize | xv6-env/kernel/fs.c:529-536 | the new size, written back, changes no contents |
| FsCode.FileSystem.Readi | xv6-env/kernel/fs.c:467-496 | the file's bytes in the range cut at the size, through direct and indirect blocks; all of them, -1 or short exactly by whether the destination takes them and the holes in the range outnumber the free blocks; logs something, and then every block it changes, exactly when the range has a hole and the disk a free block, and otherwise changes nothing |
| FsCode.FileSystem.FreeDirect | xv6-env/kernel/fs.c:432-437 | gives up exactly the blocks named by the direct addresses and logs every bitmap block it changes; the panic is out of reach |
| FsCode.FileSystem.FreeEntries | xv6-env/kernel/fs.c:439-446 | unmarks exactly the blocks named by the indirect block and logs every bitmap block it changes; the panic is out of reach |
| FsCode.FileSystem.Itrunc | xv6-env/kernel/fs.c:423-453 | frees every block of the inode once and no other; "freeing free block" is unreachable, other files keep their contents; every block changed is logged, and the inode's |
| FsCode.File.FileRead | xv6-env/kernel/file.c:104-130 | while no operation is open: meets log_write's panic exactly when the range read has a hole and the disk a free block; otherwise changes nothing but the offset and returns the bytes, -1 or fewer, exactly as readi does |
| FsCode.File.WriteChunk | xv6-env/kernel/file.c:151-171 | one transaction: the next chunk in full, or no write that holds it fits; every block changed is logged |
| FsCode.File.FileWrite | xv6-env/kernel/file.c:132-181 | returns n exactly when there is no gap before the range, the file does not get too long, the source can be read and the holes in the range do not outnumber the free blocks; what it leaves is a prefix of the source at the old offset; before its k-th transaction the file holds exactly k whole chunks; for a file without holes each chunk logs at most MAXOPBLOCKS distinct blocks, on a disk of any size, and leaves no hole |
| Mkfs.Mark | xv6-env/mkfs/mkfs.c:253-294 | counting the next free block as taken changes no address and no file |
| Mkfs.RoundedHole | xv6-env/mkfs/mkfs.c:163-168 | rounding a size up to the next block leaves a hole exactly when it was a whole number of blocks |
| Mkfs.Regions | xv6-env/mkfs/mkfs.c:92-104 | boot block, superblock, log, inodes, bitmap and data follow each other; every inode and every bitmap bit falls in its own region, for a disk of any size |
| Mkfs.Image.constructor | xv6-env/mkfs/mkfs.c:92-115 | a zeroed disk of any size with its layout satisfies the invariant, every file empty |
| Mkfs.Image.TakeSlot | xv6-env/mkfs/mkfs.c:268-277 | an inode address, taken from the free blocks if 0; every other address stays |
| Mkfs.Image.TakeEntry | xv6-env/mkfs/mkfs.c:277-282 | the same for an entry of the indirect block |
| Mkfs.Image.Place | xv6-env/mkfs/mkfs.c:266-283 | the block of a file block, with every other address of every file unchanged; fails exactly for want of the blocks it takes |
| Mkfs.Image.Ialloc | xv6-env/mkfs/mkfs.c:220-232 | the next inode, empty, of the given type |
| Mkfs.Image.Iappend | xv6-env/mkfs/mkfs.c:252-294 | exactly the given bytes are added to the end of that file; succeeds if and only if no file is then over MAXFILE blocks and the blocks of all files, indirect blocks included, fit the disk |
| Mkfs.NeedIs | xv6-env/mkfs/mkfs.c:266-283 | what an append takes from the free blocks is the difference of the block counts of the two lengths |
| Mkfs.AppendShort | xv6-env/mkfs/mkfs.c:266-285 | an append that stops early would have needed more blocks than the disk has, or a longer file than the format allows |
| Mkfs.Image.Balloc | xv6-env/mkfs/mkfs.c:234-248 | the image with its bitmap written satisfies the file-system invariant and holds the same files; fails exactly when 8192 blocks or more are in use |
| Mkfs.Image.AddFile | xv6-env/mkfs/mkfs.c:150-160 | the root directory gains the file's entry and the new inode holds the file's bytes; succeeds if and only if there is room for both |
| Mkfs.Image.AppendAll | xv6-env/mkfs/mkfs.c:157-158 | the file's bytes, however read splits them |
| Mkfs.Image.AddNext | xv6-env/mkfs/mkfs.c:130-161 | one more file in the root directory and on the disk |
| Mkfs.Image.AddAll | xv6-env/mkfs/mkfs.c:117-161 | the root directory holds ".", ".." and one entry per file, in order, and every inode its type; succeeds if and only if there is room for all |
| Mkfs.Image.Build | xv6-env/mkfs/mkfs.c:117-173 | every file and the root directory are on an image that satisfies the ownership invariant, if and only if all of it fits the disk and the first 8191 blocks; the root has a hole exactly when its entries fill whole blocks; the blocks left free are all but the metadata and those of the files |
| MkfsBoot.RootHolds | xv6-env/mkfs/mkfs.c:117-168 | the root directory on the disk has exactly the entries of the files, and free entries up to its rounded size |
| MkfsBoot.Boot | xv6-env/mkfs/mkfs.c:69-173 | the kernel's file-system invariant holds of the image it first sees, with every file in place and the root directory listing it; there is an image if and only if everything fits |
| MkfsBoot.PathFound | xv6-env/kernel/fs.c:647-684 | in the tree of that image the path of every file leads to its inode |
| MkfsBoot.BootAndFind | xv6-env/kernel/fs.c:647-684 | namex, on the bytes of a fresh image, finds every file mkfs was given, with the contents it was given, on a full disk and with a hole in the root directory too |
| MkfsBoot.Find | xv6-env/kernel/fs.c:647-684 | the same for a file system that holds the image |
| MkfsBoot.PathFree | xv6-env/kernel/fs.c:549-575 | the lookup of a file of the image stops inside the blocks that the root has, hole or not |
| MkfsBoot.RootHole | xv6-env/mkfs/mkfs.c:163-168 | 62 empty files on the disk of the build leave a root directory with a hole |
| MkfsBoot.MissingPanics | xv6-env/kernel/fs.c:549-575 | on a disk of 47 blocks that 62 empty files fill, looking up any name that is not in the root directory panics |
| MkfsBoot.SomeMissing | xv6-env/kernel/fs.c:549-575 | there is such a name |
| MkfsBoot.ReadingPanics | xv6-env/kernel/file.c:120-124 | on the disk of the build with the same files, the second read of the root directory meets log_write's panic |
| Dirs.Strncmp | xv6-env/kernel/string.c:60-68 | 0 exactly when the strings agree up to the limit or a common end |
| Dirs.Strncpy | xv6-env/kernel/string.c:70-81 | the name cut to DIRSIZ and filled with NULs |
| Dirs.NamesEqual | xv6-env/kernel/fs.c:541-547 | namecmp holds exactly for names with the same first DIRSIZ bytes |
| Dirs.HeldInMap | xv6-env/kernel/fs.c:549-575 | without duplicates, every live entry is what the directory maps its name to |
| Dirs.MapHolder | xv6-env/kernel/fs.c:549-575 | every name in the map has a live entry |
| Dirs.StoredMap | xv6-env/kernel/fs.c:588-603 | a live entry in a free place adds one name to the map and changes no other |
| Dirs.DecodeEncode | xv6-env/kernel/fs.h:56-59 | an entry comes back from its 16 bytes unchanged |
| DirCode.Namecmp | xv6-env/kernel/fs.c:541-547 | true exactly when the entry has the name, cut to DIRSIZ |
| DirCode.ReadEntry | xv6-env/kernel/fs.c:560-562 | reading 16 bytes through readi gives the entry; it panics exactly when the blocks missing on the way to it outnumber the free ones |
| DirCode.Dirlookup | xv6-env/kernel/fs.c:549-575 | on the bytes of the directory: finds the name exactly when the directory's map has it, with its inode number and place; panics exactly when the blocks missing among those of the entries it reads, up to the one that has the name, outnumber the free ones; otherwise takes exactly those |
| DirCode.ScanFails | xv6-env/kernel/fs.c:559-562 | a scan that cannot read entry i takes more blocks than are free for any end past i |
| DirCode.FindPlace | xv6-env/kernel/fs.c:592-598 | the first free entry, or the end of the directory; panics exactly when the blocks missing among those it reads outnumber the free ones |
| DirCode.LinkHolds | xv6-env/kernel/fs.c:600-603 | 16 bytes written at a place give the directory with that entry, and no other changed |
| DirCode.StoreEntry | xv6-env/kernel/fs.c:600-603 | writei stores the entry in full or not at all, and changes no other file; in full exactly when the directory is not too long and its block is there or can be had |
| DirCode.Dirlink | xv6-env/kernel/fs.c:577-606 | panics exactly when the lookup does; otherwise links exactly when the name is not there and there is a free entry or room for one more at the end; adds that name to the directory's map in its first free entry and changes no other lookup and no other file |
| DirCode.PlaceFound | xv6-env/kernel/fs.c:592-598 | dirlink's own panic is out of reach: the lookup before has read every entry |
| DirCode.PlaceIsRoom | xv6-env/kernel/fs.c:592-603 | room at the place found is room for one more entry before the call |
| Paths.ComponentsSplit | xv6-env/kernel/fs.c:609-645 | a path that begins with an element is that element followed by the elements of the rest |
| Paths.SkipSlashes | xv6-env/kernel/fs.c:628-629 | leading slashes carry no elements |
| Paths.Skipelem | xv6-env/kernel/fs.c:609-645 | the next non-empty slash-separated element, cut to DIRSIZ, and the rest of the path; the rest is empty exactly for the last element |
| Paths.FollowStep | xv6-env/kernel/fs.c:661-678 | one turn of namex against the fold of lookups over all elements |
| Paths.StopsAt | xv6-env/kernel/fs.c:661-683 | where namex stops, its result is the one the fold gives |
| Paths.VisitNext | xv6-env/kernel/fs.c:661-678 | how far into each directory the path is read, one lookup at a time |
| Paths.WalkNext | xv6-env/kernel/fs.c:672-677 | a lookup takes exactly the blocks that reading on in its directory adds to the total, also in a directory read before |
| Paths.WalkFails | xv6-env/kernel/fs.c:672-677 | a lookup that panics shows that the whole path takes more than is free |
| Paths.Lookup | xv6-env/kernel/fs.c:672-677 | one lookup on the way, through readi; it panics only if what the whole path reads takes more blocks than are free |
| Paths.Namex | xv6-env/kernel/fs.c:647-684 | on the bytes of the directories: without the parent flag, folding lookups over the path's elements; with it, the fold without the last element, and that element as the name; no file changes; panics exactly when the blocks missing in what is read of the directories on the path, each counted once, outnumber the free ones |
| VmSpec.PteRoundTrip | xv6-env/kernel/riscv.h:335-352 | address and flags come back from a page-table entry unchanged |
| VmSpec.Rounding | xv6-env/kernel/riscv.h:335-339 | rounding gives the nearest page boundaries above and below |
| VmSpec.WalkIndex | xv6-env/kernel/riscv.h:354-358 | the index of each level leads from a table to the table below it on the path to the page |
| VmSpec.WalkedIsLeaf | xv6-env/kernel/vm.c:74-108 | three levels of entries give exactly what the plain map gives, for every address |
| VmSpec.AddTable | xv6-env/kernel/vm.c:99-105 | a zeroed table linked in changes no translation of any tree and keeps trees unshared |
| VmSpec.SetLeaf | xv6-env/kernel/vm.c:157-167 | writing a leaf entry changes one page of one tree and no other translation |
| VmSpec.Conservation | xv6-env/kernel/kalloc.c:42-82 | free and owned pages together are all pages |
| VmTear.TreeWithout | xv6-env/kernel/vm.c:277-307 | a tree torn down leaves every other tree and every translation in them as they were |
| VmSteps.CopyPage | xv6-env/kernel/vm.c:366-379 | copying within a page equals byte-by-byte writes at virtual addresses |
| VmSteps.RollBack | xv6-env/kernel/vm.c:229-256 | growing and undoing leaves all leaf mappings, data pages and their bytes as before; only table pages may remain |
| VmSteps.Undone | xv6-env/kernel/proc.c:176-206 | freeing a tree just made undoes its making |
| VmRoom.TabledNext | xv6-env/kernel/vm.c:74-108 | the tables made for one page after the other are those missing for all of them |
| VmRoom.TabledFails | xv6-env/kernel/vm.c:74-108 | when the next page lacks more tables than there are free pages, so does any stretch that holds it |
| VmRoom.TopLacks | xv6-env/kernel/proc.c:186-203 | in a new tree the top page lacks two tables |
| VmRoom.NextTop | xv6-env/kernel/proc.c:196-203 | the page below it then lacks none |
| VmCode.Vm.constructor | xv6-env/kernel/kalloc.c:26-40 | every whole page of the range is on the free list once |
| VmCode.Vm.Kalloc | xv6-env/kernel/kalloc.c:65-82 | the first free page, filled with junk, owned by nobody before; 0 exactly when there is none |
| VmCode.Vm.Kfree | xv6-env/kernel/kalloc.c:42-63 | panics exactly for an address that is no page; else the page is back, once, and its bytes are gone |
| VmCode.Vm.NewTable | xv6-env/kernel/vm.c:99-105 | a missing table is linked in without changing a translation, or memory is out and nothing changed |
| VmCode.Vm.Walk | xv6-env/kernel/vm.c:74-108 | the table that holds the leaf entry of va; with allocation, even one that fails half way, no translation of any tree changes; exactly the missing tables are made, and it fails exactly when they outnumber the free pages |
| VmCode.Vm.MapPage | xv6-env/kernel/vm.c:156-167 | one page mapped and nothing else, with the missing tables made; a remap detected exactly; on failure no translation changed |
| VmCode.Vm.Mappages | xv6-env/kernel/vm.c:142-169 | exactly the given pages are added, with the missing tables made; on failure exactly the first `done` of them, and the tables to one page more outnumber the free pages |
| VmCode.Vm.UnmapPage | xv6-env/kernel/vm.c:184-195 | panics exactly for a page without a leaf; else removes that leaf and frees its page if asked |
| VmCode.Vm.Uvmunmap | xv6-env/kernel/vm.c:171-197 | panics exactly when misaligned or a page is not mapped; else removes exactly the given pages and frees exactly theirs |
| VmCode.Vm.NewPage | xv6-env/kernel/vm.c:239-254 | a fresh page with given bytes mapped at an empty address, or everything but table pages as before; the latter exactly when the missing tables and the page outnumber the free pages |
| VmCode.Vm.Uvmdealloc | xv6-env/kernel/vm.c:258-275 | exactly the pages between the rounded sizes are unmapped and freed |
| VmCode.Vm.Uvmalloc | xv6-env/kernel/vm.c:227-256 | zeroed pages in fresh frames for exactly the new range, or all leaf mappings and data pages as before; succeeds if and only if the pages and the tables missing on the way to them fit the free pages |
| VmCode.Vm.Uvmcopy | xv6-env/kernel/vm.c:309-344 | equal bytes and flags in fresh frames for every page, or all leaf mappings and data pages as before; the latter exactly when the pages before the first unmapped one, and the tables they lack, outnumber the free pages; otherwise it panics exactly when a source page is missing |
| VmCode.Vm.Freewalk | xv6-env/kernel/vm.c:277-298 | "freewalk: leaf" exactly when a leaf is left; else every table of the subtree is freed once and nothing else |
| VmCode.Vm.Uvmfree | xv6-env/kernel/vm.c:300-307 | succeeds exactly when the mapped pages are those below the size, and then the whole tree is gone |
| VmCode.Vm.Uvmcreate | xv6-env/kernel/vm.c:199-210 | an empty tree of its own, or memory was out and nothing changed |
| VmCode.Vm.Walkaddr | xv6-env/kernel/vm.c:110-131 | non-zero exactly for a valid user page, and then its physical page |
| VmCode.Vm.Copyout | xv6-env/kernel/vm.c:358-381 | equals writing the bytes one by one at virtual addresses; stops exactly at the first page the user cannot reach |
| VmCode.Vm.Copyin | xv6-env/kernel/vm.c:383-406 | equals reading the bytes one by one at virtual addresses; stops exactly at the first page the user cannot reach |
| VmCode.Vm.Copyinstr | xv6-env/kernel/vm.c:408-456 | on success the bytes up to and with the first NUL; on failure none of the bytes read is NUL, and max or a bad page was reached |
| VmCode.Vm.ProcPagetable | xv6-env/kernel/proc.c:174-206 | a tree that maps exactly the trampoline and the trap frame, or every page back where it was; the latter exactly when fewer than three pages are free; the second mapping cannot fail |
| VmCode.Vm.ProcFreepagetable | xv6-env/kernel/proc.c:208-216 | for a process's tree, every table and user page goes back to the free list once and no panic is met |
| ProcRuns.NextInv | xv6-env/kernel/proc.c:279-435 | the invariant survives every step of fork, a fork that runs out of memory, exit, reparent, wait, kill, sleep, wakeup and the scheduler |
| ProcRuns.RunInv | xv6-env/kernel/proc.c:279-435 | the invariant in every state of every run |
| ProcRuns.ParentsAreAlive | xv6-env/kernel/proc.c:328-386 | no parent pointer ever names an unused slot or a zombie, and every zombie has a parent |
| ProcRuns.NoMissedZombie | xv6-env/kernel/proc.c:388-435 | a process asleep in wait while wait_lock is free has no zombie child |
| ProcRuns.ReapedOnce | xv6-env/kernel/proc.c:407-421 | a child that wait frees had exited and was never freed before |
| ProcRuns.GaveUpForGood | xv6-env/kernel/proc.c:426-430 | wait returns -1 for a process that is not killed only if it has no children |
| ProcRuns.SomeRun | xv6-env/kernel/proc.c:279-435 | a run to a parent asleep in wait, its child alive and wait_lock free |
| ProcCalls.ForkAlone | xv6-env/kernel/proc.c:279-326 | fork on its own: a free slot becomes a runnable child of the caller with a new pid, and nothing else changes |
| ProcCalls.ForkFailsAlone | xv6-env/kernel/proc.c:286-295 | a fork that runs out of memory uses up a pid, leaves the slot free and changes nothing else |
| ProcCalls.ExitAlone | xv6-env/kernel/proc.c:328-386 | exit on its own: the caller is a zombie, its children belong to init, init and the parent are awake if they slept in wait, and nothing else changes |
| ProcCalls.WaitAlone | xv6-env/kernel/proc.c:388-435 | wait on its own: frees the first zombie child, returns -1 exactly without children or when killed, else sleeps, and nothing else changes |
| ProcCalls.WokenWaits | xv6-env/kernel/proc.c:536-564 | a process woken in wait goes through the same again |
| ProcCalls.KillWakes | xv6-env/kernel/proc.c:585-604 | in every run kill marks its victim, leaves it awake and changes nothing else |
| ProcCalls.KilledStays | xv6-env/kernel/proc.c:585-612 | in every run a killed process stays killed until its slot is freed |
| ProcCalls.KilledLeavesWait | xv6-env/kernel/proc.c:426-434 | a process killed while it sleeps in wait leaves wait by its own steps, whatever its children do |
| ProcCalls.OnlyWindowMissed | xv6-env/kernel/proc.c:426-433 | in every run a killed process that sleeps in wait was killed between wait's test and its sleep |
| ProcCalls.WindowMisses | xv6-env/kernel/proc.c:426-433 | every kill in that window is missed: the process goes to sleep |
| ProcCalls.MissedKill | xv6-env/kernel/proc.c:426-433 | a run to a process that is killed, asleep in wait and has a live child |
| SleepLock.NextInv | xv6-env/kernel/sleeplock.c:21-41 | the invariant survives every step of acquiresleep, releasesleep, sleep and wakeup |
| SleepLock.RunInv | xv6-env/kernel/sleeplock.c:21-41 | the invariant in every state of every run |
| SleepLock.NoLostWakeup | xv6-env/kernel/proc.c:533-580 | while the inner lock is free, a process sleeps on the sleep lock only if it is held |
| SleepLock.MutualExclusion | xv6-env/kernel/sleeplock.c:21-41 | at most one process holds the lock, and the lock's fields say which |
| SleepLock.NoDeadlock | xv6-env/kernel/sleeplock.c:21-41 | in every run, while a process is in one of the calls or holds the lock, some such process can go on |
| SleepLock.Acquires | xv6-env/kernel/sleeplock.c:21-31 | acquiresleep on its own gets a free lock, sleeps on a taken one, and changes nothing else |
| SleepLock.Releases | xv6-env/kernel/sleeplock.c:33-41 | releasesleep on its own frees the lock, wakes every process that sleeps on it, and changes nothing else |
| SleepLock.HandOver | xv6-env/kernel/sleeplock.c:21-41 | a process asleep on the lock gets it once its holder has released it |
| SleepLock.SomeRun | xv6-env/kernel/sleeplock.c:21-41 | for any number of processes, a run in which one sleeps on the lock that another holds, and gets it |
| Pipe.Pipe.constructor | xv6-env/kernel/pipe.c:22-56 | an empty pipe with both ends open |
| Pipe.Pipe.Close | xv6-env/kernel/pipe.c:58-74 | the end is closed and the other as it was; whoever slept on the other side is awake, and no process is left asleep without cause |
| Pipe.Pipe.Put | xv6-env/kernel/pipe.c:93-96 | the byte joins the queue, occupancy within PIPESIZE across 32-bit wrap |
| Pipe.Pipe.Get | xv6-env/kernel/pipe.c:120-123 | the oldest accepted byte not yet consumed |
| Pipe.Pipe.Write | xv6-env/kernel/pipe.c:76-103 | how far it gets, whether it sleeps, and the bytes accepted, as a function of the state and the arguments; returns -1 exactly when it finds the read end closed or its caller killed, else the number of bytes in the pipe; the sleepers stay justified if and only if the writer is not killed after its first byte with a reader asleep |
| Pipe.WriteAt | xv6-env/kernel/pipe.c:83-98 | the tests of the loop, in their order, against the closed form of how far the write gets |
| Pipe.StrandsWhen | xv6-env/kernel/pipe.c:83-103 | exactly which writes leave a reader asleep beside unread bytes: a condition on the state and the arguments |
| Pipe.Pipe.Read | xv6-env/kernel/pipe.c:105-130 | returns the number of bytes delivered, the oldest unread ones, all there are up to n unless copyout fails; -1 exactly for a killed reader of an empty pipe with its write end open, and sleeps exactly when such a reader is not killed; whether it loses a byte, as a function of the state and the arguments; keeps every sleep justified |
| Pipe.Pipe.Take | xv6-env/kernel/pipe.c:120-126 | delivers the oldest bytes in order and takes one more exactly when copyout fails on a byte that is there |
| Pipe.ReadAt | xv6-env/kernel/pipe.c:120-126 | the tests of the loop against the closed form of how many bytes are delivered |
| Pipe.KilledWriterStrandsReader | xv6-env/kernel/pipe.c:84-87 | a writer killed half way leaves a reader asleep beside an unread byte |
| Pipe.FailedCopyLosesByte | xv6-env/kernel/pipe.c:120-126 | a read into bad memory consumes a byte and returns none |
| Pipe.RunWithin | xv6-env/kernel/pipe.c:58-130 | in every run the pipe holds between 0 and PIPESIZE bytes |
| Pipe.Fifo | xv6-env/kernel/pipe.c:58-130 | in every run the reads together return what was accepted and taken out, in order, without the bytes lost to a failed copyout, and all of it when none was lost |
| Pipe.SleepersJustified | xv6-env/kernel/pipe.c:58-130 | in every run without a stranding write, a sleeping reader means an empty pipe with its write end open and a sleeping writer a full one |
| Pipe.Roused | xv6-env/kernel/proc.c:585-604 | in every run, a process killed in its sleep is awake, and nothing else of the pipe changes |
| Pipe.SomeRun | xv6-env/kernel/pipe.c:58-130 | a run in which a reader and a writer sleep and wake, the bytes arrive, and both ends close |
| Pipe.EndOfFile | xv6-env/kernel/pipe.c:58-130 | in every run, once the write end is closed no read sleeps or fails, and a read of an empty pipe returns 0 |
| Pipe.BrokenPipe | xv6-env/kernel/pipe.c:58-103 | in every run, once the read end is closed a write with bytes left returns -1 and adds none |
| VirtioSpec.Conservation | xv6-env/kernel/virtio_disk.c:155-213 | free descriptors plus three per request are NUM, so at most two requests are in flight |
| VirtioSpec.IndexDiffers | xv6-env/kernel/virtio_disk.c:309-324 | 16-bit indices that are less than a full turn apart tell their counters apart |
| VirtioSpec.PostStep | xv6-env/kernel/virtio_disk.c:235-277 | publishing a chain keeps chains disjoint and overwrites no entry of the avail ring the device has not taken |
| VirtioSpec.TakeStep | xv6-env/kernel/virtio_disk.c:271-281 | the device finds the published chains in order |
| VirtioSpec.CompleteStep | xv6-env/kernel/virtio_disk.c:309-324 | completing a chain overwrites no entry of the used ring the driver has not seen |
| VirtioSpec.SeeStep | xv6-env/kernel/virtio_disk.c:312-324 | the next used entry names a request with status 0 and its own buffer, and clears that buffer alone |
| VirtioSpec.EndStep | xv6-env/kernel/virtio_disk.c:283-292 | freeing the chain of an acknowledged request keeps all others |
| VirtioDisk.Disk.constructor | xv6-env/kernel/virtio_disk.c:120-146 | all descriptors free, nothing in flight |
| VirtioDisk.Disk.AllocDesc | xv6-env/kernel/virtio_disk.c:155-166 | the lowest free descriptor, or none is free |
| VirtioDisk.Disk.FreeDesc | xv6-env/kernel/virtio_disk.c:168-182 | panics exactly for a bad index or a free descriptor; else frees and clears it |
| VirtioDisk.Disk.Alloc3 | xv6-env/kernel/virtio_disk.c:199-213 | three different free descriptors exactly when three are free; else none is kept |
| VirtioDisk.Disk.Fill | xv6-env/kernel/virtio_disk.c:235-277 | the descriptors written form the request's chain |
| VirtioDisk.Disk.Request | xv6-env/kernel/virtio_disk.c:215-281 | accepted exactly when fewer than two requests are in flight, and then one new chain |
| VirtioDisk.Disk.DeviceTakes | xv6-env/kernel/virtio_disk.c:271-281 | the device takes the oldest chain it has not taken |
| VirtioDisk.Disk.DeviceCompletes | xv6-env/kernel/virtio_disk.c:235-265 | reading the descriptors alone, with their lengths and flags, the device moves exactly the request's sector and buffer |
| VirtioDisk.Disk.Intr | xv6-env/kernel/virtio_disk.c:294-327 | every completed request is acknowledged once, its buffer and no other is released, and the status panic is unreachable |
| VirtioDisk.Disk.FreeChain | xv6-env/kernel/virtio_disk.c:184-197 | frees exactly the three descriptors of the chain, without a panic |
| VirtioDisk.Disk.Finish | xv6-env/kernel/virtio_disk.c:283-292 | the request is gone and three descriptors are free again |
| VirtioRuns.NextInv | xv6-env/kernel/virtio_disk.c:215-327 | the invariant survives every step of driver, interrupt handler and device, with the format of a chain, its ring entry and the index as three steps |
| VirtioRuns.AlwaysInv | xv6-env/kernel/virtio_disk.c:215-327 | the invariant in every state of every run |
| VirtioRuns.PublishInv | xv6-env/kernel/virtio_disk.c:271-277 | writing the ring entry before the index changes nothing the device can see |
| VirtioRuns.TakeInv | xv6-env/kernel/virtio_disk.c:271-281 | the device never takes the chain that is being published |
| VirtioRuns.ChainsApart | xv6-env/kernel/virtio_disk.c:155-213 | in every run requests share no descriptor and no buffer, and free descriptors plus three per request are NUM |
| VirtioRuns.DeviceSeesRequests | xv6-env/kernel/virtio_disk.c:271-281 | in every run whatever the device takes is a published request, the oldest one not yet taken |
| VirtioRuns.DeviceSeesChain | xv6-env/kernel/virtio_disk.c:235-265 | in every run the device finds the chain it completes as the driver wrote it |
| VirtioRuns.HandlerClearsOwn | xv6-env/kernel/virtio_disk.c:294-327 | in every run the status panic is out of reach, and each completion clears the buffer of the request it is for |
| VirtioRuns.HandlerSeesAll | xv6-env/kernel/virtio_disk.c:294-327 | in every run the handler returns only when it has acknowledged every completed request |
| VirtioRuns.NeverStuck | xv6-env/kernel/virtio_disk.c:215-327 | in every run with a request in flight, the holder of the lock, the device, the handler or the request itself can go on |
| VirtioRuns.SomeRun | xv6-env/kernel/virtio_disk.c:215-327 | a run that publishes, serves and finishes a request, which the device completes while the handler holds the lock |
| TokenRing.ParentStepInv | xv6-env/user/circulate_byte.c:31-97 | the invariant survives every step of the parent |
| TokenRing.KidStepInv | xv6-env/user/circulate_byte.c:8-29 | the invariant survives every step of a child |
| TokenRing.OneToken | xv6-env/user/circulate_byte.c:8-97 | from the first write until the parent closes its ends, the byte is in exactly one pipe or process, unchanged |
| TokenRing.NoDeadlock | xv6-env/user/circulate_byte.c:8-97 | for any number of children and loops, no reachable state before the end is stuck |
| TokenRing.Terminates | xv6-env/user/circulate_byte.c:8-97 | every run is finite, by a measure that falls at every step |
| TokenRing.EndsWell | xv6-env/user/circulate_byte.c:84-97 | a run that cannot go on has ended, every child exited and reaped |
| TokenRing.ForkInherits | xv6-env/user/circulate_byte.c:44-54 | a child starts with every end open, and the parent keeps all of its own |
| TokenRing.KidCloses | xv6-env/user/circulate_byte.c:11-18 | one step of a child's loop of closes closes one end at most, and none of the two the child uses |
| TokenRing.ParentCloses | xv6-env/user/circulate_byte.c:56-63 | the same for the parent's loop |
| TokenRing.EndsLeft | xv6-env/user/circulate_byte.c:11-63 | past its loop of closes, every process has exactly the two ends it uses open |
| TokenRing.RunRounds | xv6-env/user/circulate_byte.c:8-97 | in every state of every run, each child has written the byte on once more than the parent if it is past that child, and else as often |
| TokenRing.AllRounds | xv6-env/user/circulate_byte.c:74-86 | past its loop, the parent has written the byte on exactly as often as asked, and each child in every one of these rounds and at most once more |
| UmallocSpec.Merge | xv6-env/user/umalloc.c:33-42 | joining two adjacent blocks keeps blocks apart and conserves units |
| UmallocSpec.Split | xv6-env/user/umalloc.c:78-82 | cutting a block in two keeps blocks apart and conserves units |
| UmallocSpec.ListedValid | xv6-env/user/umalloc.c:24-44 | a live block put in its gap keeps the ring address-ordered and conserves units |
| UmallocSpec.JoinedValid | xv6-env/user/umalloc.c:33-42 | joining restores full coalescing and conserves units |
| UmallocSpec.TakenValid | xv6-env/user/umalloc.c:76-77 | a free block taken whole keeps the heap valid |
| UmallocSpec.CutValid | xv6-env/user/umalloc.c:78-82 | the tail of a free block taken keeps the heap valid, and the tail overlaps nothing |
| UmallocSpec.ScanStops | xv6-env/user/umalloc.c:30-32 | free's loop condition stops exactly at the block's place in the ring |
| Umalloc.Heap.constructor | xv6-env/user/umalloc.c:20-22 | a heap before its first use |
| Umalloc.Heap.FindPlace | xv6-env/user/umalloc.c:30-32 | the scan terminates at the free block after which bp belongs |
| Umalloc.Heap.Free | xv6-env/user/umalloc.c:24-44 | the block leaves the live set, the ring stays circular, ordered and coalesced, no other live block changes, and units are conserved |
| Umalloc.Heap.Morecore | xv6-env/user/umalloc.c:46-61 | at least 4096 units join the free ring, or nothing changes when sbrk refuses |
| Umalloc.Heap.Carve | xv6-env/user/umalloc.c:75-85 | a new live block of exactly n units that overlaps nothing |
| Umalloc.Heap.Start | xv6-env/user/umalloc.c:70-73 | the first call makes a ring of the header alone; later calls change nothing |
| Umalloc.Heap.Malloc | xv6-env/user/umalloc.c:63-90 | a new live block of the right size that overlaps no other; 0 exactly when sbrk was asked and refused; sbrk is asked only when no free block is large enough; units are conserved |
| ShellSpec.Shown | xv6-env/user/sh.c:344-447 | a printed tree is parsed back wherever a command may stand, with the redirections that follow it |
| ShellSpec.RoundTrip | xv6-env/user/sh.c:328-447 | parsing the fully parenthesised print of a tree gives the tree back |
| ShellFlat.WrapLayers | xv6-env/user/sh.c:375-398 | a list of redirections goes around a command in order, and none is lost |
| ShellFlat.SimpleCommand | xv6-env/user/sh.c:416-447 | words and redirections in any order: the words are the arguments, and all redirections go around the command in their order |
| ShellFlat.ParenRedirs | xv6-env/user/sh.c:400-414 | redirections behind a command in parentheses go around all of it, in order |
| ShellFlat.FlatRoundTrip | xv6-env/user/sh.c:328-447 | every tree, typed with only the parentheses it needs, is parsed back: precedence and nesting of every operator |
| ShellFlat.LeadingBlanks | xv6-env/user/sh.c:263-274 | blanks in front of a line change nothing |
| ShellFlat.Leftover | xv6-env/user/sh.c:336-340 | any command followed by a closing parenthesis too many is refused |
| ShellFlat.Unclosed | xv6-env/user/sh.c:408-410 | any command with an opening parenthesis too many is refused |
| ShellFlat.TooManyWords | xv6-env/user/sh.c:439-441 | a simple command with MAXARGS words or more is refused |
| ShellFlat.MissingFile | xv6-env/user/sh.c:383-384 | a redirection without a file name is refused, after any words and redirections |
| Shell.SkipSpaces | xv6-env/user/sh.c:273-274 | stops at the first character that is no blank |
| Shell.PeekAt | xv6-env/user/sh.c:311-321 | true exactly when the next character is one of the tokens, with the blanks skipped |
| Shell.WordEnd | xv6-env/user/sh.c:296-300 | the end of the longest word |
| Shell.Gettoken | xv6-env/user/sh.c:266-309 | the token and its span of the line, as the grammar on strings has it |
| Shell.Parseredirs | xv6-env/user/sh.c:375-398 | all redirections that follow, in order, or the panic exactly when a file name is missing |
| Shell.Parseargs | xv6-env/user/sh.c:430-447 | the arguments and redirections of a simple command, or a panic exactly where the grammar has none |
| Shell.Parseexec | xv6-env/user/sh.c:416-447 | a block or a simple command, as the grammar has it |
| Shell.Parseblock | xv6-env/user/sh.c:400-414 | a command in parentheses with its redirections |
| Shell.Parsepipe | xv6-env/user/sh.c:362-373 | a pipeline, nested to the right |
| Shell.Parsebacks | xv6-env/user/sh.c:351-354 | one background node for each ampersand |
| Shell.Parseline | xv6-env/user/sh.c:345-360 | a list of commands, nested to the right; parsing ends because each token moves the cursor on |
| Shell.Nulterminate | xv6-env/user/sh.c:449-494 | a NUL behind every word of the command, and no word character overwritten |
| Shell.WordsAreTokens | xv6-env/user/sh.c:449-494 | after that, each word read as a C string is exactly its token |
| Shell.Reads | xv6-env/user/sh.c:449-494 | the strings the command points to are those of its tree |
| Shell.Strlen | xv6-env/user/ulib.c:36-44 | the length of the C string at the front of the buffer |
| Shell.Parsecmd | xv6-env/user/sh.c:328-343 | on the C string at the front of the buffer: panics exactly where the grammar fails; else the buffer, read through the command's pointers, holds the tree of the line; nothing behind the line changes |
| Shell.PrintedReads | xv6-env/user/sh.c:328-343 | a printed tree, parsed in place, reads back as that tree |
| Grep.HereOne | xv6-env/user/grep.c:91-94 | a single character in front of a pattern, against the declared language |
| Grep.HereStar | xv6-env/user/grep.c:97-105 | a starred character in front of a pattern, against the declared language |
| Grep.ParseShow | xv6-env/user/grep.c:83-95 | a regular expression that can be written is read back from its print |
| Grep.ShowParse | xv6-env/user/grep.c:83-95 | every pattern is the print of what it is read as, so that patterns and expressions match one to one |
| Grep.WholeLine | xv6-env/user/grep.c:71-95 | a word between ^ and $ matches the texts that agree with it character by character |
| Grep.LineStart | xv6-env/user/grep.c:71-95 | after ^, the texts that begin so |
| Grep.Substring | xv6-env/user/grep.c:71-95 | on its own, the texts that hold it; before $, those that end so |
| Grep.OnlyStar | xv6-env/user/grep.c:97-105 | between ^ and $, a starred character matches the texts made of it alone, and .* every text |
| Grep.Match | xv6-env/user/grep.c:71-81 | true exactly when some substring is in the language of the pattern, with ^ and $ |
| Grep.MatchHere | xv6-env/user/grep.c:83-95 | true exactly when some prefix of the text is in the language |
| Grep.MatchStar | xv6-env/user/grep.c:97-105 | true exactly when some number of hits is followed by a match of the rest |
| Grep.FindNl | xv6-env/user/grep.c:21 | the first newline in the filled part of the buffer |
| Grep.OneLine | xv6-env/user/grep.c:22-26 | prints the line with its newline exactly when the line matches, and changes no other byte |
| Grep.Lines | xv6-env/user/grep.c:20-28 | prints exactly the matching whole lines of the buffer and leaves the rest |
| Grep.GreppedAppend | xv6-env/user/grep.c:18-33 | the output of whole lines and of what follows can be put together |
| Grep.ReadableAppend | xv6-env/user/grep.c:18-33 | whole lines that fit the buffer are taken in full |
| Grep.AllReadable | xv6-env/user/grep.c:10-34 | with lines of at most 1022 bytes nothing of the input is lost |
| Grep.Grep | xv6-env/user/grep.c:10-34 | the output does not depend on how read splits the input, and is exactly the matching lines of what the buffer can take in |

## Left out

- Boot, traps, context switches, interrupts, the scheduler's choice, timers, the console and both printf families.
- spinlock.c: a spin lock is an atomic step of the protocol models; noff and intena are not modelled.
- Memory ordering: steps are sequentially consistent.
- The kernel page table, uvmfirst, uvmclear, growproc, exec, and vmprint.
- virtio_disk_init and device registers; the device is a step that completes any chain it has taken, with status 0.
- Link counts, ilock and iput, the inode table, and the system calls above the file system.
- fileclose and the other kinds of file in file.c: they only add easy members.
- runcmd and the shell's main loop.
- FsCode.FileSystem.constructor: the superblock is a record; reading it and its magic number are not modelled.
- FsCode.FileSystem.Readi: blocks and inodes are sequences that the methods reassign, and an inode is a record beside the blocks, not bytes of the inode blocks; what a failing copyout has stored of the last block is not modelled.
- FsCode.FileSystem.Writei: user memory is the prefix of the source that can be read, and how many bytes a failing copyin leaves behind is a parameter.
- FsCode.File.FileWrite: the transactions and the images between them are stated; that a crash recovers one of these images is LogRuns.CrashAtomicity on the log's own state, and the two models are not composed.
- FsCode.File.FileRead: no other process has an operation open, which would let log_write pass; the panic is reported after the read, with the blocks allocated by then.
- Mkfs.Image.Ialloc: files beyond the room in the inode blocks, which mkfs does not check for, are a precondition.
- Mkfs.Image.Build: file names come without the directory and underscore that main strips; the superblock is a record, not block 1.
- DirCode.Dirlookup: a directory without duplicate names whose size is a whole number of entries; that is what dirlink keeps.
- DirCode.Dirlink: the reference to the inode that a refused link drops is not modelled.
- Paths.Namex: the directory tree does not change during a lookup, and locks and inode references are left out.
- VmCode.Vm.Walk: a physical page holds either a table or bytes, as its owner says; the two views of one page are not modelled.
- VmCode.Vm.Uvmalloc: the range must be unmapped and end at or below TRAPFRAME; growproc and exec do not test this, it holds because memory runs out long before.
- ProcRuns.NextInv: fork's part under np->lock is one step, done or failed; exit statuses are not modelled, nor is a wait that cannot copy one out.
- SleepLock.NextInv: one sleep lock, and processes that do nothing else.
- Pipe.Pipe.Write: a call runs until it sleeps or returns; a caller that was asleep calls again with the bytes that are left.
- VirtioDisk.Disk.Request: atomic here, and a request that finds no descriptors returns; VirtioRuns splits it and lets the device run in between.
- VirtioDisk.Disk.Intr: atomic here; VirtioRuns takes its turns one by one.
- VirtioRuns.NextInv: any three free descriptors may be taken, not only the lowest; freeing a chain is one step under the lock.
- TokenRing.NoDeadlock: no kill and no failing pipe, fork, read or write.
- Umalloc.Heap.Malloc: memory is a map of headers counted in units; request sizes fit sbrk's int, so nunits does not wrap.
- Shell.Parseexec: the command node is built at the end, where the source fills it in as it parses.
- Grep.Grep: input without NUL bytes, and read never fails.

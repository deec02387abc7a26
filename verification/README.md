# Chunkfs continuation layer: model and proofs

Chunkfs spreads one logical file over client inodes in several chunks. A record of four extended
attributes (`next`, `prev`, `start`, `len`) links those inodes; a hop is found by a constructed file
name or by a packed inode number. This project models

- packed inode numbers and the text form of records and paths (`PackedNumber.dfy`, `Decimal.dfy`);
- the on-disk structure with one global invariant, `Continuations.Inv`, that also admits half-created
  and orphaned continuations (`Continuations.dfy`), and the two walks over it (`Walks.dfy`);
- creation of a continuation as nine separate disk steps: crash points, dropped errors, interleaved
  creators (`Creation.dfy`, `Race.dfy`) and interleaved whole writes (`RacingWrites.dfy`), leftovers
  (`Freshness.dfy`);
- positioned reads and writes and the flat file they present, for single calls and over whole runs
  with crashes, unlinks and repair (`Parts.dfy`, `FlatFile.dfy`, `Runs.dfy`);
- cross-chunk repair, also cut short (`Repair.dfy`);
- the imperative code itself: attribute writes, walks, offset search, creation, read, write, fsync, size
  summing, repair pass as methods of `Pool.ChunkPool`, each proved against the functions above
  (`Pool.dfy`);
- `mkfs.chunkfs` in 64-bit arithmetic (`Layout.dfy`), mounting with an account of every resource
  (`Mount.dfy`), and the round trip between them (`FormatMount.dfy`);
- where namespace operations place inodes (`Namespace.dfy`).

`Pool.ChunkPool.State()` decodes the stored text attributes into the value `Continuations.Disk`; every
method's contract is an equation on that value, and the lemmas are about it.

## Assumptions

- At most 15 chunks, client inode numbers below 2^28 and not 0. `PackedNumber.RoundTripIff` shows these
  are exactly the numbers that survive packing.
- A client file system opens or creates by name, hands out only free inodes, may refuse to allocate, may
  write fewer bytes than asked, and reads at least one byte while there is one. Its answers are parameters.
- One attribute write is atomic; writes reach the disk in order.
- Calls carry their own offset, as pread and pwrite do.
- On-disk integers are little-endian on a little-endian host.
- In the repair script the last path component is taken to be the predecessor's inode number, and the
  chunk list 1 2 3 is generalised to 1..N.

## Where the code does not do what it seems to promise

Each has a lemma with the exact condition or a family of inputs.

- After a write, size and reads are those POSIX asks for exactly when it stays inside one continuation and
  does not begin beyond the piece the end of file falls into (`Parts.WriteIff`, `FlatFile.WriteRefinesIff`);
  outside, some read comes back short, empty or not at the end (`Parts.CrossingIsSeen`, `Parts.PastIsSeen`).
- `*ppos` is left in client coordinates, so sequential I/O goes on in the right place exactly within the
  first continuation (`Pool.SequentialIff`).
- `chunkfs_lookup` keeps a file exactly when it has one part (`FlatFile.LookupKeepsIff`).
- A stale continuation file comes back as content exactly when it holds bytes
  (`FlatFile.StaleContentIff`). Unlinking a file with a non-empty second part leaves such a one on its
  number, and a new file with the number gets it for content (`Runs.UnlinkLeavesStale`,
  `Runs.StaleComesBack`); repair removes the danger (`Repair.RepairMakesFresh`).
- Creation drops the errors of both attribute calls; the walk passes the old tail exactly when the tail
  was not touched or the record of the inode it now points at is complete (`Creation.DroppedErrorsIff`),
  be it by the writes made or by what a reopened leftover had (`Creation.NewRecordCompleteIff`). With the
  tail not touched the bytes of the write are in no file, though it succeeds (`FlatFile.UnlinkedWrite`).
- A creator that acts after someone has appended further cuts the file (`Race.LateCreatorCuts`).
- `chunkfs_fsync_file` never returns a client's error (`Pool.ChunkPool.Fsync`).
- On a device of 0 or 1 bytes the header loop of mkfs asks for one more chunk in every round
  (`Layout.GuardNeverFails`), so mkfs writes headers as far as the device takes them and always ends in a
  refused seek or write (`Layout.Device.Mkfs`, `Layout.TinyImage`); on a size of
  40961 + m * 10485760 bytes, m >= 2, the last header points at one mkfs does not write
  (`Layout.LinkGuardIff`).
- On such a size, and on one that holds no chunk, mount goes on over whatever chunk headers an earlier
  formatting has left there: it gets no pool unless they can all be read (and have a root, if there is no
  chunk before them), and then finds more chunks than mkfs has made (`FormatMount.FormatAndMount`,
  `FormatMount.StaleHeaderIsFollowed`, `FormatMount.NothingStale`).
- Mounting and unmounting give everything back exactly when the block size cannot be set, something on the
  list cannot be read, or there is a root chunk and its root directory is there (`Mount.Kernel.MountAndUnmount`).
  If d_make_root fails, the whole pool stays behind; if d_make_root or the allocation of the root dentry's
  private part fails, the path and the client dentry looked up do; when the root path is not found, s_root is
  followed while it is null (`Mount.Kernel.ReadRoot`); and a readable list without a root makes
  chunkfs_read_pool list a device that was never set (`Mount.PoolOutcomeIff`, `Mount.RootlessDevice`).
- When the client refuses the first record, a create fails but the client's own file stays; the next lookup
  makes it good (`Runs.HalfNewFileIsCompleted`).
- Two remarks without a lemma: `create_pool_summary` clears the uuid it has just set, and the script
  passes a whole path where an inode number is meant.

## Model

| member | source | states |
|---|---|---|
| PackedNumber.MacrosDecode | chunkfs_i.h:28-29 | the two masking macros, bit by bit, are a quotient and a remainder on every u64 |
| PackedNumber.RoundTripIff | chunkfs_i.h:28-30 | unpacking MAKE_UINO gives both halves back exactly when chunk id < 16 and inode < 2^28 |
| Decimal.StoredRoundTrip | cont.c:36-53 | every u64 survives storage as text and needs at most 21 of the 50 buffer bytes |
| Decimal.PrintIsDecimal | cont.c:48 | the text is the decimal one, digit by digit, without a leading zero |
| Decimal.ContPathInjective | cont.c:238-239 | no two (to chunk, from chunk, from inode) share a continuation path |
| Decimal.PathParts | cont.c:238-239 | between the slashes stand "chunk" with the to chunk, the from chunk and the from inode, and each number can be read off |
| Continuations.ChainShape | cont.c:389-421 | element i lies in the head's chunk + i, links lead along the chain, the length is bounded by the chunks left |
| Continuations.ChainsDisjoint | cont.c:386-421 | chains of distinct heads share no inode and no chain repeats one |
| Continuations.HeadRecords | cont.c:412-421 | element i of a file has start i*40960, len 40960, prev and next the packed neighbours, 0 at the ends |
| Continuations.ChainIs | cont.c:190-256 | a linked sequence that ends unlinked is the chain: chains are determined by their links |
| Walks.StepsAgree | cont.c:190-345 | from any element both traversals step to the same next one, in a chunk of the pool (neither BUG_ON can fire) |
| Walks.WalksAgree | cont.c:190-345 | both whole walks visit exactly the chain in order and end within 16 hops |
| Walks.CoversIsDivision | cont.c:279-280 | element i covers exactly the offsets that divide to i |
| Walks.NextContCases | cont.c:205-256 | one path step on any disk: what ends the walk, and exactly when each error occurs |
| Walks.NextInodeCases | cont.c:300-345 | one step by number on any disk: what ends the walk, and exactly when each error occurs |
| Creation.PartialInv | cont.c:64-75 | the invariant holds after any prefix of creation in which the tail is written only after the new record |
| Creation.CrashAtomic | cont.c:400-421 | after any prefix of the nine steps every file shows its old chain, or old plus one complete element from the tail's first write on |
| Creation.CreationKeepsBytes | cont.c:400-421 | at no crash point has a byte of an existing inode changed, and a new inode has none |
| Creation.DroppedErrorsIff | cont.c:417-421 | with failing attribute writes, and whatever file the open found, the walk passes the old tail exactly when the tail is untouched or the record it now points at is complete; otherwise it ends in -ENODATA |
| Creation.NewRecordCompleteIff | cont.c:400-417 | that record is complete exactly when every attribute was written now or held by the leftover that was reopened |
| Creation.CutChain | cont.c:64-66 | overwriting an element's "next" by 0 keeps the structure and ends the file there |
| Race.StepAdvances | cont.c:400-421 | a step already taken by some creator changes nothing, the next step advances the disk by one |
| Race.RaceConverges | cont.c:374-428 | every interleaving of any number of creators after one tail: each is as far as its turns take it, and the disk is what one creator as far as the most advanced would leave |
| Race.RaceFinishes | cont.c:374-428 | once everybody has had nine turns, all have finished and the disk is that of the nine steps of a single creation |
| Race.RaceShowsOldOrNew | cont.c:374-428 | meanwhile every file shows its old chain or the old chain and one new element |
| RacingWrites.RacingWritesAreSerial | file.c:165-195 | any number of writes into the piece after the last, interleaved in any way: each is as far as its turns take it, and once everybody has had ten, the disk is the one the same calls leave one after the other in the order of the client writes; other files are as before |
| Race.LateCreatorCuts | cont.c:412-417 | a creator whose record write comes after a further append cuts the file there: kept exactly when the element is last |
| Freshness.PartialClean | cont.c:401 | wherever creation stops it leaves only blank leftovers |
| Freshness.TightMeans | cont.c:397-421 | without leftovers a continuation name exists exactly when its predecessor's "next" is set, and no free inode inherits one |
| Parts.PackedAt | inode.c:32-42 | byte j of a packed file is byte j % 40960 of part j / 40960 |
| Parts.SplicePart | file.c:42-43 | writing one part at the translated offset is splicing the flat file |
| Parts.WriteIff | file.c:134-195 | after a write of at least one byte to a packed file, the summed size and every read are those of the POSIX content exactly when the write is in scope |
| Parts.ObservedUnique | file.c:134-163 | size and reads determine the content: no two byte sequences look the same to them |
| FlatFile.CreatedParts | cont.c:401 | creation appends whatever the opened file held and touches no other file |
| FlatFile.StaleContentIff | cont.c:401 | the flat file survives creation exactly when the opened file was empty |
| FlatFile.UnlinkedWrite | cont.c:419-428 | when the client refuses the first attribute write to the old tail, the write goes to a continuation in no file and every file keeps its parts; else its bytes are the next part, and other files keep theirs |
| FlatFile.OneWriteLinks | cont.c:419-421 | one accepted attribute write to the old tail is as good as all four |
| FlatFile.PutDataParts | file.c:185-188 | writing one client inode changes that part of that file and no other file |
| FlatFile.WriteDoes | file.c:165-195 | a write changes its own file's parts only, as WriteParts says, and keeps invariant and cleanness |
| FlatFile.WriteRefinesIff | file.c:165-195 | on a pool in use a write leaves size and reads of its file as the POSIX write would exactly when in scope |
| FlatFile.SizeIsLastEnd | inode.c:32-42 | the summed size is the last element's start plus what it holds |
| FlatFile.LookupKeepsIff | namei.c:288-296 | lookup leaves only the first part: the file is kept exactly when it has one |
| Runs.ReadRefines | file.c:134-163 | a read gives exactly the flat content at its offset, as many bytes as the client delivers and at least one before EOF, nothing at or past it, and an error exactly when the client has one |
| Runs.ReadIsExact | file.c:152-162 | the same with the parts in view: past the last part nothing, inside one the client's bytes, its -ENODATA as an end, and any other error as it is |
| Runs.StepRefines | file.c:134-195 | create, write, read, crashed creation, unlink (of the last name or not), repair and interrupted repair each keep the pool good and answer as flat files do |
| Runs.WriteAnswerIs | file.c:172-195 | what a write answers: the client's word inside the file; past it -ENOENT without the next directory, the client's word if the continuation exists or is allocated, else -ENOSPC |
| Runs.RunRefines | file.c:134-195 | every run, with all its answers, is a run of independent flat files |
| Runs.RunGoesThrough | file.c:134-195 | a run is its operations, each in the state the one before has left, with their answers |
| Runs.QuietRunTight | cont.c:386-425 | over every run without crash or unlink, names and set "next"s stay in one-to-one correspondence, and no assumption on the client beyond honesty is needed |
| Runs.RepairedRunAllowed | cross.sh:15-26 | every run in which after an unlink no inode is asked for until a repair pass has gone through, crashes and interrupted passes included, meets the assumptions of the run theorem without any on which free inodes the client picks, and ends without orphans |
| Runs.FromEmptyPool | file.c:134-195 | from an empty pool every such run, with all its answers, is a run of flat files that began as none |
| Runs.NoOrphansStep | cross.sh:15-26 | every operation but unlink, crashes included, makes no orphan and a repair pass leaves none |
| Runs.CrashIsSteps | cont.c:400-421 | a crash after k steps leaves what those k steps of creation, taken in order, have written; a refused creation nothing |
| Runs.CrashOnDisk | cont.c:400-421 | on disk: the continuation file from the first step on, its whole record from the fifth, the link and one more element of the file from the sixth; nothing else changes |
| Runs.CreateOnDisk | cont.c:440-452 | a new file is one inode with the first record and no bytes, and nothing else changes |
| Runs.UnlinkOnDisk | namei.c:351-369 | the last name takes the head inode and no continuation, any other takes nothing |
| Runs.RepairOnDisk | cross.sh:15-26 | repair, whole or cut short, takes name and inode of the continuations it removes and nothing else |
| Runs.UnlinkLeavesStale | namei.c:351-369 | after unlinking a file with a non-empty second part its number is free but not fresh |
| Runs.StaleComesBack | cont.c:401 | a new file given that number gets the old second part for content when it is continued |
| Runs.HalfNewFileIsCompleted | namei.c:178-231 | a create given up after any number of attribute writes harms no file, and a later lookup turns it into the new file |
| Runs.HalfNewOnDisk | namei.c:200-212 | what such a create leaves on disk: an inode without bytes that is no file, with the first attributes only |
| Runs.SizeBound | cont.c:389-407 | no file exceeds (N - c + 1) * 40960 bytes |
| Runs.LastChunkRefuses | cont.c:389-407 | a file whose last part is in chunk N cannot grow and the attempt changes nothing |
| Repair.TestIsExact | cross.sh:18-21 | once dead continuations from lower chunks are gone, the script's test is exactly liveness |
| Repair.RepairIsExact | cross.sh:15-26 | repair removes exactly the continuations that do not lead back to an allocated inode; a second pass removes nothing |
| Repair.RepairKeepsFiles | cross.sh:15-26 | every chain and every byte of a user's file survives repair |
| Repair.RepairMakesFresh | cross.sh:15-26 | after repair no free inode can inherit a stale continuation |
| Repair.RepairResumes | cross.sh:15-26 | a pass cut short leaves a pool in order, just the dead continuations it has not come to, and a next pass that ends where this one would have |
| Repair.PrefixCascades | cross.sh:15-26 | wherever the script is stopped, it has removed no continuation whose predecessor stays |
| Pool.StoreDecodes | cont.c:46-51 | storing a number as text sets exactly that attribute of the record |
| Pool.ChunkPool.SetContData | cont.c:59-83 | the attributes are written in order up to the first refusal, what was written stays, and the client's error is returned |
| Pool.ChunkPool.ReadContData | cont.c:92-115 | the record is returned exactly when all four attributes are there |
| Pool.ChunkPool.GetNextCont | cont.c:190-256 | one step of the path walk |
| Pool.ChunkPool.GetNextInode | cont.c:300-345 | one step of the walk by number |
| Pool.ChunkPool.GetContAtOffset | cont.c:258-294 | the linear search returns the element offset / 40960, or -ENOENT past the last |
| Pool.ChunkPool.SumSizes | inode.c:24-42 | the accumulated size is the length of the flat file |
| Pool.ChunkPool.Fsync | file.c:227-258 | every part is synced once in order and no client error reaches the caller |
| Pool.ChunkPool.FindTail | cont.c:374-383 | the opening walk of creation ends at the last continuation |
| Pool.ChunkPool.OpenContinuation | cont.c:392-408 | open-or-create by name, without O_EXCL |
| Pool.ChunkPool.LinkContinuation | cont.c:412-424 | for every number of attribute writes the client takes, the disk is the one with just those made, and the record loads exactly if complete |
| Pool.ChunkPool.CreateContinuation | cont.c:355-438 | refused, nothing has changed; else the disk is the one after the writes the client took, with the loaded continuation or the error of loading it |
| Pool.ChunkPool.CloseContFile | file.c:103-114 | the file position is translated back and the size is that of the flat file |
| Pool.ChunkPool.Read | file.c:134-163 | the read result in terms of the client file it goes to, positions and size, unchanged past the last part |
| Pool.ChunkPool.Write | file.c:165-195 | for every number of attribute writes the client takes: the whole new disk, result, positions and size; copy-down then copy-up restores f_pos, and a refused creation leaves all of it alone |
| Pool.ChunkPool.CreateFile | namei.c:178-231 | a new file is an empty part with the first record (cont.c:440-452); refused after some writes, the half-made inode stays and is no file |
| Pool.ChunkPool.LookupFile | namei.c:288-296 | lookup overwrites the record of the inode found and makes it a file; refused after some writes, those stay |
| Pool.ChunkPool.Unlink | namei.c:351-369 | with its last name the head goes away and nothing else; with another name left nothing does |
| Pool.ChunkPool.RepairPass | cross.sh:15-27 | the nested loops, in ascending source chunk, leave exactly the repaired disk |
| Layout.LinkGuardIff | mkfs.chunkfs.c:122-124 | the link guard holds exactly when the chunk is not the last or the size is exceptional |
| Layout.FitsIff | mkfs.chunkfs.c:116 | the loop runs exactly floor((raw - 40962) / 10485760) times |
| Layout.SectorSizesAreFine | mkfs.chunkfs.c:122-124 | no multiple of 512 is exceptional |
| Layout.GuardNeverFails | mkfs.chunkfs.c:116 | for 0 or 1 bytes the loop guard, in wrapping arithmetic, holds in every round |
| Layout.TinyImage | mkfs.chunkfs.c:53-58 | such a device ends up with a header for every chunk that begins below the first refused offset, each pointing at the next, and mkfs fails |
| Layout.LayoutSafe | mkfs.chunkfs.c:94-105 | every chunk is aligned, inside the device, clear of pool and device blocks, with 2559 blocks of innards (test.sh:75), and ends before any later one begins |
| Layout.DeviceSafe | mkfs.chunkfs.c:84-91 | the device descriptor begins at its own block and ends at the last byte but one, its innards begin with the first chunk, and every chunk lies in them |
| Layout.Device.WriteChunkSummaries | mkfs.chunkfs.c:107-137 | the loop writes exactly the headers that fit the size, or those before the first refused write, and says which |
| Layout.Device.Mkfs | mkfs.chunkfs.c:139-190 | for every raw size and every offset from which the device refuses: what is on the device, and that mkfs goes through exactly when the size is at least 2 and no header it wants is refused |
| Layout.ImageBelowIs | mkfs.chunkfs.c:139-190 | block by block: pool, device and wanted chunk headers are there exactly as far as they lie below the first refused offset |
| Mount.Kernel.ReadChunk | super.c:151-207 | a chunk is read with three resources kept, or an error with none |
| Mount.Kernel.ReadChunks | super.c:250-263 | following the list reads exactly its chunks or ends with the error of its last place |
| Mount.Kernel.ReadDev | super.c:209-283 | the device result, and on any failure at any position everything taken is released |
| Mount.Kernel.ReadPool | super.c:285-335 | the pool result, with exactly the pool's resources held, or none after an error; a list without a root ends in the undefined case |
| Mount.PoolOutcomeIff | super.c:285-335 | reading the pool fails exactly when something on the list cannot be read, succeeds exactly when all can and there is a root, and is undefined exactly on a readable list without one |
| Mount.SummaryIff | super.c:163-182 | a summary is read exactly when there is memory and its block is there, readable, and has its magic and checksum; else -ENOMEM or -EIO (chunkfs.h:148-155) |
| Mount.ChunkIff | super.c:151-207 | a chunk is read, as its header says, exactly when its block is sound and its client mounted; else -ENOMEM, -EIO or -ENOENT |
| Mount.AllReadIff | super.c:209-335 | everything can be read exactly when there is memory, every block of the pool, the device and the chunks on the way is sound and every client mounted |
| Mount.UnsoundIsRefused | super.c:209-335 | any unsound block, the pool's, the device's or a chunk's on the way, makes the mount fail with -EIO |
| Mount.PoolErrorIs | super.c:209-335 | the error of a failed pool read is that of the first thing in the way: -ENOMEM, -EIO or -ENOENT |
| Mount.RootlessDevice | super.c:265-269 | a one-chunk device without root flag, on which it is undefined |
| Mount.Kernel.ReadRoot | super.c:406-452 | what each exit of chunkfs_read_root returns, whether s_root is set, and what it leaves held |
| Mount.EndByAnswer | super.c:406-452 | how the mount ends for each thing that may be missing in the root directory |
| Mount.Kernel.FillSuper | super.c:474-509 | the outcome of mounting, block size and every exit of chunkfs_read_root included, and what is held after each |
| Mount.Kernel.FreePool | super.c:139-149 | unmount gives back exactly what the pool holds |
| Mount.PoolHoldsCount | super.c:120-149 | what a pool holds, resource by resource |
| Mount.Kernel.MountAndUnmount | super.c:348-509 | everything is given back exactly when the block size cannot be set, something cannot be read, or there is a root chunk with all of its root directory; else exactly what stays held is said |
| Mount.FindChunk | super.c:105-118 | the scan returns a chunk with that id or there is none |
| FormatMount.ReadBack | super.c:184-188 | chunk k of a formatted device reads back with its id, root mark and link |
| FormatMount.WayIsTrail | super.c:250-263 | following next pointers over a formatted device goes over exactly its chunks, and from an exceptional or empty one on over the headers left there |
| FormatMount.FormatAndMount | super.c:248-271 | when mkfs goes through, mount finds exactly chunks 1..N, chunk 1 the root, if a chunk fits and the size is not exceptional; else it gets a pool exactly when all headers left past the image read and a root is among image or them, and then one with more chunks |
| FormatMount.StaleHeaderIsFollowed | mkfs.chunkfs.c:122-124 | on every exceptional size formatted before as one byte longer, the old last header survives and mount finds it, too |
| FormatMount.NothingStale | mkfs.chunkfs.c:122-124 | with no valid header at that place the way ends there and mount gets no pool |
| FormatMount.FindMounted | super.c:105-118 | find returns chunk k for each id 1..N and nothing else |
| Namespace.NewNumberIff | inode.c:110 | a new inode's number decodes to its client inode and its directory's chunk exactly when the client number fits 28 bits |
| Namespace.RunPlaced | namei.c:178-349 | over any run of creations (given up half-way or not), links and lookups everything stays in the root's chunk, no hard link crosses chunks, and every name leads to the same client inode on both levels |
| Namespace.LinkDoes | namei.c:322-349 | a link makes the new name lead, on both levels, to the inode linked, and changes nothing else |
| Namespace.MakeDoes | namei.c:413-447 | a new name leads, on both levels, to the new client inode in the directory's chunk, by the number that decodes to both; it is a directory exactly when asked for |
| Namespace.LookupDoes | namei.c:285-308 | a lookup gives a name the client has the number its inode packs to, and else does nothing |
| Namespace.RunHonours | namei.c:178-349 | at the end of a run every name made on the way still leads to the inode it was made for |
| Namespace.Mounted.MakeNode | namei.c:413-447 | create, mkdir, symlink and mknod place the new inode; refused by the client, nothing changes; refused only its first record, the client's entry stays |
| Namespace.Mounted.LookupName | namei.c:285-308 | a name the client has becomes a chunkfs name for the inode its number packs to; any other changes nothing |
| Namespace.Mounted.AddLink | namei.c:322-349 | link adds one name, on both levels, for an existing inode |

## Left out

- VFS objects (dentries, nameidata, mutexes, inode reference counts, the inode cache behind iget_locked) and memory for loaded continuations, which the source leaks on walks.
- Client file system internals; truncation through chunkfs_setattr; writes that grow a client file by other means.
- chunkfs_rename (returns -ENOSYS), symlink.c, dir.c, fsck.chunkfs.c (does not match the current structures), write_pattern.c, shell set-up scripts, printing.
- Files with holes beyond the piece the end of file falls into, writes across a continuation boundary and sequential-position I/O: not supported by the code; the exact conditions are proved instead.
- Real checksums and uuids: constants in the source.
- A continuation directory key is the triple (to, from chunk, from inode) rather than its path text; `Decimal.ContPathInjective` is what justifies it.
- Pool.ChunkPool.CreateContinuation: after a record that does not load the source goes on with a continuation that was never set; the method ends there, with the error and the exact disk.
- Pool.ChunkPool.Write: when a new record is not written in full the source goes on with one never loaded or, over a leftover, of mixed origin; the method ends there, with the exact disk.
- Mount.Kernel.ReadPool: after a list without a root the source goes on with a device pointer that was never set; the method ends there.
- Mount.Kernel.ReadDev: a second root chunk (a BUG_ON in the source) and a list that leads back into itself are not followed.
- Mount.Kernel.MountAndUnmount: inode and dentry reference counts of the VFS itself are not kept; the tear-down of a refused mount is taken to call put_super exactly when s_root is set.
- Layout.Device.Mkfs: a write cut short in the middle of a block leaves nothing there; the offsets refused are those from some point on.
- Runs.RepairedRunAllowed: creations given up half-way and lookups are not operations of these runs, see `Runs.HalfNewFileIsCompleted` and `FlatFile.LookupKeepsIff`.
- Repair.RepairIsExact: rests on every continuation being in the chunk after its predecessor's, which the invariant states and creation keeps.

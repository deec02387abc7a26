/** Mounting (super.c): the pool and device summaries are read, the linked list of chunk headers
    is followed, every chunk's client file system is looked up, and everything taken on the way
    (allocations, buffers, client mounts) is accounted for on success, failure and unmount. */
module Mount {
  import opened Outcomes
  import opened PackedNumber
  import opened Layout

  /** Something the kernel code has to give back: the allocation made for the structure at an
      offset, the buffer of the block at an offset, a reference to chunk `id`'s client mount; and
      for the root directory the path looked up, a reference to its client dentry, and the
      private part of its chunkfs dentry. */
  datatype Resource = Mem(off: nat) | Buf(off: nat) | Mnt(id: u64) | RootPath | ClientRoot | Priv

  /** What can go wrong around the code: allocations and block reads that fail, and the chunks
      whose client file system is mounted at "/chunk<id>". */
  datatype Env = Env(noMem: set<nat>, badIo: set<nat>, clients: set<u64>)

  datatype ChunkInfo = ChunkInfo(off: nat, id: u64, flags: nat)

  datatype DevInfo = DevInfo(chunks: seq<ChunkInfo>, root: ChunkInfo)

  datatype PoolInfo = PoolInfo(dev: DevInfo)

  /** The end of chunkfs_read_dev: a device, an error, or (when no chunk carried the root flag)
      a return of 0 with no device. */
  datatype DevOutcome = Found(dev: DevInfo) | Failed(e: Errno) | NothingFound

  /** The end of chunkfs_read_pool: a pool, an error, or (after a return of 0 with no device) the
      listing of a device pointer that was never set. */
  datatype PoolOutcome = PoolRead(pool: PoolInfo) | PoolFailed(e: Errno) | Undefined

  /** How chunkfs_read_root goes: everything is there, or the first thing that is not. */
  datatype RootAnswer = AllThere | NoInode | NoPath | NoRootDentry | NoPrivate

  /** The end of chunkfs_read_root: ready; an error, with or without s_root set; or a null
      pointer followed. */
  datatype RootOutcome = Ready | RootFailed(e: Errno, rootSet: bool) | NullPointer

  /** The end of a mount: mounted; refused with nothing read in; refused after the pool was read,
      with or without s_root set; or gone wrong, in the pool or in the root directory. */
  datatype SuperOutcome =
    | Mounted(pool: PoolInfo)
    | Refused(e: Errno)
    | RootRefused(e: Errno, pool: PoolInfo, rootSet: bool)
    | Astray
    | Oops(pool: PoolInfo)

  type Disk = map<nat, Block>

  predicate IsRoot(ci: ChunkInfo) {
    ci.flags % 2 == 1
  }

  /** CHUNKFS_IS_ROOT masks the flags with CHUNKFS_ROOT. */
  lemma RootFlagIff(ci: ChunkInfo)
    ensures IsRoot(ci) <==> And(ci.flags, ROOT_FLAG) != 0
  {
    assert And(ci.flags / 2, 0) == 0;
  }

  /** sb_bread followed by check_metadata: the block at the offset, if it can be read and its
      magic and checksum are right. */
  function ReadBlock(env: Env, blocks: Disk, off: nat, magic: nat): Option<Body> {
    var at := off / BLK_SIZE * BLK_SIZE;
    if at in env.badIo || at !in blocks || blocks[at].magic != magic || blocks[at].chksum != CHECKSUM then None
    else Some(blocks[at].body)
  }

  /** How each of the three readers begins: allocate, read the block, check it. */
  function SummaryAt(env: Env, blocks: Disk, off: nat, magic: nat): Result<Body> {
    if off in env.noMem then Err(ENOMEM)
    else match ReadBlock(env, blocks, off, magic)
      case Some(body) => Ok(body)
      case None => Err(EIO)
  }

  /** What chunkfs_read_chunk returns: the chunk and the offset of the next. */
  function ChunkAt(env: Env, blocks: Disk, off: nat): Result<(ChunkInfo, nat)> {
    match SummaryAt(env, blocks, off, CHUNK_MAGIC)
    case Ok(ChunkBody(flags, id, _, _, _, _, next)) =>
      if id in env.clients then Ok((ChunkInfo(off, id, flags), next)) else Err(ENOENT)
    case Ok(_) => Err(EIO)
    case Err(e) => Err(e)
  }

  /** Where the device summary says the list of chunks begins. */
  function DevAt(env: Env, blocks: Disk): Result<nat> {
    match SummaryAt(env, blocks, DEV_OFFSET, DEV_MAGIC)
    case Ok(DevBody(_, _, innardsBegin, _, _)) => Ok(innardsBegin)
    case Ok(_) => Err(EIO)
    case Err(e) => Err(e)
  }

  // ---- What makes a block readable -------------------------------------------------------------

  /** The block an offset lies in. */
  function BlockOf(off: nat): nat {
    off / BLK_SIZE * BLK_SIZE
  }

  /** There is such a block on the device, it can be read, and it has the magic of its kind and the
      right checksum. */
  predicate Sound(env: Env, blocks: Disk, off: nat, magic: nat) {
    && BlockOf(off) in blocks && BlockOf(off) !in env.badIo
    && blocks[BlockOf(off)].magic == magic && blocks[BlockOf(off)].chksum == CHECKSUM
  }

  /** Each of the readers fails exactly on an allocation or on a block that is not sound. */
  lemma SummaryIff(env: Env, blocks: Disk, off: nat, magic: nat)
    ensures off in env.noMem ==> SummaryAt(env, blocks, off, magic) == Err(ENOMEM)
    ensures off !in env.noMem && !Sound(env, blocks, off, magic) ==> SummaryAt(env, blocks, off, magic) == Err(EIO)
    ensures off !in env.noMem && Sound(env, blocks, off, magic) ==>
              SummaryAt(env, blocks, off, magic) == Ok(blocks[BlockOf(off)].body)
  {
  }

  /** A chunk is read, as its header says, exactly when its block is sound and its client file
      system is mounted. */
  predicate SoundChunk(env: Env, blocks: Disk, off: nat) {
    && off !in env.noMem && Sound(env, blocks, off, CHUNK_MAGIC)
    && blocks[BlockOf(off)].body.ChunkBody? && blocks[BlockOf(off)].body.id in env.clients
  }

  lemma ChunkIff(env: Env, blocks: Disk, off: nat)
    ensures ChunkAt(env, blocks, off).Ok? <==> SoundChunk(env, blocks, off)
    ensures SoundChunk(env, blocks, off) ==>
              var b := blocks[BlockOf(off)].body;
              ChunkAt(env, blocks, off) == Ok((ChunkInfo(off, b.id, b.flags), b.next))
    ensures off !in env.noMem && !Sound(env, blocks, off, CHUNK_MAGIC) ==> ChunkAt(env, blocks, off) == Err(EIO)
    ensures off !in env.noMem && Sound(env, blocks, off, CHUNK_MAGIC) ==>
              var b := blocks[BlockOf(off)].body;
              (b.ChunkBody? && b.id !in env.clients ==> ChunkAt(env, blocks, off) == Err(ENOENT))
  {
    SummaryIff(env, blocks, off, CHUNK_MAGIC);
  }

  /** The list of chunks begins where the device's innards do. */
  lemma DevIff(env: Env, blocks: Disk)
    ensures DevAt(env, blocks).Ok? <==>
              DEV_OFFSET !in env.noMem && Sound(env, blocks, DEV_OFFSET, DEV_MAGIC) && blocks[BlockOf(DEV_OFFSET)].body.DevBody?
    ensures DevAt(env, blocks).Ok? ==> DevAt(env, blocks).value == blocks[BlockOf(DEV_OFFSET)].body.devInnardsBegin
    ensures DEV_OFFSET !in env.noMem && !Sound(env, blocks, DEV_OFFSET, DEV_MAGIC) ==> DevAt(env, blocks) == Err(EIO)
  {
    SummaryIff(env, blocks, DEV_OFFSET, DEV_MAGIC);
  }

  function PairHolds(off: nat): multiset<Resource> {
    multiset{Mem(off), Buf(off)}
  }

  function ChunkHolds(ci: ChunkInfo): multiset<Resource> {
    PairHolds(ci.off) + multiset{Mnt(ci.id)}
  }

  function ChunksHold(cs: seq<ChunkInfo>): multiset<Resource> {
    if cs == [] then multiset{} else ChunkHolds(cs[0]) + ChunksHold(cs[1..])
  }

  function DevHolds(di: DevInfo): multiset<Resource> {
    PairHolds(DEV_OFFSET) + ChunksHold(di.chunks)
  }

  function PoolHolds(pi: PoolInfo): multiset<Resource> {
    PairHolds(POOL_OFFSET) + DevHolds(pi.dev)
  }

  lemma {:induction false} ChunksHoldAppend(cs: seq<ChunkInfo>, c: ChunkInfo)
    ensures ChunksHold(cs + [c]) == ChunksHold(cs) + ChunkHolds(c)
  {
    if cs == [] {
      assert [c][1..] == [];
    } else {
      assert (cs + [c])[1..] == cs[1..] + [c];
      ChunksHoldAppend(cs[1..], c);
    }
  }

  /** How many of the chunks hold `r`: the memory and the buffer of the header at their offset, and
      the mount of their id. */
  function Holders(cs: seq<ChunkInfo>, r: Resource): nat {
    if cs == [] then 0
    else (if r == Mem(cs[0].off) || r == Buf(cs[0].off) || r == Mnt(cs[0].id) then 1 else 0) + Holders(cs[1..], r)
  }

  lemma {:induction false} ChunksHoldCount(cs: seq<ChunkInfo>, r: Resource)
    ensures ChunksHold(cs)[r] == Holders(cs, r)
  {
    if cs != [] {
      ChunksHoldCount(cs[1..], r);
      assert ChunkHolds(cs[0])[r] == if r == Mem(cs[0].off) || r == Buf(cs[0].off) || r == Mnt(cs[0].id) then 1 else 0;
    }
  }

  /** What a pool holds, resource by resource. */
  lemma PoolHoldsCount(pi: PoolInfo, r: Resource)
    ensures PoolHolds(pi)[r]
         == (if r in {Mem(POOL_OFFSET), Buf(POOL_OFFSET), Mem(DEV_OFFSET), Buf(DEV_OFFSET)} then 1 else 0)
            + Holders(pi.dev.chunks, r)
  {
    ChunksHoldCount(pi.dev.chunks, r);
    assert PairHolds(POOL_OFFSET)[r] == if r in {Mem(POOL_OFFSET), Buf(POOL_OFFSET)} then 1 else 0;
    assert PairHolds(DEV_OFFSET)[r] == if r in {Mem(DEV_OFFSET), Buf(DEV_OFFSET)} then 1 else 0;
  }

  lemma HeldMore(h: multiset<Resource>, cs: seq<ChunkInfo>, c: ChunkInfo)
    ensures h + ChunksHold(cs) + ChunkHolds(c) == h + ChunksHold(cs + [c])
  {
    ChunksHoldAppend(cs, c);
  }

  // ---- The list on disk ----------------------------------------------------------------------

  /** `path` is the finite way the "next" pointers lead from `start`: every chunk but perhaps the
      last can be read, and the last either cannot or has no next. */
  ghost predicate Trail(env: Env, blocks: Disk, start: nat, path: seq<nat>) {
    if path == [] then start == 0
    else
      && path[0] == start
      && (forall i :: 0 <= i < |path| ==> path[i] != 0)
      && (forall i :: 0 <= i < |path| - 1 ==> Leads(env, blocks, path[i], path[i + 1]))
      && Ends(env, blocks, path[|path| - 1])
  }

  predicate Leads(env: Env, blocks: Disk, off: nat, next: nat) {
    ChunkAt(env, blocks, off).Ok? && ChunkAt(env, blocks, off).value.1 == next
  }

  predicate Ends(env: Env, blocks: Disk, off: nat) {
    ChunkAt(env, blocks, off).Ok? ==> ChunkAt(env, blocks, off).value.1 == 0
  }

  ghost predicate Readable(env: Env, blocks: Disk, path: seq<nat>, n: nat)
    requires n <= |path|
  {
    forall i :: 0 <= i < n ==> ChunkAt(env, blocks, path[i]).Ok?
  }

  /** The chunks read off the first `n` places of the trail. */
  ghost function Infos(env: Env, blocks: Disk, path: seq<nat>, n: nat): seq<ChunkInfo>
    requires n <= |path| && Readable(env, blocks, path, n)
  {
    seq(n, i requires 0 <= i < n => ChunkAt(env, blocks, path[i]).value.0)
  }

  /** The code's own assertion (two BUG_ONs): no second root turns up. */
  ghost predicate AtMostOneRoot(env: Env, blocks: Disk, path: seq<nat>) {
    forall i, j :: 0 <= i < j < |path| && ChunkAt(env, blocks, path[i]).Ok? && ChunkAt(env, blocks, path[j]).Ok? ==>
      !(IsRoot(ChunkAt(env, blocks, path[i]).value.0) && IsRoot(ChunkAt(env, blocks, path[j]).value.0))
  }

  /** How the list read ends: with the error of the last place, or with every chunk. */
  ghost predicate ListResult(env: Env, blocks: Disk, path: seq<nat>, error: Option<Errno>, chunks: seq<ChunkInfo>) {
    if path == [] then error == Some(EIO) && chunks == []
    else match ChunkAt(env, blocks, path[|path| - 1])
      case Err(e) => error == Some(e)
      case Ok(_) =>
        error == None && Readable(env, blocks, path, |path|) && chunks == Infos(env, blocks, path, |path|)
  }

  ghost predicate RootAmong(chunks: seq<ChunkInfo>, root: Option<ChunkInfo>) {
    match root
    case None => forall ci :: ci in chunks ==> !IsRoot(ci)
    case Some(ci) => ci in chunks && IsRoot(ci)
  }

  lemma RootAmongMore(chunks: seq<ChunkInfo>, root: Option<ChunkInfo>, ci: ChunkInfo)
    requires RootAmong(chunks, root)
    ensures RootAmong(chunks + [ci], if IsRoot(ci) then Some(ci) else root)
  {
  }

  /** What chunkfs_read_dev comes to on a device whose list is `path`. */
  ghost predicate DevResult(env: Env, blocks: Disk, path: seq<nat>, r: DevOutcome) {
    match DevAt(env, blocks)
    case Err(e) => r == Failed(e)
    case Ok(_) =>
      match r
      case Failed(e) => exists cs :: ListResult(env, blocks, path, Some(e), cs)
      case NothingFound => exists cs :: ListResult(env, blocks, path, None, cs) && RootAmong(cs, None)
      case Found(di) => ListResult(env, blocks, path, None, di.chunks) && RootAmong(di.chunks, Some(di.root))
  }

  /** What chunkfs_read_pool comes to. */
  ghost predicate PoolResult(env: Env, blocks: Disk, path: seq<nat>, r: PoolOutcome) {
    match SummaryAt(env, blocks, POOL_OFFSET, SUPER_MAGIC)
    case Err(e) => r == PoolFailed(e)
    case Ok(_) =>
      match r
      case PoolRead(pi) => DevResult(env, blocks, path, Found(pi.dev))
      case PoolFailed(e) => DevResult(env, blocks, path, Failed(e))
      case Undefined => DevResult(env, blocks, path, NothingFound)
  }

  /** Both summaries and every place on the list can be read, and there is one. */
  ghost predicate AllRead(env: Env, blocks: Disk, path: seq<nat>) {
    && SummaryAt(env, blocks, POOL_OFFSET, SUPER_MAGIC).Ok? && DevAt(env, blocks).Ok?
    && path != [] && ChunkAt(env, blocks, path[|path| - 1]).Ok?
  }

  /** In terms of the blocks: memory for both summaries and every chunk, all of their blocks sound,
      all clients mounted, and at least one chunk. */
  lemma AllReadIff(env: Env, blocks: Disk, path: seq<nat>)
    requires DevAt(env, blocks).Ok? ==> Trail(env, blocks, DevAt(env, blocks).value, path)
    ensures AllRead(env, blocks, path) <==>
              && POOL_OFFSET !in env.noMem && Sound(env, blocks, POOL_OFFSET, SUPER_MAGIC)
              && DEV_OFFSET !in env.noMem && Sound(env, blocks, DEV_OFFSET, DEV_MAGIC)
              && blocks[BlockOf(DEV_OFFSET)].body.DevBody?
              && path != [] && forall i :: 0 <= i < |path| ==> SoundChunk(env, blocks, path[i])
  {
    SummaryIff(env, blocks, POOL_OFFSET, SUPER_MAGIC);
    DevIff(env, blocks);
    if AllRead(env, blocks, path) {
      forall i | 0 <= i < |path|
        ensures SoundChunk(env, blocks, path[i])
      {
        ChunkIff(env, blocks, path[i]);
        assert i < |path| - 1 ==> Leads(env, blocks, path[i], path[i + 1]);
      }
    } else if path != [] {
      ChunkIff(env, blocks, path[|path| - 1]);
    }
  }

  /** A block that is not sound, be it the pool's, the device's or a chunk's on the way, makes the
      read of the pool fail with -EIO. */
  lemma UnsoundIsRefused(env: Env, blocks: Disk, path: seq<nat>, r: PoolOutcome)
    requires DevAt(env, blocks).Ok? ==> Trail(env, blocks, DevAt(env, blocks).value, path)
    requires PoolResult(env, blocks, path, r) && env.noMem == {}
    requires || !Sound(env, blocks, POOL_OFFSET, SUPER_MAGIC)
             || !Sound(env, blocks, DEV_OFFSET, DEV_MAGIC)
             || (DevAt(env, blocks).Ok? && exists i :: 0 <= i < |path| && !Sound(env, blocks, path[i], CHUNK_MAGIC))
    ensures r == PoolFailed(EIO)
  {
    SummaryIff(env, blocks, POOL_OFFSET, SUPER_MAGIC);
    DevIff(env, blocks);
    if Sound(env, blocks, POOL_OFFSET, SUPER_MAGIC) && Sound(env, blocks, DEV_OFFSET, DEV_MAGIC) {
      var i :| 0 <= i < |path| && !Sound(env, blocks, path[i], CHUNK_MAGIC);
      ChunkIff(env, blocks, path[i]);
      assert i < |path| - 1 ==> Leads(env, blocks, path[i], path[i + 1]);
      PoolOutcomeIff(env, blocks, path, r);
    }
  }

  /** Which error it is: that of the first thing in the way. */
  lemma PoolErrorIs(env: Env, blocks: Disk, path: seq<nat>, e: Errno)
    requires PoolResult(env, blocks, path, PoolFailed(e))
    ensures e == if POOL_OFFSET in env.noMem then ENOMEM
                 else if !Sound(env, blocks, POOL_OFFSET, SUPER_MAGIC) then EIO
                 else if DEV_OFFSET in env.noMem then ENOMEM
                 else if !Sound(env, blocks, DEV_OFFSET, DEV_MAGIC) || !blocks[BlockOf(DEV_OFFSET)].body.DevBody? then EIO
                 else if path == [] then EIO
                 else
                   var last := path[|path| - 1];
                   if last in env.noMem then ENOMEM
                   else if !Sound(env, blocks, last, CHUNK_MAGIC) || !blocks[BlockOf(last)].body.ChunkBody? then EIO
                   else ENOENT
  {
    SummaryIff(env, blocks, POOL_OFFSET, SUPER_MAGIC);
    SummaryIff(env, blocks, DEV_OFFSET, DEV_MAGIC);
    if path != [] {
      SummaryIff(env, blocks, path[|path| - 1], CHUNK_MAGIC);
    }
  }

  /** Some chunk on the list carries the root flag. */
  ghost predicate HasRoot(env: Env, blocks: Disk, path: seq<nat>) {
    exists i :: 0 <= i < |path| && ChunkAt(env, blocks, path[i]).Ok? && IsRoot(ChunkAt(env, blocks, path[i]).value.0)
  }

  /** The three ends of reading the pool, by what is on the device: an error exactly when
      something cannot be read, a pool exactly when everything can and there is a root, and the
      undefined case on a readable list without one. */
  lemma PoolOutcomeIff(env: Env, blocks: Disk, path: seq<nat>, r: PoolOutcome)
    requires PoolResult(env, blocks, path, r)
    ensures r.PoolFailed? <==> !AllRead(env, blocks, path)
    ensures r.PoolRead? <==> AllRead(env, blocks, path) && HasRoot(env, blocks, path)
    ensures r.Undefined? <==> AllRead(env, blocks, path) && !HasRoot(env, blocks, path)
  {
    if AllRead(env, blocks, path) {
      var n := |path|;
      if r.PoolRead? {
        assert ListResult(env, blocks, path, None, r.pool.dev.chunks);
        RootOnList(env, blocks, path, r.pool.dev.chunks, Some(r.pool.dev.root));
      } else if r.Undefined? {
        var cs :| ListResult(env, blocks, path, None, cs) && RootAmong(cs, None);
        RootOnList(env, blocks, path, cs, None);
      }
    }
  }

  lemma RootOnList(env: Env, blocks: Disk, path: seq<nat>, cs: seq<ChunkInfo>, root: Option<ChunkInfo>)
    requires ListResult(env, blocks, path, None, cs) && RootAmong(cs, root)
    ensures root.Some? <==> HasRoot(env, blocks, path)
  {
    assert Readable(env, blocks, path, |path|) && |cs| == |path|;
    if root.Some? {
      var i :| 0 <= i < |cs| && cs[i] == root.value;
      assert ChunkAt(env, blocks, path[i]).value.0 == cs[i];
    } else {
      forall i | 0 <= i < |path|
        ensures !IsRoot(ChunkAt(env, blocks, path[i]).value.0)
      {
        assert cs[i] == ChunkAt(env, blocks, path[i]).value.0 && cs[i] in cs;
      }
    }
  }

  /** A device of one chunk whose header lacks the root flag. */
  function RootlessDisk(id: u64): Disk {
    map[POOL_OFFSET := POOL_BLOCK, DEV_OFFSET := DevBlock(40962 + CHUNK_SIZE),
        40960 := Block(CHUNK_MAGIC, CHECKSUM, ChunkBody(0, id, 40960, 0, 0, 0, 0))]
  }

  /** On such a device, with nothing failing, chunkfs_read_pool is in the undefined case. */
  lemma RootlessDevice(id: u64, r: PoolOutcome)
    ensures var env := Env({}, {}, {id});
            && DevAt(env, RootlessDisk(id)) == Ok(40960) && Trail(env, RootlessDisk(id), 40960, [40960])
            && AtMostOneRoot(env, RootlessDisk(id), [40960])
            && (PoolResult(env, RootlessDisk(id), [40960], r) ==> r == Undefined)
  {
    var env := Env({}, {}, {id});
    assert POOL_OFFSET / BLK_SIZE * BLK_SIZE == POOL_OFFSET && DEV_OFFSET / BLK_SIZE * BLK_SIZE == DEV_OFFSET;
    assert 40960 / BLK_SIZE * BLK_SIZE == 40960;
    assert ChunkAt(env, RootlessDisk(id), 40960) == Ok((ChunkInfo(40960, id, 0), 0));
    if PoolResult(env, RootlessDisk(id), [40960], r) {
      PoolOutcomeIff(env, RootlessDisk(id), [40960], r);
    }
  }

  /** How a mount ends once the pool was looked at. */
  function SuperEnd(pool: PoolOutcome, answer: RootAnswer): SuperOutcome {
    match pool
    case PoolFailed(e) => Refused(e)
    case Undefined => Astray
    case PoolRead(pi) =>
      match RootEnd(answer)
      case Ready => Mounted(pi)
      case RootFailed(e, rootSet) => RootRefused(e, pi, rootSet)
      case NullPointer => Oops(pi)
  }

  /** What a mount comes to: `sized` is whether the block size could be set. */
  ghost predicate SuperResult(env: Env, blocks: Disk, path: seq<nat>, sized: bool, answer: RootAnswer, r: SuperOutcome) {
    if !sized then r == Refused(EINVAL)
    else exists pool :: PoolResult(env, blocks, path, pool) && r == SuperEnd(pool, answer)
  }

  /** What chunkfs_read_root comes to. A missing inode is written to; without the path, the clean-up
      follows s_root, which is not set yet. */
  function RootEnd(answer: RootAnswer): RootOutcome {
    match answer
    case AllThere => Ready
    case NoInode => NullPointer
    case NoPath => NullPointer
    case NoRootDentry => RootFailed(ENOMEM, false)
    case NoPrivate => RootFailed(ENOMEM, true)
  }

  /** What chunkfs_read_root leaves held, besides the pool. */
  function RootHolds(answer: RootAnswer, root: ChunkInfo): multiset<Resource> {
    match answer
    case AllThere => DentryHolds(root)
    case NoInode => multiset{}
    case NoPath => multiset{}
    case NoRootDentry => multiset{RootPath, ClientRoot}
    case NoPrivate => multiset{RootPath, ClientRoot}
  }

  /** What the root dentry of a mounted file system holds: its private part, the client dentry in
      it, and dentry and mount of the client nameidata. */
  function DentryHolds(root: ChunkInfo): multiset<Resource> {
    multiset{Priv, ClientRoot, ClientRoot, Mnt(root.id)}
  }

  /** What is held when chunkfs_fill_super ends. */
  function SuperHolds(answer: RootAnswer, r: SuperOutcome): multiset<Resource> {
    if r.Refused? then multiset{}
    else if r.Astray? then PairHolds(POOL_OFFSET)
    else PoolHolds(r.pool) + RootHolds(answer, r.pool.dev.root)
  }

  /** What is held after the unmount or the tear-down of a refused mount. */
  function LeftHeld(answer: RootAnswer, r: SuperOutcome): multiset<Resource> {
    if r.Mounted? then multiset{}
    else if r.RootRefused? && r.rootSet then RootHolds(answer, r.pool.dev.root)
    else SuperHolds(answer, r)
  }

  /** How a mount ends, by what was missing in the root directory: an error without s_root from
      d_make_root, one with it from chunkfs_init_dentry, a null pointer before. */
  lemma EndByAnswer(answer: RootAnswer, pi: PoolInfo)
    ensures SuperEnd(PoolRead(pi), answer) ==
              match answer
              case AllThere => Mounted(pi)
              case NoInode => Oops(pi)
              case NoPath => Oops(pi)
              case NoRootDentry => RootRefused(ENOMEM, pi, false)
              case NoPrivate => RootRefused(ENOMEM, pi, true)
    ensures forall e :: SuperEnd(PoolFailed(e), answer) == Refused(e)
    ensures SuperEnd(Undefined, answer) == Astray
  {
  }

  /** What then stays held: after d_make_root the pool and what was looked up, after
      chunkfs_init_dentry only the latter. */
  lemma LeftWithoutRoot(pi: PoolInfo)
    ensures LeftHeld(NoRootDentry, RootRefused(ENOMEM, pi, false)) == PoolHolds(pi) + multiset{RootPath, ClientRoot}
  {
  }

  lemma LeftWithRoot(pi: PoolInfo)
    ensures LeftHeld(NoPrivate, RootRefused(ENOMEM, pi, true)) == multiset{RootPath, ClientRoot}
  {
  }

  lemma HeldWhenMounted(pi: PoolInfo)
    ensures SuperHolds(AllThere, Mounted(pi)) == PoolHolds(pi) + multiset{Priv, ClientRoot, ClientRoot, Mnt(pi.dev.root.id)}
  {
  }

  lemma LeftAfterOops(answer: RootAnswer, pi: PoolInfo)
    requires answer.NoInode? || answer.NoPath?
    ensures LeftHeld(answer, Oops(pi)) == PoolHolds(pi)
  {
    NothingMore(PoolHolds(pi));
  }

  /** When mounting, and unmounting if mounted, gives back everything: no block size, something
      that cannot be read, or a root chunk and all of its root directory. */
  ghost predicate Balanced(env: Env, blocks: Disk, path: seq<nat>, sized: bool, answer: RootAnswer) {
    !sized || !AllRead(env, blocks, path) || (HasRoot(env, blocks, path) && answer == AllThere)
  }

  /** The outcomes after which nothing is held are those of a balanced device. */
  lemma SuperOutcomeIff(env: Env, blocks: Disk, path: seq<nat>, sized: bool, answer: RootAnswer, r: SuperOutcome)
    requires SuperResult(env, blocks, path, sized, answer, r)
    ensures r.Mounted? || r.Refused? <==> Balanced(env, blocks, path, sized, answer)
    ensures r.Astray? <==> sized && AllRead(env, blocks, path) && !HasRoot(env, blocks, path)
    ensures r.RootRefused? ==> RootEnd(answer) == RootFailed(r.e, r.rootSet)
    ensures r.Mounted? ==> answer == AllThere
  {
    if sized {
      var pool :| PoolResult(env, blocks, path, pool) && r == SuperEnd(pool, answer);
      PoolOutcomeIff(env, blocks, path, pool);
    }
  }

  /** The offset the walk is at once `i` chunks have been read. */
  function PlaceAt(path: seq<nat>, i: nat): nat {
    if i < |path| then path[i] else 0
  }

  lemma TrailStep(env: Env, blocks: Disk, start: nat, path: seq<nat>, i: nat)
    requires Trail(env, blocks, start, path) && i <= |path| && PlaceAt(path, i) != 0
    ensures i < |path|
    ensures match ChunkAt(env, blocks, path[i])
            case Ok((_, next)) => next == PlaceAt(path, i + 1)
            case Err(_) => i == |path| - 1
  {
    assert i < |path| - 1 ==> Leads(env, blocks, path[i], path[i + 1]);
  }

  lemma TrailEnd(env: Env, blocks: Disk, start: nat, path: seq<nat>, i: nat)
    requires Trail(env, blocks, start, path) && i <= |path| && PlaceAt(path, i) == 0
    ensures i == |path|
  {
  }

  lemma InfosMore(env: Env, blocks: Disk, path: seq<nat>, i: nat)
    requires i < |path| && Readable(env, blocks, path, i) && ChunkAt(env, blocks, path[i]).Ok?
    ensures Readable(env, blocks, path, i + 1)
    ensures Infos(env, blocks, path, i + 1) == Infos(env, blocks, path, i) + [ChunkAt(env, blocks, path[i]).value.0]
  {
  }

  lemma NoSecondRoot(env: Env, blocks: Disk, path: seq<nat>, i: nat, root: Option<ChunkInfo>)
    requires AtMostOneRoot(env, blocks, path) && i < |path| && Readable(env, blocks, path, i + 1)
    requires RootAmong(Infos(env, blocks, path, i), root)
    requires IsRoot(ChunkAt(env, blocks, path[i]).value.0)
    ensures root.None?
  {
    var cs := Infos(env, blocks, path, i);
    forall j | 0 <= j < |cs|
      ensures !IsRoot(cs[j])
    {
      assert cs[j] == ChunkAt(env, blocks, path[j]).value.0;
    }
  }

  /** The state of the list loop after `i` chunks. */
  ghost predicate Walked(env: Env, blocks: Disk, path: seq<nat>, i: nat, at: nat, chunks: seq<ChunkInfo>, root: Option<ChunkInfo>) {
    && i <= |path| && at == PlaceAt(path, i)
    && Readable(env, blocks, path, i) && chunks == Infos(env, blocks, path, i)
    && RootAmong(chunks, root)
  }

  lemma WalkStep(env: Env, blocks: Disk, start: nat, path: seq<nat>, i: nat, at: nat, chunks: seq<ChunkInfo>, root: Option<ChunkInfo>)
    requires Trail(env, blocks, start, path) && AtMostOneRoot(env, blocks, path)
    requires Walked(env, blocks, path, i, at, chunks, root) && at != 0
    ensures i < |path|
    ensures match ChunkAt(env, blocks, at)
            case Err(e) => ListResult(env, blocks, path, Some(e), chunks) && RootAmong(chunks, root)
            case Ok((ci, next)) =>
              && (IsRoot(ci) ==> root.None?)
              && Walked(env, blocks, path, i + 1, next, chunks + [ci], if IsRoot(ci) then Some(ci) else root)
  {
    TrailStep(env, blocks, start, path, i);
    if ChunkAt(env, blocks, at).Ok? {
      var ci := ChunkAt(env, blocks, at).value.0;
      RootAmongMore(chunks, root, ci);
      InfosMore(env, blocks, path, i);
      if IsRoot(ci) {
        NoSecondRoot(env, blocks, path, i, root);
      }
    }
  }

  lemma WalkEnds(env: Env, blocks: Disk, start: nat, path: seq<nat>, i: nat, chunks: seq<ChunkInfo>, root: Option<ChunkInfo>)
    requires Trail(env, blocks, start, path) && Walked(env, blocks, path, i, 0, chunks, root)
    ensures ListResult(env, blocks, path, if i == 0 then Some(EIO) else None, chunks) && RootAmong(chunks, root)
  {
    TrailEnd(env, blocks, start, path, i);
  }

  // ---- super.c --------------------------------------------------------------------------------

  lemma GivenBack(h: multiset<Resource>, a: multiset<Resource>, b: multiset<Resource>)
    ensures h + (a + b) == h + a + b
    ensures h + a + b - b == h + a
    ensures h + a - a == h
    ensures h + (a + b) - b - a == h
  {
  }

  lemma FirstOfAll(h: multiset<Resource>, a: multiset<Resource>, b: multiset<Resource>)
    ensures a <= h + (a + b) && h + (a + b) - a == h + b
  {
  }

  lemma Returned(h: multiset<Resource>, r: Resource)
    ensures h + multiset{r} - multiset{r} == h
  {
  }

  lemma PairTaken(h: multiset<Resource>, off: nat)
    ensures h + multiset{Mem(off)} + multiset{Buf(off)} == h + PairHolds(off)
    ensures PairHolds(off) <= h + PairHolds(off) && h + PairHolds(off) - PairHolds(off) == h
  {
  }

  lemma ChunkTaken(h: multiset<Resource>, ci: ChunkInfo)
    ensures h + PairHolds(ci.off) + multiset{Mnt(ci.id)} == h + ChunkHolds(ci)
  {
  }

  /** The kernel, as far as it counts what is held. */
  class Kernel {
    var held: multiset<Resource>

    method Take(r: Resource)
      modifies this
      ensures held == old(held) + multiset{r}
    {
      held := held + multiset{r};
    }

    /** Giving back what is not held would be a double free. */
    method Release(r: Resource)
      requires r in held
      modifies this
      ensures held == old(held) - multiset{r}
    {
      held := held - multiset{r};
    }

    /** brelse and kfree */
    method ReleasePair(off: nat)
      requires PairHolds(off) <= held
      modifies this
      ensures held == old(held) - PairHolds(off)
    {
      Release(Buf(off));
      Release(Mem(off));
    }

    /** kzalloc, sb_bread and the check: the pair is kept, or nothing. */
    method ReadSummary(env: Env, blocks: Disk, off: nat, magic: nat) returns (r: Result<Body>)
      modifies this
      ensures r == SummaryAt(env, blocks, off, magic)
      ensures off !in env.noMem ==> (r.Ok? <==> Sound(env, blocks, off, magic)) && (r.Err? ==> r == Err(EIO))
      ensures held == if r.Ok? then old(held) + PairHolds(off) else old(held)
    {
      if off in env.noMem {
        return Err(ENOMEM);
      }
      Take(Mem(off));
      var at := off / BLK_SIZE * BLK_SIZE;
      if at in env.badIo || at !in blocks {
        Release(Mem(off));
        Returned(old(held), Mem(off));
        return Err(EIO);
      }
      Take(Buf(off));
      PairTaken(old(held), off);
      if blocks[at].magic != magic || blocks[at].chksum != CHECKSUM {
        ReleasePair(off);
        return Err(EIO);
      }
      r := Ok(blocks[at].body);
    }

    /** chunkfs_read_chunk with chunkfs_read_client_sb: three resources kept, or none. */
    method ReadChunk(env: Env, blocks: Disk, off: nat) returns (r: Result<(ChunkInfo, nat)>)
      modifies this
      ensures r == ChunkAt(env, blocks, off)
      ensures held == if r.Ok? then old(held) + ChunkHolds(r.value.0) else old(held)
    {
      var summary := ReadSummary(env, blocks, off, CHUNK_MAGIC);
      if summary.Err? {
        return Err(summary.error);
      }
      PairTaken(old(held), off);
      var body := summary.value;
      if !body.ChunkBody? {
        ReleasePair(off);
        return Err(EIO);
      }
      if body.id !in env.clients {
        ReleasePair(off);
        return Err(ENOENT);
      }
      Take(Mnt(body.id));
      r := Ok((ChunkInfo(off, body.id, body.flags), body.next));
      ChunkTaken(old(held), r.value.0);
    }

    /** chunkfs_free_chunk */
    method FreeChunk(ci: ChunkInfo)
      requires ChunkHolds(ci) <= held
      modifies this
      ensures held == old(held) - ChunkHolds(ci)
    {
      Release(Buf(ci.off));
      Release(Mnt(ci.id));
      Release(Mem(ci.off));
    }

    /** The freeing loop over a chunk list. */
    method FreeChunks(cs: seq<ChunkInfo>)
      requires ChunksHold(cs) <= held
      modifies this
      ensures held == old(held) - ChunksHold(cs)
    {
      var rest := cs;
      ghost var base := held - ChunksHold(cs);
      while rest != []
        invariant Owes(base, rest)
        decreases |rest|
      {
        FirstOfAll(base, ChunkHolds(rest[0]), ChunksHold(rest[1..]));
        FreeChunk(rest[0]);
        rest := rest[1..];
      }
    }

    /** What is held is `base` and what the listed chunks hold. */
    ghost predicate Owes(base: multiset<Resource>, chunks: seq<ChunkInfo>)
      reads this
    {
      held == base + ChunksHold(chunks)
    }

    /** Reads a chunk and appends it to the list; what is held stays `base` and the list's. */
    method ReadAndAppend(env: Env, blocks: Disk, off: nat, chunks: seq<ChunkInfo>, ghost base: multiset<Resource>)
      returns (r: Result<(ChunkInfo, nat)>, list: seq<ChunkInfo>)
      requires Owes(base, chunks)
      modifies this
      ensures r == ChunkAt(env, blocks, off)
      ensures list == if r.Ok? then chunks + [r.value.0] else chunks
      ensures Owes(base, list)
    {
      r := ReadChunk(env, blocks, off);
      list := chunks;
      if r.Ok? {
        HeldMore(base, chunks, r.value.0);
        list := chunks + [r.value.0];
      }
    }

    /** The loop of chunkfs_read_dev along the "next" pointers: the chunks read, the root among
        them if any, and the error that ended it (-EIO is what is left when no chunk is read). */
    method ReadChunks(env: Env, blocks: Disk, start: nat, ghost path: seq<nat>)
      returns (error: Option<Errno>, chunks: seq<ChunkInfo>, root: Option<ChunkInfo>)
      requires Trail(env, blocks, start, path) && AtMostOneRoot(env, blocks, path)
      modifies this
      ensures ListResult(env, blocks, path, error, chunks)
      ensures RootAmong(chunks, root)
      ensures Owes(old(held), chunks)
    {
      var chunkOffset := start;
      chunks, root, error := [], None, Some(EIO);
      assert Owes(old(held), chunks);
      ghost var i := 0;
      while chunkOffset != 0
        invariant Walked(env, blocks, path, i, chunkOffset, chunks, root)
        invariant error == if i == 0 then Some(EIO) else None
        invariant Owes(old(held), chunks)
        decreases |path| - i
      {
        WalkStep(env, blocks, start, path, i, chunkOffset, chunks, root);
        var next;
        next, chunks := ReadAndAppend(env, blocks, chunkOffset, chunks, old(held));
        if next.Err? {
          error := Some(next.error);
          return;
        }
        error := None;
        if IsRoot(next.value.0) {
          assert root.None?;
          root := Some(next.value.0);
        }
        chunkOffset := next.value.1;
        i := i + 1;
      }
      WalkEnds(env, blocks, start, path, i, chunks, root);
    }

    /** chunkfs_read_dev */
    method ReadDev(env: Env, blocks: Disk, ghost path: seq<nat>) returns (r: DevOutcome)
      requires DevAt(env, blocks).Ok? ==> Trail(env, blocks, DevAt(env, blocks).value, path)
      requires AtMostOneRoot(env, blocks, path)
      modifies this
      ensures DevResult(env, blocks, path, r)
      ensures held == if r.Found? then old(held) + DevHolds(r.dev) else old(held)
    {
      var summary := ReadSummary(env, blocks, DEV_OFFSET, DEV_MAGIC);
      if summary.Err? {
        return Failed(summary.error);
      }
      GivenBack(old(held), PairHolds(DEV_OFFSET), multiset{});
      if !summary.value.DevBody? {
        ReleasePair(DEV_OFFSET);
        return Failed(EIO);
      }
      var error, chunks, root := ReadChunks(env, blocks, summary.value.devInnardsBegin, path);
      GivenBack(old(held), PairHolds(DEV_OFFSET), ChunksHold(chunks));
      if error.Some? || root.None? {
        FreeChunks(chunks);
        ReleasePair(DEV_OFFSET);
        return if error.Some? then Failed(error.value) else NothingFound;
      }
      r := Found(DevInfo(chunks, root.value));
    }

    /** chunkfs_free_dev */
    method FreeDev(di: DevInfo)
      requires DevHolds(di) <= held
      modifies this
      ensures held == old(held) - DevHolds(di)
    {
      FreeChunks(di.chunks);
      ReleasePair(DEV_OFFSET);
    }

    /** chunkfs_read_pool. Nothing is held after an error; without a root the pool's own pair
        is, with a device listed that was never set. */
    method ReadPool(env: Env, blocks: Disk, ghost path: seq<nat>) returns (r: PoolOutcome)
      requires DevAt(env, blocks).Ok? ==> Trail(env, blocks, DevAt(env, blocks).value, path)
      requires AtMostOneRoot(env, blocks, path)
      modifies this
      ensures PoolResult(env, blocks, path, r)
      ensures held == match r
                      case PoolRead(pi) => old(held) + PoolHolds(pi)
                      case PoolFailed(_) => old(held)
                      case Undefined => old(held) + PairHolds(POOL_OFFSET)
    {
      var summary := ReadSummary(env, blocks, POOL_OFFSET, SUPER_MAGIC);
      if summary.Err? {
        return PoolFailed(summary.error);
      }
      GivenBack(old(held), PairHolds(POOL_OFFSET), multiset{});
      var dev := ReadDev(env, blocks, path);
      match dev {
        case Found(di) =>
          GivenBack(old(held), PairHolds(POOL_OFFSET), DevHolds(di));
          r := PoolRead(PoolInfo(di));
        case Failed(e) =>
          ReleasePair(POOL_OFFSET);
          r := PoolFailed(e);
        case NothingFound =>
          r := Undefined;
      }
    }

    /** chunkfs_free_pool */
    method FreePool(pi: PoolInfo)
      requires PoolHolds(pi) <= held
      modifies this
      ensures held == old(held) - PoolHolds(pi)
    {
      FreeDev(pi.dev);
      ReleasePair(POOL_OFFSET);
    }

    /** chunkfs_read_root. The path and the client dentry stay held on every error after they
        were taken. */
    method ReadRoot(pi: PoolInfo, answer: RootAnswer) returns (r: RootOutcome)
      modifies this
      ensures r == RootEnd(answer)
      ensures held == old(held) + RootHolds(answer, pi.dev.root)
    {
      if answer.NoInode? || answer.NoPath? {
        return NullPointer;
      }
      RootTaken(held, pi.dev.root);
      Take(RootPath);
      Take(ClientRoot);
      if answer.NoRootDentry? {
        return RootFailed(ENOMEM, false);
      }
      if answer.NoPrivate? {
        return RootFailed(ENOMEM, true);
      }
      Take(Priv);
      Take(ClientRoot);
      Take(Mnt(pi.dev.root.id));
      Release(RootPath);
      r := Ready;
    }

    /** chunkfs_release_dentry, for the root. */
    method ReleaseRoot(root: ChunkInfo)
      requires DentryHolds(root) <= held
      modifies this
      ensures held == old(held) - DentryHolds(root)
    {
      Release(ClientRoot);
      Release(Mnt(root.id));
      Release(ClientRoot);
      Release(Priv);
    }

    /** Unmounting: the VFS releases the root dentry and calls chunkfs_put_super. */
    method Unmount(pi: PoolInfo, ghost base: multiset<Resource>)
      requires held == base + (PoolHolds(pi) + DentryHolds(pi.dev.root))
      modifies this
      ensures held == base
    {
      BothHeld(base, PoolHolds(pi), DentryHolds(pi.dev.root));
      TakenAndBack(base + PoolHolds(pi), DentryHolds(pi.dev.root));
      ReleaseRoot(pi.dev.root);
      TakenAndBack(base, PoolHolds(pi));
      FreePool(pi);
    }

    /** chunkfs_fill_super */
    method FillSuper(env: Env, blocks: Disk, sized: bool, answer: RootAnswer, ghost path: seq<nat>)
      returns (r: SuperOutcome)
      requires DevAt(env, blocks).Ok? ==> Trail(env, blocks, DevAt(env, blocks).value, path)
      requires AtMostOneRoot(env, blocks, path)
      modifies this
      ensures SuperResult(env, blocks, path, sized, answer, r)
      ensures !sized ==> r == Refused(EINVAL)
      ensures held == old(held) + SuperHolds(answer, r)
    {
      if !sized {
        NothingMore(held);
        return Refused(EINVAL);
      }
      var pool := ReadPool(env, blocks, path);
      ghost var afterPool := held;
      match pool {
        case PoolFailed(e) =>
          r := Refused(e);
        case Undefined =>
          r := Astray;
        case PoolRead(pi) =>
          var end := ReadRoot(pi, answer);
          match end {
            case Ready => r := Mounted(pi);
            case RootFailed(e, rootSet) => r := RootRefused(e, pi, rootSet);
            case NullPointer => r := Oops(pi);
          }
      }
      SuperHeld(old(held), afterPool, held, pool, answer);
      assert r == SuperEnd(pool, answer);
    }

    /** Mounting and, if that succeeds, unmounting, whatever fails and however long the list. The
        VFS tears a refused mount down as an unmount: it calls put_super exactly when s_root is
        set. Everything is given back exactly when the device is `Balanced`; else what stays is
        said for each end. */
    method MountAndUnmount(env: Env, blocks: Disk, sized: bool, answer: RootAnswer, ghost path: seq<nat>)
      returns (r: SuperOutcome)
      requires DevAt(env, blocks).Ok? ==> Trail(env, blocks, DevAt(env, blocks).value, path)
      requires AtMostOneRoot(env, blocks, path)
      modifies this
      ensures SuperResult(env, blocks, path, sized, answer, r)
      ensures !sized ==> r == Refused(EINVAL)
      ensures held == old(held) <==> Balanced(env, blocks, path, sized, answer)
      ensures held == old(held) + LeftHeld(answer, r)
    {
      r := FillSuper(env, blocks, sized, answer, path);
      SuperOutcomeIff(env, blocks, path, sized, answer, r);
      LeftSomethingIff(answer, r);
      LeftIff(old(held), LeftHeld(answer, r));
      End(r, answer, old(held));
    }

    /** Unmounts what is mounted and tears down what was refused with s_root set. */
    method End(r: SuperOutcome, answer: RootAnswer, ghost base: multiset<Resource>)
      requires held == base + SuperHolds(answer, r)
      requires r.Mounted? ==> answer == AllThere
      modifies this
      ensures held == base + LeftHeld(answer, r)
    {
      if r.Mounted? {
        Unmount(r.pool, base);
        NothingMore(base);
      } else if r.RootRefused? && r.rootSet {
        FirstBack(base, PoolHolds(r.pool), RootHolds(answer, r.pool.dev.root));
        FreePool(r.pool);
      }
    }
  }

  lemma TakenAndBack(h: multiset<Resource>, a: multiset<Resource>)
    ensures a <= h + a && h + a - a == h
  {
  }

  lemma RootTaken(h: multiset<Resource>, root: ChunkInfo)
    ensures h + multiset{RootPath} + multiset{ClientRoot} == h + multiset{RootPath, ClientRoot}
    ensures h + multiset{RootPath} + multiset{ClientRoot} + multiset{Priv} + multiset{ClientRoot} + multiset{Mnt(root.id)}
            - multiset{RootPath} == h + DentryHolds(root)
    ensures h + multiset{} == h
  {
  }

  lemma NothingMore(h: multiset<Resource>)
    ensures h + multiset{} == h
  {
  }

  lemma BothHeld(h: multiset<Resource>, a: multiset<Resource>, b: multiset<Resource>)
    ensures h + a + b == h + (a + b)
  {
  }

  lemma FirstBack(h: multiset<Resource>, a: multiset<Resource>, b: multiset<Resource>)
    ensures a <= h + (a + b) && h + (a + b) - a == h + b
  {
  }

  lemma SuperHeld(h: multiset<Resource>, h1: multiset<Resource>, h2: multiset<Resource>, pool: PoolOutcome, answer: RootAnswer)
    requires h1 == match pool
                   case PoolRead(pi) => h + PoolHolds(pi)
                   case PoolFailed(_) => h
                   case Undefined => h + PairHolds(POOL_OFFSET)
    requires h2 == if pool.PoolRead? then h1 + RootHolds(answer, pool.pool.dev.root) else h1
    ensures h2 == h + SuperHolds(answer, SuperEnd(pool, answer))
  {
    match pool
    case PoolRead(pi) =>
      SuperPool(pi, answer);
      BothHeld(h, PoolHolds(pi), RootHolds(answer, pi.dev.root));
    case PoolFailed(_) => NothingMore(h);
    case Undefined =>
  }

  lemma SuperPool(pi: PoolInfo, answer: RootAnswer)
    ensures var r := SuperEnd(PoolRead(pi), answer); !r.Refused? && !r.Astray? && r.pool == pi
  {
  }

  /** Nothing stays held exactly after an unmount and after a refusal with nothing read in. */
  lemma LeftSomethingIff(answer: RootAnswer, r: SuperOutcome)
    requires r.RootRefused? ==> RootEnd(answer) == RootFailed(r.e, r.rootSet)
    ensures LeftHeld(answer, r) == multiset{} <==> r.Mounted? || r.Refused?
  {
    match r
    case Mounted(_) =>
    case Refused(_) =>
    case RootRefused(_, pi, _) =>
      assert RootPath in RootHolds(answer, pi.dev.root) && RootPath in LeftHeld(answer, r);
    case Astray =>
      assert Mem(POOL_OFFSET) in LeftHeld(answer, r);
    case Oops(pi) =>
      assert Mem(POOL_OFFSET) in PoolHolds(pi) && Mem(POOL_OFFSET) in LeftHeld(answer, r);
  }

  lemma LeftIff(h: multiset<Resource>, a: multiset<Resource>)
    ensures h + a == h <==> a == multiset{}
  {
    if a != multiset{} {
      var r :| r in a;
      assert (h + a)[r] > h[r];
    }
  }

  /** chunkfs_find_chunk */
  method FindChunk(pi: PoolInfo, id: u64) returns (r: Option<ChunkInfo>)
    ensures r.Some? ==> r.value in pi.dev.chunks && r.value.id == id
    ensures r.None? ==> forall ci :: ci in pi.dev.chunks ==> ci.id != id
  {
    for i := 0 to |pi.dev.chunks|
      invariant forall j :: 0 <= j < i ==> pi.dev.chunks[j].id != id
    {
      if pi.dev.chunks[i].id == id {
        return Some(pi.dev.chunks[i]);
      }
    }
    r := None;
  }
}

/** What mkfs wrote, mount reads back: the list of chunk headers from writer to reader. */
module FormatMount {
  import opened Outcomes
  import opened PackedNumber
  import opened Layout
  import opened Mount

  /** A device just formatted: whatever was there before, under the new image. */
  function Formatted(before: Mount.Disk, raw: nat): Mount.Disk
    requires 2 <= raw < MAX_SIZE
  {
    before + Image(raw)
  }

  /** Nothing fails, and the client file systems of all chunks are mounted. */
  ghost predicate Healthy(env: Env, raw: nat) {
    && env.noMem == {} && env.badIo == {}
    && forall k: u64 :: 1 <= k <= ChunkCount(raw) ==> k in env.clients
  }

  /** The image leads mount to a place it puts no header at: after the last chunk. */
  predicate PointsPastLast(raw: nat) {
    ChunkCount(raw) == 0 || Exceptional(raw)
  }

  /** `rest` is the way from that place over whatever headers an earlier life of the device has
      left, its end or the first place that cannot be read last. */
  ghost predicate StaleTrail(env: Env, before: Mount.Disk, raw: nat, rest: seq<nat>)
    requires 2 <= raw < MAX_SIZE
  {
    PointsPastLast(raw) ==> Trail(env, Formatted(before, raw), Begin(ChunkCount(raw) + 1), rest)
  }

  function Places(n: nat): seq<nat> {
    seq(n, i requires 0 <= i < n => Begin(i + 1))
  }

  lemma BeginAligned(k: nat)
    requires k >= 1
    ensures Begin(k) / BLK_SIZE * BLK_SIZE == Begin(k) && Begin(k) > DEV_OFFSET
  {
    assert Begin(k) == BLK_SIZE * (10 + (k - 1) * 2560);
  }

  /** Chunk k of a formatted device is read back with its id, its root mark and its link. */
  lemma ReadBack(env: Env, before: Mount.Disk, raw: nat, k: nat)
    requires 2 <= raw < MAX_SIZE && Healthy(env, raw) && 1 <= k <= ChunkCount(raw)
    ensures k < TWO64
    ensures ChunkAt(env, Formatted(before, raw), Begin(k))
         == Ok((ChunkInfo(Begin(k), k, if k == 1 then ROOT_FLAG else 0), NextOf(raw, k)))
  {
    ChunksBelowMax(raw);
    HeaderFits(k);
    HeaderAt(raw, ChunkCount(raw), k);
    BeginAligned(k);
    assert Formatted(before, raw)[Begin(k)] == Header(raw, k);
  }

  lemma SummariesReadBack(env: Env, before: Mount.Disk, raw: nat)
    requires 2 <= raw < MAX_SIZE && Healthy(env, raw)
    ensures SummaryAt(env, Formatted(before, raw), POOL_OFFSET, SUPER_MAGIC).Ok?
    ensures DevAt(env, Formatted(before, raw)) == Ok(Begin(1))
  {
    var blocks := Formatted(before, raw);
    NoHeaderBelow(raw, POOL_OFFSET);
    NoHeaderBelow(raw, DEV_OFFSET);
    assert blocks[POOL_OFFSET] == POOL_BLOCK && blocks[DEV_OFFSET] == DevBlock(raw);
    assert POOL_OFFSET / BLK_SIZE * BLK_SIZE == POOL_OFFSET && DEV_OFFSET / BLK_SIZE * BLK_SIZE == DEV_OFFSET;
  }

  lemma NoHeaderBelow(raw: nat, off: nat)
    requires 2 <= raw < MAX_SIZE && off < 40960
    ensures off !in Headers(raw, ChunkCount(raw))
  {
    if off in Headers(raw, ChunkCount(raw)) {
      OnlyHeaders(raw, ChunkCount(raw), off);
    }
  }

  /** The way mount takes over a formatted device: all chunks, and on an exceptional or empty
      device whatever follows. */
  function WayOf(raw: nat, rest: seq<nat>): seq<nat> {
    if PointsPastLast(raw) then Places(ChunkCount(raw)) + rest else Places(ChunkCount(raw))
  }

  lemma WayIsTrail(env: Env, before: Mount.Disk, raw: nat, rest: seq<nat>)
    requires 2 <= raw < MAX_SIZE && Healthy(env, raw) && StaleTrail(env, before, raw, rest)
    ensures Trail(env, Formatted(before, raw), Begin(1), WayOf(raw, rest))
  {
    var blocks, way, n := Formatted(before, raw), WayOf(raw, rest), ChunkCount(raw);
    forall i | 0 <= i < |way| - 1
      ensures Leads(env, blocks, way[i], way[i + 1])
    {
      WayLeads(env, before, raw, rest, i);
    }
    if !PointsPastLast(raw) {
      ReadBack(env, before, raw, n);
    }
  }

  lemma WayLeads(env: Env, before: Mount.Disk, raw: nat, rest: seq<nat>, i: nat)
    requires 2 <= raw < MAX_SIZE && Healthy(env, raw) && StaleTrail(env, before, raw, rest)
    requires i + 1 < |WayOf(raw, rest)|
    ensures Leads(env, Formatted(before, raw), WayOf(raw, rest)[i], WayOf(raw, rest)[i + 1])
  {
    var n := ChunkCount(raw);
    if i < n {
      ReadBack(env, before, raw, i + 1);
    } else {
      assert Leads(env, Formatted(before, raw), rest[i - n], rest[i - n + 1]);
    }
  }

  /** When no place past the image can be read, chunk 1 is the only root. */
  lemma OnlyFirstIsRoot(env: Env, before: Mount.Disk, raw: nat, rest: seq<nat>)
    requires 2 <= raw < MAX_SIZE && Healthy(env, raw)
    requires PointsPastLast(raw) ==> |rest| == 1 && ChunkAt(env, Formatted(before, raw), rest[0]).Err?
    ensures AtMostOneRoot(env, Formatted(before, raw), WayOf(raw, rest))
  {
    var blocks, way, n := Formatted(before, raw), WayOf(raw, rest), ChunkCount(raw);
    forall j | 1 <= j < |way|
      ensures ChunkAt(env, blocks, way[j]).Ok? ==> !IsRoot(ChunkAt(env, blocks, way[j]).value.0)
    {
      if j < n {
        ReadBack(env, before, raw, j + 1);
      }
    }
  }

  /** Exactly chunks 1..n in order, the first of them the root. */
  ghost predicate AllChunks(di: DevInfo, n: nat) {
    && |di.chunks| == n >= 1
    && ChunksFrom(di.chunks, n)
    && di.root == di.chunks[0]
  }

  /** The list starts with chunks 1..n. */
  ghost predicate ChunksFrom(cs: seq<ChunkInfo>, n: nat) {
    |cs| >= n && forall i :: 0 <= i < n ==> cs[i].id == i + 1 && cs[i].off == Begin(i + 1)
  }

  /** Every place past the image can be read, and they or the image have a root. */
  ghost predicate StaleReads(env: Env, before: Mount.Disk, raw: nat, rest: seq<nat>)
    requires 2 <= raw < MAX_SIZE
  {
    && rest != [] && ChunkAt(env, Formatted(before, raw), rest[|rest| - 1]).Ok?
    && (ChunkCount(raw) >= 1 || HasRoot(env, Formatted(before, raw), rest))
  }

  /** What reading the pool of a formatted device comes to. */
  ghost predicate ReadAsFormatted(env: Env, before: Mount.Disk, raw: nat, rest: seq<nat>, r: PoolOutcome)
    requires 2 <= raw < MAX_SIZE
  {
    if !PointsPastLast(raw) then r.PoolRead? && AllChunks(r.pool.dev, ChunkCount(raw))
    else
      && (r.PoolRead? <==> StaleReads(env, before, raw, rest))
      && (r.PoolRead? ==> |r.pool.dev.chunks| == ChunkCount(raw) + |rest| && ChunksFrom(r.pool.dev.chunks, ChunkCount(raw)))
  }

  lemma PoolOutcomeIs(env: Env, before: Mount.Disk, raw: nat, rest: seq<nat>, r: PoolOutcome)
    requires 2 <= raw < MAX_SIZE && Healthy(env, raw) && StaleTrail(env, before, raw, rest)
    requires AtMostOneRoot(env, Formatted(before, raw), WayOf(raw, rest))
    requires PoolResult(env, Formatted(before, raw), WayOf(raw, rest), r)
    ensures ReadAsFormatted(env, before, raw, rest, r)
  {
    var blocks, way := Formatted(before, raw), WayOf(raw, rest);
    PoolOutcomeIff(env, blocks, way, r);
    SummariesReadBack(env, before, raw);
    WholeWayIff(env, before, raw, rest);
    RootOnWayIff(env, before, raw, rest);
    if r.PoolRead? {
      assert ListResult(env, blocks, way, None, r.pool.dev.chunks);
      ChunksReadBack(env, before, raw, rest, r.pool.dev.chunks);
      if !PointsPastLast(raw) {
        RootIsFirst(env, before, raw, rest, r.pool.dev);
      }
    }
  }

  lemma WholeWayIff(env: Env, before: Mount.Disk, raw: nat, rest: seq<nat>)
    requires 2 <= raw < MAX_SIZE && Healthy(env, raw) && StaleTrail(env, before, raw, rest)
    ensures AllRead(env, Formatted(before, raw), WayOf(raw, rest))
       <==> !PointsPastLast(raw) || ChunkAt(env, Formatted(before, raw), rest[|rest| - 1]).Ok?
  {
    var way, n := WayOf(raw, rest), ChunkCount(raw);
    SummariesReadBack(env, before, raw);
    if PointsPastLast(raw) {
      assert way[|way| - 1] == rest[|rest| - 1];
    } else {
      assert way[|way| - 1] == Begin(n);
      ReadBack(env, before, raw, n);
    }
  }

  lemma RootOnWayIff(env: Env, before: Mount.Disk, raw: nat, rest: seq<nat>)
    requires 2 <= raw < MAX_SIZE && Healthy(env, raw)
    ensures HasRoot(env, Formatted(before, raw), WayOf(raw, rest))
       <==> ChunkCount(raw) >= 1 || HasRoot(env, Formatted(before, raw), rest)
  {
    var way := WayOf(raw, rest);
    if ChunkCount(raw) >= 1 {
      ReadBack(env, before, raw, 1);
      assert way[0] == Begin(1);
    } else {
      assert Places(0) == [] && way == rest;
    }
  }

  lemma ChunksReadBack(env: Env, before: Mount.Disk, raw: nat, rest: seq<nat>, cs: seq<ChunkInfo>)
    requires 2 <= raw < MAX_SIZE && Healthy(env, raw)
    requires ListResult(env, Formatted(before, raw), WayOf(raw, rest), None, cs)
    ensures |cs| == |WayOf(raw, rest)| && ChunksFrom(cs, ChunkCount(raw))
    ensures forall i :: 0 <= i < ChunkCount(raw) ==> (IsRoot(cs[i]) <==> i == 0)
  {
    var way, n := WayOf(raw, rest), ChunkCount(raw);
    forall i | 0 <= i < n
      ensures cs[i].id == i + 1 && cs[i].off == Begin(i + 1) && (IsRoot(cs[i]) <==> i == 0)
    {
      ReadBack(env, before, raw, i + 1);
      assert way[i] == Begin(i + 1);
    }
  }

  lemma RootIsFirst(env: Env, before: Mount.Disk, raw: nat, rest: seq<nat>, di: DevInfo)
    requires 2 <= raw < MAX_SIZE && Healthy(env, raw) && !PointsPastLast(raw)
    requires ListResult(env, Formatted(before, raw), WayOf(raw, rest), None, di.chunks)
    requires RootAmong(di.chunks, Some(di.root))
    ensures di.root == di.chunks[0]
  {
    ChunksReadBack(env, before, raw, rest, di.chunks);
  }

  /** With no valid chunk header at that place, the way ends there and mount fails. */
  lemma NothingStale(env: Env, before: Mount.Disk, raw: nat)
    requires 2 <= raw < MAX_SIZE && Healthy(env, raw) && PointsPastLast(raw)
    requires Begin(ChunkCount(raw) + 1) in before ==> before[Begin(ChunkCount(raw) + 1)].magic != CHUNK_MAGIC
    ensures var rest := [Begin(ChunkCount(raw) + 1)];
            && StaleTrail(env, before, raw, rest) && AtMostOneRoot(env, Formatted(before, raw), WayOf(raw, rest))
            && !StaleReads(env, before, raw, rest)
  {
    var at := Begin(ChunkCount(raw) + 1);
    StalePlace(env, before, raw);
    assert ChunkAt(env, Formatted(before, raw), at) == Err(EIO);
    OnlyFirstIsRoot(env, before, raw, [at]);
  }

  /** mkfs puts nothing at that place, which on an exceptional device lies inside it. */
  lemma StalePlace(env: Env, before: Mount.Disk, raw: nat)
    requires 2 <= raw < MAX_SIZE && PointsPastLast(raw)
    ensures var at := Begin(ChunkCount(raw) + 1);
            && at !in Image(raw) && at / BLK_SIZE * BLK_SIZE == at != 0
            && (at in before ==> at in Formatted(before, raw) && Formatted(before, raw)[at] == before[at])
            && (Exceptional(raw) ==> at + BLK_SIZE <= raw)
  {
    var n := ChunkCount(raw);
    BeginAligned(n + 1);
    NotInImage(raw);
    if Exceptional(raw) {
      assert raw - 40961 == (raw - 40961) / CHUNK_SIZE * CHUNK_SIZE;
    }
  }

  lemma NotInImage(raw: nat)
    requires 2 <= raw < MAX_SIZE && Begin(ChunkCount(raw) + 1) > DEV_OFFSET
    ensures Begin(ChunkCount(raw) + 1) !in Image(raw)
  {
    var n := ChunkCount(raw);
    ChunksBelowMax(raw);
    if Begin(n + 1) in Headers(raw, n) {
      OnlyHeaders(raw, n, Begin(n + 1));
    }
  }

  /** So a header can survive there: the one a device had that was a byte longer when it was
      formatted before. */
  lemma StaleHeader(env: Env, before: Mount.Disk, raw: nat)
    requires 2 <= raw < MAX_SIZE - 1 && Exceptional(raw) && Healthy(env, raw + 1)
    ensures ChunkCount(raw + 1) == ChunkCount(raw) + 1 < TWO64
    ensures ChunkAt(env, Formatted(Formatted(before, raw + 1), raw), Begin(ChunkCount(raw) + 1))
         == Ok((ChunkInfo(Begin(ChunkCount(raw) + 1), ChunkCount(raw) + 1, 0), 0))
  {
    var was, n := Formatted(before, raw + 1), ChunkCount(raw);
    OneByteMore(raw);
    HeaderIsThere(before, raw + 1, n + 1);
    StalePlace(env, was, raw);
    SameBlock(env, was, Formatted(was, raw), Begin(n + 1));
    ReadBack(env, before, raw + 1, n + 1);
  }

  lemma HeaderIsThere(before: Mount.Disk, raw: nat, k: nat)
    requires 2 <= raw < MAX_SIZE && 1 <= k <= ChunkCount(raw)
    ensures Begin(k) in Formatted(before, raw)
  {
    ChunksBelowMax(raw);
    HeaderAt(raw, ChunkCount(raw), k);
  }

  lemma SameBlock(env: Env, blocks: Mount.Disk, blocks': Mount.Disk, off: nat)
    requires off / BLK_SIZE * BLK_SIZE == off && off in blocks && off in blocks' && blocks'[off] == blocks[off]
    ensures ChunkAt(env, blocks', off) == ChunkAt(env, blocks, off)
  {
  }

  /** Mount then finds that one, too. */
  lemma StaleHeaderIsFollowed(env: Env, before: Mount.Disk, raw: nat)
    requires 2 <= raw < MAX_SIZE - 1 && Exceptional(raw) && Healthy(env, raw + 1)
    ensures var was, rest := Formatted(before, raw + 1), [Begin(ChunkCount(raw) + 1)];
            && Healthy(env, raw) && StaleTrail(env, was, raw, rest) && StaleReads(env, was, raw, rest)
            && AtMostOneRoot(env, Formatted(was, raw), WayOf(raw, rest))
  {
    StaleHeader(env, before, raw);
    OneByteMore(raw);
    OneFollows(env, Formatted(before, raw + 1), raw);
  }

  lemma OneFollows(env: Env, was: Mount.Disk, raw: nat)
    requires 2 <= raw < MAX_SIZE && Exceptional(raw) && ChunkCount(raw) >= 1 && Healthy(env, raw)
    requires ChunkAt(env, Formatted(was, raw), Begin(ChunkCount(raw) + 1)).Ok?
    requires ChunkAt(env, Formatted(was, raw), Begin(ChunkCount(raw) + 1)).value.1 == 0
    requires !IsRoot(ChunkAt(env, Formatted(was, raw), Begin(ChunkCount(raw) + 1)).value.0)
    ensures var rest := [Begin(ChunkCount(raw) + 1)];
            && StaleTrail(env, was, raw, rest) && StaleReads(env, was, raw, rest)
            && AtMostOneRoot(env, Formatted(was, raw), WayOf(raw, rest))
  {
    var n := ChunkCount(raw);
    var way := WayOf(raw, [Begin(n + 1)]);
    forall j | 1 <= j < |way|
      ensures ChunkAt(env, Formatted(was, raw), way[j]).Ok? ==> !IsRoot(ChunkAt(env, Formatted(was, raw), way[j]).value.0)
    {
      if j < n {
        ReadBack(env, was, raw, j + 1);
      }
    }
  }

  lemma OneByteMore(raw: nat)
    requires Exceptional(raw)
    ensures ChunkCount(raw) >= 1 && ChunkCount(raw + 1) == ChunkCount(raw) + 1
    ensures NextOf(raw + 1, ChunkCount(raw) + 1) == 0
  {
    var m := (raw - 40961) / CHUNK_SIZE;
    assert raw - 40961 == m * CHUNK_SIZE;
  }

  /** Formatting and then mounting, on any device size and over any old content whose headers, where
      the image leads to them, end somewhere and have no root too many. When mkfs goes through,
      reading the pool finds exactly chunks 1..N, chunk 1 the root, if at least one chunk fits
      and the size is not exceptional. Otherwise the image leads past its last chunk: there is no
      pool unless all headers left there can be read (and have a root, if no chunk fits), and then
      it has more than N chunks. */
  method FormatAndMount(device: Device, kernel: Kernel, env: Env, raw: nat, ghost rest: seq<nat>)
    returns (r: Option<PoolOutcome>)
    requires raw < MAX_SIZE && Healthy(env, raw)
    requires raw >= 2 ==> StaleTrail(env, device.blocks, raw, rest)
    requires raw >= 2 && PointsPastLast(raw) ==> AtMostOneRoot(env, Formatted(device.blocks, raw), WayOf(raw, rest))
    modifies device`blocks, kernel
    ensures r.Some? <==> Completes(raw, device.limit)
    ensures r.Some? ==> ReadAsFormatted(env, old(device.blocks), raw, rest, r.value)
    ensures r.Some? && r.value.PoolRead? ==>
              (AllChunks(r.value.pool.dev, ChunkCount(raw)) <==> ChunkCount(raw) >= 1 && !Exceptional(raw))
    ensures r.None? || r.value.PoolFailed? ==> kernel.held == old(kernel.held)
  {
    ghost var before := device.blocks;
    var formatted := device.Mkfs(raw);
    if !formatted {
      return None;
    }
    WholeImage(raw, device.limit);
    SummariesReadBack(env, before, raw);
    WayIsTrail(env, before, raw, rest);
    if !PointsPastLast(raw) {
      OnlyFirstIsRoot(env, before, raw, rest);
    }
    var pool := kernel.ReadPool(env, device.blocks, WayOf(raw, rest));
    PoolOutcomeIs(env, before, raw, rest, pool);
    r := Some(pool);
  }

  /** On the mounted pool chunkfs_find_chunk answers chunk k for every id k in 1..N, and nothing
      for any other. */
  method FindMounted(pi: PoolInfo, n: nat, id: u64) returns (r: Option<ChunkInfo>)
    requires AllChunks(pi.dev, n)
    ensures r == if 1 <= id <= n then Some(pi.dev.chunks[id - 1]) else None
  {
    r := FindChunk(pi, id);
    if 1 <= id <= n {
      assert pi.dev.chunks[id - 1] in pi.dev.chunks;
    }
  }
}

/** mkfs.chunkfs: the pool and device summaries and the linked list of chunk headers it writes
    (mkfs.chunkfs.c), all in unsigned 64-bit arithmetic. A device is a map from byte offsets
    to the metadata blocks found there, and refuses seeks and writes from some offset on. */
module Layout {
  import opened PackedNumber

  const BLK_SIZE: nat := 4096
  const POOL_OFFSET: nat := 8 * BLK_SIZE
  const DEV_OFFSET: nat := 9 * BLK_SIZE
  const CHUNK_SIZE: nat := 10 * 1024 * 1024
  /** One past the largest size an off_t can hold. */
  const MAX_SIZE: nat := 0x8000_0000_0000_0000

  /** Offsets a seek can go to. */
  type Limit = n: nat | n <= MAX_SIZE

  /** No header begins here or later: one chunk past the last offset a seek can go to. */
  const TOP: nat := MAX_SIZE + CHUNK_SIZE

  const SUPER_MAGIC: nat := 0x5afe_5afe
  const DEV_MAGIC: nat := 0xdeed_deed
  const CHUNK_MAGIC: nat := 0xf00d_f00d
  const CHECKSUM: nat := 0x3232_3232
  const ROOT_FLAG: nat := 1

  /** What follows magic and checksum in each of the three kinds of metadata block. */
  datatype Body =
    | PoolBody(poolFlags: nat)
    | DevBody(devBegin: u64, devEnd: u64, devInnardsBegin: u64, devInnardsEnd: u64, rootChunk: u64)
    | ChunkBody(flags: nat, id: u64, begin: u64, end: u64, innardsBegin: u64, innardsEnd: u64, next: u64)

  datatype Block = Block(magic: nat, chksum: nat, body: Body)

  // ---- What is written -----------------------------------------------------------------------

  /** How many chunks fit a device of `raw` bytes. */
  function ChunkCount(raw: nat): nat {
    if raw < 40962 then 0 else (raw - 40962) / CHUNK_SIZE
  }

  /** Where chunk `k` (from 1) begins. */
  function Begin(k: nat): nat
    requires k >= 1
  {
    40960 + (k - 1) * CHUNK_SIZE
  }

  /** The sizes for which "another chunk fits" and the loop disagree: one byte short of one more
      chunk. */
  predicate Exceptional(raw: nat) {
    raw >= 40961 + 2 * CHUNK_SIZE && (raw - 40961) % CHUNK_SIZE == 0
  }

  /** The loop of mkfs asks for chunk `k`: as long as one fits, but on a device of 0 or 1 bytes
      (what fstat reports for a block device is 0) always. */
  predicate Wanted(raw: nat, k: nat) {
    raw < 2 || k <= ChunkCount(raw)
  }

  /** The "next" of chunk `k`: the following chunk if that is wanted, else 0, but on an
      exceptional device even the last points on. */
  function NextOf(raw: nat, k: nat): nat
    requires k >= 1
  {
    if Wanted(raw, k + 1) || Exceptional(raw) then Begin(k + 1) else 0
  }

  /** The header of chunk `k`. */
  function Header(raw: nat, k: nat): Block
    requires k >= 1 && Begin(k) < TOP
  {
    HeaderFits(k);
    Block(CHUNK_MAGIC, CHECKSUM, ChunkBody(
            if k == 1 then ROOT_FLAG else 0, k, Begin(k), Begin(k) + CHUNK_SIZE - 1,
            Begin(k) + BLK_SIZE, Begin(k) + CHUNK_SIZE - 1, NextOf(raw, k)))
  }

  /** The first `n` chunk headers. */
  function Headers(raw: nat, n: nat): map<nat, Block>
    requires n == 0 || Begin(n) < TOP
  {
    if n == 0 then map[] else Headers(raw, n - 1)[Begin(n) := Header(raw, n)]
  }

  const POOL_BLOCK := Block(SUPER_MAGIC, CHECKSUM, PoolBody(0))

  /** The end of a device counted from its last byte but one; below 2 bytes this wraps. */
  function EndOf(raw: nat): u64
    requires raw < MAX_SIZE
  {
    if raw >= 2 then raw - 2 else TWO64 + raw - 2
  }

  function DevBlock(raw: nat): Block
    requires raw < MAX_SIZE
  {
    Block(DEV_MAGIC, CHECKSUM, DevBody(DEV_OFFSET, EndOf(raw), Begin(1), EndOf(raw), Begin(1)))
  }

  /** Everything mkfs puts on a device of `raw` bytes. */
  function Image(raw: nat): map<nat, Block>
    requires 2 <= raw < MAX_SIZE
  {
    ChunksBelowMax(raw);
    map[POOL_OFFSET := POOL_BLOCK][DEV_OFFSET := DevBlock(raw)] + Headers(raw, ChunkCount(raw))
  }

  /** How many chunks begin below `limit`. */
  function Fitting(limit: nat): nat {
    if limit <= 40960 then 0 else (limit - 40961) / CHUNK_SIZE + 1
  }

  /** How many headers are written when the device refuses everything from `limit` on. */
  function WrittenHeaders(raw: nat, limit: nat): nat {
    if raw >= 2 && ChunkCount(raw) <= Fitting(limit) then ChunkCount(raw) else Fitting(limit)
  }

  /** What mkfs puts on such a device before it ends, one way or the other. */
  function ImageBelow(raw: nat, limit: Limit): map<nat, Block>
    requires raw < MAX_SIZE
  {
    FittingIff(limit, WrittenHeaders(raw, limit));
    if limit <= POOL_OFFSET then map[]
    else if limit <= DEV_OFFSET then map[POOL_OFFSET := POOL_BLOCK]
    else map[POOL_OFFSET := POOL_BLOCK][DEV_OFFSET := DevBlock(raw)] + Headers(raw, WrittenHeaders(raw, limit))
  }

  /** No write mkfs wants to make on such a device is refused. */
  predicate Completes(raw: nat, limit: nat) {
    raw >= 2 && DEV_OFFSET < limit && ChunkCount(raw) <= Fitting(limit)
  }

  // ---- Arithmetic ---------------------------------------------------------------------------

  /** Chunk `k` fits exactly when its last byte lies before the device's. */
  lemma FitsIff(raw: nat, k: nat)
    requires k >= 1 && raw >= 2
    ensures k <= ChunkCount(raw) <==> Begin(k) + CHUNK_SIZE - 1 < raw - 2
  {
  }

  lemma HeaderFits(k: nat)
    requires k >= 1 && Begin(k) < TOP
    ensures Begin(k) + 2 * CHUNK_SIZE < TWO64 && Begin(k + 1) == Begin(k) + CHUNK_SIZE
    ensures k + 1 < TWO64
  {
  }

  lemma ChunksBelowMax(raw: nat)
    requires raw < MAX_SIZE
    ensures forall k :: 1 <= k <= ChunkCount(raw) ==> Begin(k) < TOP
  {
    forall k | 1 <= k <= ChunkCount(raw)
      ensures Begin(k) < TOP
    {
      FitsIff(raw, k);
    }
  }

  /** Chunk `k` begins below the limit exactly when it is among the `Fitting` ones. */
  lemma FittingIff(limit: nat, k: nat)
    ensures k >= 1 ==> (k <= Fitting(limit) <==> Begin(k) < limit)
  {
    if k >= 1 && limit > 40960 {
      QuotientIff(limit - 40961, k - 1);
    }
  }

  lemma QuotientIff(x: nat, m: nat)
    ensures m <= x / CHUNK_SIZE <==> m * CHUNK_SIZE <= x
  {
  }

  /** The guard that links a chunk on (c_end + size - 1 < d_end) holds exactly when the chunk is
      not the last, or the device is exceptional. */
  lemma LinkGuardIff(raw: nat, k: nat)
    requires 1 <= k <= ChunkCount(raw) && raw < MAX_SIZE
    ensures Begin(k) + CHUNK_SIZE - 1 + CHUNK_SIZE - 1 < raw - 2 <==> k < ChunkCount(raw) || Exceptional(raw)
  {
    FitsIff(raw, k);
    FitsIff(raw, k + 1);
    var n := ChunkCount(raw);
    if k == n {
      assert n * CHUNK_SIZE <= raw - 40962 < (n + 1) * CHUNK_SIZE;
      if raw - 40961 == (n + 1) * CHUNK_SIZE {
        ExceptionalIs(raw, n);
      } else {
        NotExceptional(raw, n);
      }
    }
  }

  lemma ExceptionalIs(raw: nat, n: nat)
    requires n >= 1 && raw - 40961 == (n + 1) * CHUNK_SIZE
    ensures Exceptional(raw)
  {
  }

  lemma NotExceptional(raw: nat, n: nat)
    requires n * CHUNK_SIZE < raw - 40961 < (n + 1) * CHUNK_SIZE
    ensures !Exceptional(raw)
  {
  }

  /** No size that is a whole number of 512-byte sectors is exceptional. */
  lemma SectorSizesAreFine(raw: nat)
    requires raw % 512 == 0
    ensures !Exceptional(raw)
  {
    var m := (raw - 40961) / CHUNK_SIZE;
    assert Exceptional(raw) ==> raw == 512 * (80 + m * 20480) + 1;
  }

  /** For a device of 0 or 1 bytes d_end wraps to the top of the range, where no chunk end ever
      lands: the loop guard holds in every round, wrapped ones included. So the only way out of
      the loop is a refused seek or write, see `Device.Mkfs`. */
  lemma GuardNeverFails(raw: nat, rounds: nat)
    requires raw < 2
    ensures Sub64(Add64((40960 + rounds * CHUNK_SIZE) % TWO64, CHUNK_SIZE), 1) < DevEnd(raw)
  {
    var s := 40960 + rounds * CHUNK_SIZE;
    WrapStep(s);
    NeverWraps(s + CHUNK_SIZE, rounds + 1);
    DevEndIs(raw);
  }

  /** d_end as main and create_dev_summary compute it. */
  function DevEnd(raw: u64): u64 {
    Sub64(Add64(DEV_OFFSET, Sub64(Sub64(raw, DEV_OFFSET), 1)), 1)
  }

  lemma DevEndIs(raw: u64)
    ensures DevEnd(raw) == if raw >= 2 then raw - 2 else TWO64 + raw - 2
  {
    var size := Sub64(Sub64(raw, DEV_OFFSET), 1);
    assert size == if raw > DEV_OFFSET then raw - DEV_OFFSET - 1 else TWO64 + raw - DEV_OFFSET - 1;
    assert Add64(DEV_OFFSET, size) == if raw >= 1 then raw - 1 else TWO64 - 1;
  }

  lemma WrapStep(s: nat)
    ensures Add64(s % TWO64, CHUNK_SIZE) == (s + CHUNK_SIZE) % TWO64
  {
    var q, r := s / TWO64, s % TWO64;
    if r + CHUNK_SIZE < TWO64 {
      Remainder(s + CHUNK_SIZE, q, r + CHUNK_SIZE);
    } else {
      Remainder(s + CHUNK_SIZE, q + 1, r + CHUNK_SIZE - TWO64);
    }
  }

  lemma Remainder(x: nat, q: nat, r: nat)
    requires x == q * TWO64 + r && r < TWO64
    ensures x % TWO64 == r
  {
  }

  /** Chunk boundaries lie 40960 bytes off the multiples of 2^21, so no wrapped one is near the
      ends of the range. */
  lemma NeverWraps(x: nat, m: nat)
    requires x == 40960 + m * CHUNK_SIZE
    ensures 40960 <= x % TWO64 < TWO64 - 1
  {
    var q, r := x / TWO64, x % TWO64;
    assert r == 2097152 * (m * 5 - q * 0x800_0000_0000) + 40960;
  }

  // ---- Safety of the layout ----------------------------------------------------------------------

  /** Every chunk is block aligned, inside the device and clear of the pool and device blocks,
      and ends before any later one begins; its innards are the 2559 blocks its client file
      system is made with. */
  lemma LayoutSafe(raw: nat, j: nat, k: nat)
    requires 1 <= j <= k <= ChunkCount(raw) && raw < MAX_SIZE
    ensures Begin(j) < TOP && Begin(k) < TOP
    ensures HeaderSafe(raw, Header(raw, j).body)
    ensures j < k ==> Header(raw, j).body.end < Header(raw, k).body.begin
  {
    ChunksBelowMax(raw);
    HeaderIsSafe(raw, j);
    if j < k {
      assert (j - 1) * CHUNK_SIZE + CHUNK_SIZE <= (k - 1) * CHUNK_SIZE;
    }
  }

  /** The device descriptor: it begins where its block lies, after the pool's; its innards begin with
      the next block, which is the first chunk's; and all chunks lie in them. */
  lemma DeviceSafe(raw: nat, k: nat)
    requires 1 <= k <= ChunkCount(raw) && raw < MAX_SIZE
    ensures Begin(k) < TOP
    ensures var dev, c := DevBlock(raw).body, Header(raw, k).body;
            && dev.devBegin == DEV_OFFSET && POOL_OFFSET + BLK_SIZE <= dev.devBegin && dev.devBegin % BLK_SIZE == 0
            && dev.devInnardsBegin == dev.devBegin + BLK_SIZE == dev.rootChunk == Begin(1)
            && dev.devEnd == dev.devInnardsEnd == raw - 2
            && dev.devInnardsBegin <= c.begin && c.end < dev.devInnardsEnd
  {
    ChunksBelowMax(raw);
    FitsIff(raw, k);
  }

  predicate HeaderSafe(raw: nat, c: Body) {
    && c.ChunkBody? && c.begin % BLK_SIZE == 0
    && POOL_OFFSET + BLK_SIZE <= DEV_OFFSET && DEV_OFFSET + BLK_SIZE <= c.begin <= c.end < raw
    && c.innardsBegin == c.begin + BLK_SIZE && c.innardsEnd == c.end
    && c.innardsEnd - c.innardsBegin + 1 == 2559 * BLK_SIZE
  }

  lemma HeaderIsSafe(raw: nat, k: nat)
    requires 1 <= k <= ChunkCount(raw) && raw < MAX_SIZE && Begin(k) < TOP
    ensures HeaderSafe(raw, Header(raw, k).body)
  {
    FitsIff(raw, k);
    BlockAligned(k);
  }

  lemma BlockAligned(k: nat)
    requires k >= 1
    ensures Begin(k) % BLK_SIZE == 0 && Begin(k) >= 10 * BLK_SIZE
  {
    assert Begin(k) == BLK_SIZE * (10 + (k - 1) * 2560);
  }

  // ---- The loop body, computed ------------------------------------------------------------------

  lemma NoWrap(a: u64, b: u64)
    ensures a + b < TWO64 ==> Add64(a, b) == a + b
    ensures b <= a ==> Sub64(a, b) == a - b
  {
  }

  /** The loop guard, as computed, holds exactly while another chunk is wanted. */
  lemma GuardIff(raw: nat, k: nat)
    requires k >= 1 && raw < MAX_SIZE && Begin(k) < TOP + CHUNK_SIZE
    ensures Sub64(Add64(Begin(k), CHUNK_SIZE), 1) == Begin(k) + CHUNK_SIZE - 1
    ensures Sub64(Add64(Begin(k), CHUNK_SIZE), 1) < EndOf(raw) <==> Wanted(raw, k)
  {
    NoWrap(Begin(k), CHUNK_SIZE);
    NoWrap(Begin(k) + CHUNK_SIZE, 1);
    if raw >= 2 {
      FitsIff(raw, k);
    }
  }

  /** The guard on the link means what `NextOf` says. */
  lemma LinkIff(raw: nat, k: nat)
    requires k >= 1 && Wanted(raw, k) && raw < MAX_SIZE && Begin(k) < TOP
    ensures Begin(k) + CHUNK_SIZE - 1 + CHUNK_SIZE - 1 < EndOf(raw) <==> NextOf(raw, k) != 0
    ensures NextOf(raw, k) != 0 ==> NextOf(raw, k) == Begin(k + 1)
  {
    if raw >= 2 {
      LinkGuardIff(raw, k);
    }
  }

  /** Nothing wraps while chunk `k` is written, the guard on its link means what `NextOf` says,
      and the next round starts at the next chunk. */
  lemma HeaderComputed(raw: nat, k: nat)
    requires k >= 1 && Wanted(raw, k) && raw < MAX_SIZE && Begin(k) < TOP
    ensures Begin(k) + 2 * CHUNK_SIZE < TWO64 && k + 1 < TWO64
    ensures var end := Begin(k) + CHUNK_SIZE - 1;
            && Sub64(Add64(Begin(k), CHUNK_SIZE), 1) == end
            && Add64(Begin(k), BLK_SIZE) == Begin(k) + BLK_SIZE
            && Add64(end, 1) == Begin(k + 1) == Add64(Begin(k), CHUNK_SIZE)
            && (Sub64(Add64(end, CHUNK_SIZE), 1) < EndOf(raw) <==> NextOf(raw, k) != 0)
            && (NextOf(raw, k) != 0 ==> NextOf(raw, k) == Begin(k + 1))
    ensures Add64(k, 1) == k + 1
  {
    HeaderFits(k);
    var end := Begin(k) + CHUNK_SIZE - 1;
    GuardIff(raw, k);
    NoWrap(Begin(k), BLK_SIZE);
    NoWrap(end, 1);
    NoWrap(Begin(k), CHUNK_SIZE);
    NoWrap(end, CHUNK_SIZE);
    NoWrap(end + CHUNK_SIZE, 1);
    NoWrap(k, 1);
    LinkIff(raw, k);
  }

  /** The next round starts at the next chunk and is entered when that is wanted. */
  lemma RoundDone(raw: nat, k: nat)
    requires k >= 1 && Wanted(raw, k) && raw < MAX_SIZE && Begin(k) < MAX_SIZE
    ensures k + 1 < TWO64 && Add64(k, 1) == k + 1
    ensures Begin(k + 1) < TOP && Add64(Begin(k), CHUNK_SIZE) == Begin(k + 1)
    ensures Sub64(Add64(Begin(k + 1), CHUNK_SIZE), 1) < EndOf(raw) <==> Wanted(raw, k + 1)
  {
    HeaderComputed(raw, k);
    GuardIff(raw, k + 1);
  }

  /** After `n` rounds, none of them refused: whether there is another, and how it ends. */
  lemma Rounds(raw: nat, limit: Limit, n: nat)
    requires n <= WrittenHeaders(raw, limit) && DEV_OFFSET < limit
    ensures !Wanted(raw, n + 1) ==> n == WrittenHeaders(raw, limit) && Completes(raw, limit)
    ensures Wanted(raw, n + 1) && Begin(n + 1) < limit ==> n + 1 <= WrittenHeaders(raw, limit)
    ensures Wanted(raw, n + 1) && Begin(n + 1) >= limit ==> n == WrittenHeaders(raw, limit) && !Completes(raw, limit)
  {
    FittingIff(limit, n + 1);
  }

  lemma HeadersGrow(base: map<nat, Block>, raw: nat, n: nat)
    requires n >= 1 && Begin(n) < TOP
    ensures (base + Headers(raw, n - 1))[Begin(n) := Header(raw, n)] == base + Headers(raw, n)
  {
  }

  // ---- mkfs ---------------------------------------------------------------------------------

  /** The device file mkfs writes to. `limit` is the first offset at which the seek or the write
      fails: the end of a block device or the largest file, and an off_t at the most. */
  class Device {
    const limit: Limit
    var blocks: map<nat, Block>

    /** write_block: the structure, with its checksum, at the offset; if that is refused the
        program ends there. */
    method WriteBlock(offset: u64, magic: nat, body: Body) returns (ok: bool)
      modifies this`blocks
      ensures ok <==> offset < limit
      ensures blocks == if ok then old(blocks)[offset := Block(magic, CHECKSUM, body)] else old(blocks)
    {
      ok := offset < limit;
      if ok {
        blocks := blocks[offset := Block(magic, CHECKSUM, body)];
      }
    }

    /** create_dev_summary */
    method CreateDevSummary(devBegin: u64, devSize: u64) returns (body: Body)
      requires devBegin == DEV_OFFSET
      ensures body.DevBody?
      ensures body == DevBody(devBegin, Sub64(Add64(devBegin, devSize), 1), Begin(1),
                              Sub64(Add64(devBegin, devSize), 1), Begin(1))
    {
      var end := Sub64(Add64(devBegin, devSize), 1);
      var innards := Add64(devBegin, BLK_SIZE);
      body := DevBody(devBegin, end, innards, end, innards);
    }

    /** create_chunk_summary, before flags and next are filled in. */
    method CreateChunkSummary(start: u64, size: u64, id: u64) returns (body: Body)
      ensures body == ChunkBody(0, id, start, Sub64(Add64(start, size), 1), Add64(start, BLK_SIZE),
                                Sub64(Add64(start, size), 1), 0)
    {
      var end := Sub64(Add64(start, size), 1);
      body := ChunkBody(0, id, start, end, Add64(start, BLK_SIZE), end, 0);
    }

    /** One round of write_chunk_summaries: the header of the `k`-th chunk. */
    method WriteChunkSummary(start: u64, size: u64, id: u64, devEnd: u64, ghost raw: nat, ghost k: nat)
      returns (ok: bool)
      requires raw < MAX_SIZE && k >= 1 && Wanted(raw, k) && Begin(k) < TOP
      requires start == Begin(k) && size == CHUNK_SIZE && id == k && devEnd == EndOf(raw)
      modifies this`blocks
      ensures ok <==> start < limit
      ensures blocks == if ok then old(blocks)[start := Header(raw, k)] else old(blocks)
    {
      HeaderComputed(raw, k);
      var chunk := CreateChunkSummary(start, size, id);
      if id == 1 {
        chunk := chunk.(flags := ROOT_FLAG);
      }
      if Sub64(Add64(chunk.end, size), 1) < devEnd {
        chunk := chunk.(next := Add64(chunk.end, 1));
      }
      ok := WriteBlock(start, CHUNK_MAGIC, chunk);
    }

    /** write_chunk_summaries: the wanted chunks, linked as `NextOf` says, up to the first that is
        refused. */
    method WriteChunkSummaries(dev: Body, raw: nat) returns (ok: bool)
      requires raw < MAX_SIZE && dev == DevBlock(raw).body && DEV_OFFSET < limit
      modifies this`blocks
      ensures ok <==> Completes(raw, limit)
      ensures WrittenHeaders(raw, limit) == 0 || Begin(WrittenHeaders(raw, limit)) < TOP
      ensures blocks == old(blocks) + Headers(raw, WrittenHeaders(raw, limit))
    {
      FittingIff(limit, WrittenHeaders(raw, limit));
      var chunkId: u64 := 1;
      var chunkStart: u64 := dev.rootChunk;
      var chunkSize: u64 := CHUNK_SIZE;
      var devEnd := dev.devEnd;
      ghost var n := 0;
      GuardIff(raw, 1);
      assert old(blocks) + Headers(raw, 0) == old(blocks);
      Rounds(raw, limit, 0);
      while Sub64(Add64(chunkStart, chunkSize), 1) < devEnd
        invariant n <= WrittenHeaders(raw, limit) && Begin(n + 1) < TOP && (n >= 1 ==> Begin(n) < TOP)
        invariant chunkId == n + 1 && chunkStart == Begin(n + 1)
        invariant Sub64(Add64(chunkStart, chunkSize), 1) < devEnd <==> Wanted(raw, n + 1)
        invariant blocks == old(blocks) + Headers(raw, n)
        decreases WrittenHeaders(raw, limit) - n
      {
        Rounds(raw, limit, n);
        ok := WriteChunkSummary(chunkStart, chunkSize, chunkId, devEnd, raw, n + 1);
        if !ok {
          return;
        }
        HeadersGrow(old(blocks), raw, n + 1);
        RoundDone(raw, n + 1);
        n := n + 1;
        chunkStart := Add64(chunkStart, chunkSize);
        chunkId := Add64(chunkId, 1);
      }
      Rounds(raw, limit, n);
      ok := true;
    }

    /** main, from the raw size on: the image, or as much of it as lies below the first refused
        write. On a device of 0 or 1 bytes mkfs always ends in a refused write. */
    method Mkfs(raw: nat) returns (ok: bool)
      requires raw < MAX_SIZE
      modifies this`blocks
      ensures ok <==> Completes(raw, limit)
      ensures blocks == old(blocks) + ImageBelow(raw, limit)
    {
      ok := WriteBlock(POOL_OFFSET, SUPER_MAGIC, PoolBody(0));
      if !ok {
        return;
      }
      var devSize := Sub64(Sub64(raw, DEV_OFFSET), 1);
      var dev := CreateDevSummary(DEV_OFFSET, devSize);
      DevEndIs(raw);
      ok := WriteBlock(DEV_OFFSET, DEV_MAGIC, dev);
      if !ok {
        return;
      }
      ok := WriteChunkSummaries(dev, raw);
      ImageOver(old(blocks), raw, limit);
    }
  }

  lemma ImageOver(before: map<nat, Block>, raw: nat, limit: Limit)
    requires raw < MAX_SIZE && DEV_OFFSET < limit
    ensures WrittenHeaders(raw, limit) == 0 || Begin(WrittenHeaders(raw, limit)) < TOP
    ensures before[POOL_OFFSET := POOL_BLOCK][DEV_OFFSET := DevBlock(raw)] + Headers(raw, WrittenHeaders(raw, limit))
         == before + ImageBelow(raw, limit)
  {
    FittingIff(limit, WrittenHeaders(raw, limit));
    var own := map[POOL_OFFSET := POOL_BLOCK][DEV_OFFSET := DevBlock(raw)];
    var headers := Headers(raw, WrittenHeaders(raw, limit));
    assert before[POOL_OFFSET := POOL_BLOCK][DEV_OFFSET := DevBlock(raw)] + headers == before + (own + headers);
  }

  /** When nothing is refused, the image is complete. */
  lemma WholeImage(raw: nat, limit: Limit)
    requires raw < MAX_SIZE && Completes(raw, limit)
    ensures ImageBelow(raw, limit) == Image(raw)
  {
  }

  /** On a device of 0 or 1 bytes every chunk that begins below the limit gets a header, each
      pointing at the next, the last one at the place where the write was refused. */
  lemma TinyImage(raw: nat, limit: Limit, k: nat)
    requires raw < 2 && limit > 40960 && 1 <= k && Begin(k) < limit
    ensures !Completes(raw, limit)
    ensures Begin(k) in ImageBelow(raw, limit) && ImageBelow(raw, limit)[Begin(k)].body.ChunkBody?
    ensures ImageBelow(raw, limit)[Begin(k)].body.next == Begin(k + 1)
    ensures !(Begin(Fitting(limit) + 1) < limit)
  {
    FittingIff(limit, k);
    FittingIff(limit, Fitting(limit));
    FittingIff(limit, Fitting(limit) + 1);
    HeaderAt(raw, Fitting(limit), k);
  }

  // ---- Reading the image back ------------------------------------------------------------------

  /** The header of chunk k is found at its place ... */
  lemma {:induction false} HeaderAt(raw: nat, n: nat, k: nat)
    requires 1 <= k <= n && Begin(n) < TOP
    ensures Begin(k) < TOP && Begin(k) in Headers(raw, n) && Headers(raw, n)[Begin(k)] == Header(raw, k)
  {
    if k < n {
      HeaderAt(raw, n - 1, k);
      assert Begin(k) != Begin(n);
    }
  }

  /** ... and no header anywhere else. */
  lemma {:induction false} OnlyHeaders(raw: nat, n: nat, off: nat)
    requires (n == 0 || Begin(n) < TOP) && off in Headers(raw, n)
    ensures off >= 40960 && (off - 40960) % CHUNK_SIZE == 0 && (off - 40960) / CHUNK_SIZE < n
  {
    if off != Begin(n) {
      OnlyHeaders(raw, n - 1, off);
    } else {
      WholeChunks(n - 1);
    }
  }

  lemma WholeChunks(m: nat)
    ensures m * CHUNK_SIZE % CHUNK_SIZE == 0 && m * CHUNK_SIZE / CHUNK_SIZE == m
  {
  }

  /** Block by block: what is on a device after mkfs is the pool's, the device's and the wanted
      chunks' blocks, as far as they lie below the first refused offset. */
  lemma ImageBelowIs(raw: nat, limit: Limit, k: nat)
    requires raw < MAX_SIZE && k >= 1
    ensures var image := ImageBelow(raw, limit);
            && (POOL_OFFSET in image <==> POOL_OFFSET < limit) && (POOL_OFFSET < limit ==> image[POOL_OFFSET] == POOL_BLOCK)
            && (DEV_OFFSET in image <==> DEV_OFFSET < limit) && (DEV_OFFSET < limit ==> image[DEV_OFFSET] == DevBlock(raw))
            && (Begin(k) in image <==> Begin(k) < limit && Wanted(raw, k))
            && (Begin(k) in image ==> Begin(k) < TOP && image[Begin(k)] == Header(raw, k))
  {
    var n := WrittenHeaders(raw, limit);
    FittingIff(limit, n);
    FittingIff(limit, k);
    if DEV_OFFSET < limit {
      ClearOf(raw, n, POOL_OFFSET);
      ClearOf(raw, n, DEV_OFFSET);
      if 1 <= k <= n {
        HeaderAt(raw, n, k);
      } else {
        HeaderBeyond(raw, n, k);
      }
    }
  }

  lemma ClearOf(raw: nat, n: nat, off: nat)
    requires (n == 0 || Begin(n) < TOP) && off < 40960
    ensures off !in Headers(raw, n)
  {
    if off in Headers(raw, n) {
      OnlyHeaders(raw, n, off);
    }
  }

  lemma HeaderBeyond(raw: nat, n: nat, k: nat)
    requires (n == 0 || Begin(n) < TOP) && k > n
    ensures Begin(k) !in Headers(raw, n)
  {
    if Begin(k) in Headers(raw, n) {
      OnlyHeaders(raw, n, Begin(k));
      WholeChunks(k - 1);
    }
  }
}

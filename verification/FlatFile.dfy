/** chunkfs_read and chunkfs_write (file.c:134-195) as operations on the disk, and the flat
    file they present. Calls carry their own offset, as pread and pwrite do. */
module FlatFile {
  import opened Outcomes
  import opened Continuations
  import opened Walks
  import opened Creation
  import opened Freshness
  import opened Parts

  function DataAt(d: Disk, p: Loc): seq<byte> {
    if p in d.inodes then d.inodes[p].data else []
  }

  function DataAlong(d: Disk, c: seq<Loc>): seq<seq<byte>> {
    seq(|c|, i requires 0 <= i < |c| => DataAt(d, c[i]))
  }

  /** The bytes of each element of the file, in order. */
  function PartsOf(d: Disk, h: Loc): seq<seq<byte>>
    requires Inv(d) && h in d.heads
  {
    DataAlong(d, Chain(d, h))
  }

  lemma DataAlongFrame(d: Disk, d': Disk, c: seq<Loc>)
    requires forall i :: 0 <= i < |c| ==> DataAt(d', c[i]) == DataAt(d, c[i])
    ensures DataAlong(d', c) == DataAlong(d, c)
  {
  }

  /** Putting data at `p`, which is the k-th element of `c` or (`own` is false) none of it. */
  lemma DataAlongPut(d: Disk, c: seq<Loc>, own: bool, k: nat, p: Loc, data: seq<byte>)
    requires p in d.inodes && (own ==> k < |c|)
    requires forall i :: 0 <= i < |c| ==> (c[i] == p <==> own && i == k)
    ensures DataAlong(PutData(d, p, data), c) == if own then DataAlong(d, c)[k := data] else DataAlong(d, c)
  {
  }

  lemma DataAlongAppend(d: Disk, c: seq<Loc>, p: Loc)
    ensures DataAlong(d, c + [p]) == DataAlong(d, c) + [DataAt(d, p)]
  {
  }

  /** What the user sees. */
  function Flat(d: Disk, h: Loc): seq<byte>
    requires Inv(d) && h in d.heads
  {
    Join(PartsOf(d, h))
  }

  ghost predicate AllPacked(d: Disk)
    requires Inv(d)
  {
    forall h :: h in d.heads ==> Packed(PartsOf(d, h))
  }

  /** The state of a pool in use: the structure holds, leftovers are blank, files packed. */
  ghost predicate Good(d: Disk) {
    Inv(d) && Clean(d) && AllPacked(d)
  }

  function TailOf(d: Disk, h: Loc): (t: Cont)
    requires Inv(d) && h in d.heads
    ensures IsTail(d, h, t)
  {
    HeadRecords(d, h);
    ChainShape(d, h);
    assert RecordIs(d, Chain(d, h), |Chain(d, h)| - 1);
    assert HeadOk(d, h);
    ContAt(d, Last(Chain(d, h)))
  }

  function PutData(d: Disk, p: Loc, data: seq<byte>): Disk {
    if p in d.inodes then d.(inodes := d.inodes[p := d.inodes[p].(data := data)]) else d
  }

  // ---- Creation in a write ----------------------------------------------------------------

  /** The client's answers to a write: the inode it allocates should one be needed, and how
      many bytes it takes. */
  datatype WriteAnswer = WriteAnswer(alloc: Option<nat>, taken: Result<nat>)

  /** What the open inside creation comes to: the inode number, or an error. */
  function OpenResult(d: Disk, t: Cont, alloc: Option<nat>): Result<nat> {
    if (t.at.chunk + 1, t.at.chunk) !in d.dirs then Err(ENOENT)
    else if NameOf(t.at) in d.names then Ok(d.names[NameOf(t.at)])
    else if alloc.Some? then Ok(alloc.value)
    else Err(ENOSPC)
  }

  /** The client keeps its side: a free inode. */
  predicate HonestAlloc(d: Disk, t: Cont, alloc: Option<nat>) {
    alloc.Some? && NameOf(t.at) !in d.names && (t.at.chunk + 1, t.at.chunk) in d.dirs ==>
      Allocatable(d, NewLoc(t, alloc.value))
  }

  /** ... and the inode it gives inherits no stale continuation. */
  ghost predicate FreshAlloc(d: Disk, t: Cont, alloc: Option<nat>) {
    alloc.Some? && NameOf(t.at) !in d.names && (t.at.chunk + 1, t.at.chunk) in d.dirs ==>
      NoStale(d, NewLoc(t, alloc.value))
  }

  /** The disk after a whole, uninterrupted creation. */
  function Created(d: Disk, t: Cont, ino: nat): Disk
    requires InRange(t.at) && InRange(NewLoc(t, ino)) && t.at in d.inodes
    requires NameOf(t.at) in d.names ==> NewLoc(t, ino) in d.inodes
  {
    StateAfter(d, t, ino, 9)
  }

  lemma OpenResultOpens(d: Disk, h: Loc, alloc: Option<nat>)
    requires Inv(d) && h in d.heads && HonestAlloc(d, TailOf(d, h), alloc)
    requires OpenResult(d, TailOf(d, h), alloc).Ok?
    ensures Opens(d, TailOf(d, h), OpenResult(d, TailOf(d, h), alloc).value)
    ensures CanExtend(d, TailOf(d, h), OpenResult(d, TailOf(d, h), alloc).value)
  {
    TailCanExtend(d, h, TailOf(d, h), OpenResult(d, TailOf(d, h), alloc).value);
  }

  /** The tail of an n-part file starts at n - 1 continuation lengths. */
  lemma TailRecord(d: Disk, h: Loc)
    requires Inv(d) && h in d.heads
    ensures |Chain(d, h)| < 16 && InRange(TailOf(d, h).at)
    ensures NewData(TailOf(d, h)).start == |Chain(d, h)| * CONT_LEN
  {
    HeadRecords(d, h);
    assert RecordIs(d, Chain(d, h), |Chain(d, h)| - 1);
    ChainShape(d, h);
  }

  /** Creation appends to the file's parts whatever the opened file held; the other files keep
      theirs. */
  lemma CreatedParts(d: Disk, h: Loc, t: Cont, ino: nat, g: Loc)
    requires Inv(d) && IsTail(d, h, t) && Opens(d, t, ino) && CanExtend(d, t, ino) && g in d.heads
    ensures Inv(Created(d, t, ino)) && g in Created(d, t, ino).heads
    ensures PartsOf(Created(d, t, ino), g)
         == if g == h then PartsOf(d, g) + [DataAt(d, NewLoc(t, ino))] else PartsOf(d, g)
  {
    CrashAtomic(d, h, t, ino, 9, g);
    CreatedData(d, t, ino);
    DataAlongFrame(d, Created(d, t, ino), Chain(d, g));
    DataAlongAppend(Created(d, t, ino), Chain(d, g), NewLoc(t, ino));
  }

  lemma CreatedData(d: Disk, t: Cont, ino: nat)
    requires CanExtend(d, t, ino)
    ensures NewLoc(t, ino) in Created(d, t, ino).inodes
    ensures forall p :: DataAt(Created(d, t, ino), p) == DataAt(d, p)
  {
    var d' := Created(d, t, ino);
    forall p: Loc
      ensures DataAt(d', p) == DataAt(d, p)
    {
      if p in d'.inodes {
        CreationKeepsBytes(d, t, ino, 9, p);
      }
    }
  }

  /** The flat file is unchanged by creation exactly when the file opened was empty: a stale
      continuation comes back as content. */
  lemma StaleContentIff(d: Disk, h: Loc, t: Cont, ino: nat)
    requires Inv(d) && IsTail(d, h, t) && Opens(d, t, ino)
    ensures CanExtend(d, t, ino) && Inv(Created(d, t, ino)) && h in Created(d, t, ino).heads
    ensures Flat(Created(d, t, ino), h) == Flat(d, h)
       <==> DataAt(d, NewLoc(t, ino)) == []
  {
    TailCanExtend(d, h, t, ino);
    CreatedParts(d, h, t, ino, h);
    var stale := DataAt(d, NewLoc(t, ino));
    JoinAppend(PartsOf(d, h), stale);
    assert |Join(PartsOf(d, h)) + stale| == |Join(PartsOf(d, h))| + |stale|;
    assert stale == [] ==> Join(PartsOf(d, h)) + stale == Join(PartsOf(d, h));
  }

  // ---- Putting bytes in place --------------------------------------------------------------

  lemma PutDataChain(d: Disk, p: Loc, data: seq<byte>, g: Loc)
    requires Inv(d) && g in d.heads
    ensures Inv(PutData(d, p, data)) && g in PutData(d, p, data).heads
    ensures Chain(PutData(d, p, data), g) == Chain(d, g)
  {
    PutDataInv(d, p, data);
    ChainShape(d, g);
    ChainFrame(d, PutData(d, p, data), g);
  }

  /** Writing one client inode of a file touches no structure and no other file. */
  lemma PutDataParts(d: Disk, h: Loc, k: nat, data: seq<byte>, g: Loc)
    requires Inv(d) && h in d.heads && g in d.heads && k < |Chain(d, h)|
    ensures var d' := PutData(d, Chain(d, h)[k], data);
            && Inv(d') && g in d'.heads
            && PartsOf(d', g) == if g == h then PartsOf(d, g)[k := data] else PartsOf(d, g)
  {
    PutDataChain(d, Chain(d, h)[k], data, g);
    ElementOnce(d, h, k, g);
    ChainShape(d, h);
    DataAlongPut(d, Chain(d, g), g == h, k, Chain(d, h)[k], data);
  }

  lemma ElementOnce(d: Disk, h: Loc, k: nat, g: Loc)
    requires Inv(d) && h in d.heads && g in d.heads && k < |Chain(d, h)|
    ensures forall i :: 0 <= i < |Chain(d, g)| ==> (Chain(d, g)[i] == Chain(d, h)[k] <==> g == h && i == k)
  {
    assert HeadOk(d, h) && HeadOk(d, g);
    forall i | 0 <= i < |Chain(d, g)|
      ensures Chain(d, g)[i] == Chain(d, h)[k] <==> g == h && i == k
    {
      if Chain(d, g)[i] == Chain(d, h)[k] {
        ChainsDisjoint(d, g, i, h, k);
      }
    }
  }

  lemma PutDataInv(d: Disk, p: Loc, data: seq<byte>)
    requires Inv(d)
    ensures Inv(PutData(d, p, data))
  {
    var d' := PutData(d, p, data);
    forall n | n in d'.names
      ensures NameOk(d', n)
    {
      assert NameOk(d, n);
    }
    assert forall n :: n in d'.names ==> Target(d', n) == Target(d, n);
    forall g | g in d'.heads
      ensures HeadOk(d', g)
    {
      assert HeadOk(d, g);
    }
    forall q | q in d'.inodes
      ensures LinkOk(d', q)
    {
      assert LinkOk(d, q);
    }
  }

  lemma PutDataClean(d: Disk, h: Loc, p: Loc, data: seq<byte>)
    requires Inv(d) && Clean(d) && h in d.heads && h in d.inodes && p in Chain(d, h)
    ensures Clean(PutData(d, p, data))
  {
    var d' := PutData(d, p, data);
    forall n | n in d'.names
      ensures CleanName(d', n)
    {
      assert CleanName(d, n);
      if Target(d, n) == p {
        TargetInChain(d, h, p, n);
      }
    }
  }

  lemma PartialData(d: Disk, t: Cont, ino: nat, j1: nat, j2: nat)
    requires CanExtend(d, t, ino)
    ensures NewLoc(t, ino) in Partial(d, t, ino, j1, j2).inodes
    ensures forall p :: DataAt(Partial(d, t, ino, j1, j2), p) == DataAt(d, p)
  {
  }

  /** The error of the attribute writes to the old tail is dropped, too. When the client refuses
      the very first of them, the new continuation is loaded and written to all the same, and
      the bytes are in no file; from the first one on they are the file's next part. */
  lemma UnlinkedWrite(d: Disk, h: Loc, t: Cont, ino: nat, j2: nat, o: nat, b: seq<byte>, g: Loc)
    requires Inv(d) && IsTail(d, h, t) && Opens(d, t, ino) && g in d.heads
    ensures CanExtend(d, t, ino)
    ensures var d' := SplicedAt(Partial(d, t, ino, 4, j2), NewLoc(t, ino), o, b);
            && Inv(d') && d'.heads == d.heads
            && PartsOf(d', g) == if g != h || j2 == 0 then PartsOf(d, g)
                                 else PartsOf(d, g) + [Splice(DataAt(d, NewLoc(t, ino)), o, b)]
  {
    TailCanExtend(d, h, t, ino);
    PartialInv(d, t, ino, 4, j2);
    UnlinkedChain(d, h, t, ino, j2, g);
    PartialData(d, t, ino, 4, j2);
    PutNewPart(d, Partial(d, t, ino, 4, j2), NewLoc(t, ino), Splice(DataAt(d, NewLoc(t, ino)), o, b), g, g == h && j2 > 0);
  }

  /** Putting data at an inode that is in no file, or is one's new last element. */
  lemma PutNewPart(d: Disk, d1: Disk, p: Loc, data: seq<byte>, g: Loc, linked: bool)
    requires Inv(d) && g in d.heads && Inv(d1) && g in d1.heads && p in d1.inodes && p !in Chain(d, g)
    requires forall q :: DataAt(d1, q) == DataAt(d, q)
    requires Chain(d1, g) == if linked then Chain(d, g) + [p] else Chain(d, g)
    ensures Inv(PutData(d1, p, data)) && g in PutData(d1, p, data).heads
    ensures PartsOf(PutData(d1, p, data), g) == if linked then PartsOf(d, g) + [data] else PartsOf(d, g)
  {
    PutDataChain(d1, p, data, g);
    DataAlongFrame(d, PutData(d1, p, data), Chain(d, g));
    DataAlongAppend(PutData(d1, p, data), Chain(d, g), p);
  }

  lemma UnlinkedChain(d: Disk, h: Loc, t: Cont, ino: nat, j2: nat, g: Loc)
    requires Inv(d) && IsTail(d, h, t) && CanExtend(d, t, ino) && g in d.heads && Inv(Partial(d, t, ino, 4, j2))
    ensures NewLoc(t, ino) !in Chain(d, g)
    ensures g in Partial(d, t, ino, 4, j2).inodes
    ensures Chain(Partial(d, t, ino, 4, j2), g)
         == if g != h || j2 == 0 then Chain(d, g) else Chain(d, g) + [NewLoc(t, ino)]
  {
    NewInNoChain(d, t, ino, g);
    if g == h && j2 > 0 {
      OwnChain(d, h, t, ino, j2);
    } else {
      if g != h {
        TailIsOwn(d, h, t, g);
      }
      OtherChains(d, t, ino, 4, j2, g);
    }
  }

  // ---- chunkfs_write ----------------------------------------------------------------------

  /** The disk a write leaves: the covering element takes the bytes; past the last element a
      continuation is created and takes them. */
  function WriteDisk(d: Disk, h: Loc, offset: nat, b: seq<byte>, alloc: Option<nat>): Disk
    requires Inv(d) && h in d.heads && HonestAlloc(d, TailOf(d, h), alloc)
  {
    var k := offset / CONT_LEN;
    PartStart(offset, |Chain(d, h)|);
    if k < |Chain(d, h)| then SplicedAt(d, Chain(d, h)[k], ClientPos(offset, k), b)
    else if OpenResult(d, TailOf(d, h), alloc).Err? then d
    else AppendedWith(d, h, ClientPos(offset, |Chain(d, h)|), b, alloc)
  }

  function SplicedAt(d: Disk, p: Loc, o: nat, b: seq<byte>): Disk {
    PutData(d, p, Splice(DataAt(d, p), o, b))
  }

  lemma WriteDiskPast(d: Disk, h: Loc, offset: nat, b: seq<byte>, alloc: Option<nat>)
    requires Inv(d) && h in d.heads && HonestAlloc(d, TailOf(d, h), alloc)
    requires offset / CONT_LEN >= |Chain(d, h)| && OpenResult(d, TailOf(d, h), alloc).Ok?
    ensures |Chain(d, h)| * CONT_LEN <= offset
    ensures WriteDisk(d, h, offset, b, alloc) == AppendedWith(d, h, ClientPos(offset, |Chain(d, h)|), b, alloc)
  {
    PartStart(offset, |Chain(d, h)|);
  }

  function AppendedWith(d: Disk, h: Loc, o: nat, b: seq<byte>, alloc: Option<nat>): Disk
    requires Inv(d) && h in d.heads && HonestAlloc(d, TailOf(d, h), alloc)
    requires OpenResult(d, TailOf(d, h), alloc).Ok?
  {
    OpenResultOpens(d, h, alloc);
    var t := TailOf(d, h);
    var ino := OpenResult(d, t, alloc).value;
    SplicedAt(Created(d, t, ino), NewLoc(t, ino), o, b)
  }

  /** Whether a write gets as far as the client's write: always inside the file, past it when
      the open succeeds. */
  predicate WriteReaches(d: Disk, h: Loc, offset: nat, alloc: Option<nat>)
    requires Inv(d) && h in d.heads
  {
    offset / CONT_LEN < |Chain(d, h)| || OpenResult(d, TailOf(d, h), alloc).Ok?
  }

  lemma WriteInsideFile(d: Disk, h: Loc, k: nat, o: nat, b: seq<byte>, g: Loc)
    requires Inv(d) && Clean(d) && h in d.heads && g in d.heads
    requires k < |Chain(d, h)|
    ensures var d' := SplicedAt(d, Chain(d, h)[k], o, b);
            && Inv(d') && Clean(d') && g in d'.heads
            && PartsOf(d', g) == if g == h then PartsOf(d, g)[k := Splice(PartsOf(d, g)[k], o, b)] else PartsOf(d, g)
  {
    var data := Splice(PartsOf(d, h)[k], o, b);
    PutDataParts(d, h, k, data, g);
    PutDataClean(d, h, Chain(d, h)[k], data);
  }

  /** After a clean creation the file has one more, empty part. */
  lemma AppendedPart(d: Disk, h: Loc, t: Cont, ino: nat, g: Loc)
    requires Inv(d) && Clean(d) && IsTail(d, h, t) && Opens(d, t, ino) && CanExtend(d, t, ino)
    requires FreshOpen(d, t, ino) && g in d.heads
    ensures var d1 := Created(d, t, ino);
            && Inv(d1) && Clean(d1) && g in d1.heads
            && PartsOf(d1, g) == (if g == h then PartsOf(d, g) + [[]] else PartsOf(d, g))
            && (g == h ==> Chain(d1, g) == Chain(d, g) + [NewLoc(t, ino)])
  {
    CreatedBlank(d, h, t, ino);
    CreatedParts(d, h, t, ino, g);
    CreationClean(d, h, t, ino, 9);
    CrashAtomic(d, h, t, ino, 9, g);
  }

  lemma WriteNewPart(d: Disk, d1: Disk, h: Loc, p: Loc, o: nat, b: seq<byte>, g: Loc)
    requires Inv(d) && h in d.heads && g in d.heads
    requires Inv(d1) && Clean(d1) && h in d1.heads && g in d1.heads
    requires Chain(d1, h) == Chain(d, h) + [p]
    requires PartsOf(d1, h) == PartsOf(d, h) + [[]]
    requires PartsOf(d1, g) == if g == h then PartsOf(d, g) + [[]] else PartsOf(d, g)
    ensures var d' := SplicedAt(d1, p, o, b);
            && Inv(d') && Clean(d') && g in d'.heads
            && PartsOf(d', g) == if g == h then PartsOf(d, g) + [Splice([], o, b)] else PartsOf(d, g)
  {
    var n := |Chain(d, h)|;
    WriteInsideFile(d1, h, n, o, b, g);
    assert Chain(d1, h)[n] == p;
    if g == h {
      assert PartsOf(d1, h)[n := Splice([], o, b)] == PartsOf(d, h) + [Splice([], o, b)];
    }
  }

  lemma WritePastFile(d: Disk, h: Loc, o: nat, b: seq<byte>, alloc: Option<nat>, g: Loc)
    requires Inv(d) && Clean(d) && h in d.heads && g in d.heads
    requires HonestAlloc(d, TailOf(d, h), alloc) && FreshAlloc(d, TailOf(d, h), alloc)
    requires OpenResult(d, TailOf(d, h), alloc).Ok?
    ensures var d' := AppendedWith(d, h, o, b, alloc);
            && Inv(d') && Clean(d') && g in d'.heads
            && PartsOf(d', g) == if g == h then PartsOf(d, g) + [Splice([], o, b)] else PartsOf(d, g)
  {
    OpenResultOpens(d, h, alloc);
    var t := TailOf(d, h);
    var ino := OpenResult(d, t, alloc).value;
    AppendedPart(d, h, t, ino, g);
    AppendedPart(d, h, t, ino, h);
    WriteNewPart(d, Created(d, t, ino), h, NewLoc(t, ino), o, b, g);
  }

  /** What a clean creation opens is empty. */
  lemma CreatedBlank(d: Disk, h: Loc, t: Cont, ino: nat)
    requires Inv(d) && Clean(d) && IsTail(d, h, t) && Opens(d, t, ino) && CanExtend(d, t, ino)
    ensures DataAt(d, NewLoc(t, ino)) == []
  {
    if NameOf(t.at) in d.names {
      assert CleanName(d, NameOf(t.at));
    }
  }

  lemma WriteDoesInside(d: Disk, h: Loc, offset: nat, b: seq<byte>, alloc: Option<nat>, g: Loc)
    requires Inv(d) && Clean(d) && h in d.heads && g in d.heads
    requires HonestAlloc(d, TailOf(d, h), alloc)
    requires offset / CONT_LEN < |Chain(d, h)|
    ensures var d' := WriteDisk(d, h, offset, b, alloc);
            && Inv(d') && Clean(d') && g in d'.heads
            && PartsOf(d', g) == if g == h then WriteParts(PartsOf(d, g), offset, b) else PartsOf(d, g)
  {
    var k := offset / CONT_LEN;
    PartStart(offset, 0);
    WriteInsideFile(d, h, k, ClientPos(offset, k), b, g);
  }

  lemma WriteDoesPast(d: Disk, h: Loc, offset: nat, b: seq<byte>, alloc: Option<nat>, g: Loc)
    requires Inv(d) && Clean(d) && h in d.heads && g in d.heads
    requires HonestAlloc(d, TailOf(d, h), alloc) && FreshAlloc(d, TailOf(d, h), alloc)
    requires offset / CONT_LEN >= |Chain(d, h)| && OpenResult(d, TailOf(d, h), alloc).Ok?
    ensures var d' := WriteDisk(d, h, offset, b, alloc);
            && Inv(d') && Clean(d') && g in d'.heads
            && PartsOf(d', g) == if g == h then WriteParts(PartsOf(d, g), offset, b) else PartsOf(d, g)
  {
    PartStart(offset, |Chain(d, h)|);
    WritePastFile(d, h, ClientPos(offset, |Chain(d, h)|), b, alloc, g);
  }

  /** A write changes the parts of its own file only, and those as `WriteParts` says. */
  lemma WriteDoes(d: Disk, h: Loc, offset: nat, b: seq<byte>, alloc: Option<nat>, g: Loc)
    requires Inv(d) && Clean(d) && h in d.heads && g in d.heads
    requires HonestAlloc(d, TailOf(d, h), alloc) && FreshAlloc(d, TailOf(d, h), alloc)
    requires WriteReaches(d, h, offset, alloc)
    ensures var d' := WriteDisk(d, h, offset, b, alloc);
            && Inv(d') && Clean(d') && g in d'.heads
            && PartsOf(d', g) == if g == h then WriteParts(PartsOf(d, g), offset, b) else PartsOf(d, g)
  {
    if offset / CONT_LEN < |Chain(d, h)| {
      WriteDoesInside(d, h, offset, b, alloc, g);
    } else {
      WriteDoesPast(d, h, offset, b, alloc, g);
    }
  }

  /** A write that creates a continuation. */
  predicate WriteAppends(d: Disk, h: Loc, offset: nat, alloc: Option<nat>)
    requires Inv(d) && h in d.heads
  {
    offset / CONT_LEN >= |Chain(d, h)| && OpenResult(d, TailOf(d, h), alloc).Ok?
  }

  /** The disk a write leaves when the client takes `room2` of the attribute writes to the old
      tail: one is enough. */
  function WriteLeaves(d: Disk, h: Loc, offset: nat, b: seq<byte>, alloc: Option<nat>, room2: nat): Disk
    requires Inv(d) && h in d.heads && HonestAlloc(d, TailOf(d, h), alloc)
  {
    if room2 == 0 && WriteAppends(d, h, offset, alloc) then
      PartStart(offset, |Chain(d, h)|);
      UnlinkedDisk(d, h, ClientPos(offset, |Chain(d, h)|), b, alloc)
    else WriteDisk(d, h, offset, b, alloc)
  }

  function UnlinkedDisk(d: Disk, h: Loc, o: nat, b: seq<byte>, alloc: Option<nat>): Disk
    requires Inv(d) && h in d.heads && HonestAlloc(d, TailOf(d, h), alloc)
    requires OpenResult(d, TailOf(d, h), alloc).Ok?
  {
    OpenResultOpens(d, h, alloc);
    var t := TailOf(d, h);
    var ino := OpenResult(d, t, alloc).value;
    SplicedAt(Partial(d, t, ino, 4, 0), NewLoc(t, ino), o, b)
  }

  /** The tail's other three attributes are written as they were. */
  lemma OneWriteLinks(d: Disk, t: Cont, ino: nat, j2: nat)
    requires CanExtend(d, t, ino) && j2 >= 1
    ensures Partial(d, t, ino, 4, j2) == Created(d, t, ino)
  {
    assert RecAfter(d.inodes[t.at].rec, TailData(t, NewLoc(t, ino)), j2)
        == RecAfter(d.inodes[t.at].rec, TailData(t, NewLoc(t, ino)), 4);
  }

  lemma WriteLeavesInv(d: Disk, h: Loc, offset: nat, b: seq<byte>, alloc: Option<nat>, room2: nat)
    requires Inv(d) && h in d.heads && HonestAlloc(d, TailOf(d, h), alloc)
    ensures Inv(WriteLeaves(d, h, offset, b, alloc, room2)) && h in WriteLeaves(d, h, offset, b, alloc, room2).heads
  {
    WriteInv(d, h, offset, b, alloc);
    if room2 == 0 && WriteAppends(d, h, offset, alloc) {
      PartStart(offset, |Chain(d, h)|);
      OpenResultOpens(d, h, alloc);
      var t, o := TailOf(d, h), ClientPos(offset, |Chain(d, h)|);
      UnlinkedWrite(d, h, t, OpenResult(d, t, alloc).value, 0, o, b, h);
    }
  }

  /** When none is taken, every file is as before, whatever the write has returned. */
  lemma WriteLost(d: Disk, h: Loc, offset: nat, b: seq<byte>, alloc: Option<nat>, g: Loc)
    requires Inv(d) && h in d.heads && HonestAlloc(d, TailOf(d, h), alloc) && WriteAppends(d, h, offset, alloc)
    requires g in d.heads
    ensures var d' := WriteLeaves(d, h, offset, b, alloc, 0);
            Inv(d') && d'.heads == d.heads && PartsOf(d', g) == PartsOf(d, g)
  {
    PartStart(offset, |Chain(d, h)|);
    OpenResultOpens(d, h, alloc);
    var t, o := TailOf(d, h), ClientPos(offset, |Chain(d, h)|);
    UnlinkedWrite(d, h, t, OpenResult(d, t, alloc).value, 0, o, b, g);
  }

  /** A write that does not reach the client's write changes nothing. */
  lemma WriteRefused(d: Disk, h: Loc, offset: nat, b: seq<byte>, alloc: Option<nat>)
    requires Inv(d) && h in d.heads && HonestAlloc(d, TailOf(d, h), alloc)
    requires !WriteReaches(d, h, offset, alloc)
    ensures WriteDisk(d, h, offset, b, alloc) == d
  {
  }

  /** What callers of size and read see of file `h` is the flat file `s`. */
  ghost predicate Presents(d: Disk, h: Loc, s: seq<byte>)
    requires Inv(d) && h in d.heads
  {
    Observed(PartsOf(d, h), s)
  }

  /** On a pool in use, a write of at least one byte leaves the size and every read as POSIX asks
      exactly when it is in scope: not beyond the piece the end of file falls into, and not
      across the end of the piece it begins in. */
  lemma WriteRefinesIff(d: Disk, h: Loc, offset: nat, b: seq<byte>, alloc: Option<nat>)
    requires Good(d) && h in d.heads && b != []
    requires HonestAlloc(d, TailOf(d, h), alloc) && FreshAlloc(d, TailOf(d, h), alloc)
    requires WriteReaches(d, h, offset, alloc)
    ensures Presents(d, h, Flat(d, h))
    ensures var d' := WriteDisk(d, h, offset, b, alloc);
            && Inv(d') && h in d'.heads
            && (Presents(d', h, Splice(Flat(d, h), offset, b)) <==> InScope(offset, |b|, |Flat(d, h)|))
  {
    PackedObserved(PartsOf(d, h));
    WriteDoes(d, h, offset, b, alloc, h);
    WriteIff(PartsOf(d, h), offset, b);
  }

  /** A write keeps the structure whatever it meets. */
  lemma WriteInv(d: Disk, h: Loc, offset: nat, b: seq<byte>, alloc: Option<nat>)
    requires Inv(d) && h in d.heads && HonestAlloc(d, TailOf(d, h), alloc)
    ensures Inv(WriteDisk(d, h, offset, b, alloc)) && h in WriteDisk(d, h, offset, b, alloc).heads
  {
    PartStart(offset, |Chain(d, h)|);
    var k := offset / CONT_LEN;
    if k < |Chain(d, h)| {
      PutDataInv(d, Chain(d, h)[k], Splice(DataAt(d, Chain(d, h)[k]), ClientPos(offset, k), b));
    } else if OpenResult(d, TailOf(d, h), alloc).Ok? {
      OpenResultOpens(d, h, alloc);
      var t, ino := TailOf(d, h), OpenResult(d, TailOf(d, h), alloc).value;
      CrashAtomic(d, h, t, ino, 9, h);
      var d1, p := Created(d, t, ino), NewLoc(t, ino);
      PutDataInv(d1, p, Splice(DataAt(d1, p), ClientPos(offset, |Chain(d, h)|), b));
    }
  }

  /** The summed size is where the last element starts plus what it holds. */
  lemma SizeIsLastEnd(d: Disk, h: Loc)
    requires Inv(d) && h in d.heads && Packed(PartsOf(d, h))
    ensures var t := TailOf(d, h);
            TotalSize(PartsOf(d, h)) == |Flat(d, h)| == t.cd.start + |DataAt(d, t.at)|
  {
    HeadRecords(d, h);
    assert RecordIs(d, Chain(d, h), |Chain(d, h)| - 1);
    PackedLength(PartsOf(d, h));
    TotalIsLength(PartsOf(d, h));
  }

  // ---- chunkfs_lookup ---------------------------------------------------------------------

  /** Looking a file up writes the record of a new file over the one its inode has, and makes
      it a user's file (namei.c:288-296). */
  function AfterLookup(d: Disk, h: Loc): Disk
    requires h in d.inodes
  {
    SetRec(d, h, FIRST_REC).(heads := d.heads + {h})
  }

  lemma LookupIsCut(d: Disk, h: Loc)
    requires Inv(d) && h in d.heads
    ensures h in d.inodes && AfterLookup(d, h) == CutAt(d, h)
  {
    assert HeadOk(d, h);
    assert d.heads + {h} == d.heads;
    assert d.inodes[h].rec.(next := Some(0)) == FIRST_REC;
  }

  lemma LookupChain(d: Disk, h: Loc)
    requires Inv(d) && h in d.heads
    ensures Inv(AfterLookup(d, h)) && h in AfterLookup(d, h).heads && h in d.inodes
    ensures Chain(AfterLookup(d, h), h) == [h]
    ensures |Chain(d, h)| >= 1 && Chain(d, h)[0] == h
  {
    ChainShape(d, h);
    LookupIsCut(d, h);
    CutChain(d, h, 0);
    assert Chain(d, h)[..1] == [h];
  }

  /** So lookup keeps a file exactly when it has one part; of a longer one only the first part
      is left. */
  lemma LookupKeepsIff(d: Disk, h: Loc)
    requires Inv(d) && h in d.heads
    ensures Inv(AfterLookup(d, h)) && h in AfterLookup(d, h).heads
    ensures Chain(AfterLookup(d, h), h) == [h]
    ensures PartsOf(AfterLookup(d, h), h) == [DataAt(d, h)] == PartsOf(d, h)[..1]
    ensures PartsOf(AfterLookup(d, h), h) == PartsOf(d, h) <==> |Chain(d, h)| == 1
  {
    LookupChain(d, h);
    OnlyFirst(d, AfterLookup(d, h), Chain(d, h), h);
  }

  lemma OnlyFirst(d: Disk, d': Disk, c: seq<Loc>, h: Loc)
    requires |c| >= 1 && c[0] == h && DataAt(d', h) == DataAt(d, h)
    ensures DataAlong(d', [h]) == [DataAt(d, h)] == DataAlong(d, c)[..1]
    ensures DataAlong(d', [h]) == DataAlong(d, c) <==> |c| == 1
  {
    assert |DataAlong(d, c)| == |c|;
  }
}

/** Whole runs of a pool: files are created, written, read and unlinked, creations are cut off
    by crashes, the repair script passes. Over every such run each file behaves as one flat
    byte sequence. */
module Runs {
  import opened Outcomes
  import opened Continuations
  import opened Walks
  import opened Creation
  import opened Freshness
  import opened Parts
  import opened FlatFile
  import opened Repair
  import opened Race

  // ---- Reading ------------------------------------------------------------------------------

  /** The bytes the client can deliver to a read at `offset`. */
  function Available(d: Disk, h: Loc, offset: nat): seq<byte>
    requires Inv(d) && h in d.heads
  {
    AvailableIn(PartsOf(d, h), offset)
  }

  /** The client's side of a read: never more than asked for or there, never nothing while
      there is something, and -ENODATA only at its end. */
  predicate HonestRead(avail: seq<byte>, len: nat, got: Result<nat>) {
    match got
    case Ok(m) => m <= len && m <= |avail| && (len > 0 && |avail| > 0 ==> m > 0)
    case Err(e) => e == ENODATA ==> avail == []
  }

  /** chunkfs_read: nothing past the last continuation; -ENODATA is the end of the file. */
  function ReadResult(d: Disk, h: Loc, offset: nat, got: Result<nat>): Result<seq<byte>>
    requires Inv(d) && h in d.heads
    requires got.Ok? ==> got.value <= |Available(d, h, offset)|
  {
    if offset / CONT_LEN >= |Chain(d, h)| then Ok([])
    else match got
      case Ok(m) => Ok(Available(d, h, offset)[..m])
      case Err(e) => if e == ENODATA then Ok([]) else Err(e)
  }

  /** A position in a part the file certainly has: the first, or one the content reaches into. */
  predicate InFile(s: seq<byte>, offset: nat) {
    offset < CONT_LEN || offset / CONT_LEN * CONT_LEN < |s|
  }

  /** A read in terms of the flat file: the client's bytes are those of the file; its -ENODATA is
      the end of it; any other error of its is passed on where the file has a part. There it
      delivers something as long as there is something and something was asked for. */
  lemma ReadIsExact(d: Disk, h: Loc, offset: nat, len: nat, got: Result<nat>)
    requires Good(d) && h in d.heads && HonestRead(Available(d, h, offset), len, got)
    ensures offset / CONT_LEN >= |Chain(d, h)| ==> offset >= |Flat(d, h)| && ReadResult(d, h, offset, got) == Ok([])
    ensures got.Ok? && offset < |Flat(d, h)| ==>
              && offset + got.value <= |Flat(d, h)|
              && ReadResult(d, h, offset, got) == Ok(Flat(d, h)[offset..offset + got.value])
              && got.value <= len && (len > 0 ==> got.value > 0)
    ensures got.Ok? && offset >= |Flat(d, h)| ==> ReadResult(d, h, offset, got) == Ok([])
    ensures got == Err(ENODATA) ==> offset >= |Flat(d, h)| && ReadResult(d, h, offset, got) == Ok([])
    ensures got.Err? && got.error != ENODATA && offset / CONT_LEN < |Chain(d, h)| ==>
              ReadResult(d, h, offset, got) == Err(got.error)
  {
    var parts := PartsOf(d, h);
    AvailableIsFlat(parts, offset);
    assert offset / CONT_LEN >= |parts| ==> AvailableIn(parts, offset) == [];
    assert ReadsAs(AvailableIn(parts, offset), Flat(d, h), offset);
    if got.Ok? && offset < |Flat(d, h)| {
      assert AvailableIn(parts, offset)[..got.value] == Flat(d, h)[offset..offset + got.value];
    }
  }

  /** So every read returns a prefix of the flat content at its offset, not empty while there is
      any, nothing at or past the end, and an error exactly when the client had one. */
  lemma ReadRefines(d: Disk, h: Loc, offset: nat, len: nat, got: Result<nat>)
    requires Good(d) && h in d.heads && HonestRead(Available(d, h, offset), len, got)
    ensures ReadAnswers(Flat(d, h), offset, len, got, ReadResult(d, h, offset, got))
  {
    ReadIsExact(d, h, offset, len, got);
    InFileHasPart(d, h, offset);
  }

  lemma InFileHasPart(d: Disk, h: Loc, offset: nat)
    requires Good(d) && h in d.heads
    ensures InFile(Flat(d, h), offset) ==> offset / CONT_LEN < |Chain(d, h)|
  {
    ChainShape(d, h);
    assert Packed(PartsOf(d, h));
    PackedLength(PartsOf(d, h));
  }

  /** What a flat file answers to a read, given the client's part in it. */
  predicate ReadAnswers(s: seq<byte>, offset: nat, len: nat, got: Result<nat>, r: Result<seq<byte>>) {
    match got
    case Ok(m) =>
      if offset < |s| then offset + m <= |s| && r == Ok(s[offset..offset + m]) && m <= len && (len > 0 ==> m > 0)
      else r == Ok([])
    case Err(e) =>
      if e == ENODATA then offset >= |s| && r == Ok([])
      else r == Err(e) || (!InFile(s, offset) && r == Ok([]))
  }

  // ---- Operations --------------------------------------------------------------------------

  datatype Op =
    | Create(file: Loc)
    | Write(file: Loc, offset: nat, bytes: seq<byte>, answer: WriteAnswer)
    | Read(file: Loc, offset: nat, len: nat, got: Result<nat>)
    | CrashedWrite(file: Loc, offset: nat, alloc: Option<nat>, steps: nat)
    | Unlink(file: Loc, lastName: bool)
    | RepairPass
    | InterruptedRepair(gone: set<Name>)

  datatype Answer = Done | Count(n: nat) | Bytes(bs: seq<byte>) | Failed(e: Errno)

  /** The bytes the client accepted, none if it failed. */
  function Taken(bytes: seq<byte>, taken: Result<nat>): seq<byte>
    requires taken.Ok? ==> taken.value <= |bytes|
  {
    match taken
    case Ok(m) => bytes[..m]
    case Err(_) => []
  }

  /** What each operation may assume of its caller and of the client: files that exist, an
      honest client, writes in scope. */
  ghost predicate Proper(d: Disk, op: Op)
    requires Inv(d)
  {
    match op
    case Create(p) => Allocatable(d, p)
    case Write(h, offset, bytes, answer) =>
      && h in d.heads
      && (answer.taken.Ok? ==> answer.taken.value <= |bytes|)
      && HonestAlloc(d, TailOf(d, h), answer.alloc)
      && InScope(offset, |Taken(bytes, answer.taken)|, |Flat(d, h)|)
    case Read(h, offset, len, got) => h in d.heads && HonestRead(Available(d, h, offset), len, got)
    case CrashedWrite(h, offset, alloc, steps) =>
      && h in d.heads && steps <= 9
      && HonestAlloc(d, TailOf(d, h), alloc)
      && InScope(offset, 0, |Flat(d, h)|) && offset / CONT_LEN >= |Chain(d, h)|
    case Unlink(h, _) => h in d.heads
    case RepairPass => true
    case InterruptedRepair(gone) => gone <= Dead(d) && Cascades(d, gone)
  }

  /** No inode is handed out that would inherit a stale continuation. */
  ghost predicate Fresh(d: Disk, op: Op)
    requires Inv(d) && Proper(d, op)
  {
    match op
    case Create(p) => NoStale(d, p)
    case Write(h, _, _, answer) => FreshAlloc(d, TailOf(d, h), answer.alloc)
    case CrashedWrite(h, _, alloc, _) => FreshAlloc(d, TailOf(d, h), alloc)
    case _ => true
  }

  ghost predicate Allowed(d: Disk, op: Op)
    requires Inv(d)
  {
    Proper(d, op) && Fresh(d, op)
  }

  /** chunkfs_create with chunkfs_init_cont_data (cont.c:440-452): an empty file of one part. */
  function WithNewFile(d: Disk, p: Loc): Disk {
    d.(heads := d.heads + {p}, inodes := d.inodes[p := Inode(FIRST_REC, [])])
  }

  /** chunkfs_create given up when the client refuses the attribute writes after `room` of them
      (namei.c:210-212): the client inode stays, but no user's file is made of it. */
  function HalfNewFile(d: Disk, p: Loc, room: nat): Disk {
    d.(inodes := d.inodes[p := Inode(RecAfter(NO_REC, FIRST_DATA, room), [])])
  }

  /** When the last name of a file goes, chunkfs_unlink takes away the head and nothing else. */
  function WithoutHead(d: Disk, h: Loc): Disk {
    d.(heads := d.heads - {h}, inodes := d.inodes - {h})
  }

  function CrashedDisk(d: Disk, h: Loc, alloc: Option<nat>, steps: nat): Disk
    requires Inv(d) && h in d.heads && HonestAlloc(d, TailOf(d, h), alloc)
  {
    var t := TailOf(d, h);
    match OpenResult(d, t, alloc)
    case Err(_) => d
    case Ok(ino) => OpenResultOpens(d, h, alloc); StateAfter(d, t, ino, steps)
  }

  ghost function After(d: Disk, op: Op): Disk
    requires Inv(d) && Allowed(d, op)
  {
    match op
    case Create(p) => WithNewFile(d, p)
    case Write(h, offset, bytes, answer) => WriteDisk(d, h, offset, Taken(bytes, answer.taken), answer.alloc)
    case Read(_, _, _, _) => d
    case CrashedWrite(h, _, alloc, steps) => CrashedDisk(d, h, alloc, steps)
    case Unlink(h, lastName) => if lastName then WithoutHead(d, h) else d
    case RepairPass => Repaired(d)
    case InterruptedRepair(gone) => Without(d, gone)
  }

  ghost function AnswerOf(d: Disk, op: Op): Answer
    requires Inv(d) && Allowed(d, op)
  {
    match op
    case Write(h, offset, bytes, answer) =>
      if !WriteReaches(d, h, offset, answer.alloc) then Failed(OpenResult(d, TailOf(d, h), answer.alloc).error)
      else (match answer.taken
            case Ok(m) => Count(m)
            case Err(e) => Failed(e))
    case Read(h, offset, _, got) =>
      (match ReadResult(d, h, offset, got)
       case Ok(bs) => Bytes(bs)
       case Err(e) => Failed(e))
    case _ => Done
  }

  // ---- The flat specification ------------------------------------------------------------------

  type Files = map<Loc, seq<byte>>

  ghost function View(d: Disk): Files
    requires Inv(d)
  {
    map h | h in d.heads :: Flat(d, h)
  }

  /** How a set of flat files answers and changes. */
  ghost predicate FlatStep(f: Files, op: Op, a: Answer, f': Files) {
    match op
    case Create(p) => p !in f && f' == f[p := []] && a == Done
    case Write(h, offset, bytes, answer) =>
      && h in f && WriteAnswers(f[h], offset, answer.taken, a)
      && if a.Count? then a.n <= |bytes| && f' == f[h := Splice(f[h], offset, bytes[..a.n])]
         else f' == f
    case Read(h, offset, len, got) =>
      && h in f && f' == f
      && (match a
          case Bytes(bs) => ReadAnswers(f[h], offset, len, got, Ok(bs))
          case Failed(e) => ReadAnswers(f[h], offset, len, got, Err(e))
          case _ => false)
    case CrashedWrite(_, _, _, _) => f' == f && a == Done
    case Unlink(h, lastName) => h in f && f' == (if lastName then f - {h} else f) && a == Done
    case RepairPass => f' == f && a == Done
    case InterruptedRepair(_) => f' == f && a == Done
  }

  /** What the client made of the bytes. */
  function ClientSaid(taken: Result<nat>): Answer {
    match taken
    case Ok(m) => Count(m)
    case Err(e) => Failed(e)
  }

  /** What a flat file answers to a write: where the file has a part, what the client said; else
      that, or that there is no room to grow. */
  predicate WriteAnswers(s: seq<byte>, offset: nat, taken: Result<nat>, a: Answer) {
    a == ClientSaid(taken) || (!InFile(s, offset) && (a == Failed(ENOENT) || a == Failed(ENOSPC)))
  }

  // ---- Every operation keeps the pool good and follows the flat specification ------------------

  /** The same files with the same parts, one file apart. */
  ghost predicate SameOthers(d: Disk, d': Disk, h: Loc)
    requires Inv(d) && Inv(d')
  {
    forall g :: g in d.heads && g != h ==> g in d'.heads && PartsOf(d', g) == PartsOf(d, g)
  }

  lemma OtherKept(d: Disk, d': Disk, h: Loc, g: Loc)
    requires Inv(d) && Inv(d') && AllPacked(d) && SameOthers(d, d', h) && g in d.heads && g != h
    ensures g in d'.heads && Packed(PartsOf(d', g)) && Flat(d', g) == Flat(d, g)
  {
    assert Packed(PartsOf(d, g));
  }

  lemma ViewUpdated(d: Disk, d': Disk, h: Loc)
    requires Inv(d) && Inv(d') && AllPacked(d)
    requires SameOthers(d, d', h) && h in d'.heads && d'.heads == d.heads + {h} && Packed(PartsOf(d', h))
    ensures AllPacked(d') && View(d') == View(d)[h := Flat(d', h)]
  {
    forall g | g in d'.heads
      ensures Packed(PartsOf(d', g)) && (g != h ==> g in d.heads && Flat(d', g) == Flat(d, g))
    {
      if g != h {
        OtherKept(d, d', h, g);
      }
    }
    OneUpdated(View(d), View(d'), h);
  }

  lemma OneUpdated(f: Files, f': Files, h: Loc)
    requires f'.Keys == f.Keys + {h} && forall g :: g in f && g != h ==> f'[g] == f[g]
    ensures f' == f[h := f'[h]]
  {
  }

  lemma ViewWithout(d: Disk, d': Disk, h: Loc)
    requires Inv(d) && Inv(d') && AllPacked(d)
    requires SameOthers(d, d', h) && d'.heads == d.heads - {h}
    ensures AllPacked(d') && View(d') == View(d) - {h}
  {
    forall g | g in d'.heads
      ensures Packed(PartsOf(d', g)) && g in d.heads && Flat(d', g) == Flat(d, g)
    {
      OtherKept(d, d', h, g);
    }
    OneGone(View(d), View(d'), h);
  }

  lemma OneGone(f: Files, f': Files, h: Loc)
    requires f'.Keys == f.Keys - {h} && forall g :: g in f && g != h ==> f'[g] == f[g]
    ensures f' == f - {h}
  {
  }

  lemma SameFiles(d: Disk, d': Disk)
    requires Inv(d) && Inv(d') && AllPacked(d) && d'.heads == d.heads
    requires forall g :: g in d.heads ==> Packed(PartsOf(d', g)) && Flat(d', g) == Flat(d, g)
    ensures AllPacked(d') && View(d') == View(d)
  {
  }

  lemma CreateStep(d: Disk, p: Loc)
    requires Good(d) && Allocatable(d, p) && NoStale(d, p)
    ensures Good(WithNewFile(d, p))
    ensures p !in View(d) && View(WithNewFile(d, p)) == View(d)[p := []]
  {
    var d' := WithNewFile(d, p);
    NewFileInv(d, p);
    NewFileClean(d, p);
    NewFileParts(d, p);
    OneEmptyPart(PartsOf(d', p));
    ViewUpdated(d, d', p);
  }

  lemma OneEmptyPart(parts: seq<seq<byte>>)
    requires parts == [[]]
    ensures Join(parts) == [] && Packed(parts)
  {
    assert parts[1..] == [];
    assert Join(parts[1..]) == [];
  }

  lemma NewFileParts(d: Disk, p: Loc)
    requires Inv(d) && Allocatable(d, p) && Inv(WithNewFile(d, p))
    ensures PartsOf(WithNewFile(d, p), p) == [[]]
    ensures SameOthers(d, WithNewFile(d, p), p)
  {
    var d' := WithNewFile(d, p);
    ChainIs(d', p, [p]);
    forall g | g in d.heads
      ensures PartsOf(d', g) == PartsOf(d, g)
    {
      ChainShape(d, g);
      ChainFrame(d, d', g);
      DataAlongFrame(d, d', Chain(d, g));
    }
  }

  lemma NewFileInv(d: Disk, p: Loc)
    requires Inv(d) && Allocatable(d, p)
    ensures Inv(WithNewFile(d, p))
  {
    var d' := WithNewFile(d, p);
    forall n | n in d'.names
      ensures NameOk(d', n)
    {
      assert NameOk(d, n);
    }
    assert forall n :: n in d.names ==> Target(d', n) == Target(d, n);
    forall h | h in d'.heads
      ensures HeadOk(d', h)
    {
      assert h != p ==> HeadOk(d, h);
    }
    forall q | q in d'.inodes
      ensures LinkOk(d', q)
    {
      assert q != p ==> LinkOk(d, q);
    }
  }

  lemma NewFileClean(d: Disk, p: Loc)
    requires Inv(d) && Clean(d) && Allocatable(d, p) && NoStale(d, p)
    ensures Clean(WithNewFile(d, p))
  {
    var d' := WithNewFile(d, p);
    forall n | n in d'.names
      ensures CleanName(d', n)
    {
      assert NameOk(d, n) && CleanName(d, n);
    }
  }

  /** A file given up half-way harms no other, and the next lookup of its name makes it a new
      file, as if nothing had happened. */
  lemma HalfNewFileIsCompleted(d: Disk, p: Loc, room: nat)
    requires Good(d) && Allocatable(d, p) && NoStale(d, p)
    ensures var d' := HalfNewFile(d, p, room);
            Good(d') && View(d') == View(d) && AfterLookup(d', p) == WithNewFile(d, p)
  {
    var d', d1 := HalfNewFile(d, p, room), WithNewFile(d, p);
    HalfNewInv(d, p, room);
    HalfNewClean(d, p, room);
    NewFileInv(d, p);
    NewFileParts(d, p);
    forall g | g in d.heads
      ensures Packed(PartsOf(d', g)) && Flat(d', g) == Flat(d, g)
    {
      HalfNewParts(d, p, room, g);
      assert Packed(PartsOf(d, g));
    }
    SameFiles(d, d');
    assert AfterLookup(d', p).inodes == d1.inodes;
  }

  /** What is on disk then: an inode that is no file, without bytes, with the first attributes only. */
  lemma HalfNewOnDisk(d: Disk, p: Loc, room: nat)
    ensures var d' := HalfNewFile(d, p, room);
            && p in d'.inodes && d'.inodes[p].data == [] && d'.heads == d.heads
            && d'.inodes[p].rec.next == (if room >= 1 then Some(0) else None)
            && d'.inodes[p].rec.prev == (if room >= 2 then Some(0) else None)
            && d'.inodes[p].rec.start == (if room >= 3 then Some(0) else None)
            && d'.inodes[p].rec.len == (if room >= 4 then Some(CONT_LEN) else None)
            && (forall q :: q in d'.inodes && q != p ==> q in d.inodes && d'.inodes[q] == d.inodes[q])
            && d.inodes.Keys <= d'.inodes.Keys && d'.names == d.names && d'.dirs == d.dirs && d'.chunks == d.chunks
  {
  }

  lemma HalfNewParts(d: Disk, p: Loc, room: nat, g: Loc)
    requires Inv(d) && Allocatable(d, p) && Inv(HalfNewFile(d, p, room)) && g in d.heads
    ensures PartsOf(HalfNewFile(d, p, room), g) == PartsOf(d, g)
  {
    ChainShape(d, g);
    ChainFrame(d, HalfNewFile(d, p, room), g);
    DataAlongFrame(d, HalfNewFile(d, p, room), Chain(d, g));
  }

  lemma HalfNewInv(d: Disk, p: Loc, room: nat)
    requires Inv(d) && Allocatable(d, p)
    ensures Inv(HalfNewFile(d, p, room))
  {
    var d' := HalfNewFile(d, p, room);
    forall n | n in d'.names
      ensures NameOk(d', n)
    {
      assert NameOk(d, n);
    }
    assert forall n :: n in d.names ==> Target(d', n) == Target(d, n);
    forall h | h in d'.heads
      ensures HeadOk(d', h)
    {
      assert HeadOk(d, h);
    }
    forall q | q in d'.inodes
      ensures LinkOk(d', q)
    {
      assert q != p ==> LinkOk(d, q);
    }
  }

  lemma HalfNewClean(d: Disk, p: Loc, room: nat)
    requires Inv(d) && Clean(d) && Allocatable(d, p) && NoStale(d, p)
    ensures Clean(HalfNewFile(d, p, room))
  {
    var d' := HalfNewFile(d, p, room);
    forall n | n in d'.names
      ensures CleanName(d', n)
    {
      assert NameOk(d, n) && CleanName(d, n);
    }
  }

  lemma UnlinkStep(d: Disk, h: Loc)
    requires Good(d) && h in d.heads
    ensures Good(WithoutHead(d, h))
    ensures View(WithoutHead(d, h)) == View(d) - {h}
  {
    var d' := WithoutHead(d, h);
    UnlinkInv(d, h);
    forall n | n in d'.names
      ensures CleanName(d', n)
    {
      assert NameOk(d, n) && CleanName(d, n);
    }
    forall g | g in d.heads && g != h
      ensures g in d'.heads && PartsOf(d', g) == PartsOf(d, g)
    {
      UnlinkParts(d, h, g);
    }
    ViewWithout(d, d', h);
  }

  lemma UnlinkParts(d: Disk, h: Loc, g: Loc)
    requires Inv(d) && h in d.heads && g in d.heads && g != h && Inv(WithoutHead(d, h))
    ensures PartsOf(WithoutHead(d, h), g) == PartsOf(d, g)
  {
    var d' := WithoutHead(d, h);
    ChainShape(d, g);
    ChainShape(d, h);
    ElementOnce(d, h, 0, g);
    ChainFrame(d, d', g);
    DataAlongFrame(d, d', Chain(d, g));
  }

  lemma UnlinkInv(d: Disk, h: Loc)
    requires Inv(d) && h in d.heads
    ensures Inv(WithoutHead(d, h))
  {
    var d' := WithoutHead(d, h);
    forall n | n in d'.names
      ensures NameOk(d', n)
    {
      assert NameOk(d, n);
    }
    assert forall n :: n in d.names ==> Target(d', n) == Target(d, n);
    forall g | g in d'.heads
      ensures HeadOk(d', g)
    {
      assert HeadOk(d, g);
    }
    forall p | p in d'.inodes
      ensures LinkOk(d', p)
    {
      assert LinkOk(d, p);
      if Linked(d, p) {
        assert NameOk(d, NameOf(p));
      }
    }
  }

  lemma WriteStep(d: Disk, h: Loc, offset: nat, b: seq<byte>, alloc: Option<nat>)
    requires Good(d) && h in d.heads
    requires HonestAlloc(d, TailOf(d, h), alloc) && FreshAlloc(d, TailOf(d, h), alloc)
    requires InScope(offset, |b|, |Flat(d, h)|) && WriteReaches(d, h, offset, alloc)
    ensures var d' := WriteDisk(d, h, offset, b, alloc);
            Good(d') && View(d') == View(d)[h := Splice(View(d)[h], offset, b)]
  {
    var d' := WriteDisk(d, h, offset, b, alloc);
    WriteDoes(d, h, offset, b, alloc, h);
    forall g | g in d.heads && g != h
      ensures g in d'.heads && PartsOf(d', g) == PartsOf(d, g)
    {
      WriteDoes(d, h, offset, b, alloc, g);
    }
    WriteKeepsHeads(d, h, offset, b, alloc);
    ScopedWrite(PartsOf(d, h), offset, b);
    ViewUpdated(d, d', h);
  }

  lemma WriteKeepsHeads(d: Disk, h: Loc, offset: nat, b: seq<byte>, alloc: Option<nat>)
    requires Inv(d) && h in d.heads && HonestAlloc(d, TailOf(d, h), alloc)
    ensures WriteDisk(d, h, offset, b, alloc).heads == d.heads
  {
  }

  lemma CrashStep(d: Disk, h: Loc, offset: nat, alloc: Option<nat>, steps: nat)
    requires Good(d) && Allowed(d, CrashedWrite(h, offset, alloc, steps))
    ensures Good(CrashedDisk(d, h, alloc, steps)) && View(CrashedDisk(d, h, alloc, steps)) == View(d)
  {
    var t := TailOf(d, h);
    if OpenResult(d, t, alloc).Ok? {
      OpenResultOpens(d, h, alloc);
      CrashedCreation(d, h, t, OpenResult(d, t, alloc).value, steps, offset);
    }
  }

  lemma CrashedCreation(d: Disk, h: Loc, t: Cont, ino: nat, steps: nat, offset: nat)
    requires Good(d) && IsTail(d, h, t) && Opens(d, t, ino) && CanExtend(d, t, ino) && steps <= 9
    requires FreshOpen(d, t, ino)
    requires InScope(offset, 0, |Flat(d, h)|) && offset / CONT_LEN >= |Chain(d, h)|
    ensures Good(StateAfter(d, t, ino, steps)) && View(StateAfter(d, t, ino, steps)) == View(d)
  {
    var d' := StateAfter(d, t, ino, steps);
    CrashAtomic(d, h, t, ino, steps, h);
    CreationClean(d, h, t, ino, steps);
    forall g | g in d.heads
      ensures Packed(PartsOf(d', g)) && Flat(d', g) == Flat(d, g)
    {
      CrashedParts(d, h, t, ino, steps, offset, g);
    }
    SameFiles(d, d');
  }

  lemma CrashedData(d: Disk, t: Cont, ino: nat, steps: nat)
    requires CanExtend(d, t, ino)
    ensures forall p :: DataAt(StateAfter(d, t, ino, steps), p) == DataAt(d, p)
  {
    var d' := StateAfter(d, t, ino, steps);
    CreationKeepsInodes(d, t, ino, steps);
    forall p: Loc
      ensures DataAt(d', p) == DataAt(d, p)
    {
      if p in d'.inodes {
        CreationKeepsBytes(d, t, ino, steps, p);
      }
    }
  }

  lemma CrashedParts(d: Disk, h: Loc, t: Cont, ino: nat, steps: nat, offset: nat, g: Loc)
    requires Good(d) && IsTail(d, h, t) && Opens(d, t, ino) && CanExtend(d, t, ino) && steps <= 9
    requires InScope(offset, 0, |Flat(d, h)|) && offset / CONT_LEN >= |Chain(d, h)| && g in d.heads
    requires Inv(StateAfter(d, t, ino, steps)) && g in StateAfter(d, t, ino, steps).heads
    ensures var d' := StateAfter(d, t, ino, steps);
            Packed(PartsOf(d', g)) && Flat(d', g) == Flat(d, g)
  {
    var d', c := StateAfter(d, t, ino, steps), Chain(d, g);
    assert Packed(PartsOf(d, g));
    CrashAtomic(d, h, t, ino, steps, g);
    CreatedBlank(d, h, t, ino);
    CrashedData(d, t, ino, steps);
    DataAlongFrame(d, d', c);
    DataAlongAppend(d', c, NewLoc(t, ino));
    if g == h && steps >= 6 {
      EmptyWriteParts(PartsOf(d, h), offset);
      PartStart(offset, |PartsOf(d, h)|);
      assert PartsOf(d', h) == WriteParts(PartsOf(d, h), offset, []);
    }
  }

  lemma CreationKeepsInodes(d: Disk, t: Cont, ino: nat, m: nat)
    requires CanExtend(d, t, ino)
    ensures StateAfter(d, t, ino, m).inodes.Keys >= d.inodes.Keys
  {
  }

  lemma WithoutStep(d: Disk, gone: set<Name>)
    requires Good(d) && Cascades(d, gone)
    ensures Good(Without(d, gone)) && View(Without(d, gone)) == View(d)
  {
    WithoutInv(d, gone);
    WithoutClean(d, gone);
    forall g | g in d.heads
      ensures Packed(PartsOf(Without(d, gone), g)) && Flat(Without(d, gone), g) == Flat(d, g)
    {
      WithoutKeepsFiles(d, gone, g);
      assert Packed(PartsOf(d, g));
    }
    SameFiles(d, Without(d, gone));
  }

  /** What a write answers, by what is there: the client's word inside the file, and past its last
      part -ENOENT without the next chunk's directory, else the client's word if the continuation
      file exists or the client allocates one, and else -ENOSPC. */
  lemma WriteAnswerIs(d: Disk, h: Loc, offset: nat, bytes: seq<byte>, answer: WriteAnswer)
    requires Good(d) && Allowed(d, Write(h, offset, bytes, answer))
    ensures var a, last := AnswerOf(d, Write(h, offset, bytes, answer)), TailOf(d, h).at;
            if offset / CONT_LEN < |Chain(d, h)| then a == ClientSaid(answer.taken)
            else if (last.chunk + 1, last.chunk) !in d.dirs then a == Failed(ENOENT)
            else if Name(last.chunk + 1, last) in d.names || answer.alloc.Some? then a == ClientSaid(answer.taken)
            else a == Failed(ENOSPC)
  {
  }

  lemma WriteRefines(d: Disk, h: Loc, offset: nat, bytes: seq<byte>, answer: WriteAnswer)
    requires Good(d) && Allowed(d, Write(h, offset, bytes, answer))
    ensures var op := Write(h, offset, bytes, answer);
            Good(After(d, op)) && FlatStep(View(d), op, AnswerOf(d, op), View(After(d, op)))
  {
    var b := Taken(bytes, answer.taken);
    InFileHasPart(d, h, offset);
    WriteAnswerIs(d, h, offset, bytes, answer);
    if WriteReaches(d, h, offset, answer.alloc) {
      WriteStep(d, h, offset, b, answer.alloc);
      NothingSpliced(View(d), h, offset);
    } else {
      WriteRefused(d, h, offset, b, answer.alloc);
    }
  }

  lemma NothingSpliced(f: Files, h: Loc, offset: nat)
    requires h in f
    ensures f[h := Splice(f[h], offset, [])] == f
  {
    assert f[h := f[h]] == f;
  }

  /** One operation: the pool stays good, and answer and content are what flat files give. */
  lemma StepRefines(d: Disk, op: Op)
    requires Good(d) && Allowed(d, op)
    ensures Good(After(d, op))
    ensures FlatStep(View(d), op, AnswerOf(d, op), View(After(d, op)))
  {
    match op
    case Create(p) => CreateStep(d, p);
    case Write(h, offset, bytes, answer) => WriteRefines(d, h, offset, bytes, answer);
    case Read(h, offset, len, got) => ReadRefines(d, h, offset, len, got);
    case CrashedWrite(h, offset, alloc, steps) => CrashStep(d, h, offset, alloc, steps);
    case Unlink(h, lastName) =>
      if lastName {
        UnlinkStep(d, h);
      }
    case RepairPass =>
      DeadCascades(d);
      WithoutStep(d, Dead(d));
    case InterruptedRepair(gone) => WithoutStep(d, gone);
  }

  // ---- What the operations leave on disk ------------------------------------------------------------

  /** A crash after `steps` steps leaves what those steps, taken in order, have written; a creation
      that is refused, nothing. */
  lemma CrashIsSteps(d: Disk, h: Loc, offset: nat, alloc: Option<nat>, steps: nat)
    requires Good(d) && Allowed(d, CrashedWrite(h, offset, alloc, steps))
    ensures match OpenResult(d, TailOf(d, h), alloc)
            case Err(_) => After(d, CrashedWrite(h, offset, alloc, steps)) == d
            case Ok(ino) =>
              && CanExtend(d, TailOf(d, h), ino)
              && After(d, CrashedWrite(h, offset, alloc, steps)) == StepsTaken(d, TailOf(d, h), ino, steps)
  {
    if OpenResult(d, TailOf(d, h), alloc).Ok? {
      OpenResultOpens(d, h, alloc);
    }
  }

  /** The record of the element after `t`, the n-th of its file. */
  predicate NthAfter(r: Rec, t: Loc, n: nat)
    requires InRange(t)
  {
    Complete(r) && r.next == Some(0) && r.prev == Some(PackLoc(t)) && r.start.value == n * CONT_LEN && r.len.value == CONT_LEN
  }

  /** Creation of `added` after `t` has come to step `steps`: from the first on the continuation file
      is there, from the fifth its record is complete, and from the sixth the tail points at it.
      Before that the tail is as it was, and so are always all other inodes and names. */
  ghost predicate CreatedUpTo(d: Disk, t: Loc, added: Loc, n: nat, steps: nat, d': Disk) {
    && InRange(t) && InRange(added) && t in d.inodes && t in d'.inodes
    && (steps == 0 ==> d' == d)
    && (steps >= 1 ==> Name(added.chunk, t) in d'.names && d'.names[Name(added.chunk, t)] == added.ino && added in d'.inodes)
    && (steps >= 5 ==> NthAfter(d'.inodes[added].rec, t, n))
    && (steps <= 5 ==> d'.inodes[t] == d.inodes[t])
    && (steps >= 6 ==> d'.inodes[t].rec.next == Some(PackLoc(added)))
    && (forall p :: p in d.inodes && p != t && p != added ==> p in d'.inodes && d'.inodes[p] == d.inodes[p])
    && (forall m :: m in d.names ==> m in d'.names && d'.names[m] == d.names[m])
    && d'.heads == d.heads && d'.dirs == d.dirs && d'.chunks == d.chunks
  }

  lemma StepsOnDisk(d: Disk, t: Cont, ino: nat, n: nat, steps: nat)
    requires CanExtend(d, t, ino) && steps <= 9 && NewData(t).start == n * CONT_LEN
    ensures CreatedUpTo(d, t.at, NewLoc(t, ino), n, steps, StateAfter(d, t, ino, steps))
  {
  }

  /** So a crash leaves on disk, and the file has the one more element exactly from the sixth step
      on; no other file changes. */
  lemma CrashOnDisk(d: Disk, h: Loc, offset: nat, alloc: Option<nat>, steps: nat, ino: nat, g: Loc, d': Disk)
    requires Good(d) && Allowed(d, CrashedWrite(h, offset, alloc, steps)) && g in d.heads
    requires OpenResult(d, TailOf(d, h), alloc) == Ok(ino) && d' == After(d, CrashedWrite(h, offset, alloc, steps))
    ensures var t := TailOf(d, h).at;
            var added := Loc(t.chunk + 1, ino);
            && CreatedUpTo(d, t, added, |Chain(d, h)|, steps, d')
            && Inv(d') && g in d'.inodes
            && Chain(d', g) == if g == h && steps >= 6 then Chain(d, g) + [added] else Chain(d, g)
  {
    OpenResultOpens(d, h, alloc);
    CrashIsSteps(d, h, offset, alloc, steps);
    PrefixOnDisk(d, h, TailOf(d, h), ino, steps, g, d');
  }

  lemma PrefixOnDisk(d: Disk, h: Loc, t: Cont, ino: nat, steps: nat, g: Loc, d': Disk)
    requires Inv(d) && h in d.heads && t == TailOf(d, h) && Opens(d, t, ino) && CanExtend(d, t, ino)
    requires steps <= 9 && g in d.heads && d' == StateAfter(d, t, ino, steps)
    ensures CreatedUpTo(d, t.at, NewLoc(t, ino), |Chain(d, h)|, steps, d')
    ensures Inv(d') && g in d'.inodes
    ensures Chain(d', g) == if g == h && steps >= 6 then Chain(d, g) + [NewLoc(t, ino)] else Chain(d, g)
  {
    TailRecord(d, h);
    CrashAtomic(d, h, t, ino, steps, g);
    StepsOnDisk(d, t, ino, |Chain(d, h)|, steps);
  }

  /** A new file is one inode with the first record and no bytes. */
  lemma CreateOnDisk(d: Disk, p: Loc)
    requires Good(d) && Allowed(d, Create(p))
    ensures var d' := After(d, Create(p));
            && p in d'.heads && d'.heads - {p} == d.heads && p in d'.inodes
            && d'.inodes[p] == Inode(Written(ContData(0, 0, 0, CONT_LEN)), [])
            && (forall q :: q in d'.inodes && q != p ==> q in d.inodes && d'.inodes[q] == d.inodes[q])
            && d.inodes.Keys <= d'.inodes.Keys && d'.names == d.names && d'.dirs == d.dirs && d'.chunks == d.chunks
  {
    assert p !in d.heads;
  }

  /** The last name takes the head with it, and no continuation; any other takes nothing. */
  lemma UnlinkOnDisk(d: Disk, h: Loc, lastName: bool)
    requires Good(d) && Allowed(d, Unlink(h, lastName))
    ensures var d' := After(d, Unlink(h, lastName));
            && (h in d'.heads <==> !lastName) && (h in d'.inodes <==> !lastName)
            && (forall q :: q in d.inodes && q != h ==> q in d'.inodes && d'.inodes[q] == d.inodes[q])
            && d'.inodes.Keys <= d.inodes.Keys && d'.heads + {h} == d.heads
            && (!lastName ==> d' == d) && d'.names == d.names && d'.dirs == d.dirs && d'.chunks == d.chunks
  {
  }

  /** Repair takes away the continuations it removes, name and inode, and nothing else: all the dead
      ones, or when cut short those it has come to. */
  lemma RepairOnDisk(d: Disk, op: Op, p: Loc)
    requires Good(d) && Allowed(d, op) && (op.RepairPass? || op.InterruptedRepair?)
    ensures var d' := After(d, op);
            && (forall n :: n in d'.names <==> n in d.names && !(if op.RepairPass? then !Live(d, n) else n in op.gone))
            && (forall n :: n in d'.names ==> d'.names[n] == d.names[n])
            && (p in d'.inodes <==>
                  p in d.inodes && forall n :: n in d.names && Target(d, n) == p ==> n in d'.names)
            && (p in d'.inodes ==> d'.inodes[p] == d.inodes[p])
            && d'.heads == d.heads && d'.dirs == d.dirs && d'.chunks == d.chunks
  {
    var gone := if op.RepairPass? then Dead(d) else op.gone;
    assert After(d, op) == Without(d, gone);
    assert forall n :: n in gone ==> n in d.names;
  }

  /** As long as nothing crashes and nothing is unlinked, continuation names and set "next"s
      stay in one-to-one correspondence, so the allocations are fresh for free. */
  lemma TightStep(d: Disk, op: Op)
    requires Good(d) && Allowed(d, op) && Tight(d)
    requires op.Create? || op.Write? || op.Read?
    ensures Tight(After(d, op))
  {
    match op
    case Create(p) =>
      assert forall n :: n in d.names ==> n.from in d.inodes && n.from != p;
    case Write(h, offset, bytes, answer) =>
      WriteTight(d, h, offset, Taken(bytes, answer.taken), answer.alloc);
    case Read(_, _, _, _) =>
  }

  lemma WriteTight(d: Disk, h: Loc, offset: nat, b: seq<byte>, alloc: Option<nat>)
    requires Inv(d) && h in d.heads && HonestAlloc(d, TailOf(d, h), alloc) && Tight(d)
    ensures Tight(WriteDisk(d, h, offset, b, alloc))
  {
    var t, k := TailOf(d, h), offset / CONT_LEN;
    PartStart(offset, |Chain(d, h)|);
    if k < |Chain(d, h)| {
      SpliceLinks(d, Chain(d, h)[k], ClientPos(offset, k), b);
    } else if OpenResult(d, t, alloc).Ok? {
      OpenResultOpens(d, h, alloc);
      var ino := OpenResult(d, t, alloc).value;
      CreationTight(d, t, ino);
      SpliceLinks(Created(d, t, ino), NewLoc(t, ino), ClientPos(offset, |Chain(d, h)|), b);
    }
  }

  lemma SpliceLinks(d: Disk, p: Loc, o: nat, b: seq<byte>)
    ensures Tight(d) ==> Tight(SplicedAt(d, p, o, b))
  {
  }

  /** Every continuation file has its predecessor. */
  ghost predicate NoOrphans(d: Disk) {
    forall n :: n in d.names ==> n.from in d.inodes
  }

  /** Then freshness is no assumption on the client: whatever free inode it picks is fresh. */
  lemma NoOrphansFresh(d: Disk, op: Op)
    requires Inv(d) && NoOrphans(d) && Proper(d, op)
    ensures Allowed(d, op)
  {
  }

  /** Every operation but unlink, crashed creations included, makes no orphan, and a repair pass
      leaves none whatever it finds. */
  lemma NoOrphansStep(d: Disk, op: Op)
    requires Good(d) && Allowed(d, op) && !op.Unlink?
    requires NoOrphans(d) || op.RepairPass?
    ensures NoOrphans(After(d, op))
  {
    match op
    case Create(_) =>
    case Write(h, offset, bytes, answer) => WriteOrphans(d, h, offset, Taken(bytes, answer.taken), answer.alloc);
    case Read(_, _, _, _) =>
    case CrashedWrite(h, _, alloc, steps) =>
      if OpenResult(d, TailOf(d, h), alloc).Ok? {
        OpenResultOpens(d, h, alloc);
        CreationOrphans(d, TailOf(d, h), OpenResult(d, TailOf(d, h), alloc).value, steps);
      }
    case RepairPass => RepairIsExact(d);
    case InterruptedRepair(gone) =>
      NothingDead(d);
      assert gone == {};
  }

  lemma CreationOrphans(d: Disk, t: Cont, ino: nat, m: nat)
    requires CanExtend(d, t, ino) && NoOrphans(d)
    ensures NoOrphans(StateAfter(d, t, ino, m))
  {
    CreationKeepsInodes(d, t, ino, m);
    assert forall n :: n in StateAfter(d, t, ino, m).names ==> n in d.names || n == NameOf(t.at);
  }

  lemma WriteOrphans(d: Disk, h: Loc, offset: nat, b: seq<byte>, alloc: Option<nat>)
    requires Inv(d) && h in d.heads && HonestAlloc(d, TailOf(d, h), alloc) && NoOrphans(d)
    ensures NoOrphans(WriteDisk(d, h, offset, b, alloc))
  {
    if offset / CONT_LEN >= |Chain(d, h)| && OpenResult(d, TailOf(d, h), alloc).Ok? {
      OpenResultOpens(d, h, alloc);
      CreationOrphans(d, TailOf(d, h), OpenResult(d, TailOf(d, h), alloc).value, 9);
    }
  }

  /** The assumption can fail: unlinking a file whose second part holds something frees its number
      with that part still hanging on it, and a new file with the number is not allowed. */
  lemma UnlinkLeavesStale(d: Disk, h: Loc)
    requires Good(d) && h in d.heads && |PartsOf(d, h)| >= 2 && PartsOf(d, h)[1] != []
    ensures var d' := WithoutHead(d, h);
            && Good(d') && Allocatable(d', h) && !NoStale(d', h)
            && Proper(d', Create(h)) && !Allowed(d', Create(h))
  {
    ChainShape(d, h);
    UnlinkStep(d, h);
    assert ChainLink(d, Chain(d, h), 0) && LinkOk(d, h);
    assert PartsOf(d, h)[1] == DataAt(d, Chain(d, h)[1]);
  }

  /** If the client hands the number out all the same, the new, empty file gets the old second part
      for content as soon as it is continued. */
  lemma StaleComesBack(d: Disk, h: Loc)
    requires Good(d) && h in d.heads && |PartsOf(d, h)| >= 2 && PartsOf(d, h)[1] != []
    ensures var d' := WithNewFile(WithoutHead(d, h), h);
            && Inv(d') && h in d'.heads && Flat(d', h) == []
            && var t, ino := TailOf(d', h), Chain(d, h)[1].ino;
               && OpenResult(d', t, None) == Ok(ino) && CanExtend(d', t, ino)
               && Inv(Created(d', t, ino)) && h in Created(d', t, ino).heads
               && Flat(Created(d', t, ino), h) == PartsOf(d, h)[1]
  {
    var d1 := WithoutHead(d, h);
    var d' := WithNewFile(d1, h);
    UnlinkLeavesStale(d, h);
    NewFileInv(d1, h);
    NewFileParts(d1, h);
    OneEmptyPart(PartsOf(d', h));
    NewIsTail(d1, h);
    var t, next := TailOf(d', h), Chain(d, h)[1];
    StaleName(d, h);
    assert NameOk(d', NameOf(h));
    OpenResultOpens(d', h, None);
    CreatedParts(d', h, t, next.ino, h);
    JoinAppend(PartsOf(d', h), DataAt(d', next));
  }

  lemma NewIsTail(d: Disk, h: Loc)
    requires Inv(d) && Allocatable(d, h) && Inv(WithNewFile(d, h))
    ensures TailOf(WithNewFile(d, h), h).at == h
  {
    ChainIs(WithNewFile(d, h), h, [h]);
  }

  /** The name of the second part, and what is found under it once the head is replaced. */
  lemma StaleName(d: Disk, h: Loc)
    requires Inv(d) && h in d.heads && |Chain(d, h)| >= 2
    ensures var d', next := WithNewFile(WithoutHead(d, h), h), Chain(d, h)[1];
            && NameOf(h) in d'.names && d'.names[NameOf(h)] == next.ino && next.chunk == h.chunk + 1
            && DataAt(d', next) == PartsOf(d, h)[1]
  {
    ChainShape(d, h);
    assert ChainLink(d, Chain(d, h), 0) && LinkOk(d, h);
    assert PartsOf(d, h)[1] == DataAt(d, Chain(d, h)[1]);
  }

  // ---- Where runs begin ---------------------------------------------------------------------

  /** A pool on which nothing has been made yet but the directories for continuations
      (set up by test.sh). */
  ghost predicate Empty(d: Disk) {
    && d.chunks < 16 && (forall t, f :: (t, f) in d.dirs ==> 1 <= t <= d.chunks)
    && d.heads == {} && d.inodes == map[] && d.names == map[]
  }

  lemma EmptyPool(d: Disk)
    requires Empty(d)
    ensures Good(d) && NoOrphans(d) && Tight(d) && View(d) == map[]
  {
  }

  // ---- Runs ---------------------------------------------------------------------------------

  /** Each operation is allowed in the state the ones before it have left. */
  ghost predicate AllowedRun(d: Disk, ops: seq<Op>)
    requires Good(d)
    decreases |ops|
  {
    ops == [] || (Allowed(d, ops[0]) && (StepRefines(d, ops[0]); AllowedRun(After(d, ops[0]), ops[1..])))
  }

  /** The disk, and the answers, a run comes to. */
  ghost function RunDisk(d: Disk, ops: seq<Op>): Disk
    requires Good(d) && AllowedRun(d, ops)
    decreases |ops|
  {
    if ops == [] then d else StepRefines(d, ops[0]); RunDisk(After(d, ops[0]), ops[1..])
  }

  ghost function RunAnswers(d: Disk, ops: seq<Op>): seq<Answer>
    requires Good(d) && AllowedRun(d, ops)
    decreases |ops|
  {
    if ops == [] then []
    else StepRefines(d, ops[0]); [AnswerOf(d, ops[0])] + RunAnswers(After(d, ops[0]), ops[1..])
  }

  /** Some run of the flat files gives these answers and ends with these contents. */
  ghost predicate FlatRun(f: Files, ops: seq<Op>, answers: seq<Answer>, f': Files)
    decreases |ops|
  {
    if ops == [] then answers == [] && f' == f
    else |answers| == |ops| && exists g: Files :: FlatStep(f, ops[0], answers[0], g) && FlatRun(g, ops[1..], answers[1..], f')
  }

  /** Every run of the pool, with all its answers, is a run of flat files. */
  lemma {:induction false} RunRefines(d: Disk, ops: seq<Op>)
    requires Good(d) && AllowedRun(d, ops)
    ensures Good(RunDisk(d, ops))
    ensures FlatRun(View(d), ops, RunAnswers(d, ops), View(RunDisk(d, ops)))
    decreases |ops|
  {
    if ops != [] {
      var d1 := After(d, ops[0]);
      StepRefines(d, ops[0]);
      RunRefines(d1, ops[1..]);
      AnswersLength(d1, ops[1..]);
      assert RunAnswers(d, ops)[1..] == RunAnswers(d1, ops[1..]);
      assert FlatStep(View(d), ops[0], RunAnswers(d, ops)[0], View(d1));
    }
  }

  /** The states a run goes through. */
  ghost predicate GoesThrough(states: seq<Disk>, ops: seq<Op>) {
    && |states| == |ops| + 1
    && forall i :: 0 <= i < |ops| ==> Inv(states[i]) && Allowed(states[i], ops[i]) && states[i + 1] == After(states[i], ops[i])
  }

  /** A run is nothing but its operations, each in the state the one before it has left, and its
      answers are theirs. */
  lemma {:induction false} RunGoesThrough(d: Disk, ops: seq<Op>) returns (states: seq<Disk>)
    requires Good(d) && AllowedRun(d, ops)
    ensures GoesThrough(states, ops) && states[0] == d && states[|ops|] == RunDisk(d, ops)
    ensures |RunAnswers(d, ops)| == |ops|
    ensures forall i :: 0 <= i < |ops| ==> RunAnswers(d, ops)[i] == AnswerOf(states[i], ops[i])
    decreases |ops|
  {
    if ops == [] {
      states := [d];
    } else {
      StepRefines(d, ops[0]);
      var rest := RunGoesThrough(After(d, ops[0]), ops[1..]);
      states := [d] + rest;
      forall i | 0 <= i < |ops|
        ensures Inv(states[i]) && Allowed(states[i], ops[i]) && states[i + 1] == After(states[i], ops[i])
        ensures RunAnswers(d, ops)[i] == AnswerOf(states[i], ops[i])
      {
        assert i > 0 ==> ops[i] == ops[1..][i - 1] && states[i] == rest[i - 1];
      }
    }
  }

  /** And every such sequence of states is a run. */
  lemma {:induction false} GoingThroughIsARun(states: seq<Disk>, ops: seq<Op>)
    requires GoesThrough(states, ops) && Good(states[0])
    ensures AllowedRun(states[0], ops) && RunDisk(states[0], ops) == states[|ops|]
    decreases |ops|
  {
    if ops != [] {
      assert Allowed(states[0], ops[0]) && states[1] == After(states[0], ops[0]);
      StepRefines(states[0], ops[0]);
      var rest := states[1..];
      forall i | 0 <= i < |ops[1..]|
        ensures Inv(rest[i]) && Allowed(rest[i], ops[1..][i]) && rest[i + 1] == After(rest[i], ops[1..][i])
      {
        assert rest[i] == states[i + 1] && ops[1..][i] == ops[i + 1];
      }
      GoingThroughIsARun(rest, ops[1..]);
    }
  }

  lemma {:induction false} AnswersLength(d: Disk, ops: seq<Op>)
    requires Good(d) && AllowedRun(d, ops)
    ensures |RunAnswers(d, ops)| == |ops|
    decreases |ops|
  {
    if ops != [] {
      StepRefines(d, ops[0]);
      AnswersLength(After(d, ops[0]), ops[1..]);
    }
  }

  /** The client is not asked for an inode. */
  predicate AsksForNone(op: Op) {
    match op
    case Create(_) => false
    case Write(_, _, _, answer) => answer.alloc.None?
    case CrashedWrite(_, _, alloc, _) => alloc.None?
    case _ => true
  }

  /** Whether a repair is due after `op`. */
  predicate DueAfter(op: Op, due: bool) {
    !op.RepairPass? && (due || op.Unlink?)
  }

  /** Runs that ask nothing of the client but honesty: every operation is proper, and once a name
      is removed no inode is handed out until the repair script has gone through. */
  ghost predicate RepairedRun(d: Disk, ops: seq<Op>, due: bool)
    requires Good(d) && (NoOrphans(d) || due)
    decreases |ops|
  {
    if ops == [] then !due
    else
      && Proper(d, ops[0]) && (due ==> AsksForNone(ops[0]))
      && (HonestStep(d, ops[0], due); RepairedRun(After(d, ops[0]), ops[1..], DueAfter(ops[0], due)))
  }

  lemma HonestStep(d: Disk, op: Op, due: bool)
    requires Good(d) && (NoOrphans(d) || due) && Proper(d, op) && (due ==> AsksForNone(op))
    ensures Allowed(d, op) && Good(After(d, op))
    ensures NoOrphans(After(d, op)) || DueAfter(op, due)
  {
    if !due {
      NoOrphansFresh(d, op);
    }
    StepRefines(d, op);
    if !DueAfter(op, due) {
      NoOrphansStep(d, op);
    }
  }

  /** Every such run is allowed, so by `RunRefines` it is a run of flat files, and it ends
      without orphans. */
  lemma {:induction false} RepairedRunAllowed(d: Disk, ops: seq<Op>, due: bool)
    requires Good(d) && (NoOrphans(d) || due) && RepairedRun(d, ops, due)
    ensures AllowedRun(d, ops)
    ensures Good(RunDisk(d, ops)) && NoOrphans(RunDisk(d, ops))
    decreases |ops|
  {
    if ops != [] {
      HonestStep(d, ops[0], due);
      RepairedRunAllowed(After(d, ops[0]), ops[1..], DueAfter(ops[0], due));
    }
  }

  /** Runs in which nothing crashes and nothing is unlinked. */
  ghost predicate QuietRun(d: Disk, ops: seq<Op>)
    requires Good(d) && Tight(d)
    decreases |ops|
  {
    ops == [] ||
    (Proper(d, ops[0]) && (ops[0].Create? || ops[0].Write? || ops[0].Read?) &&
     (QuietStep(d, ops[0]); QuietRun(After(d, ops[0]), ops[1..])))
  }

  lemma QuietStep(d: Disk, op: Op)
    requires Good(d) && Tight(d) && Proper(d, op) && (op.Create? || op.Write? || op.Read?)
    ensures Allowed(d, op) && Good(After(d, op)) && Tight(After(d, op))
  {
    HonestStep(d, op, false);
    TightStep(d, op);
  }

  /** Every such run is allowed, and at its end continuation names and set "next"s still
      correspond one to one. */
  lemma {:induction false} QuietRunTight(d: Disk, ops: seq<Op>)
    requires Good(d) && Tight(d) && QuietRun(d, ops)
    ensures AllowedRun(d, ops)
    ensures Good(RunDisk(d, ops)) && Tight(RunDisk(d, ops))
    ensures forall p :: p in RunDisk(d, ops).inodes ==>
              (NameOf(p) in RunDisk(d, ops).names <==> Linked(RunDisk(d, ops), p))
    decreases |ops|
  {
    if ops != [] {
      QuietStep(d, ops[0]);
      QuietRunTight(After(d, ops[0]), ops[1..]);
    } else {
      forall p | p in d.inodes
        ensures NameOf(p) in d.names <==> Linked(d, p)
      {
        TightMeans(d, p);
      }
    }
  }

  /** The whole story from an empty pool: create, write, read, crash, unlink and repair in any
      order, repair passes cut short included, as long as one goes through before an inode is
      handed out after an unlink; and every answer is that of flat files which began as none. */
  lemma FromEmptyPool(d: Disk, ops: seq<Op>)
    requires Empty(d) && (EmptyPool(d); RepairedRun(d, ops, false))
    ensures Good(d) && AllowedRun(d, ops) && Good(RunDisk(d, ops))
    ensures FlatRun(map[], ops, RunAnswers(d, ops), View(RunDisk(d, ops)))
  {
    EmptyPool(d);
    RepairedRunAllowed(d, ops, false);
    RunRefines(d, ops);
  }

  /** No file outgrows the chunks from its head's to the last. */
  lemma SizeBound(d: Disk, h: Loc)
    requires Good(d) && h in d.heads
    ensures |Flat(d, h)| <= (d.chunks - h.chunk + 1) * CONT_LEN
  {
    ChainShape(d, h);
    PackedLength(PartsOf(d, h));
    assert |PartsOf(d, h)| <= d.chunks - h.chunk + 1;
  }

  /** A file whose last part is in the last chunk cannot grow: the open in chunk N + 1 fails and
      the disk, all files with it, stays as it is. */
  lemma LastChunkRefuses(d: Disk, h: Loc, offset: nat, b: seq<byte>, alloc: Option<nat>)
    requires Inv(d) && h in d.heads && HonestAlloc(d, TailOf(d, h), alloc)
    requires h.chunk + |Chain(d, h)| - 1 == d.chunks && offset >= |Chain(d, h)| * CONT_LEN
    ensures OpenResult(d, TailOf(d, h), alloc) == Err(ENOENT)
    ensures WriteDisk(d, h, offset, b, alloc) == d
  {
    ChainShape(d, h);
    PartStart(offset, |Chain(d, h)|);
    WriteRefused(d, h, offset, b, alloc);
  }
}

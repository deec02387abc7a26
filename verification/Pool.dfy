/** The mounted pool as cont.c, file.c, inode.c and cross.sh work on it: walks that move one
    loaded continuation at a time, attributes written one by one as text, files open by
    name, leftovers removed in place. `State()` is the disk the other modules reason about;
    every method is tied to it. */
module Pool {
  import opened Outcomes
  import opened PackedNumber
  import opened Decimal
  import opened Continuations
  import opened Walks
  import opened Creation
  import opened Parts
  import opened FlatFile
  import opened Repair
  import opened Runs

  /** user.next, user.prev, user.start, user.len */
  datatype Attr = NextAttr | PrevAttr | StartAttr | LenAttr

  /** A client inode as stored: extended attributes are text. */
  datatype ClientFile = ClientFile(xattrs: map<Attr, string>, data: seq<byte>)

  function ReadAttr(x: map<Attr, string>, k: Attr): Option<u64> {
    if k in x then Some(Parse(x[k])) else None
  }

  function Decode(x: map<Attr, string>): Rec {
    Rec(ReadAttr(x, NextAttr), ReadAttr(x, PrevAttr), ReadAttr(x, StartAttr), ReadAttr(x, LenAttr))
  }

  function Loaded(f: ClientFile): Inode {
    Inode(Decode(f.xattrs), f.data)
  }

  function WithAttr(r: Rec, k: Attr, v: u64): Rec {
    match k
    case NextAttr => r.(next := Some(v))
    case PrevAttr => r.(prev := Some(v))
    case StartAttr => r.(start := Some(v))
    case LenAttr => r.(len := Some(v))
  }

  /** Storing a number as text sets exactly that attribute of the record. */
  lemma StoreDecodes(x: map<Attr, string>, k: Attr, v: u64)
    ensures Decode(x[k := Stored(v)]) == WithAttr(Decode(x), k, v)
  {
    StoredRoundTrip(v);
  }

  /** The chunkfs side of an open file: its position and the size of its inode. */
  class OpenFile {
    const head: Loc
    var fPos: nat
    var size: nat

    constructor (head: Loc)
      ensures this.head == head && fPos == 0 && size == 0
    {
      this.head := head;
      fPos := 0;
      size := 0;
    }
  }

  class ChunkPool {
    var chunks: nat
    var dirs: set<(nat, nat)>
    var heads: set<Loc>
    var files: map<Loc, ClientFile>
    var names: map<Name, nat>

    function State(): Disk
      reads this
    {
      Disk(chunks, dirs, heads, map p | p in files :: Loaded(files[p]), names)
    }

    // ---- Continuation records -----------------------------------------------------------------

    /** get_set_cont_data, setting. */
    method SetAttr(p: Loc, k: Attr, v: u64)
      requires p in files
      modifies this`files
      ensures files.Keys == old(files.Keys)
      ensures State() == SetRec(old(State()), p, WithAttr(old(State()).inodes[p].rec, k, v))
    {
      StoreDecodes(files[p].xattrs, k, v);
      files := files[p := files[p].(xattrs := files[p].xattrs[k := Stored(v)])];
      assert State().inodes == SetRec(old(State()), p, WithAttr(old(State()).inodes[p].rec, k, v)).inodes;
    }

    /** get_set_cont_data, getting. */
    method GetAttr(p: Loc, k: Attr) returns (r: Result<u64>)
      requires p in files
      ensures r == (match ReadAttr(files[p].xattrs, k) case Some(v) => Ok(v) case None => Err(ENODATA))
    {
      if k !in files[p].xattrs {
        return Err(ENODATA);
      }
      r := Ok(Parse(files[p].xattrs[k]));
    }

    /** set_cont_data, against a client that takes `room` more writes and then answers `refusal`:
        the first refused one ends it, and what was written stays. */
    method SetContData(p: Loc, cd: ContData, room: nat, refusal: Errno) returns (r: Result<()>)
      requires p in files
      modifies this`files
      ensures files.Keys == old(files.Keys)
      ensures State() == SetRec(old(State()), p, RecAfter(old(State()).inodes[p].rec, cd, room))
      ensures r == if room >= 4 then Ok(()) else Err(refusal)
    {
      ghost var d := State();
      NothingWritten(d, p, cd);
      r := SetAttrs(p, cd, room, refusal, d);
      AllWritten(d, State(), p, cd, room);
    }

    /** The four calls of set_cont_data; `d` is the disk before the first. */
    method SetAttrs(p: Loc, cd: ContData, room: nat, refusal: Errno, ghost d: Disk) returns (r: Result<()>)
      requires p in files && Wrote(d, State(), p, cd, 0)
      modifies this`files
      ensures files.Keys == old(files.Keys)
      ensures Wrote(d, State(), p, cd, if room < 4 then room else 4)
      ensures r == if room >= 4 then Ok(()) else Err(refusal)
    {
      if room < 1 { return Err(refusal); }
      SetNthAttr(p, NextAttr, cd.next, cd, 0, d);
      if room < 2 { return Err(refusal); }
      SetNthAttr(p, PrevAttr, cd.prev, cd, 1, d);
      if room < 3 { return Err(refusal); }
      SetNthAttr(p, StartAttr, cd.start, cd, 2, d);
      if room < 4 { return Err(refusal); }
      SetNthAttr(p, LenAttr, cd.len, cd, 3, d);
      r := Ok(());
    }

    /** One of the four, after `j` of them. */
    method SetNthAttr(p: Loc, k: Attr, v: u64, ghost cd: ContData, ghost j: nat, ghost d: Disk)
      requires p in files && Wrote(d, State(), p, cd, j)
      requires j < 4 && k == AttrNo(j) && v == ValueNo(cd, j)
      modifies this`files
      ensures files.Keys == old(files.Keys)
      ensures Wrote(d, State(), p, cd, j + 1)
    {
      AttrWritten(d, State(), p, cd, j);
      SetAttr(p, k, v);
    }

    /** get_cont_data: the first missing attribute ends it. */
    method ReadContData(p: Loc) returns (r: Result<ContData>)
      requires p in files
      ensures r == GetContData(State().inodes[p].rec)
    {
      var next := GetAttr(p, NextAttr);
      if next.Err? { return Err(next.error); }
      var prev := GetAttr(p, PrevAttr);
      if prev.Err? { return Err(prev.error); }
      var start := GetAttr(p, StartAttr);
      if start.Err? { return Err(start.error); }
      var len := GetAttr(p, LenAttr);
      if len.Err? { return Err(len.error); }
      r := Ok(ContData(next.value, prev.value, start.value, len.value));
    }

    // ---- Walks ------------------------------------------------------------------------------

    /** load_continuation */
    method LoadContinuation(p: Loc) returns (r: Result<Option<Cont>>)
      ensures r == LoadCont(State(), p)
    {
      if p !in files {
        return Err(EIO);
      }
      var cd := ReadContData(p);
      match cd
      case Err(e) => r := Err(e);
      case Ok(data) => r := Ok(Some(Cont(p, data)));
    }

    /** chunkfs_get_next_cont */
    method GetNextCont(head: Loc, prev: Option<Cont>) returns (r: Result<Option<Cont>>)
      requires InRange(head)
      ensures r == NextCont(State(), head, prev)
    {
      if prev.None? {
        r := LoadContinuation(head);
      } else {
        var cd := prev.value.cd;
        if cd.next == PackLoc(head) {
          return Ok(None);
        }
        if cd.next == 0 {
          return Ok(None);
        }
        var name := Name(ChunkIdOf(cd.next), prev.value.at);
        if name !in names {
          return Err(ENOENT);
        }
        r := LoadContinuation(Loc(name.to, names[name]));
      }
    }

    /** chunkfs_get_next_inode */
    method GetNextInode(head: Loc, prev: Option<Loc>) returns (r: Result<Option<Loc>>)
      requires prev.Some? ==> prev.value in files
      ensures r == NextInode(State(), head, prev)
    {
      if prev.None? {
        return Ok(Some(head));
      }
      var cd := ReadContData(prev.value);
      if cd.Err? {
        return Err(cd.error);
      }
      if cd.value.next == 0 {
        return Ok(None);
      }
      var p := Loc(ChunkIdOf(cd.value.next), InoOf(cd.value.next));
      r := if p in files then Ok(Some(p)) else Err(EIO);
    }

    /** The same step in a loop that has taken `i` before: `ks` are the continuations to come
        by. */
    method GetIthCont(head: Loc, prev: Option<Cont>, ghost ks: seq<Cont>, ghost i: nat) returns (r: Result<Option<Cont>>)
      requires Inv(State()) && head in heads && ks == Conts(State(), head)
      requires i <= |ks| && prev == Before(ks, i)
      ensures r == Ok(At(ks, i)) && |ks| >= 1
      ensures i < |ks| ==> ks[i].at == Chain(State(), head)[i]
    {
      IthStep(State(), head, i);
      r := GetNextCont(head, prev);
    }

    /** chunkfs_get_cont_at_offset: the linear search finds the element that division names,
        and nothing past the last. */
    method GetContAtOffset(head: Loc, offset: nat) returns (r: Result<Cont>)
      requires Inv(State()) && head in heads
      ensures var c, k := Chain(State(), head), offset / CONT_LEN;
              if k < |c| then r.Ok? && r.value.at == c[k] && c[k] in State().inodes
                              && Written(r.value.cd) == State().inodes[c[k]].rec && r.value.cd.start == k * CONT_LEN
              else r == Err(ENOENT)
    {
      ghost var d := State();
      ghost var ks, i := Conts(d, head), 0;
      var prev: Option<Cont> := None;
      while true
        invariant 0 <= i <= |ks| && i <= offset / CONT_LEN
        invariant prev == Before(ks, i)
        decreases |ks| - i
      {
        var next := GetIthCont(head, prev, ks, i);
        match next {
          case Err(e) => return Err(e);
          case Ok(None) => return Err(ENOENT);
          case Ok(Some(cont)) =>
            CoversIsDivision(d, head, i, offset);
            if cont.cd.start <= offset < Add64(cont.cd.start, cont.cd.len) {
              return Ok(cont);
            }
            prev := Some(cont);
            i := i + 1;
        }
      }
    }

    /** The accumulation of chunkfs_copy_up_inode: the sizes of all inodes of the file, walked by
        number. */
    method SumSizes(head: Loc) returns (total: nat)
      requires Inv(State()) && head in heads
      ensures total == TotalSize(PartsOf(State(), head)) == |Flat(State(), head)|
    {
      ghost var d, parts := State(), PartsOf(State(), head);
      TotalIsLength(parts);
      ghost var c, i := Chain(d, head), 0;
      total := 0;
      var prev: Option<Loc> := None;
      while true
        invariant 0 <= i <= |c| && prev == Before(c, i)
        invariant prev.Some? ==> prev.value in files
        invariant total == TotalSize(parts[..i])
        decreases |c| - i
      {
        IthStep(d, head, i);
        var next := GetNextInode(head, prev);
        if next.Err? {
          break;
        }
        if next.value.None? {
          break;
        }
        TotalOfMore(parts, i);
        total := total + |files[next.value.value].data|;
        prev := next.value;
        i := i + 1;
      }
      assert parts[..i] == parts;
    }

    /** chunkfs_fsync_file. `failing` are the inodes whose client fsync fails. Every part is
        synced once, in order, and no client error ever reaches the caller: the walk's own
        result replaces it. */
    method Fsync(head: Loc, failing: set<Loc>) returns (r: Result<()>, synced: seq<Loc>)
      requires Inv(State()) && head in heads
      ensures synced == Chain(State(), head) && r == Ok(())
    {
      ghost var d := State();
      ghost var c, ks := Chain(d, head), Conts(d, head);
      synced := [];
      r := Err(EIO);
      var prev: Option<Cont> := None;
      while true
        invariant |synced| <= |c| && synced == c[..|synced|]
        invariant prev == Before(ks, |synced|)
        decreases |c| - |synced|
      {
        var next := GetIthCont(head, prev, ks, |synced|);
        match next {
          case Err(e) => return Err(e), synced;
          case Ok(None) =>
            r := Ok(());
            return;
          case Ok(Some(cont)) =>
            r := if cont.at in failing then Err(EIO) else Ok(());
            synced := synced + [cont.at];
            prev := Some(cont);
        }
      }
    }

    // ---- Creation -----------------------------------------------------------------------------

    /** The walk to the last continuation that opens chunkfs_create_continuation. */
    method FindTail(head: Loc) returns (tail: Cont)
      requires Inv(State()) && head in heads
      ensures tail == TailOf(State(), head)
    {
      ghost var d := State();
      ghost var ks, i := Conts(d, head), 1;
      var first := GetIthCont(head, None, ks, 0);
      tail := first.value.value;
      while true
        invariant 1 <= i <= |ks| && tail == ks[i - 1]
        decreases |ks| - i
      {
        var next := GetIthCont(head, Some(tail), ks, i);
        if next.value.None? {
          return;
        }
        tail := next.value.value;
        i := i + 1;
      }
    }

    /** filp_open(path, O_CREAT | O_RDWR) in the next chunk, the client giving `alloc` for a new
        inode. */
    method OpenContinuation(tail: Cont, alloc: Option<nat>) returns (r: Result<nat>)
      modifies this`files, this`names
      ensures r == OpenResult(old(State()), tail, alloc)
      ensures State() == if r.Ok? then OpenOrCreate(old(State()), tail, r.value) else old(State())
    {
      var name := Name(tail.at.chunk + 1, tail.at);
      if (name.to, tail.at.chunk) !in dirs {
        return Err(ENOENT);
      }
      if name in names {
        return Ok(names[name]);
      }
      if alloc.None? {
        return Err(ENOSPC);
      }
      names := names[name := alloc.value];
      files := files[Loc(name.to, alloc.value) := ClientFile(map[], [])];
      assert State().inodes == OpenOrCreate(old(State()), tail, alloc.value).inodes;
      r := Ok(alloc.value);
    }

    /** The attribute writes, first the new inode's record and then the tail's with its "next",
        and the loading of the result. The client takes `room1` and `room2` of the four writes
        each; neither error is looked at. */
    method LinkContinuation(tail: Cont, ino: nat, room1: nat, room2: nat, refusal: Errno, ghost d: Disk)
      returns (r: Result<Cont>)
      requires CanExtend(d, tail, ino) && State() == OpenOrCreate(d, tail, ino)
      modifies this`files
      ensures State() == Partial(d, tail, ino, room1, room2)
      ensures NewLoc(tail, ino) in files
      ensures r == LoadedAt(State(), NewLoc(tail, ino))
    {
      WriteRecords(tail, ino, room1, room2, refusal, d);
      assert NewLoc(tail, ino) in State().inodes;
      LoadIs(State(), NewLoc(tail, ino));
      var loaded := LoadContinuation(Loc(tail.at.chunk + 1, ino));
      r := match loaded
        case Ok(cont) => Ok(cont.value)
        case Err(e) => Err(e);
    }

    /** The attribute writes alone. */
    method WriteRecords(tail: Cont, ino: nat, room1: nat, room2: nat, refusal: Errno, ghost d: Disk)
      requires CanExtend(d, tail, ino) && State() == OpenOrCreate(d, tail, ino)
      modifies this`files
      ensures State() == Partial(d, tail, ino, room1, room2)
    {
      var added := Loc(tail.at.chunk + 1, ino);
      PartialBySteps(d, tail, ino, room1, room2);
      assert tail.at in State().inodes && added in State().inodes;
      var cd := ContData(0, PackLoc(tail.at), Add64(tail.cd.start, tail.cd.len), CONT_LEN);
      var _ := SetContData(added, cd, room1, refusal);
      var tailCd := tail.cd.(next := PackLoc(added));
      var _ := SetContData(tail.at, tailCd, room2, refusal);
    }

    /** chunkfs_create_continuation: refused, nothing has changed; otherwise the disk is the one
        after as many of the steps as the client let happen, and the new record is returned if
        it can be loaded. */
    method CreateContinuation(head: Loc, alloc: Option<nat>, room1: nat, room2: nat, refusal: Errno)
      returns (r: Extension)
      requires Inv(State()) && head in heads && HonestAlloc(State(), TailOf(State(), head), alloc)
      modifies this`files, this`names
      ensures Extends(old(State()), TailOf(old(State()), head), alloc, room1, room2, r, State())
      ensures r.Extended? ==> r.cont.at in files
    {
      ghost var d := State();
      var tail := FindTail(head);
      var open := OpenContinuation(tail, alloc);
      if open.Err? {
        return Refused(open.error);
      }
      OpenResultOpens(d, head, alloc);
      var cont := LinkContinuation(tail, open.value, room1, room2, refusal, d);
      r := match cont
        case Ok(c) => Extended(c)
        case Err(e) => Unloaded(e);
    }

    // ---- chunkfs_read and chunkfs_write -----------------------------------------------------------

    /** chunkfs_close_cont_file: the client position is translated back and the size summed
        anew. */
    method CloseContFile(file: OpenFile, clientPos: nat, start: nat)
      requires Inv(State()) && file.head in heads
      modifies file
      ensures file.fPos == clientPos + start
      ensures file.size == |Flat(State(), file.head)|
    {
      file.fPos := clientPos + start;
      file.size := SumSizes(file.head);
    }

    /** chunkfs_read. `pos` is what `*ppos` is left at. */
    method Read(file: OpenFile, offset: nat, len: nat, got: Result<nat>) returns (r: Result<seq<byte>>, pos: nat)
      requires Inv(State()) && file.head in heads
      requires HonestRead(Available(State(), file.head, offset), len, got)
      modifies file
      ensures r == ReadResult(State(), file.head, offset, got)
      ensures GivesRead(State(), file.head, offset, got, r)
      ensures offset / CONT_LEN < |Chain(State(), file.head)| ==>
                && pos == offset % CONT_LEN + (if got.Ok? then got.value else 0)
                && file.fPos == offset && file.size == |Flat(State(), file.head)|
      ensures offset / CONT_LEN >= |Chain(State(), file.head)| ==>
                pos == offset && file.fPos == old(file.fPos) && file.size == old(file.size)
    {
      PartStart(offset, 0);
      pos := offset;
      var found := GetContAtOffset(file.head, offset);
      match found {
        case Err(e) =>
          r := if e == ENOENT then Ok([]) else Err(e);
        case Ok(cont) =>
          var clientPos := offset - cont.cd.start;
          assert clientPos == ClientPos(offset, offset / CONT_LEN);
          pos := clientPos;
          if got.Ok? {
            var data := files[cont.at].data;
            r := Ok(if clientPos <= |data| then data[clientPos..][..got.value] else []);
            pos := clientPos + got.value;
          } else if got.error == ENODATA {
            r := Ok([]);
          } else {
            r := Err(got.error);
          }
          CloseContFile(file, clientPos, cont.cd.start);
      }
      ReadGiven(State(), file.head, offset, got);
    }

    /** The client's own write at its own position. */
    method ClientWrite(p: Loc, pos: nat, b: seq<byte>)
      requires p in files
      modifies this`files
      ensures State() == SplicedAt(old(State()), p, pos, b)
    {
      files := files[p := files[p].(data := Splice(files[p].data, pos, b))];
      assert State().inodes == SplicedAt(old(State()), p, pos, b).inodes;
    }

    /** The continuation a write goes to: the one that covers the offset, else a new one. */
    method ContForWrite(head: Loc, offset: nat, alloc: Option<nat>, room1: nat, room2: nat, refusal: Errno)
      returns (r: Extension)
      requires Inv(State()) && head in heads && HonestAlloc(State(), TailOf(State(), head), alloc)
      modifies this`files, this`names
      ensures r.Unloaded? <==> WriteAppends(old(State()), head, offset, alloc) && room1 < 4
      ensures if r.Unloaded?
              then StoppedAt(old(State()), TailOf(old(State()), head), alloc, room1, room2, State())
              else WriteCont(old(State()), head, offset, alloc, room2, r, State())
      ensures r.Extended? ==> r.cont.at in files
    {
      var found := GetContAtOffset(head, offset);
      match found {
        case Ok(cont) => r := Extended(cont);
        case Err(e) =>
          ghost var d := State();
          r := CreateContinuation(head, alloc, room1, room2, refusal);
          CreationEnds(d, TailOf(d, head), alloc, room1, room2, r, State());
          if room1 < 4 && r.Extended? {
            r := Unloaded(refusal);
          }
      }
    }

    /** The client's write, of as much as it takes: where it leaves `*ppos`. */
    method WriteTaken(p: Loc, clientPos: nat, bytes: seq<byte>, taken: Result<nat>) returns (pos: nat)
      requires p in files && (taken.Ok? ==> taken.value <= |bytes|)
      modifies this`files
      ensures State() == SplicedAt(old(State()), p, clientPos, Taken(bytes, taken))
      ensures pos == clientPos + |Taken(bytes, taken)|
    {
      EmptySplice(State(), p, clientPos);
      pos := clientPos;
      if taken.Ok? {
        ClientWrite(p, clientPos, bytes[..taken.value]);
        pos := clientPos + taken.value;
      }
    }

    /** The part of chunkfs_write after its continuation is open: `target` is the disk with the
        bytes in place. */
    method FinishWrite(file: OpenFile, cont: Cont, bytes: seq<byte>, offset: nat, taken: Result<nat>, ghost target: Disk)
      returns (pos: nat)
      requires cont.at in files && cont.cd.start <= offset && (taken.Ok? ==> taken.value <= |bytes|)
      requires target == SplicedAt(State(), cont.at, offset - cont.cd.start, Taken(bytes, taken))
      requires Inv(target) && file.head in target.heads
      modifies this`files, file
      ensures State() == target
      ensures file.fPos == offset && file.size == |Flat(target, file.head)|
      ensures pos == offset - cont.cd.start + |Taken(bytes, taken)|
    {
      var clientPos := offset - cont.cd.start;
      pos := WriteTaken(cont.at, clientPos, bytes, taken);
      CloseContFile(file, clientPos, cont.cd.start);
    }

    /** chunkfs_write. `pos` is what `*ppos` is left at. Should it create a continuation, the client
        takes `room1` and `room2` of the attribute writes; with the new record not all written
        it goes on with a record never loaded, or of mixed origin, and is not followed. */
    method Write(file: OpenFile, bytes: seq<byte>, offset: nat, answer: WriteAnswer, room1: nat, room2: nat, refusal: Errno)
      returns (r: WriteEnd, pos: nat)
      requires Inv(State()) && file.head in heads
      requires answer.taken.Ok? ==> answer.taken.value <= |bytes|
      requires HonestAlloc(State(), TailOf(State(), file.head), answer.alloc)
      modifies this`files, this`names, file
      ensures r.Astray? <==> WriteAppends(old(State()), file.head, offset, answer.alloc) && room1 < 4
      ensures r.Astray? ==> StoppedAt(old(State()), TailOf(old(State()), file.head), answer.alloc, room1, room2, State())
      ensures !r.Astray? ==>
                State() == WriteLeaves(old(State()), file.head, offset, Taken(bytes, answer.taken), answer.alloc, room2)
      ensures !r.Astray? ==> Inv(State()) && file.head in heads
      ensures !r.Astray? && WriteReaches(old(State()), file.head, offset, answer.alloc) ==>
                && r.result == answer.taken
                && file.fPos == offset && file.size == |Flat(State(), file.head)|
                && pos == PositionAfter(offset, |Chain(old(State()), file.head)|, |Taken(bytes, answer.taken)|)
      ensures !WriteReaches(old(State()), file.head, offset, answer.alloc) ==>
                r == Returned(Err(OpenResult(old(State()), TailOf(old(State()), file.head), answer.alloc).error))
      ensures r.Astray? || !WriteReaches(old(State()), file.head, offset, answer.alloc) ==>
                pos == offset && file.fPos == old(file.fPos) && file.size == old(file.size)
    {
      ghost var d := State();
      var found := ContForWrite(file.head, offset, answer.alloc, room1, room2, refusal);
      pos := offset;
      match found {
        case Unloaded(_) =>
          r := Astray;
        case Refused(e) =>
          WriteContFailed(d, file.head, offset, Taken(bytes, answer.taken), answer.alloc, room2, e, State());
          r := Returned(Err(e));
        case Extended(cont) =>
          ghost var target := WriteEnds(d, file.head, offset, Taken(bytes, answer.taken), answer.alloc, room2, cont, State());
          pos := FinishWrite(file, cont, bytes, offset, answer.taken, target);
          r := Returned(answer.taken);
      }
    }

    // ---- Creating, unlinking, repairing ------------------------------------------------------------

    /** chunkfs_create: the client makes an empty file at `p`, chunkfs_init_cont_data gives it its
        first record. If the client refuses that after `room` writes, its file stays as it is. */
    method CreateFile(p: Loc, room: nat, refusal: Errno) returns (r: Result<()>)
      requires p !in files
      modifies this`files, this`heads
      ensures r == if room >= 4 then Ok(()) else Err(refusal)
      ensures State() == if room >= 4 then WithNewFile(old(State()), p) else HalfNewFile(old(State()), p, room)
    {
      files := files[p := ClientFile(map[], [])];
      NewFileBySteps(old(State()), p, State(), room);
      r := SetContData(p, FIRST_DATA, room, refusal);
      if r.Ok? {
        heads := heads + {p};
      }
    }

    /** chunkfs_lookup of a name the client has: the record of a new file is written over the
        one found, and if all of it is, the inode is a user's file. */
    method LookupFile(p: Loc, room: nat, refusal: Errno) returns (r: Result<()>)
      requires p in files
      modifies this`files, this`heads
      ensures r == if room >= 4 then Ok(()) else Err(refusal)
      ensures State() == if room >= 4 then AfterLookup(old(State()), p)
                         else SetRec(old(State()), p,
                                     RecAfter(old(State()).inodes[p].rec, FIRST_DATA, room))
    {
      ghost var rec := State().inodes[p].rec;
      r := SetContData(p, FIRST_DATA, room, refusal);
      if r.Ok? {
        AllTaken(rec, FIRST_DATA, room);
        heads := heads + {p};
      }
    }

    /** chunkfs_unlink: the client frees the inode with its last name. */
    method Unlink(p: Loc, lastName: bool)
      requires p in heads
      modifies this`files, this`heads
      ensures State() == if lastName then WithoutHead(old(State()), p) else old(State())
    {
      if lastName {
        files := files - {p};
        heads := heads - {p};
        assert State().inodes == WithoutHead(old(State()), p).inodes;
      }
    }

    /** rm of one continuation file */
    method RemoveContinuation(n: Name)
      requires n in names
      modifies this`files, this`names
      ensures State().names == old(State()).names - {n}
      ensures State().inodes == old(State()).inodes - {Target(old(State()), n)}
      ensures State() == old(State()).(names := State().names, inodes := State().inodes)
    {
      files := files - {Loc(n.to, names[n])};
      names := names - {n};
    }

    /** The loop body of cross.sh: one continuation, removed if what it continues is not
        allocated. */
    method SweepOne(n: Name, ghost d: Disk, ghost swept: set<Name>) returns (ghost gone: set<Name>)
      requires Inv(d) && n in names && State() == Without(d, swept) && swept <= Dead(d)
      requires forall m :: m in Dead(d) && m.from.chunk < n.from.chunk ==> m in swept
      modifies this`files, this`names
      ensures gone == if Live(d, n) then swept else swept + {n}
      ensures State() == Without(d, gone) && names.Keys == old(names.Keys) - (gone - swept)
    {
      gone := swept;
      TestIsExact(d, swept, n);
      if n.from !in files {
        RemoveContinuation(n);
        WithoutOneMore(d, swept, n);
        gone := gone + {n};
      }
    }

    /** One directory of continuations: those in chunk `to` of inodes in chunk `from`. */
    method SweepDirectory(from: nat, to: nat, ghost d: Disk, ghost swept: set<Name>) returns (ghost gone: set<Name>)
      requires Inv(d) && State() == Without(d, swept) && Swept(d, swept, from, to)
      modifies this`files, this`names
      ensures State() == Without(d, gone) && Swept(d, gone, from, to + 1)
    {
      gone := swept;
      var listing := set n | n in names && n.to == to && n.from.chunk == from;
      while listing != {}
        invariant State() == Without(d, gone) && Swept(d, gone, from, to)
        invariant listing <= names.Keys && Listed(d, gone, listing, from, to)
        decreases listing
      {
        var n :| n in listing;
        ghost var before := gone;
        gone := SweepOne(n, d, gone);
        SweptOne(d, before, gone, n, listing, from, to);
        listing := listing - {n};
      }
    }

    /** cross.sh: for every source chunk in ascending order, for every chunk, for every file in
        that chunk's directory of continuations from the source chunk. */
    method RepairPass()
      requires Inv(State())
      modifies this`files, this`names
      ensures State() == Repaired(old(State()))
    {
      ghost var d := State();
      ghost var gone: set<Name> := {};
      assert Without(d, {}).inodes == d.inodes;
      SweepStarts(d);
      var from := 1;
      while from <= chunks
        invariant 1 <= from <= d.chunks + 1
        invariant State() == Without(d, gone) && Swept(d, gone, from, 1)
        decreases chunks + 1 - from
      {
        var to := 1;
        while to <= chunks
          invariant 1 <= to <= d.chunks + 1
          invariant State() == Without(d, gone) && Swept(d, gone, from, to)
          decreases chunks + 1 - to
        {
          gone := SweepDirectory(from, to, d, gone);
          to := to + 1;
        }
        SweptRow(d, gone, from);
        from := from + 1;
      }
      SweepEnds(d, gone);
    }
  }

  /** Only dead continuations are gone, and every dead one in a directory visited before (`from`,
      `to`) is. */
  ghost predicate Swept(d: Disk, gone: set<Name>, from: nat, to: nat)
    requires Inv(d)
  {
    && gone <= Dead(d)
    && forall m :: m in Dead(d) && (m.from.chunk < from || (m.from.chunk == from && m.to < to)) ==> m in gone
  }

  /** `listing` is what is still to be looked at in one directory. */
  ghost predicate Listed(d: Disk, gone: set<Name>, listing: set<Name>, from: nat, to: nat)
    requires Inv(d)
  {
    && (forall n :: n in listing ==> n in d.names && n.from.chunk == from)
    && (forall m :: m in Dead(d) && m.from.chunk == from && m.to == to ==> m in gone || m in listing)
  }

  lemma SweptOne(d: Disk, gone: set<Name>, gone': set<Name>, n: Name, listing: set<Name>, from: nat, to: nat)
    requires Inv(d) && Swept(d, gone, from, to) && Listed(d, gone, listing, from, to) && n in listing
    requires gone' == if Live(d, n) then gone else gone + {n}
    ensures Swept(d, gone', from, to) && Listed(d, gone', listing - {n}, from, to)
  {
  }

  lemma SweepStarts(d: Disk)
    requires Inv(d)
    ensures Swept(d, {}, 1, 1)
  {
    DeadInRange(d);
  }

  lemma SweptRow(d: Disk, gone: set<Name>, from: nat)
    requires Inv(d) && Swept(d, gone, from, d.chunks + 1)
    ensures Swept(d, gone, from + 1, 1)
  {
    DeadInRange(d);
  }

  lemma SweepEnds(d: Disk, gone: set<Name>)
    requires Inv(d) && Swept(d, gone, d.chunks + 1, 1)
    ensures gone == Dead(d)
  {
    DeadInRange(d);
  }

  /** Nothing past the last part; in a part the client's bytes from the place in it, its -ENODATA as
      an end, and any other error of its as it is. */
  ghost predicate GivesRead(d: Disk, h: Loc, offset: nat, got: Result<nat>, r: Result<seq<byte>>)
    requires Inv(d) && h in d.heads
  {
    var c, k, o := Chain(d, h), offset / CONT_LEN, offset % CONT_LEN;
    if k >= |c| then r == Ok([])
    else match got
      case Ok(m) =>
        && r.Ok? && |r.value| == m
        && forall i :: 0 <= i < m ==> o + i < |DataAt(d, c[k])| && r.value[i] == DataAt(d, c[k])[o + i]
      case Err(ENODATA) => r == Ok([])
      case Err(e) => r == Err(e)
  }

  lemma ReadGiven(d: Disk, h: Loc, offset: nat, got: Result<nat>)
    requires Inv(d) && h in d.heads && (got.Ok? ==> got.value <= |Available(d, h, offset)|)
    ensures GivesRead(d, h, offset, got, ReadResult(d, h, offset, got))
  {
    PartStart(offset, 0);
  }

  /** The end of chunkfs_create_continuation: the loaded continuation, or the open's error, or
      (after the writes) a record that does not load, and a continuation that was never set. */
  datatype Extension = Extended(cont: Cont) | Refused(e: Errno) | Unloaded(e: Errno)

  /** What loading the inode at `p` gives: all four attributes, or -ENODATA. */
  function LoadedAt(d: Disk, p: Loc): Result<Cont>
    requires p in d.inodes
  {
    match GetContData(d.inodes[p].rec)
    case Ok(cd) => Ok(Cont(p, cd))
    case Err(e) => Err(e)
  }

  lemma LoadIs(d: Disk, p: Loc)
    requires p in d.inodes
    ensures LoadCont(d, p) == match LoadedAt(d, p)
                              case Ok(cont) => Ok(Some(cont))
                              case Err(e) => Err(e)
  {
  }

  /** What a creation after tail `t` comes to when the client takes `room1` and `room2` of the
      attribute writes. */
  ghost predicate Extends(d: Disk, t: Cont, alloc: Option<nat>, room1: nat, room2: nat, r: Extension, d': Disk) {
    match OpenResult(d, t, alloc)
    case Err(e) => r == Refused(e) && d' == d
    case Ok(ino) =>
      && CanExtend(d, t, ino) && d' == Partial(d, t, ino, room1, room2) && NewLoc(t, ino) in d'.inodes
      && r == match LoadedAt(d', NewLoc(t, ino))
              case Ok(cont) => Extended(cont)
              case Err(e) => Unloaded(e)
  }

  /** The end of chunkfs_write. */
  datatype WriteEnd = Returned(result: Result<nat>) | Astray

  /** Creation has got as far as the client let it. */
  ghost predicate StoppedAt(d: Disk, t: Cont, alloc: Option<nat>, room1: nat, room2: nat, d': Disk) {
    && OpenResult(d, t, alloc).Ok? && CanExtend(d, t, OpenResult(d, t, alloc).value)
    && d' == Partial(d, t, OpenResult(d, t, alloc).value, room1, room2)
  }

  /** With all four writes of the new record taken it always loads. */
  lemma CreationEnds(d: Disk, t: Cont, alloc: Option<nat>, room1: nat, room2: nat, r: Extension, d': Disk)
    requires Extends(d, t, alloc, room1, room2, r, d')
    ensures if OpenResult(d, t, alloc).Ok? && room1 < 4 then StoppedAt(d, t, alloc, room1, room2, d')
            else CreateOutcome(d, t, alloc, room2, r, d')
    ensures r.Refused? <==> OpenResult(d, t, alloc).Err?
  {
    if OpenResult(d, t, alloc).Ok? && room1 >= 4 {
      var ino := OpenResult(d, t, alloc).value;
      AllTaken(OpenOrCreate(d, t, ino).inodes[NewLoc(t, ino)].rec, NewData(t), room1);
      AllTaken(OpenOrCreate(d, t, ino).inodes[NewLoc(t, ino)].rec, NewData(t), 4);
    }
  }

  /** What a creation after tail `t` may come to when the new record is written in full. */
  ghost predicate CreateOutcome(d: Disk, t: Cont, alloc: Option<nat>, room2: nat, r: Extension, d': Disk) {
    match OpenResult(d, t, alloc)
    case Err(e) => r == Refused(e) && d' == d
    case Ok(ino) =>
      CanExtend(d, t, ino) && d' == Partial(d, t, ino, 4, room2) && r == Extended(Cont(NewLoc(t, ino), NewData(t)))
  }

  /** The part a write goes to: the one that covers the offset, or the one after the last. */
  function Piece(offset: nat, parts: nat): nat {
    if offset / CONT_LEN < parts then offset / CONT_LEN else parts
  }

  lemma PieceStart(offset: nat, parts: nat)
    ensures Piece(offset, parts) * CONT_LEN <= offset
  {
    PartStart(offset, parts);
  }

  /** The continuation found starts where its piece does. */
  lemma WriteContStart(d: Disk, h: Loc, offset: nat, alloc: Option<nat>, room2: nat, cont: Cont, d1: Disk)
    requires Inv(d) && h in d.heads && WriteCont(d, h, offset, alloc, room2, Extended(cont), d1)
    ensures WriteReaches(d, h, offset, alloc)
    ensures cont.cd.start == Piece(offset, |Chain(d, h)|) * CONT_LEN
  {
    if offset / CONT_LEN >= |Chain(d, h)| {
      TailRecord(d, h);
    }
  }

  lemma WriteContFailed(d: Disk, h: Loc, offset: nat, b: seq<byte>, alloc: Option<nat>, room2: nat, e: Errno, d1: Disk)
    requires Inv(d) && h in d.heads && HonestAlloc(d, TailOf(d, h), alloc)
    requires WriteCont(d, h, offset, alloc, room2, Refused(e), d1)
    ensures !WriteReaches(d, h, offset, alloc) && OpenResult(d, TailOf(d, h), alloc) == Err(e)
    ensures d1 == d == WriteLeaves(d, h, offset, b, alloc, room2)
  {
    WriteRefused(d, h, offset, b, alloc);
  }

  /** The bytes go where `WriteLeaves` says, whichever way the continuation was found. */
  lemma WriteDiskIs(d: Disk, h: Loc, offset: nat, b: seq<byte>, alloc: Option<nat>, room2: nat, cont: Cont, d1: Disk, o: nat)
    requires Inv(d) && h in d.heads && HonestAlloc(d, TailOf(d, h), alloc)
    requires WriteCont(d, h, offset, alloc, room2, Extended(cont), d1)
    requires Piece(offset, |Chain(d, h)|) * CONT_LEN <= offset && o == ClientPos(offset, Piece(offset, |Chain(d, h)|))
    ensures SplicedAt(d1, cont.at, o, b) == WriteLeaves(d, h, offset, b, alloc, room2)
  {
    if offset / CONT_LEN >= |Chain(d, h)| {
      AppendedWithIs(d, h, o, b, alloc, room2, cont, d1);
    }
  }

  /** Where in its continuation a write begins and ends. */
  lemma WritePlace(d: Disk, h: Loc, offset: nat, taken: nat, alloc: Option<nat>, room2: nat, cont: Cont, d1: Disk)
    requires Inv(d) && h in d.heads && WriteCont(d, h, offset, alloc, room2, Extended(cont), d1)
    ensures WriteReaches(d, h, offset, alloc) && Piece(offset, |Chain(d, h)|) * CONT_LEN == cont.cd.start <= offset
    ensures offset - cont.cd.start == ClientPos(offset, Piece(offset, |Chain(d, h)|))
    ensures offset - cont.cd.start + taken == PositionAfter(offset, |Chain(d, h)|, taken)
  {
    WriteContStart(d, h, offset, alloc, room2, cont, d1);
    PositionIs(offset, |Chain(d, h)|, cont.cd.start, taken);
  }

  /** The disk after it. */
  lemma WriteTarget(d: Disk, h: Loc, offset: nat, b: seq<byte>, alloc: Option<nat>, room2: nat, cont: Cont, d1: Disk, o: nat)
    requires Inv(d) && h in d.heads && HonestAlloc(d, TailOf(d, h), alloc)
    requires WriteCont(d, h, offset, alloc, room2, Extended(cont), d1)
    requires Piece(offset, |Chain(d, h)|) * CONT_LEN <= offset && o == ClientPos(offset, Piece(offset, |Chain(d, h)|))
    ensures SplicedAt(d1, cont.at, o, b) == WriteLeaves(d, h, offset, b, alloc, room2)
    ensures Inv(WriteLeaves(d, h, offset, b, alloc, room2)) && h in WriteLeaves(d, h, offset, b, alloc, room2).heads
  {
    WriteLeavesInv(d, h, offset, b, alloc, room2);
    WriteDiskIs(d, h, offset, b, alloc, room2, cont, d1, o);
  }

  /** All that is left of a write once its continuation is open. */
  lemma WriteEnds(d: Disk, h: Loc, offset: nat, b: seq<byte>, alloc: Option<nat>, room2: nat, cont: Cont, d1: Disk)
    returns (target: Disk)
    requires Inv(d) && h in d.heads && HonestAlloc(d, TailOf(d, h), alloc)
    requires WriteCont(d, h, offset, alloc, room2, Extended(cont), d1)
    ensures WriteReaches(d, h, offset, alloc) && cont.cd.start <= offset
    ensures target == WriteLeaves(d, h, offset, b, alloc, room2)
    ensures target == SplicedAt(d1, cont.at, offset - cont.cd.start, b)
    ensures Inv(target) && h in target.heads
    ensures offset - cont.cd.start + |b| == PositionAfter(offset, |Chain(d, h)|, |b|)
  {
    WritePlace(d, h, offset, |b|, alloc, room2, cont, d1);
    WriteTarget(d, h, offset, b, alloc, room2, cont, d1, offset - cont.cd.start);
    target := WriteLeaves(d, h, offset, b, alloc, room2);
  }

  lemma PositionIs(offset: nat, parts: nat, start: nat, taken: nat)
    requires start == Piece(offset, parts) * CONT_LEN
    ensures start <= offset && offset - start + taken == PositionAfter(offset, parts, taken)
    ensures offset - start == ClientPos(offset, Piece(offset, parts))
  {
    PieceStart(offset, parts);
  }

  lemma AppendedWithIs(d: Disk, h: Loc, o: nat, b: seq<byte>, alloc: Option<nat>, room2: nat, cont: Cont, d1: Disk)
    requires Inv(d) && h in d.heads && HonestAlloc(d, TailOf(d, h), alloc)
    requires CreateOutcome(d, TailOf(d, h), alloc, room2, Extended(cont), d1)
    ensures OpenResult(d, TailOf(d, h), alloc).Ok?
    ensures SplicedAt(d1, cont.at, o, b)
         == if room2 == 0 then UnlinkedDisk(d, h, o, b, alloc) else AppendedWith(d, h, o, b, alloc)
  {
    if room2 >= 1 {
      OneWriteLinks(d, TailOf(d, h), OpenResult(d, TailOf(d, h), alloc).value, room2);
    }
  }

  /** Which continuation a write goes to, and the disk it finds there. */
  ghost predicate WriteCont(d: Disk, h: Loc, offset: nat, alloc: Option<nat>, room2: nat, r: Extension, d1: Disk)
    requires Inv(d) && h in d.heads
  {
    var c, k := Chain(d, h), offset / CONT_LEN;
    if k < |c| then d1 == d && r.Extended? && r.cont.at == c[k] && r.cont.cd.start == k * CONT_LEN
    else CreateOutcome(d, TailOf(d, h), alloc, room2, r, d1)
  }

  // ---- Lemmas for the methods -------------------------------------------------------------------

  lemma {:induction false} TotalOfMore(parts: seq<seq<byte>>, i: nat)
    requires i < |parts|
    ensures TotalSize(parts[..i + 1]) == TotalSize(parts[..i]) + |parts[i]|
  {
    if i == 0 {
      assert parts[..1][1..] == [] && parts[..0] == [];
    } else {
      assert parts[..i + 1][1..] == parts[1..][..i] && parts[..i][1..] == parts[1..][..i - 1];
      TotalOfMore(parts[1..], i - 1);
    }
  }

  /** A write that takes nothing splices nothing. */
  lemma EmptySplice(d: Disk, p: Loc, o: nat)
    ensures SplicedAt(d, p, o, []) == d
  {
    assert SplicedAt(d, p, o, []).inodes == d.inodes;
  }

  function AttrNo(j: nat): Attr {
    match j case 0 => NextAttr case 1 => PrevAttr case 2 => StartAttr case _ => LenAttr
  }

  function ValueNo(cd: ContData, j: nat): u64 {
    match j case 0 => cd.next case 1 => cd.prev case 2 => cd.start case _ => cd.len
  }

  /** `d'` is `d` with the first `j` attributes of `cd` written over the record of `p`. */
  ghost predicate Wrote(d: Disk, d': Disk, p: Loc, cd: ContData, j: nat) {
    p in d.inodes && d' == SetRec(d, p, RecAfter(d.inodes[p].rec, cd, j))
  }

  lemma NothingWritten(d: Disk, p: Loc, cd: ContData)
    requires p in d.inodes
    ensures Wrote(d, d, p, cd, 0)
  {
    assert SetRec(d, p, d.inodes[p].rec).inodes == d.inodes;
  }

  /** Writing attribute j after the first j is writing the first j + 1. */
  lemma AttrWritten(d: Disk, d': Disk, p: Loc, cd: ContData, j: nat)
    requires Wrote(d, d', p, cd, j) && j < 4
    ensures Wrote(d, SetRec(d', p, WithAttr(d'.inodes[p].rec, AttrNo(j), ValueNo(cd, j))), p, cd, j + 1)
  {
    var r := d.inodes[p].rec;
    assert WithAttr(RecAfter(r, cd, j), AttrNo(j), ValueNo(cd, j)) == RecAfter(r, cd, j + 1);
    assert SetRec(d', p, RecAfter(r, cd, j + 1)).inodes == SetRec(d, p, RecAfter(r, cd, j + 1)).inodes;
  }

  /** What four attributes or the first refusal leave is what `room` writes leave. */
  lemma AllWritten(d: Disk, d': Disk, p: Loc, cd: ContData, room: nat)
    requires Wrote(d, d', p, cd, if room < 4 then room else 4)
    ensures p in d.inodes && d' == SetRec(d, p, RecAfter(d.inodes[p].rec, cd, room))
    ensures room >= 4 ==> d' == SetRec(d, p, Written(cd))
  {
  }

  lemma AllTaken(r: Rec, cd: ContData, room: nat)
    requires room >= 4
    ensures RecAfter(r, cd, room) == Written(cd)
  {
  }

  /** Making an inode and then writing its first record: half a new file, or a whole one. */
  lemma NewFileBySteps(d: Disk, p: Loc, d1: Disk, room: nat)
    requires d1.inodes == d.inodes[p := Inode(NO_REC, [])] && d1 == d.(inodes := d1.inodes)
    ensures SetRec(d1, p, RecAfter(d1.inodes[p].rec, FIRST_DATA, room)) == HalfNewFile(d, p, room)
    ensures room >= 4 ==> HalfNewFile(d, p, room).(heads := d.heads + {p}) == WithNewFile(d, p)
  {
    assert SetRec(d1, p, RecAfter(NO_REC, FIRST_DATA, room)).inodes == HalfNewFile(d, p, room).inodes;
  }

  /** Opening, then the writes to the new record, then those to the tail's: `Partial`. */
  lemma PartialBySteps(d: Disk, t: Cont, ino: nat, j1: nat, j2: nat)
    requires CanExtend(d, t, ino)
    ensures var o, added := OpenOrCreate(d, t, ino), NewLoc(t, ino);
            && added in o.inodes && t.at in o.inodes && t.at != added
            && var o1 := SetRec(o, added, RecAfter(o.inodes[added].rec, NewData(t), j1));
               SetRec(o1, t.at, RecAfter(o1.inodes[t.at].rec, TailData(t, added), j2)) == Partial(d, t, ino, j1, j2)
  {
    var o, added := OpenOrCreate(d, t, ino), NewLoc(t, ino);
    var o1 := SetRec(o, added, RecAfter(o.inodes[added].rec, NewData(t), j1));
    var o2 := SetRec(o1, t.at, RecAfter(o1.inodes[t.at].rec, TailData(t, added), j2));
    assert o2.inodes == Partial(d, t, ino, j1, j2).inodes;
  }

  /** Where `*ppos` ends up: a position inside the client file. */
  function PositionAfter(offset: nat, parts: nat, taken: nat): int {
    offset - Piece(offset, parts) * CONT_LEN + taken
  }

  /** Sequential I/O goes on from `*ppos`, so it continues where it should exactly when the
      piece just accessed is the first. */
  lemma SequentialIff(offset: nat, parts: nat, taken: nat)
    requires parts >= 1
    ensures PositionAfter(offset, parts, taken) == offset + taken <==> offset < CONT_LEN
  {
  }

  lemma WithoutOneMore(d: Disk, gone: set<Name>, n: Name)
    requires Inv(d) && n in d.names && n !in gone && gone <= d.names.Keys
    ensures Without(d, gone + {n}).names == Without(d, gone).names - {n}
    ensures Without(d, gone + {n}).inodes == Without(d, gone).inodes - {Target(d, n)}
  {
  }

  lemma DeadInRange(d: Disk)
    requires Inv(d)
    ensures forall m :: m in Dead(d) ==> 1 <= m.from.chunk <= d.chunks && 1 <= m.to <= d.chunks
  {
    forall m | m in Dead(d)
      ensures 1 <= m.from.chunk <= d.chunks && 1 <= m.to <= d.chunks
    {
      assert NameOk(d, m);
    }
  }
}

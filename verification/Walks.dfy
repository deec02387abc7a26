/** The two ways cont.c goes from one part of a file to the next: by the constructed path
    of the continuation file (chunkfs_get_next_cont) and by the packed inode number found
    in "next" (chunkfs_get_next_inode). */
module Walks {
  import opened Outcomes
  import opened PackedNumber
  import opened Continuations

  /** struct chunkfs_continuation: where it is (co_chunk_id, co_uino) and its record. */
  datatype Cont = Cont(at: Loc, cd: ContData)

  /** get_cont_data: all four attributes, or -ENODATA. */
  function GetContData(r: Rec): Result<ContData> {
    if Complete(r) then Ok(ContData(r.next.value, r.prev.value, r.start.value, r.len.value))
    else Err(ENODATA)
  }

  /** load_continuation. A directory entry without its inode is an I/O error of the client. */
  function LoadCont(d: Disk, p: Loc): Result<Option<Cont>> {
    if p !in d.inodes then Err(EIO)
    else match GetContData(d.inodes[p].rec)
    case Ok(cd) => Ok(Some(Cont(p, cd)))
    case Err(e) => Err(e)
  }

  /** chunkfs_get_next_cont: only the chunk id of "next" goes into the path. */
  function NextCont(d: Disk, head: Loc, prev: Option<Cont>): Result<Option<Cont>>
    requires InRange(head)
  {
    match prev
    case None => LoadCont(d, head)
    case Some(c) =>
      if c.cd.next == PackLoc(head) || c.cd.next == 0 then Ok(None)
      else
        var name := Name(ChunkIdOf(c.cd.next), c.at);
        if name !in d.names then Err(ENOENT)
        else LoadCont(d, Target(d, name))
  }

  /** chunkfs_get_next_inode: both halves of "next" are used, the directories are not. */
  function NextInode(d: Disk, head: Loc, prev: Option<Loc>): Result<Option<Loc>>
    requires prev.Some? ==> prev.value in d.inodes
  {
    match prev
    case None => Ok(Some(head))
    case Some(p) =>
      match GetContData(d.inodes[p].rec)
      case Err(e) => Err(e)
      case Ok(cd) =>
        if cd.next == 0 then Ok(None)
        else
          var q := Loc(ChunkIdOf(cd.next), InoOf(cd.next));
          if q in d.inodes then Ok(Some(q)) else Err(EIO)
  }

  /** The loaded continuation of an inode whose record is complete. */
  function ContAt(d: Disk, p: Loc): Cont
    requires p in d.inodes && Complete(d.inodes[p].rec)
  {
    Cont(p, GetContData(d.inodes[p].rec).value)
  }

  predicate Covers(cd: ContData, offset: nat) {
    cd.start <= offset < Add64(cd.start, cd.len)
  }

  /** One step on any disk whatever, in order or not: an end mark or the head's own number ends the
      walk; no name in the chunk that "next" gives is -ENOENT, a name without its inode -EIO, a
      record that lacks an attribute -ENODATA; else the continuation under that name is next. */
  lemma NextContCases(d: Disk, h: Loc, c: Cont)
    requires InRange(h)
    ensures var next, name := c.cd.next, Name(ChunkIdOf(c.cd.next), c.at);
            var r := NextCont(d, h, Some(c));
            && (next == 0 || next == PackLoc(h) <==> r == Ok(None))
            && (next != 0 && next != PackLoc(h) ==>
                  && (name !in d.names <==> r == Err(ENOENT))
                  && (name in d.names ==>
                        var p := Loc(name.to, d.names[name]);
                        && (p !in d.inodes <==> r == Err(EIO))
                        && (p in d.inodes ==>
                              && (Complete(d.inodes[p].rec) <==> r.Ok?) && (r.Err? <==> r == Err(ENODATA))
                              && (r.Ok? ==> r.value.Some? && r.value.value.at == p && Written(r.value.value.cd) == d.inodes[p].rec))))
  {
  }

  /** The same for the walk by number: a record that lacks an attribute is -ENODATA, the end mark
      ends it, a number no inode has is -EIO, and else the inode of that number is next. */
  lemma NextInodeCases(d: Disk, h: Loc, p: Loc)
    requires p in d.inodes
    ensures var rec, r := d.inodes[p].rec, NextInode(d, h, Some(p));
            && (!Complete(rec) <==> r == Err(ENODATA))
            && (Complete(rec) ==>
                  var q := Loc(ChunkIdOf(rec.next.value), InoOf(rec.next.value));
                  && (rec.next.value == 0 <==> r == Ok(None))
                  && (rec.next.value != 0 ==> r == if q in d.inodes then Ok(Some(q)) else Err(EIO)))
  {
  }

  /** From the i-th element of a file both walks step to the same next element, or both end;
      the chunk they ask for is always one of the pool's (the two BUG_ONs cannot fire). */
  lemma StepsAgree(d: Disk, h: Loc, i: nat)
    requires Inv(d) && h in d.heads
    ensures h in d.inodes && InRange(h) && RecordsAre(d, Chain(d, h))
    ensures i < |Chain(d, h)| ==>
      var c := Chain(d, h);
      var next := if i + 1 < |c| then Some(c[i + 1]) else None;
      && RecordIs(d, c, i)
      && (next.Some? ==> RecordIs(d, c, i + 1))
      && NextInode(d, h, Some(c[i])) == Ok(next)
      && NextCont(d, h, Some(ContAt(d, c[i]))) == Ok(if next.Some? then Some(ContAt(d, next.value)) else None)
      && (next.Some? ==> 1 <= ChunkIdOf(ContAt(d, c[i]).cd.next) <= d.chunks)
  {
    HeadRecords(d, h);
    if i < |Chain(d, h)| {
      var c := Chain(d, h);
      ChainShape(d, h);
      assert RecordIs(d, c, i);
      assert c[0] == h;
      if i + 1 < |c| {
        assert RecordIs(d, c, i + 1) && ChainLink(d, c, i) && LinkOk(d, c[i]);
        PackInjective(c[i + 1].chunk, c[i + 1].ino, h.chunk, h.ino);
      }
    }
  }

  lemma WalksStart(d: Disk, h: Loc)
    requires Inv(d) && h in d.heads
    ensures h in d.inodes && InRange(h) && Complete(d.inodes[h].rec)
    ensures NextCont(d, h, None) == Ok(Some(ContAt(d, h)))
    ensures NextInode(d, h, None) == Ok(Some(h))
  {
    assert HeadOk(d, h);
  }

  // ---- Whole walks ------------------------------------------------------------------------

  /** The continuations a path walk visits after `prev`, cut off after `hops`. */
  function PathTrail(d: Disk, head: Loc, prev: Option<Cont>, hops: nat): seq<Cont>
    requires InRange(head)
    decreases hops
  {
    match NextCont(d, head, prev)
    case Ok(Some(c)) => if hops == 0 then [] else [c] + PathTrail(d, head, Some(c), hops - 1)
    case _ => []
  }

  /** The inodes a walk by number visits after `prev`, cut off after `hops`. */
  function NumberTrail(d: Disk, head: Loc, prev: Option<Loc>, hops: nat): seq<Loc>
    requires head in d.inodes && (prev.Some? ==> prev.value in d.inodes)
    decreases hops
  {
    match NextInode(d, head, prev)
    case Ok(Some(p)) => if hops == 0 then [] else [p] + NumberTrail(d, head, Some(p), hops - 1)
    case _ => []
  }

  /** From `ks[i]` a path step leads to `ks[i + 1]`, or ends after the last. */
  ghost predicate PathStep(d: Disk, h: Loc, ks: seq<Cont>, i: nat)
    requires InRange(h) && i < |ks|
  {
    NextCont(d, h, Some(ks[i])) == Ok(if i + 1 < |ks| then Some(ks[i + 1]) else None)
  }

  ghost predicate NumberStep(d: Disk, h: Loc, c: seq<Loc>, i: nat)
    requires i < |c|
  {
    && c[i] in d.inodes
    && NextInode(d, h, Some(c[i])) == Ok(if i + 1 < |c| then Some(c[i + 1]) else None)
  }

  lemma {:induction false} PathTrailFrom(d: Disk, h: Loc, ks: seq<Cont>, i: nat, hops: nat)
    requires InRange(h) && (forall j :: 0 <= j < |ks| ==> PathStep(d, h, ks, j))
    requires i < |ks| <= i + 1 + hops
    ensures PathTrail(d, h, Some(ks[i]), hops) == ks[i + 1..]
    decreases hops
  {
    assert PathStep(d, h, ks, i);
    if i + 1 < |ks| {
      PathTrailFrom(d, h, ks, i + 1, hops - 1);
      assert ks[i + 1..] == [ks[i + 1]] + ks[i + 2..];
    }
  }

  lemma {:induction false} NumberTrailFrom(d: Disk, h: Loc, c: seq<Loc>, i: nat, hops: nat)
    requires h in d.inodes && (forall j :: 0 <= j < |c| ==> NumberStep(d, h, c, j))
    requires i < |c| <= i + 1 + hops && NumberStep(d, h, c, i)
    ensures c[i] in d.inodes && NumberTrail(d, h, Some(c[i]), hops) == c[i + 1..]
    decreases hops
  {
    assert NumberStep(d, h, c, i);
    if i + 1 < |c| {
      NumberTrailFrom(d, h, c, i + 1, hops - 1);
      assert c[i + 1..] == [c[i + 1]] + c[i + 2..];
    }
  }

  /** The loaded continuations of a file, in order. */
  ghost function Conts(d: Disk, h: Loc): (ks: seq<Cont>)
    requires Inv(d) && h in d.heads
    ensures |ks| == |Chain(d, h)|
  {
    HeadRecords(d, h);
    var c := Chain(d, h);
    seq(|c|, i requires 0 <= i < |c| => assert RecordIs(d, c, i); ContAt(d, c[i]))
  }

  lemma StepsOfChain(d: Disk, h: Loc)
    requires Inv(d) && h in d.heads
    ensures InRange(h)
    ensures forall i :: 0 <= i < |Conts(d, h)| ==> PathStep(d, h, Conts(d, h), i)
    ensures forall i :: 0 <= i < |Chain(d, h)| ==> NumberStep(d, h, Chain(d, h), i)
  {
    StepsAgree(d, h, 0);
    forall i | 0 <= i < |Chain(d, h)|
      ensures PathStep(d, h, Conts(d, h), i)
    {
      StepsAgree(d, h, i);
    }
    forall i | 0 <= i < |Chain(d, h)|
      ensures NumberStep(d, h, Chain(d, h), i)
    {
      StepsAgree(d, h, i);
    }
  }

  lemma TrailsFromHead(d: Disk, h: Loc, c: seq<Loc>, ks: seq<Cont>, hops: nat)
    requires h in d.inodes && InRange(h)
    requires 1 <= |c| == |ks| <= hops
    requires forall i :: 0 <= i < |ks| ==> PathStep(d, h, ks, i)
    requires forall i :: 0 <= i < |c| ==> NumberStep(d, h, c, i)
    requires NextCont(d, h, None) == Ok(Some(ks[0])) && NextInode(d, h, None) == Ok(Some(c[0]))
    ensures PathTrail(d, h, None, hops) == ks && NumberTrail(d, h, None, hops) == c
  {
    PathTrailFrom(d, h, ks, 0, hops - 1);
    NumberTrailFrom(d, h, c, 0, hops - 1);
    assert c == [c[0]] + c[1..] && ks == [ks[0]] + ks[1..];
  }

  /** Both walks from a head visit exactly its chain, in the same order, and both have ended
      within 16 hops. */
  lemma WalksAgree(d: Disk, h: Loc, hops: nat)
    requires Inv(d) && h in d.heads && hops >= 16
    ensures h in d.inodes && InRange(h)
    ensures NumberTrail(d, h, None, hops) == Chain(d, h)
    ensures |PathTrail(d, h, None, hops)| == |Chain(d, h)|
    ensures forall i :: 0 <= i < |Chain(d, h)| ==> PathTrail(d, h, None, hops)[i].at == Chain(d, h)[i]
  {
    WalksStart(d, h);
    HeadRecords(d, h);
    StepsOfChain(d, h);
    ChainShape(d, h);
    TrailsFromHead(d, h, Chain(d, h), Conts(d, h), hops);
  }

  /** Where a walk over `s` stands before and at its i-th element. */
  function Before<T>(s: seq<T>, i: nat): Option<T>
    requires i <= |s|
  {
    if i == 0 then None else Some(s[i - 1])
  }

  function At<T>(s: seq<T>, i: nat): Option<T> {
    if i < |s| then Some(s[i]) else None
  }

  /** The i-th call of a loop over chunkfs_get_next_cont, or over chunkfs_get_next_inode. */
  lemma IthStep(d: Disk, h: Loc, i: nat)
    requires Inv(d) && h in d.heads && i <= |Chain(d, h)|
    ensures InRange(h) && |Chain(d, h)| >= 1
    ensures i < |Chain(d, h)| ==> Conts(d, h)[i].at == Chain(d, h)[i] && Chain(d, h)[i] in d.inodes
    ensures NextCont(d, h, Before(Conts(d, h), i)) == Ok(At(Conts(d, h), i))
    ensures i > 0 ==> Chain(d, h)[i - 1] in d.inodes
    ensures NextInode(d, h, Before(Chain(d, h), i)) == Ok(At(Chain(d, h), i))
  {
    var c, ks := Chain(d, h), Conts(d, h);
    WalksStart(d, h);
    ChainShape(d, h);
    StepsOfChain(d, h);
    if i > 0 {
      assert PathStep(d, h, ks, i - 1) && NumberStep(d, h, c, i - 1);
    }
  }

  lemma RangeIsDivision(i: nat, offset: nat)
    requires i < 16
    ensures Covers(ContData(0, 0, i * CONT_LEN, CONT_LEN), offset) <==> offset / CONT_LEN == i
  {
  }

  /** Element i covers exactly the offsets that divide to i. */
  lemma CoversIsDivision(d: Disk, h: Loc, i: nat, offset: nat)
    requires Inv(d) && h in d.heads
    ensures h in d.inodes && RecordsAre(d, Chain(d, h))
    ensures i < |Chain(d, h)| ==>
      RecordIs(d, Chain(d, h), i) &&
      (Covers(ContAt(d, Chain(d, h)[i]).cd, offset) <==> offset / CONT_LEN == i)
  {
    HeadRecords(d, h);
    if i < |Chain(d, h)| {
      assert RecordIs(d, Chain(d, h), i);
      RangeIsDivision(i, offset);
    }
  }
}

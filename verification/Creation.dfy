/** chunkfs_create_continuation (cont.c:355-438) as the steps that reach the disk: opening the
    file with O_CREAT, four attribute writes on it, four on the old tail. A crash, or an
    observer, can see the disk between any two of them; several creators can interleave. */
module Creation {
  import opened Outcomes
  import opened PackedNumber
  import opened Continuations
  import opened Walks

  /** The record given to the new inode (cont.c:413-416). */
  function NewData(t: Cont): ContData
    requires InRange(t.at)
  {
    ContData(0, PackLoc(t.at), Add64(t.cd.start, t.cd.len), CONT_LEN)
  }

  /** The old tail's record, rewritten with its "next" (cont.c:419-421). */
  function TailData(t: Cont, added: Loc): ContData
    requires InRange(added)
  {
    t.cd.(next := PackLoc(added))
  }

  function NewLoc(t: Cont, ino: nat): Loc {
    Loc(t.at.chunk + 1, ino)
  }

  /** The first `j` of set_cont_data's writes, in its order: next, prev, start, len. */
  function RecAfter(r: Rec, cd: ContData, j: nat): Rec {
    Rec(if j >= 1 then Some(cd.next) else r.next,
        if j >= 2 then Some(cd.prev) else r.prev,
        if j >= 3 then Some(cd.start) else r.start,
        if j >= 4 then Some(cd.len) else r.len)
  }

  /** One write of set_cont_data: attribute number `k` of 0..3. */
  function PutAttr(r: Rec, cd: ContData, k: nat): Rec {
    match k
    case 0 => r.(next := Some(cd.next))
    case 1 => r.(prev := Some(cd.prev))
    case 2 => r.(start := Some(cd.start))
    case _ => r.(len := Some(cd.len))
  }

  function SetRec(d: Disk, p: Loc, r: Rec): Disk
    requires p in d.inodes
  {
    d.(inodes := d.inodes[p := d.inodes[p].(rec := r)])
  }

  /** filp_open with O_CREAT and without O_EXCL: an existing file is opened as it is. */
  function OpenOrCreate(d: Disk, t: Cont, ino: nat): Disk {
    if NameOf(t.at) in d.names then d
    else d.(names := d.names[NameOf(t.at) := ino],
            inodes := d.inodes[NewLoc(t, ino) := Inode(NO_REC, [])])
  }

  /** Step `k` of creation after tail `t`: 0 opens, 1..4 write the new record, 5..8 the
      tail's. */
  function Step(d: Disk, t: Cont, ino: nat, k: nat): Disk
    requires InRange(t.at) && InRange(NewLoc(t, ino))
    requires k >= 1 ==> NewLoc(t, ino) in d.inodes && t.at in d.inodes
  {
    var added := NewLoc(t, ino);
    if k == 0 then OpenOrCreate(d, t, ino)
    else if k <= 4 then SetRec(d, added, PutAttr(d.inodes[added].rec, NewData(t), k - 1))
    else SetRec(d, t.at, PutAttr(d.inodes[t.at].rec, TailData(t, added), k - 5))
  }

  /** The disk once the file is open, `j1` attributes of the new inode and `j2` of the tail
      are written. */
  function Partial(d: Disk, t: Cont, ino: nat, j1: nat, j2: nat): Disk
    requires InRange(t.at) && InRange(NewLoc(t, ino)) && t.at in d.inodes
    requires NameOf(t.at) in d.names ==> NewLoc(t, ino) in d.inodes
  {
    var added := NewLoc(t, ino);
    var o := OpenOrCreate(d, t, ino);
    o.(inodes := o.inodes[added := o.inodes[added].(rec := RecAfter(o.inodes[added].rec, NewData(t), j1))]
                         [t.at := d.inodes[t.at].(rec := RecAfter(d.inodes[t.at].rec, TailData(t, added), j2))])
  }

  /** The disk after the first `m` of the nine steps. */
  function StateAfter(d: Disk, t: Cont, ino: nat, m: nat): Disk
    requires InRange(t.at) && InRange(NewLoc(t, ino)) && t.at in d.inodes
    requires NameOf(t.at) in d.names ==> NewLoc(t, ino) in d.inodes
  {
    if m == 0 then d
    else Partial(d, t, ino, if m <= 5 then m - 1 else 4, if m <= 5 then 0 else m - 5)
  }

  /** What the client file system owes when it creates an inode: one that is free. */
  predicate Allocatable(d: Disk, p: Loc) {
    InRange(p) && p.chunk <= d.chunks && p !in d.inodes
  }

  /** `t` is the loaded tail of file `h`. */
  ghost predicate IsTail(d: Disk, h: Loc, t: Cont)
    requires Inv(d)
  {
    && h in d.heads && HeadOk(d, h)
    && t.at == Last(Chain(d, h)) && t.at in d.inodes
    && d.inodes[t.at].rec == Written(t.cd) && t.cd.next == 0
  }

  function Last<T>(s: seq<T>): T
    requires |s| >= 1
  {
    s[|s| - 1]
  }

  /** Creation after `t` gets past its open, with inode number `ino`. */
  predicate Opens(d: Disk, t: Cont, ino: nat) {
    && (t.at.chunk + 1, t.at.chunk) in d.dirs
    && if NameOf(t.at) in d.names then d.names[NameOf(t.at)] == ino
       else Allocatable(d, NewLoc(t, ino))
  }

  lemma OpensInRange(d: Disk, t: Cont, ino: nat)
    requires Inv(d) && t.at in d.inodes && Opens(d, t, ino)
    ensures InRange(t.at) && InRange(NewLoc(t, ino)) && NewLoc(t, ino) !in d.heads
    ensures NameOf(t.at) in d.names <==> NewLoc(t, ino) in d.inodes
  {
    if NameOf(t.at) in d.names {
      assert NameOk(d, NameOf(t.at));
      assert NewLoc(t, ino) == Target(d, NameOf(t.at));
    } else {
      assert NewLoc(t, ino) in d.heads ==> HeadOk(d, NewLoc(t, ino));
    }
  }

  // ---- The invariant survives every prefix ---------------------------------------------------

  /** Everything `Partial` asks for: the file can be opened and the tail is unlinked. */
  ghost predicate CanExtend(d: Disk, t: Cont, ino: nat) {
    && Inv(d) && t.at in d.inodes && Opens(d, t, ino)
    && InRange(t.at) && InRange(NewLoc(t, ino)) && NewLoc(t, ino) !in d.heads
    && (NameOf(t.at) in d.names <==> NewLoc(t, ino) in d.inodes)
    && d.inodes[t.at].rec == Written(t.cd) && t.cd.next == 0
  }

  lemma TailCanExtend(d: Disk, h: Loc, t: Cont, ino: nat)
    requires Inv(d) && IsTail(d, h, t) && Opens(d, t, ino)
    ensures CanExtend(d, t, ino)
  {
    OpensInRange(d, t, ino);
  }

  /** The new inode is no element's successor yet. */
  lemma NewIsNoSucc(d: Disk, t: Cont, ino: nat, p: Loc)
    requires CanExtend(d, t, ino) && p in d.inodes && Linked(d, p)
    ensures p != t.at && Succ(d, p) != NewLoc(t, ino)
  {
    assert LinkOk(d, p);
    assert NameOf(p) != NameOf(t.at);
    assert NameOf(t.at) in d.names ==> Target(d, NameOf(t.at)) == NewLoc(t, ino);
  }

  lemma PartialNames(d: Disk, t: Cont, ino: nat, j1: nat, j2: nat)
    requires CanExtend(d, t, ino)
    ensures var d' := Partial(d, t, ino, j1, j2);
            NamesInjective(d') && forall n :: n in d'.names ==> NameOk(d', n)
  {
    var d' := Partial(d, t, ino, j1, j2);
    forall n | n in d'.names
      ensures NameOk(d', n)
    {
      assert n in d.names ==> NameOk(d, n);
    }
    forall n, m | n in d'.names && m in d'.names && Target(d', n) == Target(d', m)
      ensures n == m
    {
      assert n in d.names ==> NameOk(d, n);
      assert m in d.names ==> NameOk(d, m);
    }
  }

  lemma PartialLinkOk(d: Disk, t: Cont, ino: nat, j1: nat, j2: nat, p: Loc)
    requires CanExtend(d, t, ino)
    requires j2 >= 1 ==> j1 >= 4
    requires p in Partial(d, t, ino, j1, j2).inodes
    ensures LinkOk(Partial(d, t, ino, j1, j2), p)
  {
    if p in d.inodes && p != t.at {
      assert LinkOk(d, p);
      if Linked(d, p) {
        NewIsNoSucc(d, t, ino, p);
      }
    }
  }

  lemma PartialInv(d: Disk, t: Cont, ino: nat, j1: nat, j2: nat)
    requires CanExtend(d, t, ino)
    requires j2 >= 1 ==> j1 >= 4
    ensures Inv(Partial(d, t, ino, j1, j2))
  {
    var d' := Partial(d, t, ino, j1, j2);
    PartialNames(d, t, ino, j1, j2);
    forall h | h in d'.heads
      ensures HeadOk(d', h)
    {
      assert HeadOk(d, h);
    }
    forall p | p in d'.inodes
      ensures LinkOk(d', p)
    {
      PartialLinkOk(d, t, ino, j1, j2, p);
    }
  }

  /** The inode being created belongs to nobody's chain. */
  lemma NewInNoChain(d: Disk, t: Cont, ino: nat, g: Loc)
    requires CanExtend(d, t, ino)
    requires g in d.heads && g in d.inodes
    ensures NewLoc(t, ino) !in Chain(d, g)
  {
    ChainShape(d, g);
    var c := Chain(d, g);
    forall i | 0 <= i < |c|
      ensures c[i] != NewLoc(t, ino)
    {
      if i > 0 {
        assert ChainLink(d, c, i - 1);
        NewIsNoSucc(d, t, ino, c[i - 1]);
      }
    }
  }

  // ---- Crash atomicity ----------------------------------------------------------------------

  /** Every chain that does not end in the tail is untouched, and so are all chains as long as
      the tail has not been written. */
  lemma OtherChains(d: Disk, t: Cont, ino: nat, j1: nat, j2: nat, g: Loc)
    requires CanExtend(d, t, ino) && Inv(Partial(d, t, ino, j1, j2))
    requires g in d.heads && g in d.inodes
    requires t.at in Chain(d, g) ==> j2 == 0
    ensures var d' := Partial(d, t, ino, j1, j2);
            g in d'.inodes && Chain(d', g) == Chain(d, g)
  {
    var d' := Partial(d, t, ino, j1, j2);
    ChainShape(d, g);
    NewInNoChain(d, t, ino, g);
    forall q | q in Chain(d, g)
      ensures KeepsNext(d, d', q)
    {
    }
    ChainFrame(d, d', g);
  }

  lemma OwnChain(d: Disk, h: Loc, t: Cont, ino: nat, j2: nat)
    requires CanExtend(d, t, ino) && Inv(Partial(d, t, ino, 4, j2)) && j2 >= 1
    requires IsTail(d, h, t)
    ensures var d' := Partial(d, t, ino, 4, j2);
            h in d'.inodes && Chain(d', h) == Chain(d, h) + [NewLoc(t, ino)]
  {
    var d' := Partial(d, t, ino, 4, j2);
    var c := Chain(d, h);
    ChainShape(d, h);
    NewInNoChain(d, t, ino, h);
    forall i | 0 <= i < |c| - 1
      ensures KeepsNext(d, d', c[i])
    {
      assert c[i].chunk != t.at.chunk && c[i] in c;
    }
    ChainExtend(d, d', h, NewLoc(t, ino));
  }

  /** A tail belongs to one file only. */
  lemma TailIsOwn(d: Disk, h: Loc, t: Cont, g: Loc)
    requires Inv(d) && IsTail(d, h, t) && g in d.heads && g in d.inodes && g != h
    ensures t.at !in Chain(d, g)
  {
    assert HeadOk(d, g);
    ChainShape(d, h);
    forall i | 0 <= i < |Chain(d, g)|
      ensures Chain(d, g)[i] != t.at
    {
      if Chain(d, g)[i] == t.at {
        ChainsDisjoint(d, g, i, h, |Chain(d, h)| - 1);
      }
    }
  }

  /** Whatever prefix of creation has reached the disk, the invariant holds, the file's chain
      is the old one or the old one and a complete new element (exactly from the first write
      to the tail on), and every other file's chain is the old one. No byte moves, see
      CreationKeepsBytes. */
  lemma CrashAtomic(d: Disk, h: Loc, t: Cont, ino: nat, m: nat, g: Loc)
    requires Inv(d) && IsTail(d, h, t) && Opens(d, t, ino) && m <= 9
    requires g in d.heads && g in d.inodes
    ensures CanExtend(d, t, ino)
    ensures var d' := StateAfter(d, t, ino, m);
            && Inv(d') && g in d'.inodes
            && Chain(d', g) == (if g == h && m >= 6 then Chain(d, g) + [NewLoc(t, ino)] else Chain(d, g))
  {
    TailCanExtend(d, h, t, ino);
    if m != 0 {
      var j1, j2 := if m <= 5 then m - 1 else 4, if m <= 5 then 0 else m - 5;
      PartialInv(d, t, ino, j1, j2);
      if g == h && m >= 6 {
        OwnChain(d, h, t, ino, j2);
      } else {
        if g != h {
          TailIsOwn(d, h, t, g);
        }
        OtherChains(d, t, ino, j1, j2, g);
      }
    }
  }

  /** Creation moves no data: existing inodes keep their bytes and a new one has none. */
  lemma CreationKeepsBytes(d: Disk, t: Cont, ino: nat, m: nat, p: Loc)
    requires CanExtend(d, t, ino) && p in StateAfter(d, t, ino, m).inodes
    ensures StateAfter(d, t, ino, m).inodes[p].data == if p in d.inodes then d.inodes[p].data else []
    ensures p in d.inodes || p == NewLoc(t, ino)
    ensures StateAfter(d, t, ino, m).inodes.Keys >= d.inodes.Keys
  {
  }

  /** The errors of the two set_cont_data calls are dropped (cont.c:417, cont.c:421). If the
      client stops the first call after `j1` writes and the second after `j2`, the walk still
      gets past the old tail exactly when the tail was not touched or the record of the inode
      it now points at is complete. */
  lemma DroppedErrorsIff(d: Disk, h: Loc, t: Cont, ino: nat, j1: nat, j2: nat)
    requires Inv(d) && IsTail(d, h, t) && Opens(d, t, ino)
    ensures InRange(h) && CanExtend(d, t, ino)
    ensures var d' := Partial(d, t, ino, j1, j2);
            && Complete(d'.inodes[t.at].rec)
            && (NextCont(d', h, Some(ContAt(d', t.at))).Ok?
                <==> j2 == 0 || Complete(d'.inodes[NewLoc(t, ino)].rec))
            && (NextCont(d', h, Some(ContAt(d', t.at))).Err? ==>
                  NextCont(d', h, Some(ContAt(d', t.at))) == Err(ENODATA))
  {
    TailCanExtend(d, h, t, ino);
    var added := NewLoc(t, ino);
    ChainShape(d, h);
    PackInjective(added.chunk, added.ino, h.chunk, h.ino);
    assert Target(Partial(d, t, ino, j1, j2), NameOf(t.at)) == added;
  }

  /** That record is complete when all four writes were made, or when a leftover file was reopened
      that already had the attributes not written now. */
  lemma NewRecordCompleteIff(d: Disk, t: Cont, ino: nat, j1: nat, j2: nat)
    requires CanExtend(d, t, ino)
    ensures var was := if NewLoc(t, ino) in d.inodes then d.inodes[NewLoc(t, ino)].rec else NO_REC;
            Complete(Partial(d, t, ino, j1, j2).inodes[NewLoc(t, ino)].rec)
            <==> (j1 >= 1 || was.next.Some?) && (j1 >= 2 || was.prev.Some?)
                 && (j1 >= 3 || was.start.Some?) && (j1 >= 4 || was.len.Some?)
  {
  }

  // ---- Losing a "next" ------------------------------------------------------------------------

  /** The disk with the "next" of `p` overwritten by the end mark. */
  function CutAt(d: Disk, p: Loc): Disk
    requires p in d.inodes
  {
    SetRec(d, p, d.inodes[p].rec.(next := Some(0)))
  }

  lemma CutInv(d: Disk, p: Loc)
    requires Inv(d) && p in d.inodes
    ensures Inv(CutAt(d, p))
  {
    var d' := CutAt(d, p);
    forall n | n in d'.names
      ensures NameOk(d', n)
    {
      assert NameOk(d, n);
    }
    assert forall n :: n in d.names ==> Target(d', n) == Target(d, n);
    forall g | g in d'.heads
      ensures HeadOk(d', g)
    {
      assert HeadOk(d, g);
    }
    forall q | q in d'.inodes
      ensures LinkOk(d', q)
    {
      assert LinkOk(d, q);
    }
  }

  /** The structure survives, but the file ends there. */
  lemma CutChain(d: Disk, h: Loc, i: nat)
    requires Inv(d) && h in d.heads && i < |Chain(d, h)|
    ensures Chain(d, h)[i] in d.inodes
    ensures var d' := CutAt(d, Chain(d, h)[i]);
            Inv(d') && h in d'.heads && Chain(d', h) == Chain(d, h)[..i + 1]
  {
    ChainShape(d, h);
    var c := Chain(d, h);
    var d' := CutAt(d, c[i]);
    CutInv(d, c[i]);
    forall j | 0 <= j < i
      ensures KeepsNext(d, d', c[j])
    {
      assert c[j].chunk != c[i].chunk;
    }
    ChainCut(d, d', h, i);
  }
}

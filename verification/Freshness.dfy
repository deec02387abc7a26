/** Continuation files outlive what they continue: a crash can leave one created but not
    linked, and chunkfs_unlink removes only the head (namei.c:362). Creation opens an
    existing file of the right name as it is (no O_EXCL, cont.c:401), so a file's bytes stay
    right only while every such leftover is blank. */
module Freshness {
  import opened PackedNumber
  import opened Continuations
  import opened Walks
  import opened Creation

  /** Neither bytes nor a "next". */
  predicate Blank(d: Disk, p: Loc) {
    p in d.inodes && d.inodes[p].data == [] && !Linked(d, p)
  }

  /** Every continuation file whose predecessor exists but does not point at it is blank. */
  ghost predicate Clean(d: Disk) {
    forall n :: n in d.names ==> CleanName(d, n)
  }

  ghost predicate CleanName(d: Disk, n: Name)
    requires n in d.names
  {
    n.from in d.inodes && !Linked(d, n.from) ==> Blank(d, Target(d, n))
  }

  /** A new inode at `p` would not inherit a continuation that holds something. */
  predicate NoStale(d: Disk, p: Loc) {
    NameOf(p) in d.names ==> Blank(d, Target(d, NameOf(p)))
  }

  /** The inode creation would add, if any, inherits nothing. */
  ghost predicate FreshOpen(d: Disk, t: Cont, ino: nat) {
    NameOf(t.at) !in d.names ==> NoStale(d, NewLoc(t, ino))
  }

  /** An element of a user's file is the target of no name but its predecessor's. */
  lemma TargetInChain(d: Disk, h: Loc, p: Loc, n: Name)
    requires Inv(d) && h in d.heads && h in d.inodes && p in Chain(d, h)
    requires n in d.names && Target(d, n) == p
    ensures n.from in d.inodes && Linked(d, n.from)
  {
    ChainShape(d, h);
    var c := Chain(d, h);
    var i :| 0 <= i < |c| && c[i] == p;
    assert NameOk(d, n);
    if i > 0 {
      assert ChainLink(d, c, i - 1);
      SuccInjective(d, c[i - 1], c[i - 1]);
      assert LinkOk(d, c[i - 1]);
      assert n == NameOf(c[i - 1]);
    }
  }

  /** Creation leaves only blank leftovers, wherever it stops. */
  lemma PartialClean(d: Disk, h: Loc, t: Cont, ino: nat, j1: nat, j2: nat)
    requires Inv(d) && Clean(d) && IsTail(d, h, t) && CanExtend(d, t, ino) && FreshOpen(d, t, ino)
    requires j2 >= 1 ==> j1 >= 4
    ensures Clean(Partial(d, t, ino, j1, j2))
  {
    var d' := Partial(d, t, ino, j1, j2);
    forall n | n in d'.names
      ensures CleanName(d', n)
    {
      if n == NameOf(t.at) {
        assert n in d.names ==> CleanName(d, n);
      } else {
        OtherNameClean(d, h, t, ino, j1, j2, n);
      }
    }
  }

  /** Under any name but the tail's, creation finds neither the tail nor the new inode. */
  lemma TargetElsewhere(d: Disk, h: Loc, t: Cont, ino: nat, n: Name)
    requires Inv(d) && IsTail(d, h, t) && CanExtend(d, t, ino) && n in d.names && n != NameOf(t.at)
    ensures Target(d, n) in d.inodes && Target(d, n) != NewLoc(t, ino)
    ensures n.from !in d.inodes || !Linked(d, n.from) ==> Target(d, n) != t.at
  {
    assert NameOk(d, n);
    assert NameOf(t.at) in d.names ==> Target(d, NameOf(t.at)) == NewLoc(t, ino);
    ChainShape(d, h);
    assert t.at in Chain(d, h);
    if Target(d, n) == t.at {
      TargetInChain(d, h, t.at, n);
    }
  }

  /** What hangs on an unlinked inode is blank, also if that inode is the new one. */
  lemma StaleIsBlank(d: Disk, t: Cont, ino: nat, n: Name)
    requires Inv(d) && Clean(d) && CanExtend(d, t, ino) && FreshOpen(d, t, ino) && n in d.names
    requires n.from in d.inodes ==> n.from == NewLoc(t, ino) || !Linked(d, n.from)
    requires n.from in d.inodes || n.from == NewLoc(t, ino)
    ensures Blank(d, Target(d, n)) && (n.from in d.inodes ==> !Linked(d, n.from))
  {
    assert NameOk(d, n) && CleanName(d, n);
    if n.from == NewLoc(t, ino) && NameOf(t.at) in d.names {
      assert CleanName(d, NameOf(t.at));
    }
  }

  lemma OtherNameClean(d: Disk, h: Loc, t: Cont, ino: nat, j1: nat, j2: nat, n: Name)
    requires Inv(d) && Clean(d) && IsTail(d, h, t) && CanExtend(d, t, ino) && FreshOpen(d, t, ino)
    requires n in d.names && n != NameOf(t.at)
    ensures n in Partial(d, t, ino, j1, j2).names && CleanName(Partial(d, t, ino, j1, j2), n)
  {
    var d' := Partial(d, t, ino, j1, j2);
    assert n.from != t.at by { assert NameOk(d, n); }
    if n.from in d'.inodes && !Linked(d', n.from) {
      StaleIsBlank(d, t, ino, n);
      TargetElsewhere(d, h, t, ino, n);
    }
  }

  lemma CreationClean(d: Disk, h: Loc, t: Cont, ino: nat, m: nat)
    requires Inv(d) && Clean(d) && IsTail(d, h, t) && CanExtend(d, t, ino) && FreshOpen(d, t, ino)
    ensures Clean(StateAfter(d, t, ino, m))
  {
    if m != 0 {
      PartialClean(d, h, t, ino, if m <= 5 then m - 1 else 4, if m <= 5 then 0 else m - 5);
    }
  }

  // ---- Without crashes and unlinks there are no leftovers at all --------------------------------

  /** A continuation file exists only for a predecessor that points at it. */
  ghost predicate Tight(d: Disk) {
    forall n :: n in d.names ==> n.from in d.inodes && Linked(d, n.from)
  }

  /** Then a continuation name exists exactly when its predecessor's "next" is set, nothing is
      left over, and no free inode inherits anything. */
  lemma TightMeans(d: Disk, p: Loc)
    requires Inv(d) && Tight(d)
    ensures Clean(d)
    ensures p in d.inodes ==> (NameOf(p) in d.names <==> Linked(d, p))
    ensures p !in d.inodes ==> NoStale(d, p)
  {
    if p in d.inodes {
      assert LinkOk(d, p);
    }
  }

  lemma CreationTight(d: Disk, t: Cont, ino: nat)
    requires Tight(d) && CanExtend(d, t, ino)
    ensures Tight(StateAfter(d, t, ino, 9))
  {
    var d' := StateAfter(d, t, ino, 9);
    assert NameOf(t.at) !in d.names;
    forall n | n in d'.names
      ensures n.from in d'.inodes && Linked(d', n.from)
    {
      if n in d.names {
        assert n.from in d.inodes && n.from != t.at;
      } else {
        PackInjective(t.at.chunk + 1, ino, 0, 0);
      }
    }
  }
}

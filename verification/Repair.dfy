/** Cross-chunk repair (cross.sh): for every continuation file, in ascending order of the chunk
    it continues from, remove it when the inode it continues is not allocated. */
module Repair {
  import opened Continuations
  import opened Freshness
  import opened FlatFile

  /** Some continuation file is the inode `p`. */
  ghost predicate IsTarget(d: Disk, p: Loc) {
    exists n :: n in d.names && Target(d, n) == p
  }

  ghost function NameFor(d: Disk, p: Loc): (n: Name)
    requires IsTarget(d, p)
    ensures n in d.names && Target(d, n) == p
  {
    var n :| n in d.names && Target(d, n) == p;
    n
  }

  /** Where the predecessors of a continuation lead back to: the first that is no continuation
      file itself. */
  ghost function Root(d: Disk, n: Name): Loc
    requires Inv(d) && n in d.names
    decreases n.to
  {
    assert NameOk(d, n);
    if IsTarget(d, n.from) then
      assert NameOk(d, NameFor(d, n.from));
      Root(d, NameFor(d, n.from))
    else n.from
  }

  /** A continuation is live when its predecessors lead back to an allocated inode. */
  ghost predicate Live(d: Disk, n: Name)
    requires Inv(d) && n in d.names
  {
    Root(d, n) in d.inodes
  }

  /** The disk without the continuation files named in `gone`. */
  ghost function Without(d: Disk, gone: set<Name>): Disk {
    d.(names := d.names - gone,
       inodes := d.inodes - (set n | n in gone && n in d.names :: Target(d, n)))
  }

  ghost function Dead(d: Disk): set<Name>
    requires Inv(d)
  {
    set n | n in d.names && !Live(d, n)
  }

  /** What repair leaves. */
  ghost function Repaired(d: Disk): Disk
    requires Inv(d)
  {
    Without(d, Dead(d))
  }

  /** A continuation of a continuation lives and dies with it. */
  lemma LiveStep(d: Disk, n: Name)
    requires Inv(d) && n in d.names
    ensures IsTarget(d, n.from) ==> n.from in d.inodes && (Live(d, n) <==> Live(d, NameFor(d, n.from)))
    ensures !IsTarget(d, n.from) ==> (Live(d, n) <==> n.from in d.inodes)
  {
    if IsTarget(d, n.from) {
      assert NameOk(d, NameFor(d, n.from));
    }
  }

  /** The test of the script, made once every dead continuation from lower chunks is gone:
      the predecessor is allocated exactly when the continuation is live. */
  lemma TestIsExact(d: Disk, gone: set<Name>, n: Name)
    requires Inv(d) && n in d.names
    requires gone <= Dead(d)
    requires forall m :: m in Dead(d) && m.from.chunk < n.from.chunk ==> m in gone
    ensures n.from in Without(d, gone).inodes <==> Live(d, n)
  {
    LiveStep(d, n);
    assert NameOk(d, n);
    if IsTarget(d, n.from) {
      var m := NameFor(d, n.from);
      assert NameOk(d, m);
      if m in gone {
        assert !Live(d, m);
      } else {
        assert forall k :: k in gone && k in d.names && Target(d, k) == n.from ==> k == m;
      }
    }
  }

  // ---- What repair keeps --------------------------------------------------------------------

  /** `gone` removes no continuation whose predecessor stays. */
  ghost predicate Cascades(d: Disk, gone: set<Name>) {
    forall n :: n in gone && n in d.names ==> n.from !in Without(d, gone).inodes
  }

  lemma DeadCascades(d: Disk)
    requires Inv(d)
    ensures Cascades(d, Dead(d))
  {
    forall n | n in Dead(d) && n in d.names
      ensures n.from !in Without(d, Dead(d)).inodes
    {
      TestIsExact(d, Dead(d), n);
    }
  }

  lemma WithoutInv(d: Disk, gone: set<Name>)
    requires Inv(d) && Cascades(d, gone)
    ensures Inv(Without(d, gone))
  {
    var d' := Without(d, gone);
    forall n | n in d'.names
      ensures NameOk(d', n)
    {
      assert NameOk(d, n);
      assert forall k :: k in gone && k in d.names && Target(d, k) == Target(d, n) ==> k == n;
    }
    assert forall n :: n in d'.names ==> Target(d', n) == Target(d, n);
    forall h | h in d'.heads
      ensures HeadOk(d', h)
    {
      assert HeadOk(d, h);
      assert forall k :: k in gone && k in d.names && Target(d, k) == h ==> NameOk(d, k);
    }
    forall p | p in d'.inodes
      ensures LinkOk(d', p)
    {
      assert LinkOk(d, p);
      if Linked(d, p) {
        var t := Target(d, NameOf(p));
        assert NameOf(p) !in gone;
        assert forall k :: k in gone && k in d.names && Target(d, k) == t ==> k == NameOf(p);
      }
    }
  }

  /** Every chain of a user's file, and every byte in it, survives. */
  lemma WithoutKeepsFiles(d: Disk, gone: set<Name>, h: Loc)
    requires Inv(d) && Cascades(d, gone) && h in d.heads
    ensures Inv(Without(d, gone)) && h in Without(d, gone).heads
    ensures Chain(Without(d, gone), h) == Chain(d, h)
    ensures PartsOf(Without(d, gone), h) == PartsOf(d, h)
  {
    WithoutInv(d, gone);
    var d' := Without(d, gone);
    var c := Chain(d, h);
    ChainShape(d, h);
    forall i | 0 <= i < |c|
      ensures c[i] in d'.inodes
    {
      ElementStays(d, gone, h, i);
    }
    ChainFrame(d, d', h);
    DataAlongFrame(d, d', c);
  }

  lemma {:induction false} ElementStays(d: Disk, gone: set<Name>, h: Loc, i: nat)
    requires Inv(d) && Cascades(d, gone) && h in d.heads && i < |Chain(d, h)|
    ensures Chain(d, h)[i] in Without(d, gone).inodes
  {
    ChainShape(d, h);
    var c := Chain(d, h);
    assert HeadOk(d, h);
    if i == 0 {
      assert forall k :: k in gone && k in d.names && Target(d, k) == h ==> NameOk(d, k);
    } else {
      ElementStays(d, gone, h, i - 1);
      assert ChainLink(d, c, i - 1) && LinkOk(d, c[i - 1]);
      assert NameOf(c[i - 1]) !in gone;
      assert forall k :: k in gone && k in d.names && Target(d, k) == c[i] ==> k == NameOf(c[i - 1]);
    }
  }

  /** Nothing but dead continuations goes, and every one that stays has its predecessor. */
  lemma RepairedNames(d: Disk)
    requires Inv(d)
    ensures Inv(Repaired(d))
    ensures forall n :: n in d.names ==> (n in Repaired(d).names <==> Live(d, n))
    ensures forall n :: n in Repaired(d).names ==> n in d.names && n.from in Repaired(d).inodes
  {
    DeadCascades(d);
    WithoutInv(d, Dead(d));
    forall n | n in Repaired(d).names
      ensures n.from in Repaired(d).inodes
    {
      TestIsExact(d, Dead(d), n);
    }
  }

  lemma NothingDead(d: Disk)
    requires Inv(d) && forall n :: n in d.names ==> n.from in d.inodes
    ensures Dead(d) == {} && Repaired(d) == d
  {
    forall n | n in d.names
      ensures Live(d, n)
    {
      RootHasName(d, n);
    }
    assert Dead(d) == {};
    assert Without(d, {}) == d;
  }

  /** Repair removes exactly the continuations whose predecessors do not lead back to an
      allocated inode, every remaining one has its predecessor, and a second pass removes
      nothing. */
  lemma RepairIsExact(d: Disk)
    requires Inv(d)
    ensures Inv(Repaired(d))
    ensures forall n :: n in d.names ==> (n in Repaired(d).names <==> Live(d, n))
    ensures forall n :: n in Repaired(d).names ==> n in d.names && n.from in Repaired(d).inodes
    ensures Dead(Repaired(d)) == {}
    ensures Repaired(Repaired(d)) == Repaired(d)
  {
    RepairedNames(d);
    NothingDead(Repaired(d));
  }

  // ---- A repair pass that is cut short -----------------------------------------------------------

  /** What the script has removed when it is stopped among the continuations of inodes in chunk
      `from` never includes one whose predecessor stays. */
  lemma PrefixCascades(d: Disk, gone: set<Name>, from: nat)
    requires Inv(d) && gone <= Dead(d)
    requires forall m :: m in Dead(d) && m.from.chunk < from ==> m in gone
    requires forall m :: m in gone ==> m.from.chunk <= from
    ensures Cascades(d, gone)
  {
    forall n | n in gone && n in d.names
      ensures n.from !in Without(d, gone).inodes
    {
      LiveStep(d, n);
      if IsTarget(d, n.from) {
        assert NameOk(d, NameFor(d, n.from)) && NameFor(d, n.from) in Dead(d);
      }
    }
  }

  /** A continuation that is still there is as live as it was. */
  lemma {:induction false} LiveLater(d: Disk, gone: set<Name>, n: Name)
    requires Inv(d) && gone <= Dead(d) && Cascades(d, gone)
    requires n in d.names && n !in gone
    ensures Inv(Without(d, gone)) && n in Without(d, gone).names
    ensures Live(Without(d, gone), n) <==> Live(d, n)
    decreases n.to
  {
    var d' := Without(d, gone);
    WithoutInv(d, gone);
    LiveStep(d, n);
    LiveStep(d', n);
    TargetsLater(d, gone, n.from);
    if IsTarget(d, n.from) {
      var m := NameFor(d, n.from);
      assert NameOk(d, n) && NameOk(d, m);
      if m !in gone {
        LiveLater(d, gone, m);
      }
    }
  }

  /** The one name of an inode goes together with it. */
  lemma TargetsLater(d: Disk, gone: set<Name>, p: Loc)
    requires Inv(d) && gone <= Dead(d)
    ensures var d' := Without(d, gone);
            if !IsTarget(d, p) then !IsTarget(d', p) && (p in d'.inodes <==> p in d.inodes)
            else if NameFor(d, p) in gone then !IsTarget(d', p) && p !in d'.inodes
            else IsTarget(d', p) && NameFor(d', p) == NameFor(d, p)
  {
    var d' := Without(d, gone);
    assert forall n :: n in d'.names ==> n in d.names && n !in gone && Target(d', n) == Target(d, n);
    if IsTarget(d, p) {
      var m := NameFor(d, p);
      assert forall n :: n in d.names && Target(d, n) == p ==> n == m;
      if m !in gone {
        assert m in d'.names && Target(d', m) == p;
      }
    }
  }

  /** Stopping the script does no harm: what is left is a pool in order, and the next pass ends
      with exactly what this one would have. */
  lemma RepairResumes(d: Disk, gone: set<Name>)
    requires Inv(d) && gone <= Dead(d) && Cascades(d, gone)
    ensures Inv(Without(d, gone))
    ensures Dead(Without(d, gone)) == Dead(d) - gone
    ensures Repaired(Without(d, gone)) == Repaired(d)
  {
    var d' := Without(d, gone);
    WithoutInv(d, gone);
    forall n | n in d'.names
      ensures Live(d', n) <==> Live(d, n)
    {
      LiveLater(d, gone, n);
    }
    assert Dead(d') == Dead(d) - gone;
    WithoutTwice(d, gone, Dead(d));
  }

  lemma WithoutTwice(d: Disk, gone: set<Name>, all: set<Name>)
    requires gone <= all
    ensures Without(Without(d, gone), all - gone) == Without(d, all)
  {
    var d' := Without(d, gone);
    assert forall n :: n in d'.names ==> n in d.names && Target(d', n) == Target(d, n);
    assert Without(d', all - gone).names == Without(d, all).names;
    forall p
      ensures p in Without(d', all - gone).inodes <==> p in Without(d, all).inodes
    {
      if p in d.inodes && p !in Without(d, all).inodes {
        var n :| n in all && n in d.names && Target(d, n) == p;
        assert n !in gone ==> n in d'.names && Target(d', n) == p;
      }
    }
    assert Without(d', all - gone).inodes == Without(d, all).inodes;
  }

  /** A root is the predecessor of some continuation. */
  lemma {:induction false} RootHasName(d: Disk, n: Name)
    requires Inv(d) && n in d.names
    ensures exists m :: m in d.names && m.from == Root(d, n)
    decreases n.to
  {
    if IsTarget(d, n.from) {
      assert NameOk(d, n) && NameOk(d, NameFor(d, n.from));
      RootHasName(d, NameFor(d, n.from));
    }
  }

  /** After repair no inode that is free can inherit a stale continuation; so creation is safe
      again for every answer of the client. */
  lemma RepairMakesFresh(d: Disk, p: Loc)
    requires Inv(d) && p !in Repaired(d).inodes
    ensures NoStale(Repaired(d), p)
  {
    RepairIsExact(d);
  }

  lemma WithoutClean(d: Disk, gone: set<Name>)
    requires Inv(d) && Clean(d)
    ensures Cascades(d, gone) ==> Clean(Without(d, gone))
  {
    var d' := Without(d, gone);
    if Cascades(d, gone) {
      WithoutInv(d, gone);
      forall n | n in d'.names
        ensures CleanName(d', n)
      {
        assert CleanName(d, n) && NameOk(d', n);
      }
    }
  }

  /** Repair keeps a pool in use good and every user's file as it is. */
  lemma RepairKeepsFiles(d: Disk, h: Loc)
    requires Inv(d) && h in d.heads
    ensures Inv(Repaired(d)) && h in Repaired(d).heads
    ensures Chain(Repaired(d), h) == Chain(d, h)
    ensures PartsOf(Repaired(d), h) == PartsOf(d, h)
  {
    DeadCascades(d);
    WithoutKeepsFiles(d, Dead(d), h);
  }
}

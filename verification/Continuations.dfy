/** The on-disk structure behind a chunkfs file (chunkfs_i.h:34-68, cont.c): client inodes
    in several chunks, each with a next/prev/start/len record kept in four extended
    attributes, and in every chunk a directory of continuation files named after the inode
    they continue. */
module Continuations {
  import opened Outcomes
  import opened PackedNumber

  /** The arbitrary length of every continuation, 10 * 4096 (cont.c:416, cont.c:449). */
  const CONT_LEN: nat := 40960

  type byte = x: int | 0 <= x < 256

  /** A client inode: its chunk and its number inside that chunk's client file system. */
  datatype Loc = Loc(chunk: nat, ino: nat)

  /** The continuation file "/chunk<to>/<from.chunk>/<from.ino>". */
  datatype Name = Name(to: nat, from: Loc)

  /** struct chunkfs_cont_data */
  datatype ContData = ContData(next: u64, prev: u64, start: u64, len: u64)

  /** The four attributes as found on disk; any of them may not have been written yet. */
  datatype Rec = Rec(next: Option<u64>, prev: Option<u64>, start: Option<u64>, len: Option<u64>)

  datatype Inode = Inode(rec: Rec, data: seq<byte>)

  /** All client file systems together. `chunks` is the number of chunks in the pool (their
      ids are 1..chunks), `dirs` the pairs (t, f) for which the directory "/chunk<t>/<f>"
      exists, `heads` the inodes that carry a user's file. */
  datatype Disk = Disk(
    chunks: nat,
    dirs: set<(nat, nat)>,
    heads: set<Loc>,
    inodes: map<Loc, Inode>,
    names: map<Name, nat>)

  /** chunkfs_init_cont_data (cont.c:446-449) */
  const FIRST_DATA: ContData := ContData(0, 0, 0, CONT_LEN)

  const FIRST_REC := Rec(Some(0), Some(0), Some(0), Some(CONT_LEN))

  const NO_REC := Rec(None, None, None, None)

  function Written(cd: ContData): Rec {
    Rec(Some(cd.next), Some(cd.prev), Some(cd.start), Some(cd.len))
  }

  predicate Complete(r: Rec) {
    r.next.Some? && r.prev.Some? && r.start.Some? && r.len.Some?
  }

  /** Chunk ids fit their four bits, client inode numbers their 28. */
  predicate InRange(p: Loc) {
    1 <= p.chunk < 16 && 0 < p.ino < TWO28
  }

  function PackLoc(p: Loc): u64
    requires InRange(p)
  {
    Pack(p.chunk, p.ino)
  }

  /** Where creation puts the continuation of `p`: always the next chunk (cont.c:389). */
  function NameOf(p: Loc): Name {
    Name(p.chunk + 1, p)
  }

  function Target(d: Disk, n: Name): Loc
    requires n in d.names
  {
    Loc(n.to, d.names[n])
  }

  /** `p` has a "next" that is not the end mark 0. */
  predicate Linked(d: Disk, p: Loc)
    requires p in d.inodes
  {
    d.inodes[p].rec.next.Some? && d.inodes[p].rec.next.value != 0
  }

  // ---- The structural invariant --------------------------------------------------------------

  /** A set "next" leads to the continuation named after `p`, which points back and starts
      where `p` ends. Nothing is asked of an inode without one, so half-created and orphaned
      continuations are allowed. */
  ghost predicate LinkOk(d: Disk, p: Loc)
    requires p in d.inodes
  {
    Linked(d, p) ==>
      && InRange(p)
      && NameOf(p) in d.names
      && var t := Target(d, NameOf(p));
         InRange(t) && t in d.inodes && LinkRecords(p, d.inodes[p].rec, t, d.inodes[t].rec)
  }

  ghost predicate LinkRecords(p: Loc, r: Rec, t: Loc, s: Rec)
    requires InRange(p) && InRange(t)
  {
    && Complete(r) && Complete(s)
    && r.next.value == PackLoc(t)
    && s.prev.value == PackLoc(p)
    && s.start.value == Add64(r.start.value, r.len.value)
    && s.len.value == CONT_LEN
  }

  ghost predicate NameOk(d: Disk, n: Name)
    requires n in d.names
  {
    && n == NameOf(n.from)
    && InRange(n.from)
    && (n.to, n.from.chunk) in d.dirs
    && Target(d, n) in d.inodes
    && Target(d, n) !in d.heads
  }

  ghost predicate HeadOk(d: Disk, h: Loc) {
    && h in d.inodes
    && var r := d.inodes[h].rec;
       Complete(r) && r.prev == Some(0) && r.start == Some(0) && r.len.value == CONT_LEN
  }

  ghost predicate NamesInjective(d: Disk) {
    forall n, m :: n in d.names && m in d.names && Target(d, n) == Target(d, m) ==> n == m
  }

  ghost predicate Inv(d: Disk) {
    && d.chunks < 16
    && (forall t, f :: (t, f) in d.dirs ==> 1 <= t <= d.chunks)
    && (forall p :: p in d.inodes ==> InRange(p) && p.chunk <= d.chunks)
    && (forall n {:trigger NameOk(d, n)} :: n in d.names ==> NameOk(d, n))
    && NamesInjective(d)
    && d.heads <= d.inodes.Keys
    && (forall h {:trigger HeadOk(d, h)} :: h in d.heads ==> HeadOk(d, h))
    && (forall p {:trigger LinkOk(d, p)} :: p in d.inodes ==> LinkOk(d, p))
  }

  // ---- Chains -----------------------------------------------------------------------------

  function Succ(d: Disk, p: Loc): (t: Loc)
    requires Inv(d) && p in d.inodes && Linked(d, p)
    ensures t in d.inodes && t.chunk == p.chunk + 1
  {
    assert LinkOk(d, p);
    Target(d, NameOf(p))
  }

  /** The inodes of the file that starts at `p`, in order. */
  function Chain(d: Disk, p: Loc): seq<Loc>
    requires Inv(d) && p in d.inodes
    decreases 16 - p.chunk
  {
    assert LinkOk(d, p);
    if Linked(d, p) then [p] + Chain(d, Succ(d, p)) else [p]
  }

  /** The i-th element lies i chunks after the first, links go from element to element, the
      last has none, and so no chain is longer than the chunks that are left. */
  lemma {:induction false} ChainShape(d: Disk, p: Loc)
    requires Inv(d) && p in d.inodes
    ensures 1 <= |Chain(d, p)| <= d.chunks - p.chunk + 1
    ensures Chain(d, p)[0] == p
    ensures forall i :: 0 <= i < |Chain(d, p)| ==>
              Chain(d, p)[i] in d.inodes && Chain(d, p)[i].chunk == p.chunk + i
    ensures forall i :: 0 <= i < |Chain(d, p)| - 1 ==> ChainLink(d, Chain(d, p), i)
    ensures !Linked(d, Chain(d, p)[|Chain(d, p)| - 1])
    decreases 16 - p.chunk
  {
    assert LinkOk(d, p);
    if Linked(d, p) {
      var c, rest := Chain(d, p), Chain(d, Succ(d, p));
      ChainShape(d, Succ(d, p));
      forall i | 0 <= i < |c| - 1
        ensures ChainLink(d, c, i)
      {
        assert i > 0 ==> ChainLink(d, rest, i - 1);
      }
    }
  }

  /** Element `i + 1` is where element `i` leads. */
  ghost predicate ChainLink(d: Disk, c: seq<Loc>, i: nat)
    requires Inv(d) && i + 1 < |c|
  {
    c[i] in d.inodes && Linked(d, c[i]) && c[i + 1] == Succ(d, c[i])
  }

  lemma SuccInjective(d: Disk, p: Loc, q: Loc)
    requires Inv(d) && p in d.inodes && q in d.inodes && Linked(d, p) && Linked(d, q)
    ensures Succ(d, p) == Succ(d, q) ==> p == q
    ensures Succ(d, p) !in d.heads
  {
    assert LinkOk(d, p) && LinkOk(d, q);
    assert NameOk(d, NameOf(p)) && NameOk(d, NameOf(q));
  }

  /** Chains of distinct heads share no inode, and no chain meets an inode twice. */
  lemma {:induction false} ChainsDisjoint(d: Disk, g: Loc, i: nat, h: Loc, j: nat)
    requires Inv(d) && g in d.heads && h in d.heads
    requires HeadOk(d, g) && HeadOk(d, h)
    requires i < |Chain(d, g)| && j < |Chain(d, h)|
    requires Chain(d, g)[i] == Chain(d, h)[j]
    ensures g == h && i == j
    decreases i
  {
    ChainShape(d, g);
    ChainShape(d, h);
    var a, b := Chain(d, g), Chain(d, h);
    if i > 0 {
      assert ChainLink(d, a, i - 1);
      SuccInjective(d, a[i - 1], a[i - 1]);
    }
    if j > 0 {
      assert ChainLink(d, b, j - 1);
      SuccInjective(d, b[j - 1], b[j - 1]);
    }
    if i > 0 && j > 0 {
      SuccInjective(d, a[i - 1], b[j - 1]);
      ChainsDisjoint(d, g, i - 1, h, j - 1);
    }
  }

  /** The full record of every element of a user's file: starts at the i-th multiple of the
      continuation length, prev and next are the packed numbers of its neighbours, 0 at the
      two ends. */
  ghost predicate RecordsAre(d: Disk, c: seq<Loc>) {
    |c| < 16 && forall i :: 0 <= i < |c| ==> RecordIs(d, c, i)
  }

  ghost predicate RecordIs(d: Disk, c: seq<Loc>, i: nat)
    requires i < |c| < 16
  {
    && c[i] in d.inodes
    && (i + 1 < |c| ==> InRange(c[i + 1]))
    && (i > 0 ==> InRange(c[i - 1]))
    && d.inodes[c[i]].rec == Written(ContData(
         if i + 1 < |c| then PackLoc(c[i + 1]) else 0,
         if i > 0 then PackLoc(c[i - 1]) else 0,
         i * CONT_LEN,
         CONT_LEN))
  }

  lemma HeadRecords(d: Disk, h: Loc)
    requires Inv(d) && h in d.heads
    ensures h in d.inodes
    ensures RecordsAre(d, Chain(d, h))
  {
    assert HeadOk(d, h);
    ChainShape(d, h);
    var c := Chain(d, h);
    forall i | 0 <= i < |c|
      ensures RecordIs(d, c, i)
    {
      HeadRecord(d, h, i);
    }
  }

  lemma {:induction false} HeadRecord(d: Disk, h: Loc, i: nat)
    requires Inv(d) && h in d.heads
    requires i < |Chain(d, h)| < 16
    ensures RecordIs(d, Chain(d, h), i)
  {
    ChainShape(d, h);
    var c := Chain(d, h);
    if i == 0 {
      assert HeadOk(d, h);
    } else {
      HeadRecord(d, h, i - 1);
      assert ChainLink(d, c, i - 1);
      LinkedRecord(d, c[i - 1]);
    }
    if i + 1 < |c| {
      assert ChainLink(d, c, i);
      LinkedRecord(d, c[i]);
    }
    RecordFromLinks(d, c, i);
  }

  /** Element `i` as its two links, or the two ends of the chain, determine it. */
  lemma RecordFromLinks(d: Disk, c: seq<Loc>, i: nat)
    requires i < |c| < 16 && c[i] in d.inodes
    requires if i == 0 then HeadOk(d, c[0]) else RecordIs(d, c, i - 1) && LinksTo(d, c[i - 1], c[i])
    requires if i + 1 < |c| then LinksTo(d, c[i], c[i + 1]) else !Linked(d, c[i])
    ensures RecordIs(d, c, i)
  {
  }

  ghost predicate LinksTo(d: Disk, p: Loc, t: Loc) {
    && InRange(p) && InRange(t) && p in d.inodes && t in d.inodes
    && LinkRecords(p, d.inodes[p].rec, t, d.inodes[t].rec)
  }

  lemma LinkedRecord(d: Disk, p: Loc)
    requires Inv(d) && p in d.inodes && Linked(d, p)
    ensures LinksTo(d, p, Succ(d, p))
  {
    assert LinkOk(d, p);
  }

  // ---- Framing ----------------------------------------------------------------------------

  /** A sequence that starts at `p` and is linked to an unlinked end is the chain of `p`. */
  lemma {:induction false} ChainIs(d: Disk, p: Loc, c: seq<Loc>)
    requires Inv(d) && |c| >= 1 && c[0] == p
    requires forall i :: 0 <= i < |c| - 1 ==> ChainLink(d, c, i)
    requires c[|c| - 1] in d.inodes && !Linked(d, c[|c| - 1])
    ensures p in d.inodes && Chain(d, p) == c
    decreases |c|
  {
    if |c| > 1 {
      assert ChainLink(d, c, 0);
      forall i | 0 <= i < |c[1..]| - 1
        ensures ChainLink(d, c[1..], i)
      {
        assert ChainLink(d, c, i + 1);
      }
      ChainIs(d, c[1], c[1..]);
      assert c == [p] + c[1..];
    }
  }

  predicate KeepsNext(d: Disk, d': Disk, q: Loc) {
    q in d.inodes && q in d'.inodes && d'.inodes[q].rec.next == d.inodes[q].rec.next
  }

  lemma SameSucc(d: Disk, d': Disk, p: Loc)
    requires Inv(d) && Inv(d') && KeepsNext(d, d', p) && Linked(d, p)
    ensures Linked(d', p) && Succ(d', p) == Succ(d, p)
  {
    assert LinkOk(d, p) && LinkOk(d', p);
    var t, t' := Succ(d, p), Succ(d', p);
    PackInjective(t.chunk, t.ino, t'.chunk, t'.ino);
  }

  /** As far as its inodes keep their "next", a chain keeps its links. */
  lemma LinksKept(d: Disk, d': Disk, p: Loc, k: nat, c: seq<Loc>)
    requires Inv(d) && Inv(d') && p in d.inodes && k < |Chain(d, p)|
    requires forall j :: 0 <= j < k ==> KeepsNext(d, d', Chain(d, p)[j])
    requires k < |c| && c[..k + 1] == Chain(d, p)[..k + 1]
    ensures forall i :: 0 <= i < k ==> ChainLink(d', c, i)
  {
    ChainShape(d, p);
    var b := Chain(d, p);
    forall i | 0 <= i < k
      ensures ChainLink(d', c, i)
    {
      assert c[i] == c[..k + 1][i] == b[..k + 1][i] && c[i + 1] == c[..k + 1][i + 1] == b[..k + 1][i + 1];
      assert ChainLink(d, b, i) && KeepsNext(d, d', b[i]);
      SameSucc(d, d', b[i]);
    }
  }

  /** A chain whose inodes all keep their "next" is the same chain. */
  lemma ChainFrame(d: Disk, d': Disk, p: Loc)
    requires Inv(d) && Inv(d') && p in d.inodes
    requires forall q :: q in Chain(d, p) ==> KeepsNext(d, d', q)
    ensures p in d'.inodes && Chain(d', p) == Chain(d, p)
  {
    ChainShape(d, p);
    var c := Chain(d, p);
    assert forall j :: 0 <= j < |c| ==> c[j] in c;
    LinksKept(d, d', p, |c| - 1, c);
    assert KeepsNext(d, d', c[|c| - 1]);
    ChainIs(d', p, c);
  }

  /** Giving the last inode of a chain a "next" that names an unlinked inode extends the
      chain by that inode. */
  lemma ChainExtend(d: Disk, d': Disk, p: Loc, t: Loc)
    requires Inv(d) && Inv(d') && p in d.inodes
    requires forall i :: 0 <= i < |Chain(d, p)| - 1 ==> KeepsNext(d, d', Chain(d, p)[i])
    requires t in d'.inodes && !Linked(d', t)
    requires var last := Chain(d, p)[|Chain(d, p)| - 1];
             last in d'.inodes && Linked(d', last) && Succ(d', last) == t
    ensures p in d'.inodes && Chain(d', p) == Chain(d, p) + [t]
  {
    ChainShape(d, p);
    var c := Chain(d, p);
    var c' := c + [t];
    assert c'[..|c|] == c == c[..|c|];
    LinksKept(d, d', p, |c| - 1, c');
    assert ChainLink(d', c', |c| - 1);
    ChainIs(d', p, c');
  }

  /** Unlinking the k-th inode of a chain cuts the chain off after it. */
  lemma ChainCut(d: Disk, d': Disk, p: Loc, k: nat)
    requires Inv(d) && Inv(d') && p in d.inodes && k < |Chain(d, p)|
    requires forall j :: 0 <= j < k ==> KeepsNext(d, d', Chain(d, p)[j])
    requires Chain(d, p)[k] in d'.inodes && !Linked(d', Chain(d, p)[k])
    ensures p in d'.inodes && Chain(d', p) == Chain(d, p)[..k + 1]
  {
    ChainShape(d, p);
    var c := Chain(d, p)[..k + 1];
    assert c[..k + 1] == c;
    LinksKept(d, d', p, k, c);
    ChainIs(d', p, c);
  }
}

/** A file as the sequence of its parts' bytes, and as the flat sequence it stands for. Every
    part but the last is exactly one continuation long; that is what lets an offset be split
    by division and the file size be summed (inode.c:32-42). */
module Parts {
  import opened Continuations

  function Join(parts: seq<seq<byte>>): seq<byte> {
    if parts == [] then [] else parts[0] + Join(parts[1..])
  }

  function TotalSize(parts: seq<seq<byte>>): nat {
    if parts == [] then 0 else |parts[0]| + TotalSize(parts[1..])
  }

  /** Every part but the last is exactly full, the last at most full. */
  ghost predicate Packed(parts: seq<seq<byte>>) {
    && |parts| >= 1
    && (forall i :: 0 <= i < |parts| - 1 ==> |parts[i]| == CONT_LEN)
    && |parts[|parts| - 1]| <= CONT_LEN
  }

  function Padded(s: seq<byte>, n: nat): (r: seq<byte>)
    ensures |r| >= n
  {
    if |s| < n then s + seq(n - |s|, _ => 0) else s
  }

  /** POSIX pwrite on a byte sequence: the bytes are spliced in, a gap before them is zero. */
  function Splice(s: seq<byte>, off: nat, b: seq<byte>): seq<byte> {
    if b == [] then s
    else Padded(s, off)[..off] + b + (if off + |b| < |s| then s[off + |b|..] else [])
  }

  // ---- Places in a packed file ------------------------------------------------------------------

  /** The sizes summed over the parts are the length of the flat file. */
  lemma {:induction false} TotalIsLength(parts: seq<seq<byte>>)
    ensures TotalSize(parts) == |Join(parts)|
  {
    if parts != [] {
      TotalIsLength(parts[1..]);
    }
  }

  /** ... and when the file is packed, that is where its last part starts plus what it holds. */
  lemma {:induction false} PackedLength(parts: seq<seq<byte>>)
    requires Packed(parts)
    ensures |Join(parts)| == (|parts| - 1) * CONT_LEN + |parts[|parts| - 1]|
  {
    if |parts| > 1 {
      PackedLength(parts[1..]);
    } else {
      assert parts[1..] == [];
    }
  }

  /** Byte `o` of part `k` is byte k * CONT_LEN + o of the file. */
  lemma {:induction false} ByteOfPart(parts: seq<seq<byte>>, k: nat, o: nat)
    requires Packed(parts) && k < |parts| && o < |parts[k]|
    ensures k * CONT_LEN + o < |Join(parts)| && Join(parts)[k * CONT_LEN + o] == parts[k][o]
  {
    if k > 0 {
      ByteOfPart(parts[1..], k - 1, o);
      var rest := Join(parts[1..]);
      assert Join(parts) == parts[0] + rest && |parts[0]| == CONT_LEN;
      assert Join(parts)[CONT_LEN + ((k - 1) * CONT_LEN + o)] == rest[(k - 1) * CONT_LEN + o];
    }
  }

  lemma Split(j: nat)
    ensures j == j / CONT_LEN * CONT_LEN + j % CONT_LEN && j % CONT_LEN < CONT_LEN
  {
  }

  /** Byte j of the file is byte j % CONT_LEN of part j / CONT_LEN. */
  lemma PackedAt(parts: seq<seq<byte>>, j: nat)
    requires Packed(parts) && j < |Join(parts)|
    ensures j / CONT_LEN < |parts| && j % CONT_LEN < |parts[j / CONT_LEN]|
    ensures Join(parts)[j] == parts[j / CONT_LEN][j % CONT_LEN]
  {
    Split(j);
    PackedLength(parts);
    HeldAt(|parts|, |parts[|parts| - 1]|, j / CONT_LEN, j % CONT_LEN);
    ByteOfPart(parts, j / CONT_LEN, j % CONT_LEN);
  }

  lemma HeldAt(n: nat, last: nat, k: nat, o: nat)
    requires n >= 1 && last <= CONT_LEN && o < CONT_LEN
    requires k * CONT_LEN + o < (n - 1) * CONT_LEN + last
    ensures k < n && (k == n - 1 ==> o < last)
  {
  }

  lemma {:induction false} JoinAppend(parts: seq<seq<byte>>, last: seq<byte>)
    ensures Join(parts + [last]) == Join(parts) + last
  {
    if parts == [] {
      assert [last][1..] == [];
    } else {
      assert (parts + [last])[1..] == parts[1..] + [last];
      JoinAppend(parts[1..], last);
    }
  }

  lemma {:induction false} TotalUpdate(parts: seq<seq<byte>>, k: nat, p: seq<byte>)
    requires k < |parts|
    ensures TotalSize(parts[k := p]) + |parts[k]| == TotalSize(parts) + |p|
  {
    if k == 0 {
      assert parts[0 := p][1..] == parts[1..];
    } else {
      assert parts[k := p][1..] == parts[1..][k - 1 := p];
      TotalUpdate(parts[1..], k - 1, p);
    }
  }

  // ---- Splicing one part -------------------------------------------------------------------------

  /** Byte `i` of a splice. */
  function SpliceByte(s: seq<byte>, off: nat, b: seq<byte>, i: nat): byte {
    if off <= i < off + |b| then b[i - off] else if i < |s| then s[i] else 0
  }

  lemma SpliceAt(s: seq<byte>, off: nat, b: seq<byte>)
    requires b != []
    ensures forall i :: 0 <= i < |Splice(s, off, b)| ==> Splice(s, off, b)[i] == SpliceByte(s, off, b, i)
  {
  }

  lemma SpliceLength(s: seq<byte>, o: nat, b: seq<byte>)
    requires b != []
    ensures |Splice(s, o, b)| == if o + |b| > |s| then o + |b| else |s|
  {
  }

  /** Byte `r` of part `q` after part `k` has been spliced. */
  lemma SplicePartAt(parts: seq<seq<byte>>, k: nat, o: nat, b: seq<byte>, q: nat, r: nat)
    requires Packed(parts) && k < |parts| && o + |b| <= CONT_LEN
    requires q < |parts| && r < CONT_LEN && (q == k || r < |parts[q]|)
    ensures SpliceByte(Join(parts), k * CONT_LEN + o, b, q * CONT_LEN + r)
         == if q == k then SpliceByte(parts[k], o, b, r) else parts[q][r]
  {
    if r < |parts[q]| {
      ByteOfPart(parts, q, r);
    } else {
      PackedLength(parts);
    }
    if q != k {
      Apart(k, q, o, |b|, r);
    }
  }

  /** A window inside piece `k` meets no other piece. */
  lemma Apart(k: nat, q: nat, o: nat, len: nat, r: nat)
    requires q != k && o + len <= CONT_LEN && r < CONT_LEN
    ensures q * CONT_LEN + r < k * CONT_LEN + o || q * CONT_LEN + r >= k * CONT_LEN + o + len
  {
    if q < k {
      assert (q + 1) * CONT_LEN <= k * CONT_LEN;
    } else {
      assert (k + 1) * CONT_LEN <= q * CONT_LEN;
    }
  }

  lemma SplicedSize(n: nat, k: nat, o: nat, len: nat, last: nat, last': nat)
    requires k < n && o + len <= CONT_LEN && last <= CONT_LEN
    requires last' == if k == n - 1 && o + len > last then o + len else last
    ensures (n - 1) * CONT_LEN + last'
         == if k * CONT_LEN + o + len > (n - 1) * CONT_LEN + last then k * CONT_LEN + o + len
            else (n - 1) * CONT_LEN + last
  {
    if k < n - 1 {
      assert (k + 1) * CONT_LEN <= (n - 1) * CONT_LEN;
    }
  }

  lemma SplicedPacked(parts: seq<seq<byte>>, k: nat, o: nat, b: seq<byte>)
    requires Packed(parts) && k < |parts| && o + |b| <= CONT_LEN && b != []
    ensures Packed(parts[k := Splice(parts[k], o, b)])
  {
    SpliceLength(parts[k], o, b);
  }

  lemma SplicedLength(parts: seq<seq<byte>>, k: nat, o: nat, b: seq<byte>, offset: nat)
    requires Packed(parts) && k < |parts| && o + |b| <= CONT_LEN && b != [] && offset == k * CONT_LEN + o
    ensures |Join(parts[k := Splice(parts[k], o, b)])| == |Splice(Join(parts), offset, b)|
  {
    var n, p := |parts|, Splice(parts[k], o, b);
    var last' := if k == n - 1 then |p| else |parts[n - 1]|;
    SplicedPacked(parts, k, o, b);
    PackedLength(parts);
    PackedLength(parts[k := p]);
    SpliceLength(parts[k], o, b);
    SpliceLength(Join(parts), offset, b);
    SplicedSize(n, k, o, |b|, |parts[n - 1]|, last');
  }

  /** Splicing one part, inside its range, is splicing the file. */
  lemma SplicePart(parts: seq<seq<byte>>, k: nat, o: nat, b: seq<byte>, offset: nat)
    requires Packed(parts) && k < |parts| && o + |b| <= CONT_LEN && offset == k * CONT_LEN + o
    ensures Packed(parts[k := Splice(parts[k], o, b)])
    ensures Join(parts[k := Splice(parts[k], o, b)]) == Splice(Join(parts), offset, b)
  {
    if b == [] {
      assert parts[k := parts[k]] == parts;
    } else {
      SplicedPacked(parts, k, o, b);
      SplicedLength(parts, k, o, b, offset);
      SpliceAt(parts[k], o, b);
      SpliceAt(Join(parts), offset, b);
      SameBytes(parts, k, o, b, Splice(parts[k], o, b), Splice(Join(parts), offset, b));
    }
  }

  /** Joining the parts with the k-th replaced gives the file, when both are spliced byte by byte
      and the lengths agree. */
  lemma SameBytes(parts: seq<seq<byte>>, k: nat, o: nat, b: seq<byte>, p: seq<byte>, want: seq<byte>)
    requires Packed(parts) && k < |parts| && o + |b| <= CONT_LEN
    requires Packed(parts[k := p]) && |Join(parts[k := p])| == |want|
    requires forall i :: 0 <= i < |p| ==> p[i] == SpliceByte(parts[k], o, b, i)
    requires forall i :: 0 <= i < |want| ==> want[i] == SpliceByte(Join(parts), k * CONT_LEN + o, b, i)
    ensures Join(parts[k := p]) == want
  {
    var parts' := parts[k := p];
    forall j | 0 <= j < |want|
      ensures Join(parts')[j] == want[j]
    {
      var q, r := j / CONT_LEN, j % CONT_LEN;
      PackedAt(parts', j);
      Split(j);
      SplicePartAt(parts, k, o, b, q, r);
    }
  }

  // ---- What a write does to the parts --------------------------------------------------------------

  /** The position inside part `k` (chunkfs_copy_down_file): the offset less the part's start. */
  function ClientPos(offset: nat, k: nat): (o: nat)
    requires k * CONT_LEN <= offset
    ensures k == offset / CONT_LEN ==> o == offset % CONT_LEN
  {
    offset - k * CONT_LEN
  }

  lemma PartStart(offset: nat, n: nat)
    ensures offset / CONT_LEN * CONT_LEN <= offset
    ensures n <= offset / CONT_LEN ==> n * CONT_LEN <= offset
  {
  }

  /** chunkfs_write on the parts of a file: the part that covers the offset, else a new empty
      part at the end, takes all the bytes at the translated offset. */
  function WriteParts(parts: seq<seq<byte>>, offset: nat, b: seq<byte>): seq<seq<byte>> {
    var k := offset / CONT_LEN;
    PartStart(offset, |parts|);
    if k < |parts| then parts[k := Splice(parts[k], ClientPos(offset, k), b)]
    else parts + [Splice([], ClientPos(offset, |parts|), b)]
  }

  /** A write that begins no later than in the piece the end of file falls into, and stays
      inside the piece it begins in. A caller can check this from the size alone. */
  predicate InScope(offset: nat, len: nat, size: nat) {
    offset / CONT_LEN <= size / CONT_LEN && offset % CONT_LEN + len <= CONT_LEN
  }

  /** The scope of a write in terms of the parts: `n` of them, the last holding `last`. */
  lemma ScopeByParts(offset: nat, len: nat, n: nat, last: nat)
    requires n >= 1 && last <= CONT_LEN && len > 0
    ensures var size, k := (n - 1) * CONT_LEN + last, offset / CONT_LEN;
            && (k < n ==> (InScope(offset, len, size) <==> offset % CONT_LEN + len <= CONT_LEN))
            && (k >= n ==> (InScope(offset, len, size)
                            <==> last == CONT_LEN && offset - n * CONT_LEN + len <= CONT_LEN))
  {
    var k := offset / CONT_LEN;
    assert offset == k * CONT_LEN + offset % CONT_LEN;
    if k < n {
      assert k * CONT_LEN <= (n - 1) * CONT_LEN;
    }
  }

  lemma AppendThenSplice(parts: seq<seq<byte>>, o: nat, b: seq<byte>, offset: nat)
    requires Packed(parts) && |parts[|parts| - 1]| == CONT_LEN && o + |b| <= CONT_LEN
    requires offset == |parts| * CONT_LEN + o
    ensures var parts' := parts + [Splice([], o, b)];
            Packed(parts') && Join(parts') == Splice(Join(parts), offset, b)
  {
    var more := parts + [[]];
    JoinAppend(parts, []);
    assert Join(parts) + [] == Join(parts);
    SplicePart(more, |parts|, o, b, offset);
    assert more[|parts| := Splice([], o, b)] == parts + [Splice([], o, b)];
  }

  /** In scope, but with no byte taken: the file keeps its content, perhaps with one more empty
      part. */
  lemma EmptyWriteParts(parts: seq<seq<byte>>, offset: nat)
    requires Packed(parts) && InScope(offset, 0, |Join(parts)|)
    ensures Packed(WriteParts(parts, offset, [])) && Join(WriteParts(parts, offset, [])) == Join(parts)
  {
    PackedLength(parts);
    PartStart(offset, |parts|);
    var k, n := offset / CONT_LEN, |parts|;
    if k < n {
      assert parts[k := parts[k]] == parts;
    } else {
      NextPieceMeansFull(offset, n, |parts[n - 1]|);
      JoinAppend(parts, []);
      assert Join(parts) + [] == Join(parts);
    }
  }

  lemma NextPieceMeansFull(offset: nat, n: nat, last: nat)
    requires n >= 1 && last <= CONT_LEN && offset / CONT_LEN >= n
    requires offset / CONT_LEN <= ((n - 1) * CONT_LEN + last) / CONT_LEN
    ensures last == CONT_LEN
  {
  }

  /** Every write in scope splices the flat file and keeps it packed. */
  lemma ScopedWrite(parts: seq<seq<byte>>, offset: nat, b: seq<byte>)
    requires Packed(parts) && InScope(offset, |b|, |Join(parts)|)
    ensures Packed(WriteParts(parts, offset, b)) && Join(WriteParts(parts, offset, b)) == Splice(Join(parts), offset, b)
  {
    if b == [] {
      EmptyWriteParts(parts, offset);
    } else {
      PackedLength(parts);
      ScopeByParts(offset, |b|, |parts|, |parts[|parts| - 1]|);
      PartStart(offset, |parts|);
      if offset / CONT_LEN < |parts| {
        SplicePart(parts, offset / CONT_LEN, ClientPos(offset, offset / CONT_LEN), b, offset);
      } else {
        AppendThenSplice(parts, ClientPos(offset, |parts|), b, offset);
      }
    }
  }

  // ---- What a caller observes ------------------------------------------------------------------------

  /** The bytes the part that covers `offset` holds from there on: what a read can deliver. */
  function AvailableIn(parts: seq<seq<byte>>, offset: nat): seq<byte> {
    PartStart(offset, 0);
    var k := offset / CONT_LEN;
    if k < |parts| && ClientPos(offset, k) <= |parts[k]| then parts[k][ClientPos(offset, k)..] else []
  }

  /** `avail` is what a reader of the flat file `s` may find at `offset`: nothing from its end
      on, before that a non-empty piece of it. */
  predicate ReadsAs(avail: seq<byte>, s: seq<byte>, offset: nat) {
    if offset >= |s| then avail == []
    else |avail| > 0 && offset + |avail| <= |s| && avail == s[offset..offset + |avail|]
  }

  /** Size and reads at every offset are those of the flat file `s`. */
  ghost predicate Observed(parts: seq<seq<byte>>, s: seq<byte>) {
    TotalSize(parts) == |s| && forall offset: nat :: ReadsAs(AvailableIn(parts, offset), s, offset)
  }

  /** The rest of a part from `o` on is the flat file from there to the end of the piece. */
  lemma RestOfPart(parts: seq<seq<byte>>, k: nat, o: nat, offset: nat)
    requires Packed(parts) && k < |parts| && o < |parts[k]| && offset == k * CONT_LEN + o
    ensures offset + (|parts[k]| - o) <= |Join(parts)|
    ensures parts[k][o..] == Join(parts)[offset..offset + (|parts[k]| - o)]
  {
    var avail := parts[k][o..];
    ByteOfPart(parts, k, |parts[k]| - 1);
    forall i | 0 <= i < |avail|
      ensures avail[i] == Join(parts)[offset + i]
    {
      ByteOfPart(parts, k, o + i);
    }
  }

  lemma NothingLeft(parts: seq<seq<byte>>, k: nat, o: nat)
    requires Packed(parts) && k < |parts| && o < CONT_LEN && k * CONT_LEN + o >= |Join(parts)|
    ensures o >= |parts[k]|
  {
    if o < |parts[k]| {
      ByteOfPart(parts, k, o);
    }
  }

  /** What is available at an offset is the flat file from there to the end of its piece. */
  lemma AvailableIsFlat(parts: seq<seq<byte>>, offset: nat)
    requires Packed(parts)
    ensures ReadsAs(AvailableIn(parts, offset), Join(parts), offset)
  {
    PartStart(offset, 0);
    Split(offset);
    var k := offset / CONT_LEN;
    if offset < |Join(parts)| {
      PackedAt(parts, offset);
      RestOfPart(parts, k, ClientPos(offset, k), offset);
    } else if k < |parts| {
      NothingLeft(parts, k, offset % CONT_LEN);
    }
  }

  /** A packed file is observed as the flat file it stands for. */
  lemma PackedObserved(parts: seq<seq<byte>>)
    requires Packed(parts)
    ensures Observed(parts, Join(parts))
  {
    TotalIsLength(parts);
    forall offset: nat
      ensures ReadsAs(AvailableIn(parts, offset), Join(parts), offset)
    {
      AvailableIsFlat(parts, offset);
    }
  }

  /** Size and reads determine the flat file. */
  lemma ObservedUnique(parts: seq<seq<byte>>, s: seq<byte>, s': seq<byte>)
    requires Observed(parts, s) && Observed(parts, s')
    ensures s == s'
  {
    forall i: nat | i < |s|
      ensures s[i] == s'[i]
    {
      var avail := AvailableIn(parts, i);
      assert ReadsAs(avail, s, i) && ReadsAs(avail, s', i);
      assert s[i..i + |avail|][0] == s'[i..i + |avail|][0];
    }
  }

  /** A reader at the start of piece `q` finds nothing there, or no such piece. */
  lemma NothingAtPiece(parts: seq<seq<byte>>, q: nat, s: seq<byte>)
    requires q >= |parts| || parts[q] == []
    requires q * CONT_LEN < |s|
    ensures !Observed(parts, s)
  {
    var at := q * CONT_LEN;
    assert at / CONT_LEN == q;
    assert AvailableIn(parts, at) == [];
    assert !ReadsAs(AvailableIn(parts, at), s, at);
  }

  /** A write across the end of its piece is seen: the size is wrong, or a read at the next piece
      finds nothing. */
  lemma CrossingIsSeen(parts: seq<seq<byte>>, k: nat, o: nat, b: seq<byte>, offset: nat)
    requires Packed(parts) && k < |parts| && offset == k * CONT_LEN + o && o < CONT_LEN < o + |b|
    ensures !Observed(parts[k := Splice(parts[k], o, b)], Splice(Join(parts), offset, b))
  {
    var n, p := |parts|, Splice(parts[k], o, b);
    var parts', s := parts[k := p], Splice(Join(parts), offset, b);
    SpliceLength(parts[k], o, b);
    SpliceLength(Join(parts), offset, b);
    TotalUpdate(parts, k, p);
    TotalIsLength(parts);
    PackedLength(parts);
    if TotalSize(parts') == |s| {
      CrossingSize(n, k, o, |b|, |parts[n - 1]|);
      NothingAtPiece(parts', k + 1, s);
    }
  }

  /** When such a write leaves the right size, nothing was stored beyond its piece. */
  lemma CrossingSize(n: nat, k: nat, o: nat, len: nat, last: nat)
    requires k < n && last <= CONT_LEN && o < CONT_LEN < o + len
    requires var before, end := (n - 1) * CONT_LEN + last, k * CONT_LEN + o + len;
             before + (o + len) - (if k == n - 1 then last else CONT_LEN) == if end > before then end else before
    ensures k == n - 1 || (k == n - 2 && last == 0)
    ensures (k + 1) * CONT_LEN < k * CONT_LEN + o + len
  {
  }

  /** A write past the last part is seen when it leaves a gap before it or runs over its piece. */
  lemma PastIsSeen(parts: seq<seq<byte>>, o: nat, b: seq<byte>, offset: nat)
    requires Packed(parts) && b != [] && offset == |parts| * CONT_LEN + o
    requires |parts[|parts| - 1]| < CONT_LEN || o + |b| > CONT_LEN
    ensures !Observed(parts + [Splice([], o, b)], Splice(Join(parts), offset, b))
  {
    var n, p := |parts|, Splice([], o, b);
    var s := Splice(Join(parts), offset, b);
    PackedLength(parts);
    SpliceLength([], o, b);
    SpliceLength(Join(parts), offset, b);
    TotalIsLength(parts + [p]);
    JoinAppend(parts, p);
    if |parts[n - 1]| == CONT_LEN {
      NothingAtPiece(parts + [p], n + 1, s);
    }
  }

  /** The size and every read after a write are what POSIX asks for exactly when the write is in
      scope. */
  lemma WriteIff(parts: seq<seq<byte>>, offset: nat, b: seq<byte>)
    requires Packed(parts) && b != []
    ensures Observed(WriteParts(parts, offset, b), Splice(Join(parts), offset, b))
       <==> InScope(offset, |b|, |Join(parts)|)
  {
    if InScope(offset, |b|, |Join(parts)|) {
      ScopedWrite(parts, offset, b);
      PackedObserved(WriteParts(parts, offset, b));
    } else {
      PackedLength(parts);
      ScopeByParts(offset, |b|, |parts|, |parts[|parts| - 1]|);
      PartStart(offset, |parts|);
      Split(offset);
      if offset / CONT_LEN < |parts| {
        CrossingIsSeen(parts, offset / CONT_LEN, ClientPos(offset, offset / CONT_LEN), b, offset);
      } else {
        PastIsSeen(parts, ClientPos(offset, |parts|), b, offset);
      }
    }
  }
}
